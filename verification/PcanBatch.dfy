/**
 The batch under construction and the EP2-OUT decoder of main/pcan_msg.c, in
 place: a 64-byte buffer with a write position, and a loop that fills a frame
 array. The ghost list `recs` is what the batch holds.
 */
module PcanBatch {
  import opened Words
  import opened PcanMsg

  class Batch {
    const buf: array<byte>
    var len: nat
    var recCnt: byte
    var haveFirst: bool
    var lastTs: u16
    ghost var recs: seq<Rec>

    ghost predicate Valid()
      reads this, buf
    {
      && buf.Length == BATCH_SIZE
      && WfRecs(recs) && FitsBatch(recs)
      && len == HEADER + |Body(recs)| && recCnt == |recs|
      && buf[..len] == Wire(recs)
      && haveFirst == AnyStamped(recs)
    }

    constructor ()
      ensures Valid() && fresh(buf) && recs == []
    {
      buf := new byte[BATCH_SIZE];
      new;
      Reset();
    }

    method Reset()
      requires buf.Length == BATCH_SIZE
      modifies this, buf
      ensures Valid() && recs == [] && len == HEADER
    {
      buf[0] := MSG_TX_CAN;
      buf[1] := 0;
      len := HEADER;
      recCnt := 0;
      haveFirst, lastTs := false, 0;
      recs := [];
      assert buf[..2] == [MSG_TX_CAN, 0];
    }

    /** Copies `b` to position `p`. */
    method Write(p: nat, b: Bytes) returns (q: nat)
      requires buf.Length == BATCH_SIZE && p + |b| <= BATCH_SIZE
      modifies buf
      ensures q == p + |b| && buf[..q] == old(buf[..p]) + b
    {
      forall k | 0 <= k < |b| {
        buf[p + k] := b[k];
      }
      q := p + |b|;
    }

    /** The whole tick for the first stamped record of a batch, its low byte after that. */
    method TsAppend(p: nat, ts16: u16) returns (q: nat)
      requires buf.Length == BATCH_SIZE && p + (if haveFirst then 1 else 2) <= BATCH_SIZE
      modifies buf, this`haveFirst, this`lastTs
      ensures q == p + (if old(haveFirst) then 1 else 2)
      ensures buf[..q] == old(buf[..p]) + TsBytes(!old(haveFirst), ts16)
      ensures haveFirst && lastTs == ts16
    {
      if !haveFirst {
        q := Write(p, Le16(ts16));
        haveFirst := true;
      } else {
        q := Write(p, [ts16 % 256]);
      }
      lastTs := ts16;
    }

    /** Closes the record that ends at `p`. */
    method Commit(p: nat, ghost r: Rec)
      requires buf.Length == BATCH_SIZE && p <= BATCH_SIZE
      requires WfRecs(recs) && FitsBatch(recs) && WfRec(r) && recCnt == |recs|
      requires buf[..p] == Wire(recs) + RecBytes(!AnyStamped(recs), r)
      requires haveFirst == (AnyStamped(recs) || IsStamped(r))
      modifies this`recCnt, this`len, this`recs, buf
      ensures Valid() && recs == old(recs) + [r]
    {
      hide Body, AnyStamped, RecBytes, Wire;
      ghost var before := buf[..p];
      Committed(before, recs, r);
      recs := recs + [r];
      recCnt := recCnt + 1;
      buf[1] := recCnt;
      len := p;
      assert buf[..p] == before[..1] + [recCnt] + before[2..];
    }

    /** The part of a frame record ahead of its data. */
    ghost function HeadOf(f: Frame): Bytes
      reads this
    {
      [Sat8(f.dlc) + 0x80 + Bit(f.ext, 0x20) + Bit(f.rtr, 0x10)] + IdWord(f.ext, f.id, FlagBits(f.srr, f.ss))
      + TsBytes(!haveFirst, f.ts16)
    }

    method PutHead(f: Frame) returns (p: nat)
      requires buf.Length == BATCH_SIZE && len + |HeadOf(f)| <= BATCH_SIZE
      modifies buf, this`haveFirst, this`lastTs
      ensures p == len + |old(HeadOf(f))| && haveFirst
      ensures buf[..p] == old(buf[..len]) + old(HeadOf(f))
    {
      hide IdWord, TsBytes;
      var sl := [Sat8(f.dlc) + 0x80 + Bit(f.ext, 0x20) + Bit(f.rtr, 0x10)];
      var word := IdWord(f.ext, f.id, FlagBits(f.srr, f.ss));
      ghost var w, head := buf[..len], HeadOf(f);
      p := Write(len, sl);
      p := Write(p, word);
      assert buf[..p] == w + (sl + word);
      p := TsAppend(p, f.ts16);
      assert buf[..p] == w + head;
    }

    /** Writes a frame record at the end of the batch, without closing it. */
    method PutFrame(f: Frame) returns (p: nat)
      requires buf.Length == BATCH_SIZE && WfFrame(f)
      requires len + |FrameBytes(!haveFirst, f)| <= BATCH_SIZE
      modifies buf, this`haveFirst, this`lastTs
      ensures p == len + |FrameBytes(!old(haveFirst), f)| && haveFirst
      ensures buf[..p] == old(buf[..len]) + FrameBytes(!old(haveFirst), f)
    {
      var data := if f.rtr then [] else f.data[..Sat8(f.dlc)];
      var tail := if f.srr && !f.rtr then [f.writer] else [];
      ghost var w, head := buf[..len], HeadOf(f);
      assert FrameBytes(!haveFirst, f) == head + data + tail;
      hide FrameBytes, HeadOf;
      p := PutHead(f);
      p := Write(p, data);
      assert buf[..p] == w + (head + data);
      p := Write(p, tail);
      assert buf[..p] == w + (head + data + tail);
    }

    method PutStatus(func: byte, num: byte, payload: Bytes, ts: Option<u16>) returns (p: nat)
      requires buf.Length == BATCH_SIZE && |payload| <= 15
      requires len + |StatusBytes(!haveFirst, func, num, payload, ts)| <= BATCH_SIZE
      modifies buf, this`haveFirst, this`lastTs
      ensures p == len + |StatusBytes(!old(haveFirst), func, num, payload, ts)|
      ensures haveFirst == (old(haveFirst) || ts.Some?)
      ensures buf[..p] == old(buf[..len]) + StatusBytes(!old(haveFirst), func, num, payload, ts)
    {
      hide TsBytes;
      ghost var w := buf[..len];
      ghost var stamp := if ts.Some? then TsBytes(!haveFirst, ts.value) else [];
      var prefix := [|payload| + 0x40 + Bit(ts.Some?, 0x80), func, num];
      ghost var rec := prefix + stamp + payload;
      assert rec == StatusBytes(!haveFirst, func, num, payload, ts);
      hide StatusBytes;
      p := Write(len, prefix);
      if ts.Some? {
        p := TsAppend(p, ts.value);
      }
      assert buf[..p] == w + (prefix + stamp);
      p := Write(p, payload);
      assert buf[..p] == w + rec;
    }

    /** Room for the record is the only ground for refusal; a refused record changes nothing. */
    method AddFrame(f: Frame) returns (ok: bool)
      requires Valid() && WfFrame(f)
      modifies this, buf
      ensures Valid()
      ensures ok <==> old(len) + |RecBytes(!old(haveFirst), Data(f))| <= BATCH_SIZE
      ensures recs == if ok then old(recs) + [Data(f)] else old(recs)
      ensures !ok ==> buf[..] == old(buf[..]) && len == old(len)
    {
      hide Body, AnyStamped, Wire, FrameBytes;
      var data := if f.rtr then 0 else Sat8(f.dlc);
      var trailer := if f.srr && !f.rtr then 1 else 0;
      var size := 1 + (if f.ext then 4 else 2) + (if haveFirst then 1 else 2) + data + trailer;
      assert size == |RecBytes(!haveFirst, Data(f))|;
      if len + size > BATCH_SIZE {
        return false;
      }
      var p := PutFrame(f);
      Commit(p, Data(f));
      ok := true;
    }

    method AddStatus(func: byte, num: byte, payload: Bytes, ts: Option<u16>) returns (ok: bool)
      requires Valid()
      modifies this, buf
      ensures Valid()
      ensures ok <==> |payload| <= 15
                      && old(len) + |RecBytes(!old(haveFirst), Status(func, num, payload, ts))| <= BATCH_SIZE
      ensures recs == if ok then old(recs) + [Status(func, num, payload, ts)] else old(recs)
      ensures !ok ==> buf[..] == old(buf[..]) && len == old(len)
    {
      hide Body, AnyStamped, Wire, StatusBytes;
      if |payload| > 15 {
        return false;
      }
      var size := 3 + (if ts.None? then 0 else if haveFirst then 1 else 2) + |payload|;
      if len + size > BATCH_SIZE {
        return false;
      }
      var p := PutStatus(func, num, payload, ts);
      Commit(p, Status(func, num, payload, ts));
      ok := true;
    }

    method AddCalib(ts16: u16) returns (ok: bool)
      requires Valid()
      modifies this, buf
      ensures Valid()
      ensures ok <==> old(len) + 5 <= BATCH_SIZE
      ensures recs == if ok then old(recs) + [Calib(ts16)] else old(recs)
    {
      ok := AddStatus(REC_TS, 0, Le16(ts16), None);
    }

    method AddError(mask: byte, ts16: u16) returns (ok: bool)
      requires Valid()
      modifies this, buf
      ensures Valid()
      ensures ok <==> old(len) + (if old(haveFirst) then 4 else 5) <= BATCH_SIZE
      ensures recs == if ok then old(recs) + [ErrorRec(mask, ts16)] else old(recs)
    {
      ok := AddStatus(REC_ERROR, mask, [], Some(ts16));
    }
  }

  lemma Committed(before: Bytes, recs: seq<Rec>, r: Rec)
    requires WfRecs(recs) && FitsBatch(recs) && WfRec(r) && |before| <= BATCH_SIZE
    requires before == Wire(recs) + RecBytes(!AnyStamped(recs), r)
    ensures WfRecs(recs + [r]) && FitsBatch(recs + [r]) && |before| == HEADER + |Body(recs + [r])|
    ensures AnyStamped(recs + [r]) == (AnyStamped(recs) || IsStamped(r))
    ensures |recs| + 1 <= 20
    ensures before[..1] + [|recs| + 1] + before[2..] == Wire(recs + [r])
  {
    Appended(recs, r);
    hide RecBytes, AnyStamped, Body;
    HeaderBump(before, |recs|, Body(recs), RecBytes(!AnyStamped(recs), r));
    assert |Body(recs + [r])| >= 3 * |recs + [r]|;
  }

  lemma HeaderBump(before: Bytes, n: nat, body: Bytes, rec: Bytes)
    requires n < 255 && before == [MSG_TX_CAN, n] + body + rec
    ensures |before| == HEADER + |body + rec|
    ensures before[..1] + [n + 1] + before[2..] == [MSG_TX_CAN, n + 1] + (body + rec)
  {}

  lemma Appended(recs: seq<Rec>, r: Rec)
    requires WfRecs(recs) && WfRec(r)
    ensures WfRecs(recs + [r]) && Body(recs + [r]) == Body(recs) + RecBytes(!AnyStamped(recs), r)
    ensures AnyStamped(recs + [r]) == (AnyStamped(recs) || IsStamped(r))
  {
    assert (recs + [r])[..|recs|] == recs;
  }

  /** Every record fits an empty batch, so flush and retry never drops one. */
  lemma EveryRecordFits(r: Rec)
    requires WfRec(r)
    ensures WfRecs([r]) && FitsBatch([r]) && |Wire([r])| == HEADER + |RecBytes(true, r)| <= 22
  {
    Appended([], r);
    assert [] + [r] == [r];
  }

  // ---- EP2-OUT --------------------------------------------------------------

  function Prepend(a: seq<Frame>, b: Option<seq<Frame>>): Option<seq<Frame>> {
    if b.None? then None else Some(a + b.value)
  }

  lemma PrependNil(b: Option<seq<Frame>>)
    ensures Prepend([], b) == b
  {
    if b.Some? {
      assert [] + b.value == b.value;
    }
  }

  lemma ParseStep(a: seq<Frame>, buf: Bytes, pos: nat, left: nat, writer: byte, room: nat)
    requires left > 0 && room > 0
    ensures Prepend(a, ParseAll(buf, pos, left, writer, room)) ==
            match ParseRec(buf, pos, writer)
            case Bad => None
            case Skipped(next) => Prepend(a, ParseAll(buf, next, left - 1, writer, room))
            case Got(f, next) => Prepend(a + [f], ParseAll(buf, next, left - 1, writer, room - 1))
  {
    match ParseRec(buf, pos, writer)
    case Bad =>
    case Skipped(_) =>
    case Got(f, next) =>
      var rest := ParseAll(buf, next, left - 1, writer, room - 1);
      if rest.Some? {
        assert a + ([f] + rest.value) == a + [f] + rest.value;
      }
  }

  lemma ParseEnd(a: seq<Frame>, buf: Bytes, pos: nat, left: nat, writer: byte, room: nat)
    requires left == 0 || room == 0
    ensures Prepend(a, ParseAll(buf, pos, left, writer, room)) == Some(a)
  {
    assert a + [] == a;
  }

  /** Moves past one record, storing its frame if it has one. */
  method TakeRec(buf: Bytes, pos: nat, writer: byte, out: array<Frame>, count: nat)
    returns (bad: bool, next: nat, n: nat)
    requires pos <= |buf| && count < out.Length
    modifies out
    ensures bad <==> ParseRec(buf, pos, writer).Bad?
    ensures !bad ==> next <= |buf|
    ensures ParseRec(buf, pos, writer).Skipped? ==>
              next == ParseRec(buf, pos, writer).next && n == count && out[..n] == old(out[..count])
    ensures ParseRec(buf, pos, writer).Got? ==>
              next == ParseRec(buf, pos, writer).next && n == count + 1
              && out[..n] == old(out[..count]) + [ParseRec(buf, pos, writer).f]
  {
    bad, next, n := false, pos, count;
    match ParseRec(buf, pos, writer)
    case Bad =>
      bad := true;
    case Skipped(at) =>
      next := at;
    case Got(f, at) =>
      out[count] := f;
      next, n := at, count + 1;
  }

  /** The record loop; `n` frames end up in `out`. */
  method DecodeRecs(buf: Bytes, recCnt: byte, writer: byte, out: array<Frame>) returns (bad: bool, n: nat)
    requires |buf| > HEADER
    modifies out
    ensures n <= out.Length
    ensures ParseAll(buf, HEADER, recCnt, writer, out.Length) == if bad then None else Some(out[..n])
  {
    hide ParseAll, Prepend, ParseRec;
    ghost var goal := ParseAll(buf, HEADER, recCnt, writer, out.Length);
    var pos: nat := HEADER;
    var i := 0;
    bad, n := false, 0;
    PrependNil(goal);
    assert out[..n] == [];
    while i < recCnt && n < out.Length
      invariant 0 <= i <= recCnt && n <= out.Length && pos <= |buf|
      invariant goal == Prepend(out[..n], ParseAll(buf, pos, recCnt - i, writer, out.Length - n))
      decreases recCnt - i
    {
      ParseStep(out[..n], buf, pos, recCnt - i, writer, out.Length - n);
      bad, pos, n := TakeRec(buf, pos, writer, out, n);
      if bad {
        return true, 0;
      }
      i := i + 1;
    }
    ParseEnd(out[..n], buf, pos, recCnt - i, writer, out.Length - n);
  }

  /** Fills `out` with the frames of a transfer; -1 for a malformed one. */
  method DecodeInto(buf: Bytes, out: array<Frame>) returns (count: int)
    modifies out
    ensures -1 <= count <= out.Length
    ensures DecodeTx(buf, out.Length) == if count < 0 then None else Some(out[..count])
  {
    if out.Length == 0 || |buf| <= HEADER {
      return -1;
    }
    var writer := 0;
    if |buf| >= BATCH_SIZE {
      writer := buf[BATCH_SIZE - 1];
    }
    var bad, n := DecodeRecs(buf, buf[1], writer, out);
    count := if bad then -1 else n;
  }
}
