/**
 The host's side of the wire, as main/pcan_proto.h sections 3 to 5 fix it: how its
 driver walks an EP2-IN batch and how it builds an EP2-OUT batch. Each is proved
 to match the half of module PcanMsg that faces it.
 */
module PcanHost {
  import opened Words
  import opened PcanMsg
  import PcanTime

  // ---- the host's clock -----------------------------------------------------

  /** Running tick, last low byte, and whether a stamped record has been seen. */
  datatype Clk = Clk(ts16: u16, prev8: byte, stamped: bool)

  const NO_CLOCK: Clk := Clk(0, 0, false)

  /** A low byte smaller than the last one means the high byte moved on by one. */
  function Hear(c: Clk, b: byte): Clk {
    var base := if b < c.prev8 then (c.ts16 + 0x100) % TWO_16 else c.ts16;
    Clk(base / 0x100 * 0x100 + b, b, true)
  }

  function Stamp(c: Clk, ts16: u16): (d: Clk)
    ensures d.stamped
  {
    if c.stamped then Hear(c, ts16 % 256) else Clk(ts16, ts16 % 256, true)
  }

  // ---- walking a batch ------------------------------------------------------

  datatype Seen =
    | SeenFrame(id: u32, ext: bool, rtr: bool, len: byte, data: Bytes, ts16: u16)
    | SeenStatus(func: byte, num: byte, ts16: u16)

  datatype Host = Host(ptr: nat, clk: Clk, seen: seq<Seen>)

  datatype Tick = Tick(ptr: nat, clk: Clk)

  function HostTs(buf: Bytes, ptr: nat, c: Clk): Option<Tick> {
    if ptr + (if c.stamped then 1 else 2) > |buf| then None
    else if c.stamped then Some(Tick(ptr + 1, Hear(c, buf[ptr])))
    else Some(Tick(ptr + 2, Clk(GetLe16(buf, ptr), buf[ptr], true)))
  }

  /** Some functions have a payload length of their own; a calibration tick is read in place. */
  function HostStatus(buf: Bytes, h: Host, sl: byte): Option<Host> {
    if h.ptr + 2 > |buf| then None
    else
      var func, num := buf[h.ptr], buf[h.ptr + 1];
      var t := if HasBit(sl, 128) then HostTs(buf, h.ptr + 2, h.clk) else Some(Tick(h.ptr + 2, h.clk));
      if t.None? || (func == REC_TS && t.value.ptr + 2 > |buf|) then None
      else
        var len := if func == REC_ANALOG then 2 else if func == REC_BUSLOAD then 1 else sl % 16;
        var clk := if func == REC_TS then t.value.clk.(ts16 := GetLe16(buf, t.value.ptr)) else t.value.clk;
        if t.value.ptr + len > |buf| then None
        else Some(Host(t.value.ptr + len, clk, h.seen + [SeenStatus(func, num, clk.ts16)]))
  }

  function HostData(buf: Bytes, h: Host, sl: byte): Option<Host> {
    var ext, rtr, len := HasBit(sl, 32), HasBit(sl, 16), sl % 16;
    var at := h.ptr + if ext then 4 else 2;
    if at > |buf| then None
    else
      var id := if ext then GetLe32(buf, h.ptr) / 8 else GetLe16(buf, h.ptr) / 32;
      var srr := buf[h.ptr] % 2 == 1;
      var t := HostTs(buf, at, h.clk);
      if t.None? then None
      else if rtr then
        Some(Host(t.value.ptr, t.value.clk, h.seen + [SeenFrame(id, ext, true, Sat8(len), [], t.value.clk.ts16)]))
      else if t.value.ptr + len > |buf| then None
      else
        var data := buf[t.value.ptr..t.value.ptr + Sat8(len)];
        Some(Host(t.value.ptr + len + Bit(srr, 1), t.value.clk,
                  h.seen + [SeenFrame(id, ext, false, Sat8(len), data, t.value.clk.ts16)]))
  }

  function HostRec(buf: Bytes, h: Host): Option<Host> {
    if h.ptr >= |buf| then None
    else if HasBit(buf[h.ptr], 64) then HostStatus(buf, h.(ptr := h.ptr + 1), buf[h.ptr])
    else HostData(buf, h.(ptr := h.ptr + 1), buf[h.ptr])
  }

  function HostWalk(buf: Bytes, n: nat): Option<Host> {
    if n == 0 then Some(Host(HEADER, NO_CLOCK, []))
    else
      var h := HostWalk(buf, n - 1);
      if h.None? then None else HostRec(buf, h.value)
  }

  function HostDecode(buf: Bytes): Option<Host> {
    if |buf| <= HEADER then None else HostWalk(buf, buf[1])
  }

  // ---- what the host must find ----------------------------------------------

  /** The payload length is the one the host assumes for the function. */
  predicate Walkable(r: Rec) {
    r.Status? ==>
      && (r.func == REC_ANALOG ==> |r.payload| == 2)
      && (r.func == REC_BUSLOAD ==> |r.payload| == 1)
      && (r.func == REC_TS ==> |r.payload| >= 2)
  }

  predicate AllWalkable(recs: seq<Rec>) { forall k :: 0 <= k < |recs| ==> Walkable(recs[k]) }

  function ClockAfter(c: Clk, r: Rec): Clk
    requires Walkable(r)
  {
    var d := if IsStamped(r) then Stamp(c, StampOf(r)) else c;
    if r.Status? && r.func == REC_TS then d.(ts16 := GetLe16(r.payload, 0)) else d
  }

  function SeenAs(r: Rec, ts16: u16): Seen
    requires WfRec(r)
  {
    match r
    case Data(f) =>
      SeenFrame(if f.ext then f.id % 0x2000_0000 else f.id % 0x800, f.ext, f.rtr, Sat8(f.dlc),
                if f.rtr then [] else f.data[..Sat8(f.dlc)], ts16)
    case Status(func, num, _, _) => SeenStatus(func, num, ts16)
  }

  function After(recs: seq<Rec>): (h: Host)
    requires WfRecs(recs) && AllWalkable(recs)
    ensures h.ptr == HEADER + |Body(recs)| && h.clk.stamped == AnyStamped(recs) && |h.seen| == |recs|
  {
    if recs == [] then Host(HEADER, NO_CLOCK, [])
    else
      var n := |recs| - 1;
      Found(After(recs[..n]), recs[n])
  }

  function Found(h: Host, r: Rec): Host
    requires WfRec(r) && Walkable(r)
  {
    var c := ClockAfter(h.clk, r);
    Host(h.ptr + |RecBytes(!h.clk.stamped, r)|, c, h.seen + [SeenAs(r, c.ts16)])
  }

  /** `b` stands in `buf` at `at`. */
  predicate At(buf: Bytes, at: nat, b: Bytes) {
    at + |b| <= |buf| && buf[at..at + |b|] == b
  }

  lemma AtSplit(buf: Bytes, at: nat, a: Bytes, b: Bytes)
    requires At(buf, at, a + b)
    ensures At(buf, at, a) && At(buf, at + |a|, b)
  {
    assert buf[at..at + |a|] == (a + b)[..|a|];
    assert buf[at + |a|..at + |a| + |b|] == (a + b)[|a|..];
  }

  lemma AtByte(buf: Bytes, at: nat, b: byte)
    requires At(buf, at, [b])
    ensures at < |buf| && buf[at] == b
  {
    assert buf[at..at + 1][0] == b;
  }

  lemma AtThree(buf: Bytes, at: nat, b: Bytes)
    requires At(buf, at, b) && |b| == 3
    ensures at + 3 <= |buf| && buf[at] == b[0] && buf[at + 1] == b[1] && buf[at + 2] == b[2]
  {
    var s := buf[at..at + 3];
    assert s == b && buf[at] == s[0] && buf[at + 1] == s[1] && buf[at + 2] == s[2];
  }

  lemma TsRead(buf: Bytes, ptr: nat, c: Clk, ts16: u16)
    requires At(buf, ptr, TsBytes(!c.stamped, ts16))
    ensures HostTs(buf, ptr, c) == Some(Tick(ptr + |TsBytes(!c.stamped, ts16)|, Stamp(c, ts16)))
  {
    var b := TsBytes(!c.stamped, ts16);
    assert buf[ptr] == buf[ptr..ptr + |b|][0] == ts16 % 256;
    if !c.stamped {
      Le16RoundTrip(buf, ptr, ts16);
    }
  }

  lemma IdRead(buf: Bytes, ptr: nat, ext: bool, id: u32, flags: byte)
    requires flags < 4 && At(buf, ptr, IdWord(ext, id, flags))
    ensures ext ==> ptr + 4 <= |buf| && GetLe32(buf, ptr) == id % 0x2000_0000 * 8 + flags
    ensures !ext ==> ptr + 2 <= |buf| && GetLe16(buf, ptr) == id % 0x800 * 32 + flags
    ensures ptr < |buf| && buf[ptr] % 8 == flags
  {
    hide Le16, Le32, GetLe16, GetLe32, At;
    if ext {
      var x := id % 0x2000_0000;
      WordRead(buf, ptr, IdWord(ext, id, flags), x * 8 + flags);
      FlagsOf(x, flags);
    } else {
      var x := id % 0x800;
      WordRead(buf, ptr, IdWord(ext, id, flags), x * 32 + flags);
      FlagsOf(x, flags);
    }
  }

  lemma FlagsOf(x: nat, flags: nat)
    requires flags < 4
    ensures (x * 8 + flags) % 8 == flags && (x * 32 + flags) % 8 == flags
  {
    DivModUnique(x * 8 + flags, 8, x, flags);
    DivModUnique(x * 32 + flags, 8, 4 * x, flags);
  }

  lemma WordRead(buf: Bytes, ptr: nat, word: Bytes, v: u32)
    requires At(buf, ptr, word) && (word == Le32(v) || (v < TWO_16 && word == Le16(v)))
    ensures |word| == 4 ==> ptr + 4 <= |buf| && GetLe32(buf, ptr) == v
    ensures |word| == 2 ==> ptr + 2 <= |buf| && GetLe16(buf, ptr) == v
    ensures ptr < |buf| && buf[ptr] % 8 == v % 8
  {
    hide Le16, Le32, GetLe16, GetLe32;
    if |word| == 4 {
      Le32RoundTrip(buf, ptr, v);
    } else {
      Le16RoundTrip(buf, ptr, v);
    }
    LowBits(buf, ptr);
  }

  /** The low bits of a little-endian word are those of its first byte. */
  lemma LowBits(buf: Bytes, ptr: nat)
    requires ptr + 2 <= |buf|
    ensures GetLe16(buf, ptr) % 8 == buf[ptr] % 8
    ensures ptr + 4 <= |buf| ==> GetLe32(buf, ptr) % 8 == buf[ptr] % 8
  {}

  lemma StatusLenBits(len: nat, ext: bool, rtr: bool, ts: bool, internal: bool)
    requires len <= 15
    ensures var sl := len + Bit(ts, 0x80) + Bit(internal, 0x40) + Bit(ext, 0x20) + Bit(rtr, 0x10);
            && 0 <= sl < 256 && sl % 16 == len && (HasBit(sl, 128) <==> ts) && (HasBit(sl, 64) <==> internal)
            && (HasBit(sl, 32) <==> ext) && (HasBit(sl, 16) <==> rtr)
  {}

  /** Splits a record into its prefix byte, id word, stamp, data and trailer. */
  lemma AtFive(buf: Bytes, at: nat, a: Bytes, b: Bytes, c: Bytes, d: Bytes, e: Bytes)
    requires At(buf, at, a + b + c + d + e)
    ensures At(buf, at, a) && At(buf, at + |a|, b) && At(buf, at + |a| + |b|, c)
    ensures At(buf, at + |a| + |b| + |c|, d) && At(buf, at + |a| + |b| + |c| + |d|, e)
    ensures at + |a| + |b| + |c| + |d| + |e| <= |buf|
  {
    AtSplit(buf, at, a + b + c + d, e);
    AtSplit(buf, at, a + b + c, d);
    AtSplit(buf, at, a + b, c);
    AtSplit(buf, at, a, b);
    assert at + |a + b + c + d + e| <= |buf|;
    hide At;
  }

  lemma FrameRead(buf: Bytes, h: Host, f: Frame)
    requires WfFrame(f) && At(buf, h.ptr, FrameBytes(!h.clk.stamped, f))
    ensures HostRec(buf, h) == Some(Found(h, Data(f)))
  {
    hide HasBit, HostTs, IdWord, TsBytes, Stamp, GetLe16, GetLe32, At;
    var first := !h.clk.stamped;
    var sl := Sat8(f.dlc) + 0x80 + Bit(f.ext, 0x20) + Bit(f.rtr, 0x10);
    var word, ts := IdWord(f.ext, f.id, FlagBits(f.srr, f.ss)), TsBytes(first, f.ts16);
    var data := if f.rtr then [] else f.data[..Sat8(f.dlc)];
    var tail := if f.srr && !f.rtr then [f.writer] else [];
    var p := h.ptr + 1;
    AtFive(buf, h.ptr, [sl], word, ts, data, tail);
    AtByte(buf, h.ptr, sl);
    StatusLenBits(Sat8(f.dlc), f.ext, f.rtr, true, false);
    IdRead(buf, p, f.ext, f.id, FlagBits(f.srr, f.ss));
    TsRead(buf, p + |word|, h.clk, f.ts16);
    var at := p + |word| + |ts|;
    var c := Stamp(h.clk, f.ts16);
    assert buf[p] % 2 == 1 <==> f.srr;
    assert ClockAfter(h.clk, Data(f)) == c;
    assert at + |data| + |tail| == h.ptr + |FrameBytes(first, f)|;
    DataRead(buf, h.(ptr := p), sl, f, c, at);
    hide HostData;
  }

  lemma DataRead(buf: Bytes, h: Host, sl: byte, f: Frame, c: Clk, at: nat)
    requires WfFrame(f) && sl % 16 == Sat8(f.dlc) && (HasBit(sl, 32) <==> f.ext) && (HasBit(sl, 16) <==> f.rtr)
    requires f.ext ==> h.ptr + 4 <= |buf| && GetLe32(buf, h.ptr) / 8 == f.id % 0x2000_0000
    requires !f.ext ==> h.ptr + 2 <= |buf| && GetLe16(buf, h.ptr) / 32 == f.id % 0x800
    requires buf[h.ptr] % 2 == 1 <==> f.srr
    requires HostTs(buf, h.ptr + (if f.ext then 4 else 2), h.clk) == Some(Tick(at, c))
    requires !f.rtr ==> At(buf, at, f.data[..Sat8(f.dlc)])
    ensures HostData(buf, h, sl)
         == Some(Host(at + (if f.rtr then 0 else Sat8(f.dlc)) + (if f.srr && !f.rtr then 1 else 0), c,
                      h.seen + [SeenAs(Data(f), c.ts16)]))
  {
    hide HasBit, HostTs, GetLe16, GetLe32;
  }

  /** What the host meets up to the payload of a status record. */
  lemma StatusPrefix(buf: Bytes, h: Host, r: Rec) returns (sl: byte, c: Clk, at: nat)
    requires r.Status? && WfRec(r) && At(buf, h.ptr, RecBytes(!h.clk.stamped, r))
    ensures h.ptr + 3 <= |buf| && buf[h.ptr] == sl && buf[h.ptr + 1] == r.func && buf[h.ptr + 2] == r.num
    ensures HasBit(sl, 64) && sl % 16 == |r.payload| && (HasBit(sl, 128) <==> r.ts.Some?)
    ensures c == if r.ts.Some? then Stamp(h.clk, r.ts.value) else h.clk
    ensures if r.ts.Some? then HostTs(buf, h.ptr + 3, h.clk) == Some(Tick(at, c)) else at == h.ptr + 3
    ensures At(buf, at, r.payload) && at + |r.payload| == h.ptr + |RecBytes(!h.clk.stamped, r)|
  {
    hide HasBit, HostTs, TsBytes, Stamp, At, RecBytes;
    sl := |r.payload| + 0x40 + Bit(r.ts.Some?, 0x80);
    at := StatusParts(buf, h.ptr, !h.clk.stamped, r);
    AtThree(buf, h.ptr, [sl, r.func, r.num]);
    StatusLenBits(|r.payload|, false, false, r.ts.Some?, true);
    c := if r.ts.Some? then Stamp(h.clk, r.ts.value) else h.clk;
    if r.ts.Some? {
      TsRead(buf, h.ptr + 3, h.clk, r.ts.value);
    }
  }

  /** A status record is three bytes, the stamp if it has one, and the payload. */
  lemma StatusParts(buf: Bytes, pos: nat, first: bool, r: Rec) returns (at: nat)
    requires r.Status? && WfRec(r) && At(buf, pos, RecBytes(first, r))
    ensures At(buf, pos, [|r.payload| + 0x40 + Bit(r.ts.Some?, 0x80), r.func, r.num])
    ensures r.ts.Some? ==> At(buf, pos + 3, TsBytes(first, r.ts.value))
    ensures at == pos + 3 + if r.ts.Some? then |TsBytes(first, r.ts.value)| else 0
    ensures At(buf, at, r.payload) && at + |r.payload| == pos + |RecBytes(first, r)|
  {
    var three := [|r.payload| + 0x40 + Bit(r.ts.Some?, 0x80), r.func, r.num];
    var ts := if r.ts.Some? then TsBytes(first, r.ts.value) else [];
    at := pos + 3 + |ts|;
    assert RecBytes(first, r) == three + ts + r.payload;
    hide RecBytes, TsBytes, At;
    AtSplit(buf, pos, three + ts, r.payload);
    AtSplit(buf, pos, three, ts);
  }

  lemma StatusRead(buf: Bytes, h: Host, r: Rec)
    requires r.Status? && WfRec(r) && Walkable(r) && At(buf, h.ptr, RecBytes(!h.clk.stamped, r))
    ensures HostRec(buf, h) == Some(Found(h, r))
  {
    hide HasBit, HostTs, HostStatus, HostData, RecBytes, Stamp, GetLe16, At;
    var sl, c, at := StatusPrefix(buf, h, r);
    if |r.payload| >= 2 {
      WordAt(buf, at, r.payload);
    }
    BodyRead(buf, h.(ptr := h.ptr + 1), sl, r, c, at);
  }

  lemma WordAt(buf: Bytes, at: nat, b: Bytes)
    requires At(buf, at, b) && |b| >= 2
    ensures GetLe16(buf, at) == GetLe16(b, 0)
  {
    assert buf[at..at + |b|][0] == buf[at] && buf[at..at + |b|][1] == buf[at + 1];
  }

  lemma BodyRead(buf: Bytes, h: Host, sl: byte, r: Rec, c: Clk, at: nat)
    requires r.Status? && WfRec(r) && Walkable(r) && sl % 16 == |r.payload| && (HasBit(sl, 128) <==> r.ts.Some?)
    requires h.ptr + 2 <= |buf| && buf[h.ptr] == r.func && buf[h.ptr + 1] == r.num
    requires if r.ts.Some? then HostTs(buf, h.ptr + 2, h.clk) == Some(Tick(at, c)) else at == h.ptr + 2 && c == h.clk
    requires At(buf, at, r.payload) && (|r.payload| >= 2 ==> GetLe16(buf, at) == GetLe16(r.payload, 0))
    ensures var d := if r.func == REC_TS then c.(ts16 := GetLe16(r.payload, 0)) else c;
            HostStatus(buf, h, sl) == Some(Host(at + |r.payload|, d, h.seen + [SeenAs(r, d.ts16)]))
  {
    hide HasBit, HostTs, GetLe16;
  }

  lemma {:induction false} WalkPrefix(buf: Bytes, recs: seq<Rec>)
    requires WfRecs(recs) && AllWalkable(recs) && At(buf, HEADER, Body(recs))
    ensures HostWalk(buf, |recs|) == Some(After(recs))
    decreases |recs|
  {
    hide HostRec, Found, RecBytes, At;
    if recs != [] {
      var n := |recs| - 1;
      var h := After(recs[..n]);
      AtSplit(buf, HEADER, Body(recs[..n]), RecBytes(!AnyStamped(recs[..n]), recs[n]));
      WalkPrefix(buf, recs[..n]);
      RecRead(buf, h, recs[n]);
    }
  }

  lemma RecRead(buf: Bytes, h: Host, r: Rec)
    requires WfRec(r) && Walkable(r) && At(buf, h.ptr, RecBytes(!h.clk.stamped, r))
    ensures HostRec(buf, h) == Some(Found(h, r))
  {
    if r.Data? {
      FrameRead(buf, h, r.f);
    } else {
      StatusRead(buf, h, r);
    }
    hide HostRec, Found;
  }

  lemma WireAt(recs: seq<Rec>)
    requires WfRecs(recs) && FitsBatch(recs)
    ensures var b := Wire(recs); |b| == HEADER + |Body(recs)| && b[1] == |recs| && At(b, HEADER, Body(recs))
  {
    hide Body;
  }

  /** Every batch of records with the payload lengths the host assumes is walked to its last byte, record by record. */
  lemma HostReadsBatch(recs: seq<Rec>)
    requires WfRecs(recs) && AllWalkable(recs) && FitsBatch(recs) && recs != []
    ensures HostDecode(Wire(recs)) == Some(After(recs))
    ensures After(recs).ptr == |Wire(recs)|
  {
    hide Body, After, HostWalk, At;
    WireAt(recs);
    WalkPrefix(Wire(recs), recs);
  }

  // ---- exactly the batches the host can walk --------------------------------

  /** At the end of a batch a status record of another length leads the host past it, short of it, or to an error. */
  lemma StatusMisread(buf: Bytes, h: Host, r: Rec)
    requires r.Status? && WfRec(r) && !Walkable(r) && At(buf, h.ptr, RecBytes(!h.clk.stamped, r))
    requires h.ptr + |RecBytes(!h.clk.stamped, r)| == |buf|
    ensures HostRec(buf, h).Some? ==> HostRec(buf, h).value.ptr != |buf|
  {
    var sl, c, at := StatusPrefix(buf, h, r);
    hide HasBit, HostTs, RecBytes, Stamp, GetLe16, At;
  }

  lemma {:induction false} PrefixFits(recs: seq<Rec>, n: nat)
    requires WfRecs(recs) && FitsBatch(recs) && n <= |recs|
    ensures FitsBatch(recs[..n])
    decreases |recs|
  {
    if n < |recs| {
      var m := |recs| - 1;
      assert recs[..m][..n] == recs[..n];
      PrefixFits(recs[..m], n);
    } else {
      assert recs[..n] == recs;
    }
  }

  /** While the batch is being filled, the host can walk it to its last byte after each record. */
  predicate EachWalked(recs: seq<Rec>)
    requires WfRecs(recs) && FitsBatch(recs)
  {
    forall n | 0 < n <= |recs| :: WalkedAt(recs, n)
  }

  predicate WalkedAt(recs: seq<Rec>, n: nat)
    requires WfRecs(recs) && FitsBatch(recs) && n <= |recs|
  {
    PrefixFits(recs, n);
    var d := HostDecode(Wire(recs[..n]));
    d.Some? && d.value.ptr == |Wire(recs[..n])|
  }

  lemma {:induction false} EachWalkedIff(recs: seq<Rec>)
    requires WfRecs(recs) && FitsBatch(recs)
    ensures EachWalked(recs) <==> AllWalkable(recs)
    decreases |recs|
  {
    hide HostDecode, Wire, Body, Walkable, RecBytes;
    if AllWalkable(recs) {
      forall n | 0 < n <= |recs|
        ensures WalkedAt(recs, n)
      {
        PrefixFits(recs, n);
        HostReadsBatch(recs[..n]);
      }
    } else if EachWalked(recs) {
      var n := |recs| - 1;
      PrefixFits(recs, n);
      forall m | 0 < m <= n
        ensures WalkedAt(recs[..n], m)
      {
        assert recs[..n][..m] == recs[..m];
        assert WalkedAt(recs, m);
      }
      EachWalkedIff(recs[..n]);
      assert recs[..|recs|] == recs;
      assert WalkedAt(recs, |recs|);
      LastMisread(recs);
    }
  }

  lemma LastMisread(recs: seq<Rec>)
    requires WfRecs(recs) && FitsBatch(recs) && recs != []
    requires AllWalkable(recs[..|recs| - 1]) && !Walkable(recs[|recs| - 1])
    ensures var d := HostDecode(Wire(recs)); d.None? || d.value.ptr != |Wire(recs)|
  {
    hide HostRec, HostWalk, HostDecode, RecBytes, Walkable, Wire, Body, AnyStamped, After, At, WfRec;
    var init, r := recs[..|recs| - 1], recs[|recs| - 1];
    BodyLast(recs);
    WireAt(recs);
    var buf := Wire(recs);
    AtSplit(buf, HEADER, Body(init), RecBytes(!AnyStamped(init), r));
    WalkPrefix(buf, init);
    DecodeLast(buf, After(init));
    StatusAtEnd(buf, After(init), r);
  }

  lemma BodyLast(recs: seq<Rec>)
    requires WfRecs(recs) && recs != []
    ensures var init, r := recs[..|recs| - 1], recs[|recs| - 1];
            WfRecs(init) && WfRec(r) && Body(recs) == Body(init) + RecBytes(!AnyStamped(init), r)
  {
    hide RecBytes;
  }

  lemma DecodeLast(buf: Bytes, h: Host)
    requires |buf| > HEADER && buf[1] > 0 && HostWalk(buf, buf[1] - 1) == Some(h)
    ensures HostDecode(buf) == HostRec(buf, h)
  {
    hide HostRec;
  }

  lemma StatusAtEnd(buf: Bytes, h: Host, r: Rec)
    requires WfRec(r) && !Walkable(r) && At(buf, h.ptr, RecBytes(!h.clk.stamped, r))
    requires h.ptr + |RecBytes(!h.clk.stamped, r)| == |buf|
    ensures HostRec(buf, h).Some? ==> HostRec(buf, h).value.ptr != |buf|
  {
    StatusMisread(buf, h, r);
    hide HostRec, RecBytes;
  }

  // ---- ticks ----------------------------------------------------------------

  /** The stamps written, and the ticks the host makes of them, in order. */
  function Stamps(recs: seq<Rec>): seq<u16> {
    if recs == [] then []
    else
      var n := |recs| - 1;
      Stamps(recs[..n]) + if IsStamped(recs[n]) then [StampOf(recs[n])] else []
  }

  function Ticks(recs: seq<Rec>): seq<u16>
    requires WfRecs(recs) && AllWalkable(recs)
  {
    if recs == [] then []
    else
      var n := |recs| - 1;
      Ticks(recs[..n]) + if IsStamped(recs[n]) then [After(recs).seen[n].ts16] else []
  }

  predicate NoCalib(recs: seq<Rec>) {
    forall k :: 0 <= k < |recs| ==> recs[k].Status? ==> recs[k].func != REC_TS
  }

  predicate Close(a: u16, b: u16) { (b - a) % TWO_16 <= 255 }

  predicate AllClose(ts: seq<u16>) {
    |ts| >= 2 ==> AllClose(ts[..|ts| - 1]) && Close(ts[|ts| - 2], ts[|ts| - 1])
  }

  /** From an exact clock the next tick comes out exact exactly when it is at most 255 ticks on. */
  lemma HearExactIff(t: u16, u: u16)
    ensures Hear(Clk(t, t % 256, true), u % 256).ts16 == u <==> Close(t, u)
  {
    HearByte(t, u % 256);
    LeastStep(t, u);
    hide Hear;
  }

  /** The host takes the high byte it had, or the next one when the low byte has wrapped. */
  lemma HearByte(t: u16, lo: byte)
    ensures Hear(Clk(t, t % 256, true), lo).ts16
         == (if lo < t % 256 then (t / 256 + 1) % 256 else t / 256) * 256 + lo
  {
    var high := t / 256;
    if lo < t % 256 {
      assert (t + 0x100) % TWO_16 == (if high == 255 then 0 else high + 1) * 256 + t % 256;
    }
  }

  /** Which is `u` exactly when `u` is at most 255 ticks on. */
  lemma LeastStep(t: u16, u: u16)
    ensures (if u % 256 < t % 256 then (t / 256 + 1) % 256 else t / 256) * 256 + u % 256 == u <==> Close(t, u)
  {
    var a, b, c, d := t / 256, t % 256, u / 256, u % 256;
    assert t == a * 256 + b && u == c * 256 + d;
    assert Close(t, u) <==> 0 <= u - t <= 255 || 0 <= u - t + TWO_16 <= 255;
  }

  /** Without a calibration record, all ticks of a batch are exact if and only if neighbours are close. */
  lemma TicksExactIff(recs: seq<Rec>)
    requires WfRecs(recs) && AllWalkable(recs) && NoCalib(recs)
    ensures Ticks(recs) == Stamps(recs) <==> AllClose(Stamps(recs))
  {
    TicksInStep(recs);
    hide Ticks, Stamps;
  }

  lemma {:induction false} TicksInStep(recs: seq<Rec>)
    requires WfRecs(recs) && AllWalkable(recs) && NoCalib(recs)
    ensures InStep(Stamps(recs), Ticks(recs), After(recs).clk)
    decreases |recs|
  {
    assert recs == [] ==> After(recs).clk == NO_CLOCK;
    hide After, Body;
    if recs != [] {
      var n := |recs| - 1;
      var init := recs[..n];
      TicksInStep(init);
      var a, b := Stamps(init), Ticks(init);
      LastTick(recs);
      var c := After(init).clk;
      if IsStamped(recs[n]) {
        var u := StampOf(recs[n]);
        var v := Stamp(c, u).ts16;
        assert Stamps(recs) == a + [u];
        assert Ticks(recs) == b + [v];
        TickAppend(a, u, b, c);
      } else {
        assert Stamps(recs) == a && Ticks(recs) == b;
      }
    }
  }

  /** The clock after the stamps `a`, heard as the ticks `b`. */
  predicate InStep(a: seq<u16>, b: seq<u16>, c: Clk) {
    && |a| == |b| && (c.stamped <==> a != [])
    && (a == b <==> AllClose(a))
    && (a == b && a != [] ==> c == Clk(a[|a| - 1], a[|a| - 1] % 256, true))
  }

  lemma TickAppend(a: seq<u16>, u: u16, b: seq<u16>, c: Clk)
    requires InStep(a, b, c)
    ensures InStep(a + [u], b + [Stamp(c, u).ts16], Stamp(c, u))
  {
    var v := Stamp(c, u).ts16;
    assert (a + [u])[..|a|] == a && (b + [v])[..|b|] == b;
    assert (a + [u])[|a|] == u && (b + [v])[|b|] == v;
    assert b + [v] == a + [u] <==> b == a && v == u;
    if a != [] && a == b {
      HearExactIff(a[|a| - 1], u);
    }
  }

  lemma LastTick(recs: seq<Rec>)
    requires WfRecs(recs) && AllWalkable(recs) && NoCalib(recs) && recs != []
    ensures var n := |recs| - 1;
            if IsStamped(recs[n]) then
              && After(recs).clk == Stamp(After(recs[..n]).clk, StampOf(recs[n]))
              && After(recs).seen[n].ts16 == After(recs).clk.ts16
            else After(recs).clk == After(recs[..n]).clk
  {}

  /** Clock readings behind the stamps of a batch. */
  predicate ReadAt(stamps: seq<u16>, us: seq<PcanTime.u64>) {
    |us| == |stamps| && forall k :: 0 <= k < |us| ==> us[k] * 1000 < TWO_64 && stamps[k] == PcanTime.Now16(us[k])
  }

  predicate Steady(us: seq<PcanTime.u64>) {
    forall k :: 0 <= k < |us| - 1 ==> us[k] <= us[k + 1] <= us[k] + PcanTime.MAX_GAP_US
  }

  lemma {:induction false} SteadyIsClose(stamps: seq<u16>, us: seq<PcanTime.u64>)
    requires ReadAt(stamps, us) && Steady(us)
    ensures AllClose(stamps)
    decreases |stamps|
  {
    var n := |stamps| - 1;
    if n >= 1 {
      SteadyIsClose(stamps[..n], us[..n]);
      PcanTime.WireDifference(us[n - 1], us[n]);
      PcanTime.TicksBetween(us[n - 1], us[n]);
      assert us[n - 1] <= us[n] <= us[n - 1] + PcanTime.MAX_GAP_US;
    }
  }

  /** Readings at most 10880 us apart reach the host exactly. */
  lemma SteadyReadingsAreExact(recs: seq<Rec>, us: seq<PcanTime.u64>)
    requires WfRecs(recs) && AllWalkable(recs) && NoCalib(recs)
    requires ReadAt(Stamps(recs), us) && Steady(us)
    ensures Ticks(recs) == Stamps(recs)
  {
    SteadyIsClose(Stamps(recs), us);
    TicksExactIff(recs);
    hide AllClose, Ticks, Stamps;
  }

  /** One more record, as the clock, the stamps and the ticks see it. */
  lemma OneMoreTick(recs: seq<Rec>, r: Rec)
    requires WfRecs(recs) && AllWalkable(recs) && WfRec(r) && Walkable(r)
    ensures WfRecs(recs + [r]) && AllWalkable(recs + [r])
    ensures After(recs + [r]).clk == ClockAfter(After(recs).clk, r)
    ensures Stamps(recs + [r]) == Stamps(recs) + if IsStamped(r) then [StampOf(r)] else []
    ensures Ticks(recs + [r]) == Ticks(recs) + if IsStamped(r) then [ClockAfter(After(recs).clk, r).ts16] else []
  {
    hide Body, RecBytes, ClockAfter, SeenAs;
    assert (recs + [r])[..|recs|] == recs;
    assert SeenAs(r, ClockAfter(After(recs).clk, r).ts16).ts16 == ClockAfter(After(recs).clk, r).ts16 by {
      SeenTick(r, ClockAfter(After(recs).clk, r).ts16);
    }
  }

  lemma SeenTick(r: Rec, ts16: u16)
    requires WfRec(r)
    ensures SeenAs(r, ts16).ts16 == ts16
  {}

  /** The ticks of a frame, a calibration and a frame. */
  lemma FrameCalibFrame(f: Frame, t: u16, g: Frame)
    requires WfFrame(f) && WfFrame(g)
    ensures var recs := [Data(f), Calib(t), Data(g)];
            && WfRecs(recs) && AllWalkable(recs) && Stamps(recs) == [f.ts16, g.ts16]
            && Ticks(recs) == [f.ts16, Hear(Clk(t, f.ts16 % 256, true), g.ts16 % 256).ts16]
  {
    FrameThenCalib(f, t);
    ClocksAfter(f, t, g);
    var two, x := [Data(f), Calib(t)], Data(g);
    assert [Data(f), Calib(t), x] == two + [x];
    OneMoreTick(two, x);
    hide After, Stamps, Ticks, ClockAfter, Hear, WfRec, Walkable;
  }

  lemma FrameThenCalib(f: Frame, t: u16)
    requires WfFrame(f)
    ensures var recs := [Data(f), Calib(t)];
            && WfRecs(recs) && AllWalkable(recs) && Stamps(recs) == [f.ts16] && Ticks(recs) == [f.ts16]
            && After(recs).clk == Clk(t, f.ts16 % 256, true)
  {
    FrameFirst(f);
    ClocksAfter(f, t, f);
    var one, x := [Data(f)], Calib(t);
    assert [Data(f), x] == one + [x];
    OneMoreTick(one, x);
    hide After, Stamps, Ticks, ClockAfter, Hear, WfRec, Walkable;
  }

  lemma FrameFirst(f: Frame)
    requires WfFrame(f)
    ensures var recs := [Data(f)];
            && WfRecs(recs) && AllWalkable(recs) && Stamps(recs) == [f.ts16] && Ticks(recs) == [f.ts16]
            && After(recs).clk == Clk(f.ts16, f.ts16 % 256, true)
  {
    NothingYet();
    ClocksAfter(f, 0, f);
    assert [Data(f)] == [] + [Data(f)];
    OneMoreTick([], Data(f));
    hide After, Stamps, Ticks, ClockAfter, Hear, WfRec, Walkable;
  }

  lemma NothingYet()
    ensures WfRecs([]) && AllWalkable([]) && After([]).clk == NO_CLOCK && Stamps([]) == [] && Ticks([]) == []
  {}

  lemma ClocksAfter(f: Frame, t: u16, g: Frame)
    requires WfFrame(f) && WfFrame(g)
    ensures WfRec(Data(f)) && WfRec(Calib(t)) && WfRec(Data(g))
    ensures Walkable(Data(f)) && Walkable(Calib(t)) && Walkable(Data(g))
    ensures IsStamped(Data(f)) && StampOf(Data(f)) == f.ts16 && !IsStamped(Calib(t))
    ensures IsStamped(Data(g)) && StampOf(Data(g)) == g.ts16
    ensures ClockAfter(NO_CLOCK, Data(f)) == Clk(f.ts16, f.ts16 % 256, true)
    ensures ClockAfter(Clk(f.ts16, f.ts16 % 256, true), Calib(t)) == Clk(t, f.ts16 % 256, true)
    ensures ClockAfter(Clk(t, f.ts16 % 256, true), Data(g)) == Hear(Clk(t, f.ts16 % 256, true), g.ts16 % 256)
  {
    Le16RoundTrip(Le16(t), 0, t);
    hide Hear;
  }

  /** A calibration record moves the host's tick but not its low byte, so the next stamp can come out wrong. */
  lemma CalibrationDisturbsTicks()
    ensures var f := BLANK.(ts16 := 0x00FF);
            var recs := [Data(f), Calib(0x0200), Data(f.(ts16 := 0x0201))];
            && WfRecs(recs) && AllWalkable(recs) && Close(0x0200, 0x0201)
            && Stamps(recs) == [0x00FF, 0x0201] && Ticks(recs) == [0x00FF, 0x0301]
  {
    var f := BLANK.(ts16 := 0x00FF);
    assert Hear(Clk(0x0200, 0xFF, true), 1).ts16 == 0x0301;
    hide Stamps, Ticks, AllWalkable, WfRecs;
    FrameCalibFrame(f, 0x0200, f.(ts16 := 0x0201));
  }

  // ---- building an EP2-OUT batch --------------------------------------------

  /** `raw` is the length nibble the host writes; 9 to 15 stand for eight bytes. */
  datatype TxRec =
    | TxData(id: u32, ext: bool, rtr: bool, srr: bool, at: bool, raw: byte, data: Bytes)
    | TxInternal(sl: byte, func: byte, num: byte, payload: Bytes)

  predicate WfTx(r: TxRec) {
    match r
    case TxData(_, _, _, _, _, raw, data) => raw < 16 && |data| == Sat8(raw)
    case TxInternal(sl, _, _, payload) => HasBit(sl, 64) && |payload| == sl % 16
  }

  predicate AllWfTx(recs: seq<TxRec>) { forall k :: 0 <= k < |recs| ==> WfTx(recs[k]) }

  function TxBytes(r: TxRec): (b: Bytes)
    requires WfTx(r)
    ensures |b| >= 3
  {
    match r
    case TxData(id, ext, rtr, srr, at, raw, data) =>
      [raw + Bit(rtr, 0x10) + Bit(ext, 0x20)] + IdWord(ext, id, FlagBits(srr, at))
      + (if rtr then [] else data) + (if srr then [0x80] else [])
    case TxInternal(sl, func, num, payload) => [sl, func, num] + payload
  }

  function TxBody(recs: seq<TxRec>): (b: Bytes)
    requires AllWfTx(recs)
    ensures |b| >= 3 * |recs|
  {
    if recs == [] then [] else TxBytes(recs[0]) + TxBody(recs[1..])
  }

  /** A full transfer: records, zero padding, and the host's rolling counter in the last byte. */
  function TxBatch(recs: seq<TxRec>, counter: byte): (b: Bytes)
    requires AllWfTx(recs) && HEADER + |TxBody(recs)| < BATCH_SIZE
    ensures |b| == BATCH_SIZE
  {
    [MSG_TX_CAN, |recs|] + TxBody(recs) + seq(BATCH_SIZE - HEADER - |TxBody(recs)| - 1, _ => 0) + [counter]
  }

  /** The frames the host meant, tagged with the counter. */
  function Meant(recs: seq<TxRec>, writer: byte): (fs: seq<Frame>)
    requires AllWfTx(recs)
    ensures |fs| <= |recs|
  {
    if recs == [] then []
    else (if recs[0].TxData? then [FrameOf(recs[0], writer)] else []) + Meant(recs[1..], writer)
  }

  function FrameOf(r: TxRec, writer: byte): Frame
    requires r.TxData? && WfTx(r)
  {
    var n := if r.rtr then 0 else |r.data|;
    Frame(if r.ext then r.id % 0x2000_0000 else r.id % 0x800, 0, Sat8(r.raw), r.ext, r.rtr, r.at, r.srr,
          r.data[..n] + seq(8 - n, _ => 0), writer)
  }

  lemma TxRecRead(buf: Bytes, pos: nat, r: TxRec, writer: byte)
    requires WfTx(r) && At(buf, pos, TxBytes(r))
    ensures ParseRec(buf, pos, writer)
         == if r.TxData? then Got(FrameOf(r, writer), pos + |TxBytes(r)|) else Skipped(pos + |TxBytes(r)|)
  {
    match r
    case TxInternal(sl, func, num, payload) =>
      assert buf[pos] == buf[pos..pos + |TxBytes(r)|][0] == sl;
      hide HasBit;
    case TxData(id, ext, rtr, srr, at, raw, data) =>
      TxFrameRead(buf, pos, r, writer);
  }

  lemma TxFrameRead(buf: Bytes, pos: nat, r: TxRec, writer: byte)
    requires WfTx(r) && r.TxData? && At(buf, pos, TxBytes(r))
    ensures ParseRec(buf, pos, writer) == Got(FrameOf(r, writer), pos + |TxBytes(r)|)
  {
    hide HasBit, IdWord, GetLe16, GetLe32, At, TxBytes;
    var sl, flags := TxPrefix(buf, pos, r);
    TxBodyRead(buf, pos + 1, sl, r, writer, flags);
    hide ParseFrame, FrameOf;
  }

  /** The length byte, the id word and the data of a host record. */
  lemma TxPrefix(buf: Bytes, pos: nat, r: TxRec) returns (sl: byte, flags: byte)
    requires WfTx(r) && r.TxData? && At(buf, pos, TxBytes(r))
    ensures pos < |buf| && buf[pos] == sl && sl % 16 == r.raw && !HasBit(sl, 64)
    ensures (HasBit(sl, 32) <==> r.ext) && (HasBit(sl, 16) <==> r.rtr)
    ensures flags < 4 && (HasBit(flags, 1) <==> r.srr) && (HasBit(flags, 2) <==> r.at)
    ensures r.ext ==> pos + 5 <= |buf| && GetLe32(buf, pos + 1) == r.id % 0x2000_0000 * 8 + flags
    ensures !r.ext ==> pos + 3 <= |buf| && GetLe16(buf, pos + 1) == r.id % 0x800 * 32 + flags
    ensures var at := pos + 1 + if r.ext then 4 else 2;
            var d := if r.rtr then [] else r.data;
            At(buf, at, d) && at + |d| + Bit(r.srr, 1) == pos + |TxBytes(r)| <= |buf|
  {
    hide HasBit, IdWord, GetLe16, GetLe32, At;
    sl := r.raw + Bit(r.rtr, 0x10) + Bit(r.ext, 0x20);
    flags := FlagBits(r.srr, r.at);
    var word := IdWord(r.ext, r.id, flags);
    var d := if r.rtr then [] else r.data;
    var tail: Bytes := if r.srr then [0x80] else [];
    assert TxBytes(r) == [sl] + word + d + tail;
    hide TxBytes;
    AtSplit(buf, pos, [sl] + word + d, tail);
    AtSplit(buf, pos, [sl] + word, d);
    AtSplit(buf, pos, [sl], word);
    AtByte(buf, pos, sl);
    StatusLenBits(r.raw, r.ext, r.rtr, false, false);
    IdRead(buf, pos + 1, r.ext, r.id, flags);
    FlagBitsRead(r.srr, r.at);
  }

  lemma FlagBitsRead(srr: bool, at: bool)
    ensures var f := FlagBits(srr, at); (HasBit(f, 1) <==> srr) && (HasBit(f, 2) <==> at)
  {}

  lemma TxBodyRead(buf: Bytes, pos: nat, sl: byte, r: TxRec, writer: byte, flags: byte)
    requires WfTx(r) && r.TxData? && sl % 16 == r.raw && (HasBit(sl, 32) <==> r.ext) && (HasBit(sl, 16) <==> r.rtr)
    requires flags < 4 && (HasBit(flags, 1) <==> r.srr) && (HasBit(flags, 2) <==> r.at)
    requires r.ext ==> pos + 4 <= |buf| && GetLe32(buf, pos) == r.id % 0x2000_0000 * 8 + flags
    requires !r.ext ==> pos + 2 <= |buf| && GetLe16(buf, pos) == r.id % 0x800 * 32 + flags
    requires var at := pos + if r.ext then 4 else 2;
             var d := if r.rtr then [] else r.data;
             At(buf, at, d) && at + |d| + Bit(r.srr, 1) <= |buf|
    ensures ParseFrame(buf, pos, sl, writer)
         == Got(FrameOf(r, writer), pos + (if r.ext then 4 else 2) + (if r.rtr then 0 else |r.data|) + Bit(r.srr, 1))
  {
    hide HasBit, GetLe16, GetLe32;
    var at := pos + if r.ext then 4 else 2;
    var n := if r.rtr then 0 else |r.data|;
    assert buf[at..at + n] == r.data[..n];
  }

  lemma {:induction false} TxWalk(buf: Bytes, pos: nat, recs: seq<TxRec>, writer: byte, room: nat)
    requires AllWfTx(recs) && At(buf, pos, TxBody(recs)) && |Meant(recs, writer)| <= room
    ensures ParseAll(buf, pos, |recs|, writer, room) == Some(Meant(recs, writer))
    decreases |recs|
  {
    hide ParseRec, TxBytes, FrameOf, At;
    if recs != [] && room > 0 {
      var b := TxBytes(recs[0]);
      var rest := Meant(recs[1..], writer);
      AtSplit(buf, pos, b, TxBody(recs[1..]));
      TxRecRead(buf, pos, recs[0], writer);
      if recs[0].TxData? {
        assert Meant(recs, writer) == [FrameOf(recs[0], writer)] + rest;
        TxWalk(buf, pos + |b|, recs[1..], writer, room - 1);
      } else {
        assert Meant(recs, writer) == rest;
        TxWalk(buf, pos + |b|, recs[1..], writer, room);
      }
    }
  }

  /** The firmware undoes the host's encoder: raw lengths, trailers on remote frames, skipped records and all. */
  lemma DecodesWhatHostEncodes(recs: seq<TxRec>, counter: byte, room: nat)
    requires AllWfTx(recs) && HEADER + |TxBody(recs)| < BATCH_SIZE && room > 0 && |Meant(recs, counter)| <= room
    ensures DecodeTx(TxBatch(recs, counter), room) == Some(Meant(recs, counter))
  {
    hide ParseAll, TxBody, Meant;
    var buf := TxBatch(recs, counter);
    assert buf[1] == |recs| && buf[BATCH_SIZE - 1] == counter && buf[HEADER..HEADER + |TxBody(recs)|] == TxBody(recs);
    TxWalk(buf, HEADER, recs, counter, room);
  }

  /** A short transfer has no tail byte, and its frames carry writer 0. */
  lemma DecodesShortTransfer(recs: seq<TxRec>, room: nat)
    requires AllWfTx(recs) && recs != [] && HEADER + |TxBody(recs)| < BATCH_SIZE
    requires room > 0 && |Meant(recs, 0)| <= room
    ensures DecodeTx([MSG_TX_CAN, |recs|] + TxBody(recs), room) == Some(Meant(recs, 0))
  {
    hide ParseAll, TxBody, Meant;
    var buf := [MSG_TX_CAN, |recs|] + TxBody(recs);
    assert buf[1] == |recs| && buf[HEADER..] == TxBody(recs);
    TxWalk(buf, HEADER, recs, 0, room);
  }
}
