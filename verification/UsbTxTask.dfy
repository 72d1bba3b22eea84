/**
 usb_tx_task of main/main.c: frames popped from the receive ring, calibration
 records and error records are packed into batches and handed to the host.

 `shipped` is the byte batches released so far, `log` what they hold. Handing a
 batch over is one step here; that the hand-over returns only for the batch it
 was given is the subject of module UsbSend.
 */
module UsbTxTask {
  import opened Words
  import opened PcanMsg
  import opened PcanBatch
  import opened PcanHost

  /** Frames popped in one pass after the first one. */
  const MAX_DRAIN: nat := 96

  function Flatten(log: seq<seq<Rec>>): seq<Rec> {
    if log == [] then [] else Flatten(log[..|log| - 1]) + log[|log| - 1]
  }

  lemma FlattenAppend(log: seq<seq<Rec>>, recs: seq<Rec>)
    ensures Flatten(log + [recs]) == Flatten(log) + recs
  {
    assert (log + [recs])[..|log|] == log;
  }

  function FrameRecs(fs: seq<Frame>): seq<Rec> {
    if fs == [] then [] else FrameRecs(fs[..|fs| - 1]) + [Data(fs[|fs| - 1])]
  }

  /** An error mask and the two clock readings that may stamp it: `retry` is read after a flush. */
  datatype Fault = Fault(mask: byte, ts16: u16, retry: u16)

  function FaultRec(e: Fault, retried: bool): Rec {
    ErrorRec(e.mask, if retried then e.retry else e.ts16)
  }

  function FaultRecs(es: seq<Fault>, retried: seq<bool>): seq<Rec>
    requires |retried| == |es|
  {
    if es == [] then []
    else
      var n := |es| - 1;
      FaultRecs(es[..n], retried[..n]) + [FaultRec(es[n], retried[n])]
  }

  /** What one pass adds to the stream. */
  function PassRecs(fs: seq<Frame>, calib: Option<u16>, es: seq<Fault>, retried: seq<bool>): seq<Rec>
    requires |retried| == |es|
  {
    FrameRecs(fs) + (if calib.Some? then [Calib(calib.value)] else []) + FaultRecs(es, retried)
  }

  /** A calibration record never shares a batch. */
  predicate CalibAlone(recs: seq<Rec>) {
    NoCalib(recs) || (|recs| == 1 && exists t: u16 :: recs[0] == Calib(t))
  }

  predicate Sound(recs: seq<Rec>) {
    recs != [] && WfRecs(recs) && AllWalkable(recs) && FitsBatch(recs) && CalibAlone(recs)
  }

  predicate WfFrames(fs: seq<Frame>) { forall k :: 0 <= k < |fs| ==> WfFrame(fs[k]) }

  /** Each released batch is sound and is the wire form of its records. */
  predicate Matches(shipped: seq<Bytes>, log: seq<seq<Rec>>) {
    |log| == |shipped| && forall k :: 0 <= k < |log| ==> Sound(log[k]) && shipped[k] == Wire(log[k])
  }

  predicate Plain(recs: seq<Rec>) { AllWalkable(recs) && NoCalib(recs) }

  class TxTask {
    const batch: Batch
    var shipped: seq<Bytes>
    ghost var log: seq<seq<Rec>>

    ghost predicate Valid()
      reads this, batch, batch.buf
    {
      batch.Valid() && Plain(batch.recs) && Matches(shipped, log)
    }

    /** Every record accepted so far, in order: the released batches, then the open one. */
    ghost function Stream(): seq<Rec>
      reads this, batch
    {
      Flatten(log) + batch.recs
    }

    constructor ()
      ensures Valid() && fresh(batch) && fresh(batch.buf) && Stream() == [] && log == []
    {
      batch := new Batch();
      shipped, log := [], [];
    }

    method Flush()
      requires batch.Valid() && (batch.recs != [] ==> Sound(batch.recs)) && Matches(shipped, log)
      modifies this, batch, batch.buf
      ensures Valid() && batch.recs == [] && batch.len == HEADER && Stream() == old(Stream())
      ensures log == if old(batch.recs) == [] then old(log) else old(log) + [old(batch.recs)]
    {
      assert batch.len <= BATCH_SIZE && (batch.recs == [] ==> batch.len == HEADER);
      assert Plain([]);
      hide Sound, Wire, Body, FitsBatch, Matches, Flatten, Plain;
      if batch.recCnt > 0 {
        FlattenAppend(log, batch.recs);
        MatchesAppend(shipped, log, batch.recs);
        shipped := shipped + [batch.buf[..batch.len]];
        log := log + [batch.recs];
        batch.Reset();
      } else {
        assert batch.recs == [];
      }
    }

    /** The flush of an ordinary batch. */
    method FlushOpen()
      requires Valid()
      modifies this, batch, batch.buf
      ensures Valid() && batch.recs == [] && batch.len == HEADER && Stream() == old(Stream())
      ensures log == if old(batch.recs) == [] then old(log) else old(log) + [old(batch.recs)]
    {
      hide Matches, Flatten, Plain, Sound, Body, Wire;
      if batch.recs != [] {
        PlainSound(batch.recs);
      }
      Flush();
    }

    method PackFrame(f: Frame)
      requires Valid() && WfFrame(f)
      modifies this, batch, batch.buf
      ensures Valid() && Stream() == old(Stream()) + [Data(f)] && old(log) <= log
    {
      hide Matches, Flatten, Plain, Sound, RecBytes, Body, Wire, Batch.Valid;
      PlainAppend(batch.recs, Data(f));
      PlainAppend([], Data(f));
      var ok := batch.AddFrame(f);
      if !ok {
        FlushOpen();
        ok := batch.AddFrame(f);
      }
    }

    method PackError(e: Fault) returns (retried: bool)
      requires Valid()
      modifies this, batch, batch.buf
      ensures Valid() && Stream() == old(Stream()) + [FaultRec(e, retried)] && old(log) <= log
    {
      hide Matches, Flatten, Plain, Sound, RecBytes, Body, Wire, Batch.Valid;
      PlainAppend(batch.recs, ErrorRec(e.mask, e.ts16));
      PlainAppend([], ErrorRec(e.mask, e.retry));
      var ok := batch.AddError(e.mask, e.ts16);
      retried := !ok;
      if !ok {
        FlushOpen();
        ok := batch.AddError(e.mask, e.retry);
      }
    }

    method ShipCalib(ts16: u16)
      requires Valid()
      modifies this, batch, batch.buf
      ensures Valid() && batch.recs == [] && Stream() == old(Stream()) + [Calib(ts16)]
      ensures |log| > 0 && log[|log| - 1] == [Calib(ts16)] && old(log) <= log
    {
      hide Matches, Flatten, Plain, Sound, RecBytes, Body, Wire, Batch.Valid;
      FlushOpen();
      CalibSound(ts16);
      var ok := batch.AddCalib(ts16);
      assert batch.recs == [Calib(ts16)];
      Flush();
    }

    method PassCalib(calib: Option<u16>)
      requires Valid()
      modifies this, batch, batch.buf
      ensures Valid() && old(log) <= log
      ensures Stream() == old(Stream()) + if calib.Some? then [Calib(calib.value)] else []
    {
      hide TxTask.Valid, Flatten, Calib;
      if calib.Some? {
        ShipCalib(calib.value);
      }
    }

    /** Takes at most 97 frames. */
    method PassFrames(avail: seq<Frame>) returns (taken: nat)
      requires Valid() && WfFrames(avail)
      modifies this, batch, batch.buf
      ensures Valid() && old(log) <= log && taken == Min(|avail|, MAX_DRAIN + 1)
      ensures Stream() == old(Stream()) + FrameRecs(avail[..taken])
    {
      hide Matches, Flatten, Plain, TxTask.Valid, Batch.Valid;
      taken := 0;
      while taken < |avail| && taken < MAX_DRAIN + 1
        invariant taken <= Min(|avail|, MAX_DRAIN + 1) && Valid() && old(log) <= log
        invariant Stream() == old(Stream()) + FrameRecs(avail[..taken])
      {
        PackFrame(avail[taken]);
        assert avail[..taken + 1][..taken] == avail[..taken];
        taken := taken + 1;
      }
    }

    method PassErrors(es: seq<Fault>) returns (retried: seq<bool>)
      requires Valid()
      modifies this, batch, batch.buf
      ensures Valid() && old(log) <= log && |retried| == |es|
      ensures Stream() == old(Stream()) + FaultRecs(es, retried)
    {
      hide Matches, Flatten, Plain, TxTask.Valid, Batch.Valid, FaultRec;
      var k := 0;
      retried := [];
      while k < |es|
        invariant 0 <= k <= |es| && Valid() && old(log) <= log && |retried| == k
        invariant Stream() == old(Stream()) + FaultRecs(es[..k], retried)
      {
        var again := PackError(es[k]);
        assert es[..k + 1][..k] == es[..k] && (retried + [again])[..k] == retried;
        retried := retried + [again];
        k := k + 1;
      }
      assert es[..k] == es;
    }

    /**
     One pass of the loop: `avail` is what the ring holds out, `calib` the tick when
     a calibration is due, `es` the error masks posted. Nothing is dropped and
     nothing is left in the batch.
     */
    method Pass(avail: seq<Frame>, calib: Option<u16>, es: seq<Fault>) returns (taken: nat, retried: seq<bool>)
      requires Valid() && WfFrames(avail)
      modifies this, batch, batch.buf
      ensures Valid() && batch.recs == [] && old(log) <= log
      ensures taken == Min(|avail|, MAX_DRAIN + 1)
      ensures |retried| == |es| && Stream() == old(Stream()) + PassRecs(avail[..taken], calib, es, retried)
    {
      hide Matches, Flatten, Plain, Sound, FrameRecs, FaultRecs, Body, Wire, Calib, WfFrames;
      hide TxTask.Valid, Batch.Valid, TxTask.Stream;
      ghost var s := Stream();
      ghost var c := if calib.Some? then [Calib(calib.value)] else [];
      taken := PassFrames(avail);
      PassCalib(calib);
      retried := PassErrors(es);
      FlushOpen();
      Regroup(s, FrameRecs(avail[..taken]), c, FaultRecs(es, retried));
    }

    /**
     The loop, from a fresh start and for any number of passes: what the host decodes
     from all batches released is the frames popped, the calibrations due and the
     errors posted, in order and with nothing left behind.
     */
    method RunPasses(ins: seq<PassIn>) returns (outs: seq<PassOut>)
      requires Valid() && batch.recs == [] && log == []
      requires forall k :: 0 <= k < |ins| ==> WfFrames(ins[k].avail)
      modifies this, batch, batch.buf
      ensures Valid() && batch.recs == [] && |outs| == |ins|
      ensures forall k :: 0 <= k < |ins| ==> Answers(ins[k], outs[k])
      ensures WfRecs(Packed(ins, outs)) && HostStream(shipped) == Contents(Packed(ins, outs))
    {
      hide Matches, Packed, PassRecs, Min, Body, Wire, Calib, WfFrames;
      hide TxTask.Valid, Batch.Valid;
      outs := [];
      PackedNone();
      while |outs| < |ins|
        invariant |outs| <= |ins| && Valid() && batch.recs == []
        invariant forall k :: 0 <= k < |outs| ==> Answers(ins[k], outs[k])
        invariant Stream() == Packed(ins[..|outs|], outs)
      {
        ghost var n, was := |outs|, outs;
        var p := ins[|outs|];
        var taken, retried := Pass(p.avail, p.calib, p.faults);
        outs := outs + [PassOut(taken, retried)];
        AnswersPass(p, outs[n]);
        PackedNext(ins, was, outs[n]);
      }
      assert ins[..|outs|] == ins;
      HostSeesTask();
    }

    /** With nothing in the open batch, the host has decoded the stream. */
    lemma HostSeesTask()
      requires Valid() && batch.recs == []
      ensures WfRecs(Stream()) && HostStream(shipped) == Contents(Stream())
    {
      HostSeesStream(shipped, log);
      assert Stream() == Flatten(log);
    }
  }

  datatype PassIn = PassIn(avail: seq<Frame>, calib: Option<u16>, faults: seq<Fault>)

  datatype PassOut = PassOut(taken: nat, retried: seq<bool>)

  /** A pass takes up to 97 frames and stamps every error. */
  predicate Answers(i: PassIn, o: PassOut) {
    o.taken == Min(|i.avail|, MAX_DRAIN + 1) && |o.retried| == |i.faults|
  }

  lemma AnswersPass(i: PassIn, o: PassOut)
    requires o.taken == Min(|i.avail|, MAX_DRAIN + 1) && |o.retried| == |i.faults|
    ensures Answers(i, o) && o.taken <= |i.avail|
  {}

  /** All that the passes packed, in order. */
  function Packed(ins: seq<PassIn>, outs: seq<PassOut>): seq<Rec>
    requires |ins| == |outs| && forall k :: 0 <= k < |ins| ==> Answers(ins[k], outs[k])
  {
    if ins == [] then []
    else
      var n := |ins| - 1;
      var i, o := ins[n], outs[n];
      assert Answers(i, o);
      Packed(ins[..n], outs[..n]) + PassRecs(i.avail[..o.taken], i.calib, i.faults, o.retried)
  }

  lemma PackedNone()
    ensures Packed([], []) == []
  {}

  lemma PackedNext(ins: seq<PassIn>, outs: seq<PassOut>, o: PassOut)
    requires |outs| < |ins| && Answers(ins[|outs|], o)
    requires forall k :: 0 <= k < |outs| ==> Answers(ins[k], outs[k])
    ensures var n, i := |outs|, ins[|outs|];
            && o.taken <= |i.avail| && |o.retried| == |i.faults|
            && (forall k :: 0 <= k < n + 1 ==> Answers(ins[k], (outs + [o])[k]))
            && Packed(ins[..n + 1], outs + [o])
            == Packed(ins[..n], outs) + PassRecs(i.avail[..o.taken], i.calib, i.faults, o.retried)
  {
    assert ins[..|outs| + 1][..|outs|] == ins[..|outs|] && (outs + [o])[..|outs|] == outs;
    hide PassRecs;
  }

  lemma MatchesAppend(shipped: seq<Bytes>, log: seq<seq<Rec>>, recs: seq<Rec>)
    requires Matches(shipped, log) && Sound(recs)
    ensures Matches(shipped + [Wire(recs)], log + [recs])
  {
    hide Sound, Wire;
  }

  lemma PlainAppend(recs: seq<Rec>, r: Rec)
    requires Walkable(r) && (r.Status? ==> r.func != REC_TS)
    ensures Plain(recs) ==> Plain(recs + [r])
  {}

  lemma PlainSound(recs: seq<Rec>)
    requires recs != [] && WfRecs(recs) && FitsBatch(recs) && Plain(recs)
    ensures Sound(recs)
  {}

  lemma CalibSound(ts16: u16)
    ensures Sound([Calib(ts16)])
  {
    EveryRecordFits(Calib(ts16));
    assert [Calib(ts16)][0] == Calib(ts16);
  }

  // ---- what the host makes of it --------------------------------------------

  /** Host records without their ticks. */
  function Untimed(s: Seen): Seen {
    match s
    case SeenFrame(id, ext, rtr, len, data, _) => SeenFrame(id, ext, rtr, len, data, 0)
    case SeenStatus(func, num, _) => SeenStatus(func, num, 0)
  }

  function AllUntimed(ss: seq<Seen>): seq<Seen> {
    if ss == [] then [] else AllUntimed(ss[..|ss| - 1]) + [Untimed(ss[|ss| - 1])]
  }

  function Contents(recs: seq<Rec>): seq<Seen>
    requires WfRecs(recs)
  {
    if recs == [] then [] else Contents(recs[..|recs| - 1]) + [SeenAs(recs[|recs| - 1], 0)]
  }

  lemma {:induction false} AfterContents(recs: seq<Rec>)
    requires WfRecs(recs) && AllWalkable(recs)
    ensures AllUntimed(After(recs).seen) == Contents(recs)
    decreases |recs|
  {
    if recs == [] {
      return;
    }
    AfterContents(recs[..|recs| - 1]);
    AfterLast(recs);
    hide AllUntimed, After, WfRec, Walkable, SeenAs;
  }

  lemma AfterLast(recs: seq<Rec>)
    requires WfRecs(recs) && AllWalkable(recs) && recs != []
    ensures AllUntimed(After(recs).seen)
         == AllUntimed(After(recs[..|recs| - 1]).seen) + [SeenAs(recs[|recs| - 1], 0)]
  {
    hide RecBytes, ClockAfter, Body, SeenAs, AllUntimed, Untimed;
    var n := |recs| - 1;
    var a, t := After(recs[..n]).seen, ClockAfter(After(recs[..n]).clk, recs[n]).ts16;
    UntimedAppend(a, recs[n], t);
  }

  lemma UntimedAppend(a: seq<Seen>, r: Rec, t: u16)
    requires WfRec(r)
    ensures AllUntimed(a + [SeenAs(r, t)]) == AllUntimed(a) + [SeenAs(r, 0)]
  {
    assert (a + [SeenAs(r, t)])[..|a|] == a;
  }

  /** The records the host finds in all batches, in order; a batch it rejects contributes nothing. */
  function HostStream(batches: seq<Bytes>): seq<Seen> {
    if batches == [] then []
    else
      var h := HostDecode(batches[|batches| - 1]);
      HostStream(batches[..|batches| - 1]) + (if h.Some? then AllUntimed(h.value.seen) else [])
  }

  /** What the host decodes from all released batches is exactly what was put into them. */
  lemma {:induction false} HostSeesStream(shipped: seq<Bytes>, log: seq<seq<Rec>>)
    requires Matches(shipped, log)
    ensures WfRecs(Flatten(log)) && HostStream(shipped) == Contents(Flatten(log))
    decreases |log|
  {
    if log == [] {
      return;
    }
    hide HostDecode, Wire, Contents, AllUntimed, WfRec, Sound, Matches;
    var n := |log| - 1;
    MatchesInit(shipped, log);
    HostSeesStream(shipped[..n], log[..n]);
    LastBatch(shipped[n], log[n]);
    ContentsAppend(Flatten(log[..n]), log[n]);
  }

  lemma MatchesInit(shipped: seq<Bytes>, log: seq<seq<Rec>>)
    requires Matches(shipped, log) && log != []
    ensures |shipped| == |log|
    ensures var n := |log| - 1; Matches(shipped[..n], log[..n]) && Sound(log[n]) && shipped[n] == Wire(log[n])
  {
    hide Sound, Wire;
  }

  lemma LastBatch(b: Bytes, recs: seq<Rec>)
    requires Sound(recs) && b == Wire(recs)
    ensures WfRecs(recs) && HostDecode(b).Some? && AllUntimed(HostDecode(b).value.seen) == Contents(recs)
  {
    HostReadsBatch(recs);
    AfterContents(recs);
    hide HostDecode, After, Wire, Contents, AllUntimed, Body, WfRec, Walkable, CalibAlone;
  }

  lemma {:induction false} ContentsAppend(a: seq<Rec>, b: seq<Rec>)
    requires WfRecs(a) && WfRecs(b)
    ensures WfRecs(a + b) && Contents(a + b) == Contents(a) + Contents(b)
    decreases |b|
  {
    hide SeenAs, WfRec;
    if b == [] {
      assert a + b == a;
    } else {
      hide Contents;
      var init, last := b[..|b| - 1], b[|b| - 1];
      ContentsAppend(a, init);
      LastApart(a, b);
      ContentsNext(a + init, last);
      ContentsNext(init, last);
      Joined(Contents(a), Contents(init), [SeenAs(last, 0)]);
    }
  }

  lemma ContentsNext(recs: seq<Rec>, r: Rec)
    requires WfRecs(recs) && WfRec(r)
    ensures WfRecs(recs + [r]) && Contents(recs + [r]) == Contents(recs) + [SeenAs(r, 0)]
  {
    assert (recs + [r])[..|recs|] == recs;
    hide SeenAs;
  }

  /** In a released batch the host's ticks are the stamps exactly when neighbours are close. */
  lemma ShippedTicks(recs: seq<Rec>)
    requires Sound(recs)
    ensures Ticks(recs) == Stamps(recs) <==> AllClose(Stamps(recs))
    ensures !NoCalib(recs) ==> |recs| == 1 && Stamps(recs) == [] && recs[0] == Calib(After(recs).clk.ts16)
  {
    if NoCalib(recs) {
      TicksExactIff(recs);
      hide Ticks, Stamps, AllClose, After;
    } else {
      var t: u16 :| recs[0] == Calib(t);
      assert recs == [Calib(t)];
      CalibTicks(t);
    }
  }

  lemma CalibTicks(t: u16)
    ensures var recs := [Calib(t)];
            WfRecs(recs) && AllWalkable(recs) && Stamps(recs) == [] && Ticks(recs) == [] && After(recs).clk.ts16 == t
  {
    var recs := [Calib(t)];
    Le16RoundTrip(Le16(t), 0, t);
    assert recs[..0] == [];
    assert After([]) == Host(HEADER, NO_CLOCK, []);
    assert After(recs).clk.ts16 == t;
    hide After, Body;
    assert Stamps(recs[..0]) == [] && Ticks(recs[..0]) == [];
  }

  // ---- error reports --------------------------------------------------------

  /** The error masks among what the host has decoded. */
  function MasksSeen(ss: seq<Seen>): Bytes {
    if ss == [] then []
    else
      var s := ss[|ss| - 1];
      MasksSeen(ss[..|ss| - 1]) + if s.SeenStatus? && s.func == 1 then [s.num] else []
  }

  function MasksOf(es: seq<Fault>): Bytes {
    if es == [] then [] else MasksOf(es[..|es| - 1]) + [es[|es| - 1].mask]
  }

  /** The masks posted in all passes, in order. */
  function Posted(ins: seq<PassIn>): Bytes {
    if ins == [] then [] else Posted(ins[..|ins| - 1]) + MasksOf(ins[|ins| - 1].faults)
  }

  lemma {:induction false} MasksJoin(a: seq<Seen>, b: seq<Seen>)
    ensures MasksSeen(a + b) == MasksSeen(a) + MasksSeen(b)
    decreases |b|
  {
    if b == [] {
      assert a + b == a;
    } else {
      MasksJoin(a, b[..|b| - 1]);
      LastApart(a, b);
      assert (a + b)[..|a + b| - 1] == a + b[..|b| - 1];
    }
  }

  /** Frames are no error reports. */
  lemma {:induction false} NoMasks(fs: seq<Frame>)
    requires WfFrames(fs)
    ensures WfRecs(FrameRecs(fs)) && MasksSeen(Contents(FrameRecs(fs))) == []
    decreases |fs|
  {
    if fs != [] {
      NoMasks(fs[..|fs| - 1]);
      ContentsNext(FrameRecs(fs[..|fs| - 1]), Data(fs[|fs| - 1]));
      MasksJoin(Contents(FrameRecs(fs[..|fs| - 1])), [SeenAs(Data(fs[|fs| - 1]), 0)]);
      hide Contents;
    }
  }

  /** An error record carries its mask. */
  lemma {:induction false} AllMasks(es: seq<Fault>, retried: seq<bool>)
    requires |retried| == |es|
    ensures WfRecs(FaultRecs(es, retried)) && MasksSeen(Contents(FaultRecs(es, retried))) == MasksOf(es)
    decreases |es|
  {
    if es != [] {
      var n := |es| - 1;
      AllMasks(es[..n], retried[..n]);
      ContentsNext(FaultRecs(es[..n], retried[..n]), FaultRec(es[n], retried[n]));
      MasksJoin(Contents(FaultRecs(es[..n], retried[..n])), [SeenAs(FaultRec(es[n], retried[n]), 0)]);
      hide Contents;
    }
  }

  lemma PassMasks(fs: seq<Frame>, calib: Option<u16>, es: seq<Fault>, retried: seq<bool>)
    requires WfFrames(fs) && |retried| == |es|
    ensures WfRecs(PassRecs(fs, calib, es, retried))
    ensures MasksSeen(Contents(PassRecs(fs, calib, es, retried))) == MasksOf(es)
  {
    NoMasks(fs);
    AllMasks(es, retried);
    var c := if calib.Some? then [Calib(calib.value)] else [];
    assert MasksSeen(Contents(c)) == [] by {
      if calib.Some? {
        ContentsNext([], Calib(calib.value));
        assert [] + [Calib(calib.value)] == c;
      }
    }
    hide FrameRecs, FaultRecs, Contents, MasksSeen, MasksOf;
    ContentsAppend(FrameRecs(fs), c);
    MasksJoin(Contents(FrameRecs(fs)), Contents(c));
    ContentsAppend(FrameRecs(fs) + c, FaultRecs(es, retried));
    MasksJoin(Contents(FrameRecs(fs) + c), Contents(FaultRecs(es, retried)));
  }

  /** In any number of passes the host decodes every error mask that was posted, once and in order. */
  lemma {:induction false} MasksArrive(ins: seq<PassIn>, outs: seq<PassOut>)
    requires |ins| == |outs| && forall k :: 0 <= k < |ins| ==> Answers(ins[k], outs[k]) && WfFrames(ins[k].avail)
    ensures WfRecs(Packed(ins, outs)) && MasksSeen(Contents(Packed(ins, outs))) == Posted(ins)
    decreases |ins|
  {
    if ins != [] {
      var n := |ins| - 1;
      assert Answers(ins[n], outs[n]);
      MasksArrive(ins[..n], outs[..n]);
      var r := PassRecs(ins[n].avail[..outs[n].taken], ins[n].calib, ins[n].faults, outs[n].retried);
      PassMasks(ins[n].avail[..outs[n].taken], ins[n].calib, ins[n].faults, outs[n].retried);
      assert Packed(ins, outs) == Packed(ins[..n], outs[..n]) + r;
      hide Packed, PassRecs, Contents, MasksSeen, MasksOf;
      ContentsAppend(Packed(ins[..n], outs[..n]), r);
      MasksJoin(Contents(Packed(ins[..n], outs[..n])), Contents(r));
    }
  }
}
