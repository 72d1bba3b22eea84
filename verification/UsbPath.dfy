/**
 The two directions of the USB bridge put together: what usb_tx_task packs is what
 the host decodes once the retained batches have come through, and what the host
 encodes is what waits for the transmit ring.
 */
module UsbPath {
  import opened Words
  import opened PcanMsg
  import opened PcanHost
  import opened UsbTxTask
  import In = UsbIn
  import Out = UsbOut

  function Batches(done: seq<In.Released>): seq<Bytes> {
    if done == [] then [] else Batches(done[..|done| - 1]) + [done[|done| - 1].batch]
  }

  /** The batches of usb_tx_task, offered one after the other. */
  function Offers(w: In.World, e: In.Event, shipped: seq<Bytes>): In.Event {
    if e.CallSend? && |w.done| + 1 < |shipped| then In.CallSend(shipped[|w.done| + 1]) else e
  }

  /** A run in which usb_tx_task offers exactly the batches `shipped`. */
  function Bridged(shipped: seq<Bytes>, es: seq<In.Event>): In.World
    requires shipped != []
  {
    if es == [] then In.Start(shipped[0])
    else
      var w := Bridged(shipped, es[..|es| - 1]);
      var e := Offers(w, es[|es| - 1], shipped);
      if (e.CallSend? && |w.done| >= |shipped|) || !In.Allowed(w, e) then w else In.Step(w, e)
  }

  /** Released so far are the first batches; the current one is next. */
  predicate InOrder(w: In.World, shipped: seq<Bytes>) {
    && |w.done| <= |shipped| && Batches(w.done) == shipped[..|w.done|]
    && (|w.done| < |shipped| ==> w.current == shipped[|w.done|])
    && (|w.done| == |shipped| ==> In.Resting(w))
  }

  lemma OfferStep(w: In.World, e: In.Event, shipped: seq<Bytes>)
    requires In.Inv(w) && InOrder(w, shipped) && In.Allowed(w, e) && e == Offers(w, e, shipped)
    requires e.CallSend? ==> |w.done| < |shipped|
    ensures In.Inv(In.Step(w, e)) && InOrder(In.Step(w, e), shipped)
  {
    In.StepKeeps(w, e);
    var k := In.Step(w, e);
    if |k.done| > |w.done| {
      assert k.done[..|w.done|] == w.done;
      assert shipped[..|w.done| + 1] == shipped[..|w.done|] + [shipped[|w.done|]];
    }
  }

  lemma {:induction false} BridgedInv(shipped: seq<Bytes>, es: seq<In.Event>)
    requires shipped != [] && forall k :: 0 <= k < |shipped| ==> In.WfBatch(shipped[k])
    ensures In.Inv(Bridged(shipped, es)) && InOrder(Bridged(shipped, es), shipped)
    decreases |es|
  {
    if es == [] {
      assert Times(shipped[0], 0) == [];
      return;
    }
    hide In.Inv, InOrder, In.Step;
    var w := Bridged(shipped, es[..|es| - 1]);
    BridgedInv(shipped, es[..|es| - 1]);
    var e := Offers(w, es[|es| - 1], shipped);
    if In.Allowed(w, e) && (e.CallSend? ==> |w.done| < |shipped|) {
      OfferStep(w, e, shipped);
    }
  }

  // ---- to the host ----------------------------------------------------------

  function Repeat(ss: seq<Seen>, n: nat): seq<Seen> {
    if n == 0 then [] else Repeat(ss, n - 1) + ss
  }

  predicate AllWf(log: seq<seq<Rec>>) { forall k :: 0 <= k < |log| ==> WfRecs(log[k]) }

  /** The contents of the released batches, each as often as the host read it. */
  function Told(log: seq<seq<Rec>>, done: seq<In.Released>): seq<Seen>
    requires |done| <= |log| && AllWf(log)
  {
    if done == [] then []
    else
      var n := |done| - 1;
      Told(log, done[..n]) + Repeat(Contents(log[n]), done[n].copies)
  }

  lemma {:induction false} StreamAppend(a: seq<Bytes>, b: seq<Bytes>)
    ensures HostStream(a + b) == HostStream(a) + HostStream(b)
    decreases |b|
  {
    hide HostDecode, AllUntimed;
    if b == [] {
      assert a + b == a;
    } else {
      var n := |b| - 1;
      StreamAppend(a, b[..n]);
      assert (a + b)[..|a| + n] == a + b[..n];
    }
  }

  lemma {:induction false} StreamTimes(b: Bytes, recs: seq<Rec>, n: nat)
    requires Sound(recs) && b == Wire(recs)
    ensures WfRecs(recs) && HostStream(Times(b, n)) == Repeat(Contents(recs), n)
    decreases n
  {
    if n > 0 {
      StreamTimes(b, recs, n - 1);
      LastBatch(b, recs);
      hide HostDecode, AllUntimed, Contents, Wire, Sound;
      assert Times(b, n)[..n - 1] == Times(b, n - 1);
    }
  }

  lemma {:induction false} StreamHeard(done: seq<In.Released>, shipped: seq<Bytes>, log: seq<seq<Rec>>)
    requires Matches(shipped, log) && |done| <= |log| && Batches(done) == shipped[..|done|]
    ensures AllWf(log) && HostStream(In.Heard(done)) == Told(log, done)
    decreases |done|
  {
    hide HostDecode, Contents, Wire, WfRec;
    assert AllWf(log);
    if done != [] {
      var n := |done| - 1;
      assert Sound(log[n]) && shipped[n] == Wire(log[n]);
      assert shipped[..n + 1][..n] == shipped[..n] && shipped[..n + 1][n] == shipped[n];
      StreamHeard(done[..n], shipped, log);
      StreamTimes(done[n].batch, log[n], done[n].copies);
      hide Sound, Matches;
      StreamAppend(In.Heard(done[..n]), Times(done[n].batch, done[n].copies));
    }
  }

  /**
   After any number of resets, failed transfers and stale, lost or repeated calls: the
   batches usb_tx_task was released from are the first ones it packed, and the host
   has decoded the records of each, in order, once for every time it read the batch.
   */
  lemma ToHost(shipped: seq<Bytes>, log: seq<seq<Rec>>, es: seq<In.Event>)
    requires Matches(shipped, log) && shipped != []
    ensures var w := Bridged(shipped, es);
            && |w.done| <= |log| && AllWf(log)
            && (forall k :: 0 <= k < |w.done| ==> w.done[k].copies >= 1 || w.done[k].dropped)
            && HostStream(w.host)
            == Told(log, w.done) + if |w.done| < |log| then Repeat(Contents(log[|w.done|]), w.copies) else []
  {
    forall k | 0 <= k < |shipped|
      ensures In.WfBatch(shipped[k])
    {
      assert Sound(log[k]) && shipped[k] == Wire(log[k]);
    }
    var w := Bridged(shipped, es);
    BridgedInv(shipped, es);
    hide Bridged, Contents, Wire, Sound, HostDecode;
    StreamHeard(w.done, shipped, log);
    StreamAppend(In.Heard(w.done), Times(w.current, w.copies));
    if |w.done| < |log| {
      assert Sound(log[|w.done|]) && shipped[|w.done|] == Wire(log[|w.done|]);
      StreamTimes(w.current, log[|w.done|], w.copies);
    } else {
      assert Times(w.current, 0) == [];
    }
    hide Matches;
  }

  /** The host read every released batch exactly once. */
  predicate EachOnce(done: seq<In.Released>) { forall k :: 0 <= k < |done| ==> done[k].copies == 1 }

  lemma OnceInit(done: seq<In.Released>)
    requires EachOnce(done) && done != []
    ensures EachOnce(done[..|done| - 1]) && done[|done| - 1].copies == 1
  {}

  lemma ToldLast(log: seq<seq<Rec>>, done: seq<In.Released>)
    requires |done| <= |log| && AllWf(log) && done != [] && done[|done| - 1].copies == 1
    ensures var n := |done| - 1; WfRecs(log[n]) && Told(log, done) == Told(log, done[..n]) + Contents(log[n])
  {
    var n := |done| - 1;
    hide Contents, WfRecs;
    assert Repeat(Contents(log[n]), 1) == Repeat(Contents(log[n]), 0) + Contents(log[n]);
  }

  lemma FlattenLast(log: seq<seq<Rec>>, n: nat)
    requires n < |log|
    ensures Flatten(log[..n + 1]) == Flatten(log[..n]) + log[n]
  {
    assert log[..n + 1] == log[..n] + [log[n]];
    FlattenAppend(log[..n], log[n]);
  }

  lemma {:induction false} ToldOnce(log: seq<seq<Rec>>, done: seq<In.Released>)
    requires |done| <= |log| && AllWf(log) && EachOnce(done)
    ensures WfRecs(Flatten(log[..|done|])) && Told(log, done) == Contents(Flatten(log[..|done|]))
    decreases |done|
  {
    if done == [] {
      return;
    }
    hide *;
    var n := |done| - 1;
    OnceInit(done);
    ToldOnce(log, done[..n]);
    ToldLast(log, done);
    FlattenLast(log, n);
    ContentsAppend(Flatten(log[..n]), log[n]);
  }

  /** Without repeats and drops the host has decoded exactly the records packed, in order. */
  lemma ToHostExactly(shipped: seq<Bytes>, log: seq<seq<Rec>>, es: seq<In.Event>)
    requires Matches(shipped, log) && shipped != []
    requires Bridged(shipped, es).copies == 0 && EachOnce(Bridged(shipped, es).done)
    ensures var w := Bridged(shipped, es);
            && |w.done| <= |log| && WfRecs(Flatten(log[..|w.done|]))
            && HostStream(w.host) == Contents(Flatten(log[..|w.done|]))
  {
    hide Bridged, Contents, HostStream, Matches, EachOnce;
    ToHost(shipped, log, es);
    var w := Bridged(shipped, es);
    ToldOnce(log, w.done);
    if |w.done| < |log| {
      assert Repeat(Contents(log[|w.done|]), 0) == [];
    }
    assert Told(log, w.done) + [] == Told(log, w.done);
  }

  // ---- from the host --------------------------------------------------------

  /** A record takes three bytes, so a full transfer means at most twenty frames. */
  lemma {:induction false} MeantFits(recs: seq<TxRec>, writer: byte)
    requires AllWfTx(recs)
    ensures 3 * |Meant(recs, writer)| <= |TxBody(recs)|
    decreases |recs|
  {
    if recs != [] {
      MeantFits(recs[1..], writer);
    }
    hide FrameOf;
  }

  /** A transfer the host encoded leaves exactly its frames pending, tagged with its counter. */
  lemma FromHost(o: Out.Out, recs: seq<TxRec>, counter: byte)
    requires Out.Inv(o) && o.armed
    requires AllWfTx(recs) && HEADER + |TxBody(recs)| < BATCH_SIZE
    ensures var p := Out.DrvDone(o, true, TxBatch(recs, counter));
            p.pending == Meant(recs, counter) && p.decoded == o.decoded + Meant(recs, counter)
  {
    MeantFits(recs, counter);
    DecodesWhatHostEncodes(recs, counter, Out.MAX_FRAMES);
    hide TxBatch, Meant, TxBody, DecodeTx;
  }
}
