/**
 What every interleaving of the transmit path keeps: the quiesce handshake, single
 ownership of the frame in the driver, and delivery at least once and in order.
 */
module BridgeSafety {
  import opened Words
  import opened PcanMsg
  import opened BridgeModel

  // ---- quiesce --------------------------------------------------------------

  /** The control task has a request outstanding. */
  predicate Requesting(c: Ctrl) {
    match c
    case Boot => false
    case Loop => false
    case Alerts(quiet) => quiet
    case HasRead(quiet, _, _, _) => quiet
    case Post(quiet, _, _) => quiet
    case PostAbort(quiet) => quiet
    case _ => true
  }

  /** The control task is free to touch the driver's life. */
  predicate Quiet(c: Ctrl) { Requesting(c) && !c.Wait? && !c.Abandon? }

  predicate InPark(p: Place) { p.Park? || p.Parked? }

  /** An acknowledgement of the request outstanding comes from a task that is parked and stays so. */
  predicate AckSound(p: Place, ack: nat, cycle: nat) {
    && ack <= cycle && (p.Park? ==> p.cycle <= cycle)
    && (Odd(cycle) && ack == cycle ==> p.Parked? || p == Park(cycle))
  }

  predicate Handshake(b: Bridge) {
    && (Odd(b.cycle) <==> Requesting(b.ctrl))
    && AckSound(b.rx, b.rxAck, b.cycle) && AckSound(b.tx, b.txAck, b.cycle)
    && (b.ctrl == Wait(true) ==> b.rxAck == b.cycle)
    && (Quiet(b.ctrl) ==> b.rxAck == b.cycle && b.txAck == b.cycle)
  }

  lemma ParkKeeps(p: Place, ack: nat, cycle: nat)
    requires AckSound(p, ack, cycle)
    ensures var q := ParkStep(p, cycle);
            AckSound(if q.Some? then q.value else Top, if q.Some? then AckAfter(p, ack) else ack, cycle)
    ensures ParkStep(p, cycle).Some? && ack == cycle && Odd(cycle) ==> AckAfter(p, ack) == cycle
  {}

  lemma TxHandshake(b: Bridge, popped: Option<Frame>, busy: bool)
    requires Handshake(b)
    ensures Handshake(TxStep(b, popped, busy))
  {
    ParkKeeps(b.tx, b.txAck, b.cycle);
    var c := TxStep(b, popped, busy);
    assert (c.cycle, c.ctrl, c.rx, c.rxAck) == (b.cycle, b.ctrl, b.rx, b.rxAck);
    assert ParkStep(b.tx, b.cycle).None? ==> c.txAck == b.txAck && (c.tx.Top? || c.tx.Work?);
    hide TxStep, ParkStep;
  }

  lemma CtrlMoves(b: Bridge, k: Luck)
    requires Handshake(b)
    ensures var c := CtrlStep(b, k);
            && (c.rx, c.rxAck, c.tx, c.txAck) == (b.rx, b.rxAck, b.tx, b.txAck)
            && (c.ctrl == Wait(true) ==> b.rxAck == b.cycle == c.cycle)
            && (if c.cycle == b.cycle then Requesting(c.ctrl) == Requesting(b.ctrl)
                else c.cycle == b.cycle + 1 && Requesting(c.ctrl) != Requesting(b.ctrl))
            && (Quiet(c.ctrl) ==> c.cycle == b.cycle && b.rxAck == b.cycle && b.txAck == b.cycle)
  {
    hide React, Uninstall, Started, Enqueue, AckSound, Odd, ReadAlerts;
    if b.ctrl.Alerts? {
      AlertsMove(b);
    }
  }

  lemma AlertsMove(b: Bridge)
    requires b.ctrl.Alerts?
    ensures var c := ReadAlerts(b, b.ctrl.quiet);
            && (c.rx, c.rxAck, c.tx, c.txAck, c.cycle) == (b.rx, b.rxAck, b.tx, b.txAck, b.cycle)
            && (c.ctrl == AfterAlerts(b.ctrl.quiet) || (c.ctrl.HasRead? && c.ctrl.quiet == b.ctrl.quiet))
  {}

  lemma CtrlHandshake(b: Bridge, k: Luck)
    requires Handshake(b)
    ensures Handshake(CtrlStep(b, k))
  {
    hide CtrlStep, Requesting, Quiet;
    CtrlMoves(b, k);
  }

  lemma HandshakeStep(b: Bridge, e: Event)
    requires Handshake(b)
    ensures Handshake(Step(b, e))
  {
    match e
    case RxRuns => ParkKeeps(b.rx, b.rxAck, b.cycle);
    case TxRuns(popped, busy) => TxHandshake(b, popped, busy);
    case CtrlRuns(luck) => CtrlHandshake(b, luck);
    case DriverDoes(_) =>
    hide TxStep, CtrlStep, ParkStep;
  }

  /** Whenever the control task holds the driver, both TWAI tasks are parked. */
  lemma QuietMeansParked(b: Bridge)
    requires Handshake(b) && Quiet(b.ctrl)
    ensures InPark(b.rx) && InPark(b.tx)
  {}

  // ---- ownership ------------------------------------------------------------

  /** A transmit verdict, or a bus-off abort, read from the driver and not yet posted. */
  function InHand(c: Ctrl): Option<Verdict> {
    if c.HasRead? || c.Post? then c.ev else None
  }

  predicate AbortInHand(c: Ctrl) { (c.Post? && c.off) || c.PostAbort? }

  /** An abort follows the teardown in any case. */
  predicate AbortComing(c: Ctrl) { c.Install? || c.AbortAll? }

  predicate DriverSound(d: Driver, c: Ctrl) {
    && |d.held| <= 1
    && (d.held != [] ==> d.run in {Running, BusOff})
    && (d.run in {Absent, Recovering, Stopped} ==> !d.succ && !d.fail && !d.off)
    && (d.run != Stopped ==> !d.recd)
    && (d.off ==> d.run == BusOff)
    && (c.HasRead? && c.off ==> d.run == BusOff && !d.succ && !d.fail && !d.off)
    && (c.HasRead? && c.recd ==> d.run == Stopped && !d.recd && !c.off && c.ev.None?)
    && (AbortInHand(c) ==> d.run in {Recovering, Stopped})
    && (c.Install? ==> d.run in {Absent, Recovering, Stopped})
    && (c.Boot? ==> d == NO_DRIVER)
  }

  predicate AllAborts(q: seq<Verdict>) { forall k :: 0 <= k < |q| ==> q[k] == SaysAbort }

  /** Something that proves what became of the driver's copy. */
  predicate Evidence(b: Bridge) {
    b.drv.succ || b.drv.fail || InHand(b.ctrl).Some? || AbortInHand(b.ctrl) || AbortComing(b.ctrl) || b.events != []
  }

  /** While a transmit outcome is on its way nothing else is. */
  predicate Fresh(b: Bridge) {
    b.drv.succ || b.drv.fail || InHand(b.ctrl).Some? ==>
      && b.inflight && b.events == [] && b.drv.held == [] && !AbortComing(b.ctrl)
      && !(b.drv.succ && b.drv.fail) && (InHand(b.ctrl).Some? ==> !b.drv.succ && !b.drv.fail)
      && InHand(b.ctrl) != Some(SaysAbort)
  }

  predicate Ownership(b: Bridge) {
    && (b.inflight ==> b.have)
    && (b.drv.held != [] ==> b.inflight && b.drv.held == [b.pending] && !Evidence(b))
    && (b.inflight && b.drv.held == [] ==> Evidence(b))
    && Fresh(b)
    && (if b.inflight then b.events != [] ==> AllAborts(b.events[1..]) else AllAborts(b.events))
  }

  /** A success of the pending frame that is neither counted as lost nor judged yet. */
  predicate SuccessAround(b: Bridge) {
    b.drv.succ || InHand(b.ctrl) == Some(SaysOk) || (b.events != [] && b.events[0] == SaysOk)
  }

  function Sent(done: seq<Done>): seq<Frame> {
    if done == [] then []
    else Sent(done[..|done| - 1]) + Times(done[|done| - 1].frame, done[|done| - 1].copies)
  }

  /** Every frame let go went out once more than its erased successes, or, if refused, exactly as often. */
  predicate Settled(d: Done) { d.copies == d.lost + if d.confirmed then 1 else 0 }

  function FramesOf(done: seq<Done>): seq<Frame> {
    if done == [] then [] else FramesOf(done[..|done| - 1]) + [done[|done| - 1].frame]
  }

  predicate Sums(popped: seq<Frame>, wire: seq<Frame>, done: seq<Done>, have: bool, pending: Frame, copies: nat) {
    && popped == FramesOf(done) + (if have then [pending] else [])
    && wire == Sent(done) + Times(pending, copies)
    && forall k :: 0 <= k < |done| ==> Settled(done[k])
  }

  predicate Ledger(b: Bridge) {
    && Sums(b.popped, b.wire, b.done, b.have, b.pending, b.copies)
    && (if b.have then b.copies == b.lost + (if SuccessAround(b) then 1 else 0) else b.copies == 0 && b.lost == 0)
  }

  predicate Inv(b: Bridge) {
    Handshake(b) && DriverSound(b.drv, b.ctrl) && Ownership(b) && Ledger(b)
  }

  predicate Owned(b: Bridge) { DriverSound(b.drv, b.ctrl) && Ownership(b) && Ledger(b) }

  // ---- steps of the transmit task -------------------------------------------

  lemma SubmitKeeps(b: Bridge, busy: bool)
    requires Inv(b) && b.tx.Work? && b.have && !b.inflight
    ensures Owned(TxStep(b, None, busy))
  {
    hide Sums, Handshake, LetGo;
    if !b.drv.run.Absent? && b.drv.listen {
      LetGoKeeps(b.(events := []), false);
    } else if Submit(b, busy).inflight {
      AcceptKeeps(b, busy);
    }
    hide DriverSound;
  }

  lemma AcceptKeeps(b: Bridge, busy: bool)
    requires Inv(b) && b.tx.Work? && b.have && !b.inflight && Submit(b, busy).inflight
    ensures Owned(TxStep(b, None, busy))
  {
    hide FramesOf, Sent, Times;
    assert b.drv.held == [] && b.drv.run.Running?;
    assert !AbortComing(b.ctrl) && !AbortInHand(b.ctrl);
  }

  lemma DoneAppend(done: seq<Done>, d: Done)
    ensures Sent(done + [d]) == Sent(done) + Times(d.frame, d.copies)
    ensures FramesOf(done + [d]) == FramesOf(done) + [d.frame]
  {
    assert (done + [d])[..|done|] == done;
    hide Times;
  }

  /** Letting go of a frame moves its copies to the record. */
  lemma LetGoKeeps(b: Bridge, confirmed: bool)
    requires Sums(b.popped, b.wire, b.done, true, b.pending, b.copies)
    requires b.copies == b.lost + if confirmed then 1 else 0
    ensures Ledger(LetGo(b, confirmed))
    ensures LetGo(b, confirmed) == b.(have := false, done := LetGo(b, confirmed).done, copies := 0, lost := 0)
  {
    var d := Done(b.pending, b.copies, b.lost, confirmed);
    DoneAppend(b.done, d);
    assert Times(b.pending, 0) == [];
    hide FramesOf, Sent, Times, SuccessAround;
    assert b.wire + [] == b.wire && b.popped + [] == b.popped;
  }

  lemma JudgeKeeps(b: Bridge)
    requires Inv(b) && b.inflight && b.events != []
    ensures Owned(Judge(b))
  {
    var c := b.(events := b.events[1..], inflight := false);
    hide Sums, Handshake, LetGo;
    if b.events[0].SaysOk? {
      LetGoKeeps(c, true);
    }
  }

  lemma PopKeeps(b: Bridge, f: Frame)
    requires Inv(b) && !b.have
    ensures Owned(Popped(b, f))
  {
    assert Times(b.pending, 0) == [] && Times(f, 0) == [];
    hide FramesOf, Sent, Times, Handshake, DriverSound;
  }

  /** Where the transmit task stands matters to the handshake alone. */
  lemma OwnedAnywhere(b: Bridge, c: Bridge)
    requires Owned(b) && c == b.(tx := c.tx, txAck := c.txAck)
    ensures Owned(c)
  {
    hide Sums, DriverSound;
  }

  lemma TxKeeps(b: Bridge, popped: Option<Frame>, busy: bool)
    requires Inv(b)
    ensures Inv(TxStep(b, popped, busy))
  {
    TxHandshake(b, popped, busy);
    hide Submit, Judge, Sums, Ownership, DriverSound, Handshake, SuccessAround;
    var c := TxStep(b, popped, busy);
    if b.tx.Work? {
      if b.have && !b.inflight {
        SubmitKeeps(b, busy);
      } else if b.have && b.events != [] {
        JudgeKeeps(b);
        OwnedAnywhere(Judge(b), c);
      } else if !b.have && popped.Some? {
        PopKeeps(b, popped.value);
      } else {
        OwnedAnywhere(b, c);
      }
    } else {
      OwnedAnywhere(b, c);
    }
    hide TxStep, Ledger;
  }

  // ---- steps of the control task and of the driver --------------------------

  lemma ReadKeeps(b: Bridge, k: Luck)
    requires Inv(b) && b.ctrl.Alerts?
    ensures Owned(CtrlStep(b, k))
  {
    hide FramesOf, Sent, Times, Handshake;
  }

  lemma ReactKeeps(b: Bridge, k: Luck)
    requires Inv(b) && b.ctrl.HasRead?
    ensures Owned(CtrlStep(b, k))
  {
    hide FramesOf, Sent, Times, Handshake;
  }

  lemma PostKeeps(b: Bridge, k: Luck)
    requires Inv(b) && (b.ctrl.Post? || b.ctrl.PostAbort? || b.ctrl.AbortAll?)
    ensures Owned(CtrlStep(b, k))
  {
    hide FramesOf, Sent, Times, Handshake;
  }

  lemma TeardownKeeps(b: Bridge, k: Luck)
    requires Inv(b) && (b.ctrl.Teardown? || b.ctrl.Install?)
    ensures Owned(CtrlStep(b, k))
  {
    hide FramesOf, Sent, Times, Handshake;
  }

  lemma CtrlKeeps(b: Bridge, k: Luck)
    requires Inv(b)
    ensures Inv(CtrlStep(b, k))
  {
    hide Handshake, FramesOf, Sent, Times, Evidence, Fresh, AllAborts;
    CtrlHandshake(b, k);
    if b.ctrl.Alerts? {
      ReadKeeps(b, k);
    } else if b.ctrl.HasRead? {
      ReactKeeps(b, k);
    } else if b.ctrl.Post? || b.ctrl.PostAbort? || b.ctrl.AbortAll? {
      PostKeeps(b, k);
    } else if b.ctrl.Teardown? || b.ctrl.Install? {
      TeardownKeeps(b, k);
    } else if b.ctrl.Boot? {
      BootKeeps(b, k);
    } else {
      WaitKeeps(b, k);
    }
    hide CtrlStep, DriverSound, Ownership, Ledger;
  }

  lemma BootKeeps(b: Bridge, k: Luck)
    requires Inv(b) && b.ctrl.Boot?
    ensures Owned(CtrlStep(b, k))
  {
    hide FramesOf, Sent, Times, Handshake;
  }

  lemma WaitKeeps(b: Bridge, k: Luck)
    requires Inv(b) && (b.ctrl.Loop? || b.ctrl.Wait? || b.ctrl.Abandon? || b.ctrl.End?)
    ensures Owned(CtrlStep(b, k))
  {
    hide FramesOf, Sent, Times, Handshake, AllAborts;
    var c := CtrlStep(b, k);
    assert c == b.(cycle := c.cycle, ctrl := c.ctrl);
    assert c.ctrl.Loop? || c.ctrl.Wait? || c.ctrl.Abandon? || c.ctrl.Alerts?;
    hide CtrlStep;
  }

  lemma DriverKeeps(b: Bridge, e: DriverEvent)
    requires Inv(b)
    ensures Inv(DriverStep(b, e))
  {
    if e.Sends? && b.drv.held != [] {
      SendsKeeps(b);
    } else {
      OthersKeep(b, e);
    }
    hide Inv, DriverStep;
  }

  lemma SendsKeeps(b: Bridge)
    requires Inv(b) && b.drv.held != []
    ensures Inv(DriverStep(b, Sends))
  {
    assert b.wire + [b.pending] == Sent(b.done) + (Times(b.pending, b.copies) + [b.pending]);
    assert Times(b.pending, b.copies + 1) == Times(b.pending, b.copies) + [b.pending];
    hide FramesOf, Sent, Times;
  }

  lemma OthersKeep(b: Bridge, e: DriverEvent)
    requires Inv(b) && (e.Sends? ==> b.drv.held == [])
    ensures Inv(DriverStep(b, e))
  {
    hide FramesOf, Sent, Times;
  }

  lemma StepKeeps(b: Bridge, e: Event)
    requires Inv(b)
    ensures Inv(Step(b, e))
  {
    hide Inv, RxStep, TxStep, CtrlStep, DriverStep;
    match e
    case RxRuns => RxKeeps(b);
    case TxRuns(popped, busy) => TxKeeps(b, popped, busy);
    case CtrlRuns(luck) => CtrlKeeps(b, luck);
    case DriverDoes(what) => DriverKeeps(b, what);
  }

  lemma RxKeeps(b: Bridge)
    requires Inv(b)
    ensures Inv(RxStep(b))
  {
    HandshakeStep(b, RxRuns);
    assert RxStep(b) == b.(rx := RxStep(b).rx, rxAck := RxStep(b).rxAck);
    hide RxStep, Handshake, DriverSound, Sums;
  }

  lemma {:induction false} ReachableInv(es: seq<Event>)
    ensures Inv(Run(es))
    decreases |es|
  {
    if es != [] {
      ReachableInv(es[..|es| - 1]);
      StepKeeps(Run(es[..|es| - 1]), es[|es| - 1]);
    }
    hide Step;
  }

  // ---- what follows for every run -------------------------------------------

  /** Between a true ctrl_quiesce_begin and ctrl_quiesce_end both TWAI tasks are parked, outside every driver call. */
  lemma QuiesceIsSafe(es: seq<Event>)
    ensures Quiet(Run(es).ctrl) ==> InPark(Run(es).rx) && InPark(Run(es).tx)
  {
    ReachableInv(es);
    hide Run, DriverSound, Ownership, Ledger, Handshake, Quiet, InPark;
    if Quiet(Run(es).ctrl) {
      QuietMeansParked(Run(es));
    }
  }

  /** The driver never holds two copies, and a submit happens only when it holds none. */
  lemma OneCopyAtMost(es: seq<Event>, e: Event)
    ensures |Run(es).drv.held| <= 1
    ensures |Step(Run(es), e).drv.held| > |Run(es).drv.held| ==>
              Run(es).drv.held == [] && Step(Run(es), e).drv.held == [Run(es).pending]
  {
    ReachableInv(es);
    StepKeeps(Run(es), e);
    HeldGrows(Run(es), e);
    hide Run, Step, Handshake, Ledger;
  }

  lemma HeldGrows(b: Bridge, e: Event)
    requires |b.drv.held| <= 1
    ensures |Step(b, e).drv.held| > |b.drv.held| ==> Step(b, e).pending == b.pending
  {
    hide Enqueue, ParkStep;
  }

  /**
   A verdict is about the frame in flight: when it is taken the driver holds no copy,
   and OK means the frame went out since it was last submitted.
   */
  lemma VerdictsAreSound(es: seq<Event>)
    ensures var b := Run(es);
            b.inflight && b.events != [] ==>
              b.drv.held == [] && (b.events[0].SaysOk? ==> b.copies == b.lost + 1)
              && (!b.events[0].SaysOk? ==> b.copies == b.lost)
  {
    ReachableInv(es);
    hide Run, Handshake;
  }

  /**
   The bus carries the frames let go in pop order, then the pending one: each
   confirmed frame once plus one time for every success a teardown erased.
   */
  lemma AtLeastOnceInOrder(es: seq<Event>)
    ensures var b := Run(es);
            && b.popped == FramesOf(b.done) + (if b.have then [b.pending] else [])
            && b.wire == Sent(b.done) + Times(b.pending, b.copies)
            && (forall k :: 0 <= k < |b.done| && b.done[k].confirmed ==> b.done[k].copies == b.done[k].lost + 1)
            && (forall k :: 0 <= k < |b.done| && !b.done[k].confirmed ==> b.done[k].copies == b.done[k].lost)
  {
    ReachableInv(es);
    hide Run, Handshake, DriverSound, Ownership, FramesOf, Sent, Times;
  }

  /** Success alerts erased so far. */
  function LostIn(done: seq<Done>): nat {
    if done == [] then 0 else LostIn(done[..|done| - 1]) + done[|done| - 1].lost
  }

  function Confirmed(done: seq<Done>): seq<Frame> {
    if done == [] then []
    else Confirmed(done[..|done| - 1]) + if done[|done| - 1].confirmed then [done[|done| - 1].frame] else []
  }

  lemma {:induction false} SentExactly(done: seq<Done>)
    requires forall k :: 0 <= k < |done| ==> Settled(done[k])
    ensures |Sent(done)| == |Confirmed(done)| + LostIn(done)
    ensures LostIn(done) == 0 ==> Sent(done) == Confirmed(done)
    decreases |done|
  {
    if done != [] {
      var d := done[|done| - 1];
      SentExactly(done[..|done| - 1]);
      assert Times(d.frame, 0) == [] && Times(d.frame, 1) == [d.frame];
    }
  }

  /** Between frames, the bus has carried exactly the confirmed frames if and only if no teardown erased a success. */
  lemma ExactlyOnceIff(es: seq<Event>)
    requires !Run(es).have
    ensures var b := Run(es); b.wire == Confirmed(b.done) <==> LostIn(b.done) == 0
  {
    ReachableInv(es);
    var b := Run(es);
    hide Run, Handshake, DriverSound, Ownership;
    SentExactly(b.done);
    assert Times(b.pending, 0) == [];
    assert b.wire == Sent(b.done);
    hide Sent, Times, Confirmed, LostIn;
  }

  /** A full verdict queue never loses an outcome that matters: a frame in flight that has left the driver has one. */
  lemma NoVerdictIsMissed(es: seq<Event>)
    ensures var b := Run(es); b.inflight && b.drv.held == [] ==> Evidence(b)
    ensures |Run(es).events| <= EVENT_SLOTS
  {
    ReachableInv(es);
    QueueBounded(es);
    hide Run, Handshake, DriverSound, Ledger;
  }

  lemma {:induction false} QueueBounded(es: seq<Event>)
    ensures |Run(es).events| <= EVENT_SLOTS
    decreases |es|
  {
    if es != [] {
      QueueBounded(es[..|es| - 1]);
      QueueStep(Run(es[..|es| - 1]), es[|es| - 1]);
    }
    hide Step;
  }

  lemma QueueStep(b: Bridge, e: Event)
    requires |b.events| <= EVENT_SLOTS
    ensures |Step(b, e).events| <= EVENT_SLOTS
  {
    hide ParkStep, React, Uninstall, Started;
    match e
    case TxRuns(popped, busy) => QueueAfterTx(b, popped, busy);
    case CtrlRuns(luck) => QueueAfterCtrl(b, luck);
    case _ =>
    hide TxStep, CtrlStep;
  }

  lemma QueueAfterTx(b: Bridge, popped: Option<Frame>, busy: bool)
    requires |b.events| <= EVENT_SLOTS
    ensures |TxStep(b, popped, busy).events| <= EVENT_SLOTS
  {
    hide ParkStep;
  }

  lemma QueueAfterCtrl(b: Bridge, k: Luck)
    requires |b.events| <= EVENT_SLOTS
    ensures |CtrlStep(b, k).events| <= EVENT_SLOTS
  {
    hide React, Uninstall, Started;
  }
}
