/**
 The transmit path is never stuck. An alert that is raised is acted upon by the next
 alert service under every interleaving; and from every state a run may reach, the
 frame owned and the next one can still be brought to the bus, without a reconfigure
 where the driver can be used as it is.
 */
module BridgeProgress {
  import opened Words
  import opened PcanMsg
  import opened BridgeModel
  import opened BridgeSafety

  // ---- going on from a state ------------------------------------------------

  /** What `fs` makes of `b`. */
  function Play(b: Bridge, fs: seq<Event>): Bridge {
    if fs == [] then b else Step(Play(b, fs[..|fs| - 1]), fs[|fs| - 1])
  }

  lemma {:induction false} PlayOn(b: Bridge, fs: seq<Event>, gs: seq<Event>)
    ensures Play(b, fs + gs) == Play(Play(b, fs), gs)
    decreases |gs|
  {
    hide Step;
    if gs == [] {
      assert fs + gs == fs;
    } else {
      PlayOn(b, fs, gs[..|gs| - 1]);
      assert (fs + gs)[..|fs + gs| - 1] == fs + gs[..|gs| - 1];
    }
  }

  lemma {:induction false} RunOn(es: seq<Event>, fs: seq<Event>)
    ensures Run(es + fs) == Play(Run(es), fs)
    decreases |fs|
  {
    hide Step;
    if fs == [] {
      assert es + fs == es;
    } else {
      RunOn(es, fs[..|fs| - 1]);
      assert (es + fs)[..|es + fs| - 1] == es + fs[..|fs| - 1];
    }
  }

  lemma {:induction false} PlayKeeps(b: Bridge, fs: seq<Event>)
    requires Inv(b) && OffSeen(b)
    ensures Inv(Play(b, fs)) && OffSeen(Play(b, fs))
    decreases |fs|
  {
    hide Step, Inv, OffSeen;
    if fs != [] {
      PlayKeeps(b, fs[..|fs| - 1]);
      StepKeeps(Play(b, fs[..|fs| - 1]), fs[|fs| - 1]);
      OffStep(Play(b, fs[..|fs| - 1]), fs[|fs| - 1]);
    }
  }

  /** A bus-off that has not been acted upon is still to be read, or has just been. */
  predicate OffSeen(b: Bridge) {
    b.drv.run == BusOff ==> b.drv.off || (b.ctrl.HasRead? && b.ctrl.off)
  }

  lemma OffStep(b: Bridge, e: Event)
    requires Inv(b) && OffSeen(b)
    ensures OffSeen(Step(b, e))
  {
    hide Handshake, Ownership, Ledger, OffSeen, RxStep, TxStep, CtrlStep, DriverStep;
    match e
    case RxRuns => OffRx(b);
    case TxRuns(popped, busy) => OffTx(b, popped, busy);
    case CtrlRuns(k) => OffCtrl(b, k);
    case DriverDoes(what) => OffDriver(b, what);
  }

  lemma OffRx(b: Bridge)
    requires OffSeen(b)
    ensures OffSeen(RxStep(b))
  {
    hide ParkStep;
  }

  lemma OffDriver(b: Bridge, e: DriverEvent)
    requires OffSeen(b)
    ensures OffSeen(DriverStep(b, e))
  {}

  lemma OffTx(b: Bridge, popped: Option<Frame>, busy: bool)
    requires OffSeen(b)
    ensures OffSeen(TxStep(b, popped, busy))
  {
    hide ParkStep, AckAfter;
  }

  lemma ReactOff(d: Driver, off: bool, recd: bool, accepted: bool)
    ensures var e := React(d, off, recd, accepted); e.run == BusOff ==> d.run == BusOff && !off && e.off == d.off
  {}

  lemma InstallOff(d: Driver, listen: bool)
    ensures Uninstall(d).run != BusOff
    ensures Started(d, listen).run == BusOff ==> Started(d, listen) == d
  {}

  lemma OffCtrl(b: Bridge, k: Luck)
    requires OffSeen(b)
    ensures OffSeen(CtrlStep(b, k))
  {
    hide Enqueue, React, Uninstall, Started;
    InstallOff(b.drv, true);
    InstallOff(b.drv, k.listen);
    if b.ctrl.HasRead? {
      ReactOff(b.drv, b.ctrl.off, b.ctrl.recd, k.accepted);
    }
  }

  lemma Reached(es: seq<Event>)
    ensures Inv(Run(es)) && OffSeen(Run(es))
  {
    assert OffSeen(START);
    hide Inv, OffSeen;
    ReachableInv([]);
    PlayKeeps(START, es);
    RunOn([], es);
    assert [] + es == es;
  }

  // ---- alerts ---------------------------------------------------------------

  /** A bus-off, or the end of a recovery, that the control task has not acted upon. */
  predicate Unread(b: Bridge) {
    || b.drv.run == BusOff
    || (b.drv.run == Stopped && (b.drv.recd || (b.ctrl.HasRead? && b.ctrl.recd)))
  }

  /** A bus-off leads into recovery, which drops the frame in the driver, and a recovery to a running driver. */
  predicate Acted(b: Bridge, c: Bridge) {
    if b.drv.run == BusOff then c.drv.run == Recovering && c.drv.held == [] else c.drv.run == Running
  }

  /** The control task has no reconfigure under way. */
  predicate Free(c: Ctrl) { !Requesting(c) && !c.Boot? }

  /** Within how many steps of the control task what is unread now has been acted upon. */
  function Until(c: Ctrl): (n: nat)
    ensures 1 <= n <= 5
  {
    match c
    case Alerts(_) => 2
    case HasRead(_, off, recd, _) => if off || recd then 1 else 5
    case Post(_, off, _) => if off then 5 else 4
    case PostAbort(_) => 4
    case _ => 3
  }

  function CtrlSteps(fs: seq<Event>): nat {
    if fs == [] then 0 else CtrlSteps(fs[..|fs| - 1]) + if fs[|fs| - 1].CtrlRuns? then 1 else 0
  }

  /** No reconfigure is asked for, and the driver starts when told to. */
  predicate Served(fs: seq<Event>) {
    forall k :: 0 <= k < |fs| && fs[k].CtrlRuns? ==> !fs[k].luck.reconf && fs[k].luck.accepted
  }

  lemma WatchStep(b: Bridge, e: Event)
    requires Inv(b) && OffSeen(b) && Unread(b) && Free(b.ctrl)
    requires e.CtrlRuns? ==> !e.luck.reconf && e.luck.accepted
    ensures var c := Step(b, e);
            || Acted(b, c)
            || (Unread(c) && Free(c.ctrl) && c.drv.run == b.drv.run
                && Until(c.ctrl) + (if e.CtrlRuns? then 1 else 0) <= Until(b.ctrl))
  {
    hide Handshake, Ownership, Ledger, ParkStep, Enqueue;
  }

  /** While the alert has not been acted upon, every step of the control task brings that nearer. */
  lemma {:induction false} Watch(b: Bridge, fs: seq<Event>) returns (k: nat)
    requires Inv(b) && OffSeen(b) && Unread(b) && Free(b.ctrl) && Served(fs)
    ensures k <= |fs|
    ensures var c := Play(b, fs);
            || Acted(b, Play(b, fs[..k]))
            || (Unread(c) && Free(c.ctrl) && c.drv.run == b.drv.run && Until(c.ctrl) + CtrlSteps(fs) <= Until(b.ctrl))
    decreases |fs|
  {
    hide Inv, OffSeen, Step, Until, Free, Unread, Acted;
    if fs == [] {
      k := 0;
      return;
    }
    var gs := fs[..|fs| - 1];
    k := Watch(b, gs);
    assert fs[..k] == gs[..k] && fs[..|fs|] == fs;
    PlayKeeps(b, gs);
    if !Acted(b, Play(b, gs[..k])) {
      WatchStep(Play(b, gs), fs[|fs| - 1]);
      SameAlert(b, Play(b, gs), Play(b, fs));
      k := if Acted(b, Play(b, fs)) then |fs| else k;
    }
  }

  lemma SameAlert(b: Bridge, c: Bridge, d: Bridge)
    requires b.drv.run == c.drv.run
    ensures Acted(b, d) == Acted(c, d)
  {}

  /**
   Outside a reconfigure, a bus-off is followed by the recovery, and a finished
   recovery by a running driver, before the control task has made five steps, however
   the other tasks and the driver interleave.
   */
  lemma AlertsAreServed(es: seq<Event>, fs: seq<Event>) returns (k: nat)
    requires Unread(Run(es)) && Free(Run(es).ctrl)
    requires Served(fs) && CtrlSteps(fs) >= Until(Run(es).ctrl)
    ensures k <= |fs| && Acted(Run(es), Run(es + fs[..k]))
  {
    hide Run, Play, Inv, OffSeen, Unread, Free, Acted, Served;
    Reached(es);
    k := Watch(Run(es), fs);
    RunOn(es, fs[..k]);
  }

  /** A recovered driver whose restart was refused, and nothing left to say so. */
  predicate Forgotten(b: Bridge) {
    b.drv.run == Stopped && !b.drv.recd && !(b.ctrl.HasRead? && b.ctrl.recd) && Free(b.ctrl)
  }

  lemma ForgottenStep(b: Bridge, e: Event)
    requires Forgotten(b) && (e.CtrlRuns? ==> !e.luck.reconf)
    ensures Forgotten(Step(b, e))
  {
    hide ParkStep, Enqueue, TxStep, CtrlStep, Requesting;
    match e
    case TxRuns(popped, busy) => TxKeepsRun(b, popped, busy);
    case CtrlRuns(k) => ForgottenCtrl(b, k);
    case _ =>
  }

  lemma TxKeepsRun(b: Bridge, popped: Option<Frame>, busy: bool)
    ensures var c := TxStep(b, popped, busy);
            c.ctrl == b.ctrl && (c.drv.run, c.drv.recd) == (b.drv.run, b.drv.recd)
  {
    hide ParkStep, AckAfter;
  }

  lemma ForgottenCtrl(b: Bridge, k: Luck)
    requires Forgotten(b) && !k.reconf
    ensures Forgotten(CtrlStep(b, k))
  {
    hide Enqueue, Uninstall, Started;
  }

  /** The restart is tried once: a driver that refused it stays stopped until the next reconfigure. */
  lemma {:induction false} RefusedRestartIsFinal(es: seq<Event>, fs: seq<Event>)
    requires Forgotten(Run(es)) && forall k :: 0 <= k < |fs| && fs[k].CtrlRuns? ==> !fs[k].luck.reconf
    ensures Forgotten(Run(es + fs))
    decreases |fs|
  {
    hide Step, Forgotten;
    if fs == [] {
      assert es + fs == es;
    } else {
      var init, e := fs[..|fs| - 1], fs[|fs| - 1];
      RefusedRestartIsFinal(es, init);
      ForgottenStep(Run(es + init), e);
      assert (es + fs)[..|es + fs| - 1] == es + init;
    }
  }

  // ---- bringing a frame to the bus without a reconfigure --------------------

  const PATIENT: Event := CtrlRuns(Luck(false, false, true, true, false))
  const TX: Event := TxRuns(None, false)

  /** The driver obeys, nothing fails, and no reconfigure is asked for. */
  predicate Smooth(fs: seq<Event>) {
    forall k :: 0 <= k < |fs| ==>
                  && (fs[k].CtrlRuns? ==> fs[k] == PATIENT)
                  && fs[k] != DriverDoes(Fails) && fs[k] != DriverDoes(GoesBusOff)
  }

  /** Nothing is taken from the ring. */
  predicate NoPops(fs: seq<Event>) { forall k :: 0 <= k < |fs| && fs[k].TxRuns? ==> fs[k].popped.None? }

  /** One more event, which leads to `c`. */
  lemma Then(b: Bridge, fs: seq<Event>, e: Event, c: Bridge) returns (gs: seq<Event>)
    requires Step(Play(b, fs), e) == c
    ensures gs == fs + [e] && Play(b, gs) == c
    ensures Smooth(fs) && Smooth([e]) ==> Smooth(gs)
    ensures NoPops(fs) && (e.TxRuns? ==> e.popped.None?) ==> NoPops(gs)
  {
    gs := fs + [e];
    assert gs[..|fs|] == fs && [e][0] == e;
    hide Step, Play;
  }

  lemma Joins(b: Bridge, fs: seq<Event>, gs: seq<Event>) returns (hs: seq<Event>)
    ensures hs == fs + gs && Play(b, hs) == Play(Play(b, fs), gs)
    ensures Smooth(fs) && Smooth(gs) ==> Smooth(hs)
    ensures NoPops(fs) && NoPops(gs) ==> NoPops(hs)
  {
    hs := fs + gs;
    PlayOn(b, fs, gs);
    hide Step, Play;
  }

  /** What a full alert service makes of a state at the head of the control task's loop. */
  function Serviced(b: Bridge): Bridge {
    var d := b.drv;
    var ev := if d.fail then [SaysFail] else if d.succ then [SaysOk] else [];
    var q := if ev != [] then Enqueue(b.events, ev[0]) else b.events;
    b.(drv := React(d.(succ := false, fail := false, off := false, recd := false), d.off, d.recd, true),
       events := if d.off then Enqueue(q, SaysAbort) else q)
  }

  /** The verdict an alert service finds. */
  function Found(d: Driver): Option<Verdict> {
    if d.fail then Some(SaysFail) else if d.succ then Some(SaysOk) else None
  }

  lemma Service(b: Bridge) returns (fs: seq<Event>)
    requires b.ctrl == Loop && !b.drv.run.Absent?
    ensures Smooth(fs) && NoPops(fs) && Play(b, fs) == Serviced(b)
  {
    hide Smooth, NoPops, Play, Step, React, Enqueue;
    var d := b.drv;
    var e := d.(succ := false, fail := false, off := false, recd := false);
    fs := ServiceReads(b);
    var gs := ServicePosts(b.(drv := React(e, d.off, d.recd, true), ctrl := Post(false, d.off, Found(d))));
    fs := Joins(b, fs, gs);
  }

  /** The alerts are read, cleared and acted upon. */
  lemma ServiceReads(b: Bridge) returns (fs: seq<Event>)
    requires b.ctrl == Loop && !b.drv.run.Absent?
    ensures Smooth(fs) && NoPops(fs)
    ensures var d := b.drv;
            var e := d.(succ := false, fail := false, off := false, recd := false);
            Play(b, fs) == b.(drv := React(e, d.off, d.recd, true), ctrl := Post(false, d.off, Found(d)))
  {
    hide Smooth, NoPops, Play, React, Enqueue;
    var d := b.drv;
    var e := d.(succ := false, fail := false, off := false, recd := false);
    PlayNone(b);
    SmoothCtrl();
    fs := Then(b, [], PATIENT, b.(ctrl := Alerts(false)));
    fs := Then(b, fs, PATIENT, b.(drv := e, ctrl := HasRead(false, d.off, d.recd, Found(d))));
    fs := Then(b, fs, PATIENT, b.(drv := React(e, d.off, d.recd, true), ctrl := Post(false, d.off, Found(d))));
  }

  /** The verdict found is posted, and an abort after a bus-off. */
  lemma ServicePosts(b: Bridge) returns (fs: seq<Event>)
    requires b.ctrl.Post? && !b.ctrl.quiet
    ensures Smooth(fs) && NoPops(fs)
    ensures var q := if b.ctrl.ev.Some? then Enqueue(b.events, b.ctrl.ev.value) else b.events;
            Play(b, fs) == b.(events := if b.ctrl.off then Enqueue(q, SaysAbort) else q, ctrl := Loop)
  {
    hide Smooth, NoPops, Play, React, Enqueue;
    var q := if b.ctrl.ev.Some? then Enqueue(b.events, b.ctrl.ev.value) else b.events;
    PlayNone(b);
    SmoothCtrl();
    fs := Then(b, [], PATIENT, b.(events := q, ctrl := if b.ctrl.off then PostAbort(false) else Loop));
    if b.ctrl.off {
      fs := Then(b, fs, PATIENT, b.(events := Enqueue(q, SaysAbort), ctrl := Loop));
    }
  }

  lemma PlayNone(b: Bridge)
    ensures Play(b, []) == b && Smooth([]) && NoPops([])
  {}

  lemma SmoothCtrl()
    ensures Smooth([PATIENT]) && Smooth([TX])
    ensures Smooth([DriverDoes(Sends)]) && Smooth([DriverDoes(Recovers)])
  {}

  /** The transmit task gets to work. */
  lemma GoesToWork(b: Bridge) returns (fs: seq<Event>)
    requires !Odd(b.cycle)
    ensures Smooth(fs) && NoPops(fs) && Play(b, fs) == b.(tx := Work, txAck := AckAfter(b.tx, b.txAck))
  {
    hide Smooth, NoPops, Play;
    PlayNone(b);
    SmoothCtrl();
    fs := [];
    var c := b.(txAck := AckAfter(b.tx, b.txAck));
    if b.tx.Park? {
      fs := Then(b, fs, TX, c.(tx := Parked));
    }
    if b.tx.Park? || b.tx.Parked? {
      fs := Then(b, fs, TX, c.(tx := Top));
    }
    if !b.tx.Work? {
      fs := Then(b, fs, TX, c.(tx := Work));
    }
  }

  /** The transmit task gets to work and makes its step there. */
  lemma Works(b: Bridge, popped: Option<Frame>) returns (fs: seq<Event>)
    requires !Odd(b.cycle)
    ensures Smooth(fs) && (popped.None? ==> NoPops(fs))
    ensures Play(b, fs) == TxStep(b.(tx := Work, txAck := AckAfter(b.tx, b.txAck)), popped, false)
  {
    hide Play, TxStep;
    fs := GoesToWork(b);
    fs := Then(b, fs, TxRuns(popped, false), TxStep(Play(b, fs), popped, false));
  }

  /** A driver that can send, at once or after its recovery. */
  predicate Usable(d: Driver) {
    !d.listen && !d.run.Absent? && (d.run == Stopped ==> d.recd)
  }

  predicate Sending(d: Driver) { d.run.Running? && !d.listen }

  /** Only the driver's condition has changed, and verdicts have come in. */
  predicate SameWork(b: Bridge, c: Bridge) {
    && (b.have, b.pending, b.inflight, b.ctrl) == (c.have, c.pending, c.inflight, c.ctrl)
    && (b.popped, b.done) == (c.popped, c.done)
  }

  /** How far the frame owned is from its confirmation. */
  function Rank(b: Bridge): nat {
    if !b.inflight then 3
    else if b.events != [] then if b.events[0].SaysOk? then 0 else 4
    else if b.drv.succ then 1
    else if b.drv.held != [] then 2
    else 5
  }

  lemma SameRank(b: Bridge, c: Bridge)
    requires c == b.(drv := b.drv.(run := c.drv.run, recd := c.drv.recd))
    ensures Rank(c) == Rank(b)
  {}

  /** No success is in sight that was not there before the service. */
  lemma RankServiced(b: Bridge)
    requires Inv(b) && b.ctrl == Loop && b.have && Rank(b) >= 2
    ensures Rank(Serviced(b)) >= 2
  {
    hide Handshake, Ledger, AllAborts;
  }

  /** From a bus-off or a recovery the driver comes back. */
  lemma ComesBack(b: Bridge) returns (fs: seq<Event>)
    requires Inv(b) && OffSeen(b) && b.ctrl == Loop && Usable(b.drv)
    ensures Smooth(fs) && NoPops(fs) && SameWork(b, Play(b, fs)) && Sending(Play(b, fs).drv)
    ensures b.have && Rank(b) >= 2 ==> Rank(Play(b, fs)) >= 2
  {
    hide Inv, Smooth, NoPops, Play, Enqueue;
    SmoothCtrl();
    PlayNone(b);
    fs := [];
    hide Rank;
    if b.drv.run == BusOff {
      fs := Service(b);
      PlayKeeps(b, fs);
      if b.have && Rank(b) >= 2 {
        RankServiced(b);
      }
    }
    var c := Play(b, fs);
    if c.drv.run == Recovering {
      fs := Then(b, fs, DriverDoes(Recovers), DriverStep(c, Recovers));
      SameRank(c, DriverStep(c, Recovers));
    }
    c := Play(b, fs);
    if c.drv.run == Stopped {
      PlayKeeps(b, fs);
      if b.have && Rank(b) >= 2 {
        RankServiced(c);
      }
      var gs := Service(c);
      fs := Joins(b, fs, gs);
    }
  }

  /** The frame owned has been let go, as one that was confirmed. */
  predicate Delivered(b: Bridge, c: Bridge) {
    && !c.have && c.popped == b.popped
    && |c.done| == |b.done| + 1 && c.done[..|b.done|] == b.done
    && c.done[|b.done|].frame == b.pending && c.done[|b.done|].confirmed
  }

  /** Without a reconfigure under way the cycle id is even. */
  lemma EvenAtLoop(b: Bridge)
    requires Inv(b) && b.ctrl == Loop
    ensures !Odd(b.cycle)
  {
    hide DriverSound, Ownership, Ledger;
  }

  /** The next thing that happens to the frame. */
  lemma Next(b: Bridge) returns (fs: seq<Event>)
    requires Inv(b) && b.ctrl == Loop && Sending(b.drv) && b.have
    ensures Smooth(fs) && NoPops(fs) && Play(b, fs).ctrl == Loop && Sending(Play(b, fs).drv)
    ensures if Rank(b) == 0 then Delivered(b, Play(b, fs))
            else SameFrame(b, Play(b, fs)) && Rank(Play(b, fs)) < Rank(b) && (Rank(b) > 2 ==> Rank(Play(b, fs)) >= 2)
  {
    EvenAtLoop(b);
    hide Smooth, NoPops, Play, Handshake, Ledger;
    SmoothCtrl();
    PlayNone(b);
    if Rank(b) in {0, 3, 4} {
      fs := Works(b, None);
    } else if Rank(b) == 2 {
      fs := Then(b, [], DriverDoes(Sends), DriverStep(b, Sends));
    } else {
      fs := Service(b);
    }
  }

  predicate SameFrame(b: Bridge, c: Bridge) {
    (b.have, b.pending, b.popped, b.done) == (c.have, c.pending, c.popped, c.done)
  }

  lemma {:induction false} Confirm(b: Bridge) returns (fs: seq<Event>)
    requires Inv(b) && OffSeen(b) && b.ctrl == Loop && Sending(b.drv) && b.have
    ensures Smooth(fs) && NoPops(fs) && Play(b, fs).ctrl == Loop && Sending(Play(b, fs).drv)
    ensures Delivered(b, Play(b, fs))
    decreases Rank(b)
  {
    hide Inv, OffSeen, Smooth, NoPops, Play, Rank, Sending;
    fs := Next(b);
    if Rank(b) > 0 {
      PlayKeeps(b, fs);
      var gs := Confirm(Play(b, fs));
      fs := Joins(b, fs, gs);
    }
  }

  /** A frame whose success is not known is handed to the driver again. */
  lemma {:induction false} Resubmit(b: Bridge) returns (fs: seq<Event>)
    requires Inv(b) && OffSeen(b) && b.ctrl == Loop && Sending(b.drv) && b.have && Rank(b) >= 2
    ensures Smooth(fs) && Play(b, fs).ctrl == Loop && Sending(Play(b, fs).drv)
    ensures SameFrame(b, Play(b, fs)) && Rank(Play(b, fs)) == 2
    decreases Rank(b)
  {
    hide Inv, OffSeen, Smooth, NoPops, Play, Rank, Sending;
    if Rank(b) == 2 {
      fs := [];
      PlayNone(b);
    } else {
      fs := Next(b);
      PlayKeeps(b, fs);
      var gs := Resubmit(Play(b, fs));
      fs := Joins(b, fs, gs);
    }
  }

  /**
   After a bus-off with a copy in the driver, nothing but alert services, the driver's
   recovery and steps of the transmit task is needed to have the driver running and the
   same frame in it again.
   */
  lemma HeldAgain(es: seq<Event>) returns (fs: seq<Event>)
    requires Run(es).drv.run == BusOff && Run(es).drv.held != [] && !Run(es).drv.listen && Run(es).ctrl == Loop
    ensures Smooth(fs)
    ensures var b, c := Run(es), Run(es + fs);
            c.drv.run == Running && c.drv.held == [b.pending] && c.inflight && SameFrame(b, c)
  {
    hide Run, Smooth, NoPops, Play;
    Reached(es);
    var b := Run(es);
    hide Handshake, Ledger;
    fs := ComesBack(b);
    PlayKeeps(b, fs);
    var gs := Resubmit(Play(b, fs));
    PlayKeeps(Play(b, fs), gs);
    fs := Joins(b, fs, gs);
    RunOn(es, fs);
  }

  /** A usable driver brings the frame owned to the bus, and has it confirmed, without a reconfigure. */
  lemma ConfirmedInPlace(es: seq<Event>) returns (fs: seq<Event>)
    requires Run(es).ctrl == Loop && Usable(Run(es).drv) && Run(es).have
    ensures Smooth(fs) && Delivered(Run(es), Run(es + fs))
    ensures Run(es + fs).ctrl == Loop && Sending(Run(es + fs).drv)
  {
    hide Run, Smooth, NoPops, Play, Inv, OffSeen, Sending, Usable;
    Reached(es);
    var b := Run(es);
    fs := ComesBack(b);
    PlayKeeps(b, fs);
    var gs := Confirm(Play(b, fs));
    fs := Joins(b, fs, gs);
    RunOn(es, fs);
  }

  // ---- from anywhere --------------------------------------------------------

  /** The settings of a reconfigure; a failing boot is allowed for. */
  function Settings(b: Bridge, busOn: bool, listen: bool): Event {
    CtrlRuns(Luck(false, true, !b.ctrl.Boot?, busOn, listen))
  }

  /** How many steps the control task is from the head of its loop. */
  function ToGo(c: Ctrl): nat {
    match c
    case Loop => 0
    case Boot => 1
    case Wait(sawRx) => if sawRx then 13 else 14
    case Abandon => 5
    case Alerts(quiet) => 4 + AfterQuiet(quiet)
    case HasRead(quiet, off, _, _) => (if off then 3 else 2) + AfterQuiet(quiet)
    case Post(quiet, off, _) => (if off then 2 else 1) + AfterQuiet(quiet)
    case PostAbort(quiet) => 1 + AfterQuiet(quiet)
    case Teardown => 8
    case Install => 7
    case AbortAll => 6
    case End => 5
  }

  function AfterQuiet(quiet: bool): nat { if quiet then 8 else 0 }

  /** The driver is as the settings want it. */
  predicate Installed(d: Driver, busOn: bool, listen: bool) {
    if busOn then d.run == Running && d.listen == listen && !d.off && !d.recd else d.run == Absent
  }

  /** A reconfigure that will apply the settings, or has applied them. */
  predicate Applies(b: Bridge, busOn: bool, listen: bool) {
    match b.ctrl
    case Wait(_) => b.rxAck == b.cycle && b.txAck == b.cycle && b.drv.run !in {Recovering, BusOff}
    case Install => b.drv.run == Absent
    case _ =>
      if Requesting(b.ctrl) && !b.ctrl.AbortAll? && !b.ctrl.End? then
        !b.ctrl.Abandon? && b.drv.run !in {Recovering, BusOff}
      else Installed(b.drv, busOn, listen)
  }

  /** One step of the control task towards that, with what it does to the settings. */
  predicate Homeward(b: Bridge, c: Bridge, busOn: bool, listen: bool) {
    && ToGo(c.ctrl) < ToGo(b.ctrl)
    && SameFrame(b, c) && (c.drv.listen ==> b.drv.listen || listen)
    && (Applies(b, busOn, listen) ==> Applies(c, busOn, listen))
  }

  lemma HomeBefore(b: Bridge, busOn: bool, listen: bool)
    requires b.ctrl.Boot? || b.ctrl.Wait? || b.ctrl.Abandon? || b.ctrl.Teardown? || b.ctrl.Install?
    requires b.ctrl.Boot? ==> b.drv.run == Absent
    ensures Homeward(b, CtrlStep(b, Settings(b, busOn, listen).luck), busOn, listen)
  {}

  /** Reading the alerts leaves everything else as it is. */
  lemma OnlyReads(b: Bridge, quiet: bool)
    ensures var c := ReadAlerts(b, quiet);
            && SameFrame(b, c) && (c.drv.run, c.drv.listen) == (b.drv.run, b.drv.listen)
            && (if b.drv.run.Absent? then c.ctrl == AfterAlerts(quiet) && c.drv == b.drv
                else !c.drv.off && !c.drv.recd && c.ctrl.HasRead? && c.ctrl.quiet == quiet && c.ctrl.off == b.drv.off)
  {}

  lemma HomeRead(b: Bridge, busOn: bool, listen: bool)
    requires b.ctrl.Alerts? && (b.drv.off ==> b.drv.run == BusOff) && (b.drv.run != Stopped ==> !b.drv.recd)
    ensures Homeward(b, CtrlStep(b, Settings(b, busOn, listen).luck), busOn, listen)
  {
    OnlyReads(b, b.ctrl.quiet);
    assert CtrlStep(b, Settings(b, busOn, listen).luck) == ReadAlerts(b, b.ctrl.quiet);
    hide CtrlStep, ReadAlerts;
  }

  lemma HomeAfter(b: Bridge, busOn: bool, listen: bool)
    requires b.ctrl.Post? || b.ctrl.PostAbort? || b.ctrl.AbortAll? || b.ctrl.End?
    ensures Homeward(b, CtrlStep(b, Settings(b, busOn, listen).luck), busOn, listen)
  {
    hide Enqueue, React, Uninstall, Started;
  }

  lemma HomeReact(b: Bridge, busOn: bool, listen: bool)
    requires b.ctrl.HasRead? && (b.ctrl.off ==> b.drv.run == BusOff) && (b.ctrl.recd ==> b.drv.run == Stopped)
    ensures Homeward(b, CtrlStep(b, Settings(b, busOn, listen).luck), busOn, listen)
  {
    hide Enqueue;
  }

  lemma OneStepHome(b: Bridge, busOn: bool, listen: bool)
    requires Inv(b) && b.ctrl != Loop
    ensures Homeward(b, CtrlStep(b, Settings(b, busOn, listen).luck), busOn, listen)
  {
    hide CtrlStep, Homeward, Handshake, Ownership, Ledger;
    if b.ctrl.Alerts? {
      HomeRead(b, busOn, listen);
    } else if b.ctrl.HasRead? {
      HomeReact(b, busOn, listen);
    } else if b.ctrl.Post? || b.ctrl.PostAbort? || b.ctrl.AbortAll? || b.ctrl.End? {
      HomeAfter(b, busOn, listen);
    } else {
      HomeBefore(b, busOn, listen);
    }
  }

  /** The control task comes back to the head of its loop, applying the settings if a reconfigure is under way. */
  lemma {:induction false} GoesHome(b: Bridge, busOn: bool, listen: bool) returns (fs: seq<Event>)
    requires Inv(b) && OffSeen(b)
    ensures NoPops(fs)
    ensures var c := Play(b, fs);
            && c.ctrl == Loop && SameFrame(b, c) && (c.drv.listen ==> b.drv.listen || listen)
            && (Applies(b, busOn, listen) ==> Installed(c.drv, busOn, listen))
    decreases ToGo(b.ctrl)
  {
    hide Inv, OffSeen, Play, CtrlStep, Smooth, NoPops, Installed;
    PlayNone(b);
    fs := [];
    if b.ctrl != Loop {
      OneStepHome(b, busOn, listen);
      var e := Settings(b, busOn, listen);
      fs := Then(b, [], e, CtrlStep(b, e.luck));
      PlayKeeps(b, fs);
      hide ToGo, Applies;
      var gs := GoesHome(Play(b, fs), busOn, listen);
      fs := Joins(b, fs, gs);
    }
  }

  /** The receive task acknowledges the request outstanding. */
  lemma RxParks(b: Bridge) returns (fs: seq<Event>)
    requires Odd(b.cycle)
    ensures NoPops(fs) && Play(b, fs) == b.(rx := Parked, rxAck := b.cycle)
  {
    hide Smooth, NoPops, Play;
    PlayNone(b);
    fs := [];
    var c := b.(rxAck := AckAfter(b.rx, b.rxAck));
    if b.rx.Park? {
      fs := Then(b, fs, RxRuns, c.(rx := Parked));
    } else if b.rx.Work? {
      fs := Then(b, fs, RxRuns, c.(rx := Top));
    }
    fs := Then(b, fs, RxRuns, c.(rx := Park(b.cycle)));
    fs := Then(b, fs, RxRuns, b.(rx := Parked, rxAck := b.cycle));
  }

  /** The frame owned has been let go: confirmed, or refused by a driver that only listens. */
  predicate Settles(b: Bridge, c: Bridge) {
    && b.have && !c.have && c.popped == b.popped
    && |c.done| == |b.done| + 1 && c.done[..|b.done|] == b.done
    && c.done[|b.done|].frame == b.pending && (c.done[|b.done|].confirmed || b.drv.listen)
  }

  /** The frame owned is the same, or it has been let go. */
  predicate Moves(b: Bridge, c: Bridge) { SameFrame(b, c) || Settles(b, c) }

  const BUSY: Event := TxRuns(None, true)

  /** The transmit task ends the step it is at, if it is at work, without a new submit. */
  lemma TxEnds(b: Bridge) returns (fs: seq<Event>)
    ensures NoPops(fs)
    ensures var c := Play(b, fs);
            && Moves(b, c) && !c.tx.Work? && !c.tx.Park?
            && (c.ctrl, c.cycle, c.drv, c.rx, c.rxAck) == (b.ctrl, b.cycle, b.drv, b.rx, b.rxAck)
  {
    hide Smooth, NoPops, Play;
    PlayNone(b);
    fs := [];
    if b.tx.Work? || b.tx.Park? {
      fs := Then(b, fs, BUSY, TxStep(b, None, true));
    }
  }

  lemma TxParks(b: Bridge) returns (fs: seq<Event>)
    requires Odd(b.cycle)
    ensures NoPops(fs)
    ensures var c := Play(b, fs);
            && Moves(b, c) && c.txAck == b.cycle
            && (c.ctrl, c.cycle, c.drv, c.rx, c.rxAck) == (b.ctrl, b.cycle, b.drv, b.rx, b.rxAck)
  {
    hide Smooth, NoPops, Play, Moves;
    fs := TxEnds(b);
    var c := Play(b, fs);
    fs := Then(b, fs, BUSY, c.(tx := Park(b.cycle)));
    fs := Then(b, fs, BUSY, c.(tx := Parked, txAck := b.cycle));
    SameMoves(b, c, Play(b, fs));
  }

  lemma SameMoves(b: Bridge, c: Bridge, d: Bridge)
    requires Moves(b, c) && SameFrame(c, d)
    ensures Moves(b, d)
  {}

  /** At the head of the control task's loop, with a driver that can be uninstalled: the settings can be applied. */
  lemma Reconfigures(b: Bridge, busOn: bool, listen: bool) returns (fs: seq<Event>)
    requires Inv(b) && OffSeen(b) && b.ctrl == Loop && b.drv.run !in {Recovering, BusOff}
    ensures NoPops(fs)
    ensures var c := Play(b, fs);
            c.ctrl == Loop && Installed(c.drv, busOn, listen) && Moves(b, c)
  {
    hide Inv, OffSeen, Play, Smooth, NoPops, Installed, Moves;
    PlayNone(b);
    EvenAtLoop(b);
    var request := CtrlRuns(Luck(true, false, true, busOn, listen));
    var c := b.(cycle := b.cycle + 1, ctrl := Wait(false));
    fs := Then(b, [], request, c);
    var gs := RxParks(c);
    fs := Joins(b, fs, gs);
    gs := TxParks(Play(b, fs));
    SameBefore(b, Play(b, fs), Play(Play(b, fs), gs));
    fs := Joins(b, fs, gs);
    PlayKeeps(b, fs);
    var d := Play(b, fs);
    gs := GoesHome(d, busOn, listen);
    fs := Joins(b, fs, gs);
    SameMoves(b, d, Play(b, fs));
  }

  lemma SameBefore(b: Bridge, c: Bridge, d: Bridge)
    requires SameFrame(b, c) && c.drv == b.drv && Moves(c, d)
    ensures Moves(b, d)
  {}

  /** The driver leaves a bus-off and a recovery behind. */
  lemma Calms(b: Bridge) returns (fs: seq<Event>)
    requires Inv(b) && OffSeen(b) && b.ctrl == Loop
    ensures NoPops(fs)
    ensures var c := Play(b, fs);
            c.ctrl == Loop && c.drv.run !in {Recovering, BusOff} && SameFrame(b, c) && c.drv.listen == b.drv.listen
  {
    hide Inv, Play, Smooth, NoPops, Enqueue;
    PlayNone(b);
    fs := [];
    if b.drv.run == BusOff {
      fs := Service(b);
    }
    var c := Play(b, fs);
    if c.drv.run == Recovering {
      fs := Then(b, fs, DriverDoes(Recovers), DriverStep(c, Recovers));
    }
  }

  /** The settings can be applied from any state. */
  lemma Applied(b: Bridge, busOn: bool, listen: bool) returns (fs: seq<Event>)
    requires Inv(b) && OffSeen(b)
    ensures NoPops(fs)
    ensures var c := Play(b, fs); c.ctrl == Loop && Installed(c.drv, busOn, listen) && Moves(b, c)
  {
    hide Inv, OffSeen, Play, NoPops, Smooth, Installed, Moves;
    fs := GoesHome(b, busOn, false);
    PlayKeeps(b, fs);
    var gs := Calms(Play(b, fs));
    fs := Joins(b, fs, gs);
    PlayKeeps(b, fs);
    var c := Play(b, fs);
    gs := Reconfigures(c, busOn, listen);
    fs := Joins(b, fs, gs);
    Before(b, c, Play(b, fs));
  }

  /**
   From every state a run may reach, the driver dead, listening, off the bus, or in the
   middle of a reconfigure included, the settings of a reconfigure can be brought into
   force; the frame owned, if it is let go on the way, is confirmed, or was refused by a
   driver that only listened.
   */
  lemma SettingsCanBeApplied(es: seq<Event>, busOn: bool, listen: bool) returns (fs: seq<Event>)
    ensures var b, c := Run(es), Run(es + fs);
            c.ctrl == Loop && Installed(c.drv, busOn, listen) && Moves(b, c)
  {
    hide Run, Inv, OffSeen, Play, Installed, Moves;
    Reached(es);
    fs := Applied(Run(es), busOn, listen);
    RunOn(es, fs);
  }

  lemma Before(b: Bridge, c: Bridge, d: Bridge)
    requires SameFrame(b, c) && (c.drv.listen ==> b.drv.listen) && Moves(c, d)
    ensures Moves(b, d)
  {}

  /** Everything taken from the ring has been let go, and `f` after it, confirmed. */
  predicate AllOut(b: Bridge, c: Bridge, f: Frame) {
    && !c.have && c.popped == b.popped + [f]
    && |c.done| == |b.done| + (if b.have then 2 else 1) && c.done[..|b.done|] == b.done
    && (b.have ==> c.done[|b.done|].frame == b.pending && (c.done[|b.done|].confirmed || b.drv.listen))
    && c.done[|c.done| - 1].frame == f && c.done[|c.done| - 1].confirmed
  }

  /** The frame owned is let go, and the driver sends. */
  lemma Clears(b: Bridge) returns (fs: seq<Event>)
    requires Inv(b) && OffSeen(b)
    ensures NoPops(fs)
    ensures var c := Play(b, fs); c.ctrl == Loop && Sending(c.drv) && Gone(b, c)
  {
    hide Inv, OffSeen, Play, NoPops, Smooth, Moves, Gone, Delivered;
    fs := Applied(b, true, false);
    PlayKeeps(b, fs);
    var gs := Empties(Play(b, fs));
    EmptyNow(b, Play(b, fs), Play(Play(b, fs), gs));
    fs := Joins(b, fs, gs);
  }

  /**
   No state a run may reach is a dead end: the frame owned can be let go, refused at
   most by a driver that only listened, and the next one can be popped, brought to the
   bus and confirmed.
   */
  lemma NeverStuck(es: seq<Event>, f: Frame) returns (fs: seq<Event>)
    ensures AllOut(Run(es), Run(es + fs), f)
  {
    hide Run, Inv, OffSeen, Play, NoPops, Smooth, AllOut, Gone, Delivered;
    Reached(es);
    var b := Run(es);
    fs := Clears(b);
    PlayKeeps(b, fs);
    var c := Play(b, fs);
    IsGone(b, c);
    var gs := Serves(c, f);
    AllGone(b, c, Play(c, gs), f);
    fs := Joins(b, fs, gs);
    RunOn(es, fs);
  }

  lemma IsGone(b: Bridge, c: Bridge)
    requires Gone(b, c)
    ensures !c.have
  {}

  /** The frame owned is confirmed. */
  lemma Empties(b: Bridge) returns (fs: seq<Event>)
    requires Inv(b) && OffSeen(b) && b.ctrl == Loop && Sending(b.drv)
    ensures NoPops(fs)
    ensures var c := Play(b, fs);
            c.ctrl == Loop && Sending(c.drv) && if b.have then Delivered(b, c) else c == b
  {
    hide Inv, OffSeen, Play, Delivered, Smooth, NoPops;
    PlayNone(b);
    fs := [];
    if b.have {
      fs := Confirm(b);
    }
  }

  /** The next frame is popped and confirmed. */
  lemma Serves(b: Bridge, f: Frame) returns (fs: seq<Event>)
    requires Inv(b) && OffSeen(b) && b.ctrl == Loop && Sending(b.drv) && !b.have
    ensures Delivered(Popped(b, f), Play(b, fs))
  {
    hide Inv, OffSeen, Play, Smooth, NoPops;
    EvenAtLoop(b);
    fs := Works(b, Some(f));
    PlayKeeps(b, fs);
    var c := Play(b, fs);
    var gs := Confirm(c);
    fs := Joins(b, fs, gs);
  }

  /** Whatever became of the frame on the way, it is gone in the end. */
  predicate Gone(b: Bridge, c: Bridge) {
    !c.have && if b.have then Settles(b, c) else c.popped == b.popped && c.done == b.done
  }

  lemma EmptyNow(b: Bridge, c: Bridge, d: Bridge)
    requires Moves(b, c) && if c.have then Delivered(c, d) else d == c
    ensures Gone(b, d)
  {}

  lemma AllGone(b: Bridge, c: Bridge, d: Bridge, f: Frame)
    requires Gone(b, c) && Delivered(Popped(c, f), d)
    ensures AllOut(b, d, f)
  {
    assert d.done[..|b.done|] == d.done[..|c.done|][..|b.done|];
    if b.have {
      assert d.done[|b.done|] == d.done[..|c.done|][|b.done|];
    }
  }

  // ---- what becomes of a frame at work --------------------------------------

  /** The transmit task is about to act on the frame it owns, which no driver holds. */
  predicate Offering(b: Bridge, e: Event) { e.TxRuns? && b.tx.Work? && b.have && !b.inflight }

  predicate Judging(b: Bridge, e: Event) { e.TxRuns? && b.tx.Work? && b.inflight && b.events != [] }

  /**
   In every run a frame is let go exactly when an OK is taken for it or when it is
   offered to a driver that only listens, and it is confirmed in the first case alone;
   it is handed to the driver exactly when it is offered to one that runs, does not
   listen and takes it; in all other cases it stays the task's own.
   */
  lemma FateIsDecided(es: seq<Event>, e: Event)
    ensures var b, c := Run(es), Step(Run(es), e);
            var ok := Judging(b, e) && b.events[0] == SaysOk;
            var refused := Offering(b, e) && b.drv.run != Absent && b.drv.listen;
            var taken := Offering(b, e) && b.drv.run == Running && !b.drv.listen && !e.busy;
            && (if ok || refused then
                  !c.have && c.done == b.done + [Done(b.pending, b.copies, b.lost, ok)]
                else c.done == b.done && (b.have ==> c.have && c.pending == b.pending))
            && (taken <==> !b.inflight && c.inflight)
            && (taken ==> c.drv.held == [b.pending] && c.events == [])
  {
    Reached(es);
    var b := Run(es);
    hide Run, Handshake, Ledger, Fresh, AllAborts, OffSeen;
    match e
    case TxRuns(popped, busy) => hide AckAfter;
    case CtrlRuns(k) => CtrlLeavesFrame(b, k);
    case _ =>
    hide CtrlStep;
  }

  lemma CtrlLeavesFrame(b: Bridge, k: Luck)
    ensures var c := CtrlStep(b, k); (c.have, c.pending, c.inflight, c.done) == (b.have, b.pending, b.inflight, b.done)
  {
    hide React, Uninstall, Started, Enqueue;
  }
}
