/**
 Exactly once is not what the transmit path gives: a run in which a success raised
 after the last alert read is erased by the teardown, so that the frame goes out twice.
 Each lemma extends a run by one stage.
 */
module BridgeDuplicate {
  import opened Words
  import opened PcanMsg
  import opened BridgeModel
  import opened BridgeSafety

  const REQUEST: Event := CtrlRuns(Luck(true, false, true, true, false))
  const GRANTED: Event := CtrlRuns(Luck(false, false, true, true, false))
  const TX: Event := TxRuns(None, false)

  lemma Extend(es: seq<Event>, e: Event)
    ensures Run(es + [e]) == Step(Run(es), e)
  {
    assert (es + [e])[..|es|] == es;
    hide Step;
  }

  /** One more event, which leads to `b`. */
  lemma Then(es: seq<Event>, e: Event, b: Bridge) returns (fs: seq<Event>)
    requires Step(Run(es), e) == b
    ensures Run(fs) == b
  {
    fs := es + [e];
    Extend(es, e);
    hide Step;
  }

  predicate AtRest(b: Bridge) {
    b.ctrl == Loop && !Odd(b.cycle) && (b.rx.Top? || b.rx.Parked?) && (b.tx.Top? || b.tx.Parked?)
  }

  /** No alert bit is set. */
  predicate NoAlerts(d: Driver) { !d.succ && !d.fail && !d.off && !d.recd }

  /** The control task asks, both TWAI tasks park, and it goes on. */
  lemma Quiesce(es: seq<Event>) returns (fs: seq<Event>)
    requires AtRest(Run(es))
    ensures var b, c := Run(es), Run(fs);
            c == b.(cycle := b.cycle + 1, rxAck := b.cycle + 1, txAck := b.cycle + 1,
                    rx := Parked, tx := Parked, ctrl := Alerts(true))
  {
    hide Run;
    var n := Run(es).cycle + 1;
    var b := Run(es).(cycle := n, ctrl := Wait(false));
    fs := Then(es, REQUEST, b);
    fs := Then(fs, RxRuns, b.(rx := Park(n)));
    fs := Then(fs, RxRuns, b.(rxAck := n, rx := Parked));
    fs := Then(fs, TX, b.(rxAck := n, rx := Parked, tx := Park(n)));
    b := b.(rxAck := n, txAck := n, rx := Parked, tx := Parked);
    fs := Then(fs, TX, b);
    fs := Then(fs, GRANTED, b.(ctrl := Wait(true)));
    fs := Then(fs, GRANTED, b.(ctrl := Alerts(true)));
  }

  /** Three steps over alerts that are not there. */
  lemma PassAlerts(es: seq<Event>) returns (fs: seq<Event>)
    requires Run(es).ctrl.Alerts? && NoAlerts(Run(es).drv) && Run(es).drv.run == Running
    ensures Run(fs) == Run(es).(ctrl := AfterAlerts(Run(es).ctrl.quiet))
  {
    hide Run;
    var b, q := Run(es), Run(es).ctrl.quiet;
    fs := Then(es, GRANTED, b.(ctrl := HasRead(q, false, false, None)));
    fs := Then(fs, GRANTED, b.(ctrl := Post(q, false, None)));
    fs := Then(fs, GRANTED, b.(ctrl := AfterAlerts(q)));
  }

  /** Teardown, fresh install for sending, the abort, release, and a look at the new driver's alerts. */
  lemma Reinstall(es: seq<Event>) returns (fs: seq<Event>)
    requires Run(es).ctrl == Teardown && Run(es).drv.run == Running && Run(es).events == []
    ensures var b := Run(es);
            Run(fs) == b.(cycle := b.cycle + 1, ctrl := Loop,
                          drv := Driver(Running, false, [], false, false, false, false),
                          events := [SaysAbort], lost := b.lost + if b.drv.succ then 1 else 0)
  {
    hide Run;
    var b, d := Run(es), Driver(Running, false, [], false, false, false, false);
    var lost := b.lost + if b.drv.succ then 1 else 0;
    fs := Then(es, GRANTED, b.(drv := NO_DRIVER.(listen := b.drv.listen), ctrl := Install, lost := lost));
    fs := Then(fs, GRANTED, b.(drv := d, ctrl := AbortAll, lost := lost));
    fs := Then(fs, GRANTED, b.(drv := d, ctrl := End, lost := lost, events := [SaysAbort]));
    fs := Then(fs, GRANTED, b.(drv := d, ctrl := Alerts(false), lost := lost, events := [SaysAbort],
                               cycle := b.cycle + 1));
    hide Step;
    fs := PassAlerts(fs);
  }

  /** The transmit task leaves the park. */
  lemma Resume(es: seq<Event>) returns (fs: seq<Event>)
    requires Run(es).tx == Parked && !Odd(Run(es).cycle)
    ensures Run(fs) == Run(es).(tx := Work)
  {
    hide Run;
    fs := Then(es, TX, Run(es).(tx := Top));
    fs := Then(fs, TX, Run(es).(tx := Work));
  }

  lemma Sending(es: seq<Event>) returns (fs: seq<Event>)
    requires Run(es).tx == Work && Run(es).have && !Run(es).inflight
    requires Run(es).drv == Driver(Running, false, [], false, false, false, false)
    ensures var b := Run(es);
            Run(fs) == b.(tx := Top, events := [], drv := b.drv.(held := [b.pending]), inflight := true)
  {
    hide Run;
    var b := Run(es);
    fs := Then(es, TX, b.(tx := Top, events := [], drv := b.drv.(held := [b.pending]), inflight := true));
  }

  /** Boot, first reconfigure, one frame popped and submitted. */
  lemma FirstSubmit(f: Frame) returns (es: seq<Event>)
    ensures var b := Run(es);
            && AtRest(b) && b.have && b.pending == f && b.inflight && b.events == [] && b.wire == [] && b.popped == [f]
            && b.lost == 0 && b.drv == Driver(Running, false, [f], false, false, false, false)
  {
    assert Run([]) == START;
    hide Run;
    es := Then([], GRANTED, START.(ctrl := Loop, drv := Driver(Running, true, [], false, false, false, false)));
    es := Quiesce(es);
    es := PassAlerts(es);
    es := Reinstall(es);
    es := Resume(es);
    es := Then(es, TxRuns(Some(f), false), Popped(Run(es), f));
    hide Step;
    es := Sending(es);
  }

  /** The second reconfigure: the frame is sent between the alert read and the teardown. */
  lemma FrameSentTwice(f: Frame) returns (es: seq<Event>)
    ensures Run(es).popped == [f] && Run(es).wire == [f, f]
  {
    hide Run;
    es := FirstSubmit(f);
    es := Quiesce(es);
    es := PassAlerts(es);
    es := Transmits(es, f);
    es := Reinstall(es);
    es := Resume(es);
    es := Then(es, TX, Run(es).(tx := Top, events := [], inflight := false));
    es := Then(es, TX, Run(es).(tx := Work));
    hide Step;
    es := Sending(es);
    es := Transmits(es, f);
  }

  /** The driver sends the frame it holds. */
  lemma Transmits(es: seq<Event>, f: Frame) returns (fs: seq<Event>)
    requires Run(es).drv == Driver(Running, false, [f], false, false, false, false)
    ensures var b := Run(es);
            Run(fs) == b.(drv := Driver(Running, false, [], true, false, false, false), wire := b.wire + [f],
                          copies := b.copies + 1)
  {
    hide Run;
    var b := Run(es);
    fs := Then(es, DriverDoes(Sends), b.(drv := Driver(Running, false, [], true, false, false, false),
                                        wire := b.wire + [f], copies := b.copies + 1));
  }
}
