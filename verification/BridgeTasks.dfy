/**
 The three tasks of main/main.c as loops over the shared words, the verdict queue and
 their own locals. Before every access to shared state the other tasks and the driver
 run; the access itself is one step of module BridgeModel. Each loop is proved to be
 exactly the run of that machine in which these steps follow one another. The loops are
 endless; the list of turns says how far they are followed.
 */
module BridgeTasks {
  import opened Words
  import opened PcanMsg
  import opened BridgeModel
  import BridgeSafety

  /** What happens before a task's next access to shared state, and that access with what it meets. */
  datatype Turn = Turn(others: seq<Event>, own: Event)

  type RxTurn = t: Turn | t.own.RxRuns? witness Turn([], RxRuns)
  type TxTurn = t: Turn | t.own.TxRuns? witness Turn([], TxRuns(None, false))
  type CtrlTurn = t: Turn | t.own.CtrlRuns? witness Turn([], CtrlRuns(Luck(false, false, false, false, false)))

  datatype Task = RxTask | TxTask | CtrlTask

  function TaskOf(e: Event): Option<Task> {
    match e
    case RxRuns => Some(RxTask)
    case TxRuns(_, _) => Some(TxTask)
    case CtrlRuns(_) => Some(CtrlTask)
    case DriverDoes(_) => None
  }

  /** The steps among `es` that are not this task's own. */
  function OthersOf(me: Task, es: seq<Event>): seq<Event> {
    if es == [] then []
    else OthersOf(me, es[..|es| - 1]) + if TaskOf(es[|es| - 1]) == Some(me) then [] else [es[|es| - 1]]
  }

  /** The first `n` turns, as steps of the machine. */
  function Played(me: Task, turns: seq<Turn>, n: nat): seq<Event>
    requires n <= |turns|
  {
    if n == 0 then [] else Played(me, turns, n - 1) + OthersOf(me, turns[n - 1].others) + [turns[n - 1].own]
  }

  class BridgeObject {
    var cycle: nat
    var rxAck: nat
    var txAck: nat
    var drv: Driver
    var events: seq<Verdict>
    var have: bool
    var pending: Frame
    var inflight: bool
    // where the tasks stand, and history
    var rx: Place
    var tx: Place
    var ctrl: Ctrl
    var popped: seq<Frame>
    var wire: seq<Frame>
    var done: seq<Done>
    var copies: nat
    var lost: nat
    ghost var trace: seq<Event>

    function State(): Bridge
      reads this
    {
      Bridge(cycle, rxAck, txAck, rx, tx, ctrl, drv, events, have, pending, inflight, popped, wire, done, copies, lost)
    }

    /** The machine has come to this state. */
    ghost predicate Valid()
      reads this
    {
      State() == Run(trace)
    }

    /** The machine has come here from `past` by the first `i` turns of a task. */
    ghost predicate Reached(me: Task, past: seq<Event>, turns: seq<Turn>, i: nat)
      reads this
      requires i <= |turns|
    {
      Valid() && trace == past + Played(me, turns, i)
    }

    /** The others have run, and the access of turn `i` is next. */
    ghost predicate Next(me: Task, past: seq<Event>, turns: seq<Turn>, i: nat)
      reads this
      requires i < |turns|
    {
      Valid() && trace == past + Played(me, turns, i) + OthersOf(me, turns[i].others)
    }

    constructor ()
      ensures Valid() && State() == START
    {
      cycle, rxAck, txAck, rx, tx, ctrl := 0, 0, 0, Top, Top, Boot;
      drv, events := NO_DRIVER, [];
      have, pending, inflight := false, BLANK, false;
      popped, wire, done, copies, lost := [], [], [], 0, 0;
      trace := [];
    }

    /** The access of turn `i` has been made. */
    ghost method Record(me: Task, past: seq<Event>, turns: seq<Turn>, i: nat)
      requires i < |turns| && State() == Step(Run(trace), turns[i].own)
      requires trace == past + Played(me, turns, i) + OthersOf(me, turns[i].others)
      modifies this`trace
      ensures Reached(me, past, turns, i + 1)
    {
      hide Step, Run, OthersOf;
      Extended(trace, turns[i].own);
      trace := trace + [turns[i].own];
      Regroup(past, Played(me, turns, i), OthersOf(me, turns[i].others), [turns[i].own]);
    }

    /** The others run. */
    method Await(me: Task, ghost past: seq<Event>, turns: seq<Turn>, i: nat)
      requires i < |turns| && Reached(me, past, turns, i)
      modifies this
      ensures Next(me, past, turns, i)
      ensures me == RxTask ==> rx == old(rx)
      ensures me == TxTask ==> (tx, have, pending, inflight) == old((tx, have, pending, inflight))
      ensures me == CtrlTask ==> (ctrl, cycle) == old((ctrl, cycle))
    {
      hide Run, Played, OthersOf;
      var s := Elsewhere(me, State(), trace, turns[i].others);
      trace := trace + OthersOf(me, turns[i].others);
      Become(s);
    }

    method Become(s: Bridge)
      modifies this
      ensures State() == s && trace == old(trace)
    {
      BecomeShared(s);
      have, pending, inflight := s.have, s.pending, s.inflight;
      popped, wire, done := s.popped, s.wire, s.done;
      copies, lost := s.copies, s.lost;
    }

    method BecomeShared(s: Bridge)
      modifies this`cycle, this`rxAck, this`txAck, this`rx, this`tx, this`ctrl, this`drv, this`events
      ensures cycle == s.cycle && rxAck == s.rxAck && txAck == s.txAck && drv == s.drv && events == s.events
      ensures rx == s.rx && tx == s.tx && ctrl == s.ctrl
    {
      cycle, rxAck, txAck := s.cycle, s.rxAck, s.txAck;
      drv, events := s.drv, s.events;
      rx, tx, ctrl := s.rx, s.tx, s.ctrl;
    }

    // ---- twai_rx_task -------------------------------------------------------

    /** quiesce_park, entered with the cycle id `first`. */
    method ParkRx(ghost past: seq<Event>, turns: seq<RxTurn>, from: nat, first: nat) returns (i: nat)
      requires from <= |turns| && Reached(RxTask, past, turns, from) && rx == Park(first)
      modifies this
      ensures from <= i <= |turns| && Reached(RxTask, past, turns, i) && (i < |turns| ==> rx == Top)
    {
      hide Run, Step, Played, OthersOf;
      var seen := first;
      i := from;
      while i < |turns|
        invariant from <= i <= |turns| && Reached(RxTask, past, turns, i) && rx == Park(seen)
      {
        EchoRx(past, turns, i, seen);
        i := i + 1;
        if i == |turns| {
          return;
        }
        seen := RecheckRx(past, turns, i);
        i := i + 1;
        if seen % 2 == 0 {
          return;
        }
      }
    }

    /** The acknowledgement: the cycle id that was seen. */
    method EchoRx(ghost past: seq<Event>, turns: seq<RxTurn>, i: nat, seen: nat)
      requires i < |turns| && Reached(RxTask, past, turns, i) && rx == Park(seen)
      modifies this
      ensures Reached(RxTask, past, turns, i + 1) && rx == Parked
    {
      hide Run, Played, OthersOf, TxStep, CtrlStep, DriverStep;
      Await(RxTask, past, turns, i);
      rxAck, rx := seen, Parked;
      Record(RxTask, past, turns, i);
    }

    method RecheckRx(ghost past: seq<Event>, turns: seq<RxTurn>, i: nat) returns (seen: nat)
      requires i < |turns| && Reached(RxTask, past, turns, i) && rx == Parked
      modifies this
      ensures Reached(RxTask, past, turns, i + 1) && rx == if seen % 2 == 1 then Park(seen) else Top
    {
      hide Run, Played, OthersOf, TxStep, CtrlStep, DriverStep;
      Await(RxTask, past, turns, i);
      seen := cycle;
      rx := if seen % 2 == 1 then Park(seen) else Top;
      Record(RxTask, past, turns, i);
    }

    /** The frames received are no part of this state: a pass is one stay inside the driver. */
    method TwaiRxTask(turns: seq<RxTurn>)
      requires Valid() && rx == Top
      modifies this
      ensures State() == Run(old(trace) + Played(RxTask, turns, |turns|)) && BridgeSafety.Inv(State())
    {
      hide Run, Step, OthersOf;
      ghost var past := trace;
      assert past + [] == past;
      var i := 0;
      while i < |turns|
        invariant 0 <= i <= |turns| && Reached(RxTask, past, turns, i) && (i < |turns| ==> rx == Top)
      {
        var seen := EnterRx(past, turns, i);
        i := i + 1;
        if seen % 2 == 1 {
          i := ParkRx(past, turns, i, seen);
        } else if i < |turns| {
          ReceiveRx(past, turns, i);
          i := i + 1;
        }
      }
      BridgeSafety.ReachableInv(trace);
    }

    method EnterRx(ghost past: seq<Event>, turns: seq<RxTurn>, i: nat) returns (seen: nat)
      requires i < |turns| && Reached(RxTask, past, turns, i) && rx == Top
      modifies this
      ensures Reached(RxTask, past, turns, i + 1) && rx == if seen % 2 == 1 then Park(seen) else Work
    {
      hide Run, Played, OthersOf, TxStep, CtrlStep, DriverStep;
      Await(RxTask, past, turns, i);
      seen := cycle;
      rx := if seen % 2 == 1 then Park(seen) else Work;
      Record(RxTask, past, turns, i);
    }

    method ReceiveRx(ghost past: seq<Event>, turns: seq<RxTurn>, i: nat)
      requires i < |turns| && Reached(RxTask, past, turns, i) && rx == Work
      modifies this
      ensures Reached(RxTask, past, turns, i + 1) && rx == Top
    {
      hide Run, Played, OthersOf, TxStep, CtrlStep, DriverStep;
      Await(RxTask, past, turns, i);
      rx := Top;
      Record(RxTask, past, turns, i);
    }

    // ---- can_tx_task --------------------------------------------------------

    method ParkTx(ghost past: seq<Event>, turns: seq<TxTurn>, from: nat, first: nat) returns (i: nat)
      requires from <= |turns| && Reached(TxTask, past, turns, from) && tx == Park(first)
      modifies this
      ensures from <= i <= |turns| && Reached(TxTask, past, turns, i) && (i < |turns| ==> tx == Top)
    {
      hide Run, Step, Played, OthersOf;
      var seen := first;
      i := from;
      while i < |turns|
        invariant from <= i <= |turns| && Reached(TxTask, past, turns, i) && tx == Park(seen)
      {
        EchoTx(past, turns, i, seen);
        i := i + 1;
        if i == |turns| {
          return;
        }
        seen := RecheckTx(past, turns, i);
        i := i + 1;
        if seen % 2 == 0 {
          return;
        }
      }
    }

    /** The acknowledgement: the cycle id that was seen. */
    method EchoTx(ghost past: seq<Event>, turns: seq<TxTurn>, i: nat, seen: nat)
      requires i < |turns| && Reached(TxTask, past, turns, i) && tx == Park(seen)
      modifies this
      ensures Reached(TxTask, past, turns, i + 1) && tx == Parked
    {
      hide Run, Played, OthersOf, RxStep, CtrlStep, DriverStep, Submit, Judge;
      Await(TxTask, past, turns, i);
      txAck, tx := seen, Parked;
      Record(TxTask, past, turns, i);
    }

    method RecheckTx(ghost past: seq<Event>, turns: seq<TxTurn>, i: nat) returns (seen: nat)
      requires i < |turns| && Reached(TxTask, past, turns, i) && tx == Parked
      modifies this
      ensures Reached(TxTask, past, turns, i + 1) && tx == if seen % 2 == 1 then Park(seen) else Top
    {
      hide Run, Played, OthersOf, RxStep, CtrlStep, DriverStep, Submit, Judge;
      Await(TxTask, past, turns, i);
      seen := cycle;
      tx := if seen % 2 == 1 then Park(seen) else Top;
      Record(TxTask, past, turns, i);
    }

    method CanTxTask(turns: seq<TxTurn>)
      requires Valid() && tx == Top
      modifies this
      ensures State() == Run(old(trace) + Played(TxTask, turns, |turns|)) && BridgeSafety.Inv(State())
    {
      hide Run, Step, OthersOf;
      ghost var past := trace;
      assert past + [] == past;
      var i := 0;
      while i < |turns|
        invariant 0 <= i <= |turns| && Reached(TxTask, past, turns, i) && (i < |turns| ==> tx == Top)
      {
        var seen := LeaveTop(past, turns, i);
        i := i + 1;
        if seen % 2 == 1 {
          i := ParkTx(past, turns, i, seen);
        } else if i < |turns| {
          i := WorkTx(past, turns, i);
        }
      }
      BridgeSafety.ReachableInv(trace);
    }

    /** The check of the quiesce request at the head of the loop. */
    method LeaveTop(ghost past: seq<Event>, turns: seq<TxTurn>, i: nat) returns (seen: nat)
      requires i < |turns| && Reached(TxTask, past, turns, i) && tx == Top
      modifies this
      ensures Reached(TxTask, past, turns, i + 1) && tx == if seen % 2 == 1 then Park(seen) else Work
    {
      hide Run, Played, OthersOf, RxStep, CtrlStep, DriverStep;
      Await(TxTask, past, turns, i);
      seen := cycle;
      tx := if seen % 2 == 1 then Park(seen) else Work;
      Record(TxTask, past, turns, i);
    }

    /** Outside the park: pop unless a frame is owned, then submit it or await its verdict. */
    method WorkTx(ghost past: seq<Event>, turns: seq<TxTurn>, from: nat) returns (i: nat)
      requires from < |turns| && Reached(TxTask, past, turns, from) && tx == Work
      modifies this
      ensures from < i <= |turns| && Reached(TxTask, past, turns, i) && (i < |turns| ==> tx == Top)
    {
      hide Run, Step, Played, OthersOf;
      i := from;
      if !have {
        PopPending(past, turns, i);
        i := i + 1;
        if !have || i == |turns| {
          return;
        }
      }
      if !inflight {
        SubmitPending(past, turns, i);
      } else {
        AwaitVerdict(past, turns, i);
      }
      i := i + 1;
    }

    /** Takes the next frame of the ring, if there is one. */
    method PopPending(ghost past: seq<Event>, turns: seq<TxTurn>, i: nat)
      requires i < |turns| && Reached(TxTask, past, turns, i) && tx == Work && !have
      modifies this
      ensures Reached(TxTask, past, turns, i + 1)
      ensures have == turns[i].own.popped.Some? && tx == if have then Work else Top
    {
      hide Run, Played, OthersOf, RxStep, CtrlStep, DriverStep;
      Await(TxTask, past, turns, i);
      hide Popped, Submit, Judge;
      if turns[i].own.popped.Some? {
        TakeFrame(turns[i].own.popped.value);
      } else {
        tx := Top;
      }
      Record(TxTask, past, turns, i);
    }

    method TakeFrame(f: Frame)
      modifies this`have, this`pending, this`popped, this`copies, this`lost
      ensures State() == Popped(old(State()), f)
    {
      have, pending := true, f;
      popped, copies, lost := popped + [f], 0, 0;
    }

    /** Discards the verdicts on earlier frames, then offers the frame to the driver. */
    method SubmitPending(ghost past: seq<Event>, turns: seq<TxTurn>, i: nat)
      requires i < |turns| && Reached(TxTask, past, turns, i) && tx == Work && have && !inflight
      modifies this
      ensures Reached(TxTask, past, turns, i + 1) && tx == Top
    {
      hide Run, Played, OthersOf, RxStep, CtrlStep, DriverStep;
      Await(TxTask, past, turns, i);
      hide Popped, Submit, Judge;
      Offer(turns[i].own.busy);
      tx := Top;
      Record(TxTask, past, turns, i);
    }

    method Offer(busy: bool)
      modifies this`events, this`have, this`drv, this`inflight, this`done, this`copies, this`lost
      ensures State() == Submit(old(State()), busy)
    {
      DrainVerdicts();
      if !drv.run.Absent? {
        if drv.listen {
          LetGoPending(false);
        } else if drv.run.Running? && !busy {
          drv := drv.(held := drv.held + [pending]);
          inflight := true;
        }
      }
    }

    method DrainVerdicts()
      modifies this`events
      ensures State() == old(State()).(events := [])
    {
      while |events| > 0
        invariant State() == old(State()).(events := events)
        decreases |events|
      {
        events := events[1..];
      }
    }

    /** Only a verdict releases the frame; anything but OK has it submitted again. */
    method AwaitVerdict(ghost past: seq<Event>, turns: seq<TxTurn>, i: nat)
      requires i < |turns| && Reached(TxTask, past, turns, i) && tx == Work && have && inflight
      modifies this
      ensures Reached(TxTask, past, turns, i + 1) && tx == Top
    {
      hide Run, Played, OthersOf, RxStep, CtrlStep, DriverStep;
      Await(TxTask, past, turns, i);
      hide Popped, Submit, Judge;
      if |events| > 0 {
        TakeVerdict();
      }
      tx := Top;
      Record(TxTask, past, turns, i);
    }

    method TakeVerdict()
      requires |events| > 0
      modifies this`events, this`have, this`inflight, this`done, this`copies, this`lost
      ensures State() == Judge(old(State()))
    {
      var v := events[0];
      events := events[1..];
      inflight := false;
      if v.SaysOk? {
        LetGoPending(true);
      }
    }

    method LetGoPending(confirmed: bool)
      modifies this`have, this`done, this`copies, this`lost
      ensures State() == LetGo(old(State()), confirmed)
    {
      have := false;
      done := done + [Done(pending, copies, lost, confirmed)];
      copies, lost := 0, 0;
    }

    // ---- ctrl_task ----------------------------------------------------------

    method ControlTask(turns: seq<CtrlTurn>)
      requires Valid() && ctrl == Boot
      modifies this
      ensures State() == Run(old(trace) + Played(CtrlTask, turns, |turns|)) && BridgeSafety.Inv(State())
    {
      hide Run, Step, OthersOf;
      ghost var past := trace;
      assert past + [] == past;
      var i := 0;
      if |turns| > 0 {
        BringUp(past, turns, 0);
        i := 1;
      }
      while i < |turns|
        invariant 0 <= i <= |turns| && Reached(CtrlTask, past, turns, i) && (i < |turns| ==> ctrl == Loop)
      {
        i := NextPass(past, turns, i);
      }
      BridgeSafety.ReachableInv(trace);
    }

    method BringUp(ghost past: seq<Event>, turns: seq<CtrlTurn>, i: nat)
      requires i < |turns| && Reached(CtrlTask, past, turns, i) && ctrl == Boot
      modifies this
      ensures Reached(CtrlTask, past, turns, i + 1) && ctrl == Loop
    {
      hide Run, Played, OthersOf, RxStep, TxStep, DriverStep;
      Await(CtrlTask, past, turns, i);
      drv := if turns[i].own.luck.accepted then Started(drv, true) else drv;
      ctrl := Loop;
      Record(CtrlTask, past, turns, i);
    }

    /** A pending reconfigure, unless the tasks do not park in time; then the alerts. */
    method NextPass(ghost past: seq<Event>, turns: seq<CtrlTurn>, from: nat) returns (i: nat)
      requires from < |turns| && Reached(CtrlTask, past, turns, from) && ctrl == Loop
      modifies this
      ensures from < i <= |turns| && Reached(CtrlTask, past, turns, i) && (i < |turns| ==> ctrl == Loop)
    {
      hide Run, Step, Played, OthersOf;
      LookForReconfigure(past, turns, from);
      i := from + 1;
      if i < |turns| && ctrl.Wait? {
        i := Quiesce(past, turns, i);
      }
      if i < |turns| {
        i := ServiceAlerts(past, turns, i, false);
      }
    }

    /** Reconfigures if both tasks park in time, and releases them in any case. */
    method Quiesce(ghost past: seq<Event>, turns: seq<CtrlTurn>, from: nat) returns (i: nat)
      requires from < |turns| && Reached(CtrlTask, past, turns, from) && ctrl == Wait(false)
      modifies this
      ensures from < i <= |turns| && Reached(CtrlTask, past, turns, i) && (i < |turns| ==> ctrl == Alerts(false))
    {
      hide Run, Step, Played, OthersOf;
      i := AwaitAcks(past, turns, from);
      if i < |turns| && ctrl != Abandon {
        i := Reconfigure(past, turns, i);
      }
      if i < |turns| {
        QuiesceEnd(past, turns, i);
        i := i + 1;
      }
    }

    /** The head of the loop, and the odd id that opens a quiesce cycle. */
    method LookForReconfigure(ghost past: seq<Event>, turns: seq<CtrlTurn>, i: nat)
      requires i < |turns| && Reached(CtrlTask, past, turns, i) && ctrl == Loop
      modifies this
      ensures Reached(CtrlTask, past, turns, i + 1)
      ensures ctrl == if turns[i].own.luck.reconf then Wait(false) else Alerts(false)
    {
      hide Run, Played, OthersOf, RxStep, TxStep, DriverStep;
      Await(CtrlTask, past, turns, i);
      if turns[i].own.luck.reconf {
        cycle, ctrl := cycle + 1, Wait(false);
      } else {
        ctrl := Alerts(false);
      }
      Record(CtrlTask, past, turns, i);
    }

    /** The bounded wait until both tasks have echoed the id. */
    method AwaitAcks(ghost past: seq<Event>, turns: seq<CtrlTurn>, from: nat) returns (i: nat)
      requires from < |turns| && Reached(CtrlTask, past, turns, from) && ctrl == Wait(false)
      modifies this
      ensures from < i <= |turns| && Reached(CtrlTask, past, turns, i)
      ensures i < |turns| ==> ctrl == Alerts(true) || ctrl == Abandon
    {
      hide Run, Step, Played, OthersOf;
      i := from;
      while i < |turns| && ctrl.Wait?
        invariant from <= i <= |turns| && Reached(CtrlTask, past, turns, i)
        invariant ctrl.Wait? || (i > from && (ctrl == Alerts(true) || ctrl == Abandon))
      {
        LookForAck(past, turns, i);
        i := i + 1;
      }
    }

    /** One half of the wait condition, or the end of patience. */
    method LookForAck(ghost past: seq<Event>, turns: seq<CtrlTurn>, i: nat)
      requires i < |turns| && Reached(CtrlTask, past, turns, i) && ctrl.Wait?
      modifies this
      ensures Reached(CtrlTask, past, turns, i + 1)
      ensures ctrl.Wait? || ctrl == Abandon || (ctrl == Alerts(true) && txAck == cycle)
    {
      hide Run, Played, OthersOf, RxStep, TxStep, DriverStep;
      Await(CtrlTask, past, turns, i);
      var sawRx := ctrl.sawRx;
      if !sawRx && rxAck == cycle {
        ctrl := Wait(true);
      } else if sawRx && txAck == cycle {
        ctrl := Alerts(true);
      } else {
        ctrl := if turns[i].own.luck.timeout then Abandon else Wait(false);
      }
      Record(CtrlTask, past, turns, i);
    }

    /** ctrl_quiesce_end: the next even id. */
    method QuiesceEnd(ghost past: seq<Event>, turns: seq<CtrlTurn>, i: nat)
      requires i < |turns| && Reached(CtrlTask, past, turns, i) && (ctrl == Abandon || ctrl == End)
      modifies this
      ensures Reached(CtrlTask, past, turns, i + 1) && ctrl == Alerts(false)
    {
      hide Run, Played, OthersOf, RxStep, TxStep, DriverStep;
      Await(CtrlTask, past, turns, i);
      cycle, ctrl := cycle + 1, Alerts(false);
      Record(CtrlTask, past, turns, i);
    }

    /** Both tasks are parked: deliver the alerts, tear down, reinstall, and post the abort. */
    method Reconfigure(ghost past: seq<Event>, turns: seq<CtrlTurn>, from: nat) returns (i: nat)
      requires from < |turns| && Reached(CtrlTask, past, turns, from) && ctrl == Alerts(true)
      modifies this
      ensures from < i <= |turns| && Reached(CtrlTask, past, turns, i) && (i < |turns| ==> ctrl == End)
    {
      hide Run, Step, Played, OthersOf;
      i := ServiceAlerts(past, turns, from, true);
      if i == |turns| {
        return;
      }
      TearDown(past, turns, i);
      i := i + 1;
      if i == |turns| {
        return;
      }
      Reinstall(past, turns, i);
      i := i + 1;
      if i < |turns| {
        PostAbortLast(past, turns, i);
        i := i + 1;
      }
    }

    method TearDown(ghost past: seq<Event>, turns: seq<CtrlTurn>, i: nat)
      requires i < |turns| && Reached(CtrlTask, past, turns, i) && ctrl == Teardown
      modifies this
      ensures Reached(CtrlTask, past, turns, i + 1) && ctrl == Install
    {
      hide Run, Played, OthersOf, RxStep, TxStep, DriverStep;
      Await(CtrlTask, past, turns, i);
      if !drv.run.Recovering? {
        lost := if drv.succ then lost + 1 else lost;
        drv := NO_DRIVER.(listen := drv.listen);
      }
      ctrl := Install;
      Record(CtrlTask, past, turns, i);
    }

    method Reinstall(ghost past: seq<Event>, turns: seq<CtrlTurn>, i: nat)
      requires i < |turns| && Reached(CtrlTask, past, turns, i) && ctrl == Install
      modifies this
      ensures Reached(CtrlTask, past, turns, i + 1) && ctrl == AbortAll
    {
      hide Run, Played, OthersOf, RxStep, TxStep, DriverStep;
      Await(CtrlTask, past, turns, i);
      if turns[i].own.luck.busOn && turns[i].own.luck.accepted {
        drv := Started(drv, turns[i].own.luck.listen);
      }
      ctrl := AbortAll;
      Record(CtrlTask, past, turns, i);
    }

    method PostAbortLast(ghost past: seq<Event>, turns: seq<CtrlTurn>, i: nat)
      requires i < |turns| && Reached(CtrlTask, past, turns, i) && ctrl == AbortAll
      modifies this
      ensures Reached(CtrlTask, past, turns, i + 1) && ctrl == End
    {
      hide Run, Played, OthersOf, RxStep, TxStep, DriverStep;
      Await(CtrlTask, past, turns, i);
      PostVerdict(SaysAbort);
      ctrl := End;
      Record(CtrlTask, past, turns, i);
    }

    /** A full queue drops the verdict. */
    method PostVerdict(v: Verdict)
      modifies this`events
      ensures State() == old(State()).(events := Enqueue(old(events), v))
    {
      if |events| < EVENT_SLOTS {
        events := events + [v];
      }
    }

    /** ctrl_service_alerts: what was read is posted, and a bus-off abort after it. */
    method ServiceAlerts(ghost past: seq<Event>, turns: seq<CtrlTurn>, from: nat, quiet: bool) returns (i: nat)
      requires from < |turns| && Reached(CtrlTask, past, turns, from) && ctrl == Alerts(quiet)
      modifies this
      ensures from < i <= |turns| && Reached(CtrlTask, past, turns, i)
      ensures i < |turns| ==> ctrl == AfterAlerts(quiet)
    {
      hide Run, Step, Played, OthersOf;
      var off, recd, ev := FetchAlerts(past, turns, from, quiet);
      i := from + 1;
      if i < |turns| && ctrl != AfterAlerts(quiet) {
        i := ActOnAlerts(past, turns, i, quiet, off, recd, ev);
      }
    }

    /** Recovery first, then the outcome of a transmission, then the abort of a bus-off. */
    method ActOnAlerts(ghost past: seq<Event>, turns: seq<CtrlTurn>, from: nat,
                       quiet: bool, off: bool, recd: bool, ev: Option<Verdict>) returns (i: nat)
      requires from < |turns| && Reached(CtrlTask, past, turns, from) && ctrl == HasRead(quiet, off, recd, ev)
      modifies this
      ensures from < i <= |turns| && Reached(CtrlTask, past, turns, i)
      ensures i < |turns| ==> ctrl == AfterAlerts(quiet)
    {
      hide Run, Step, Played, OthersOf;
      i := from;
      Recover(past, turns, i, quiet, off, recd, ev);
      i := i + 1;
      if i == |turns| {
        return;
      }
      PostOutcome(past, turns, i, quiet, off, ev);
      i := i + 1;
      if i < |turns| && off {
        PostBusOff(past, turns, i, quiet);
        i := i + 1;
      }
    }

    /** Reads and thereby clears the alert bits; FAIL wins over OK. */
    method FetchAlerts(ghost past: seq<Event>, turns: seq<CtrlTurn>, i: nat, quiet: bool)
      returns (off: bool, recd: bool, ev: Option<Verdict>)
      requires i < |turns| && Reached(CtrlTask, past, turns, i) && ctrl == Alerts(quiet)
      modifies this
      ensures Reached(CtrlTask, past, turns, i + 1)
      ensures ctrl == if drv.run.Absent? then AfterAlerts(quiet) else HasRead(quiet, off, recd, ev)
    {
      hide Run, Played, OthersOf, RxStep, TxStep, DriverStep;
      Await(CtrlTask, past, turns, i);
      hide ReadAlerts;
      off, recd, ev := ReadAndClear(quiet);
      Record(CtrlTask, past, turns, i);
    }

    method ReadAndClear(quiet: bool) returns (off: bool, recd: bool, ev: Option<Verdict>)
      modifies this`ctrl, this`drv
      ensures State() == ReadAlerts(old(State()), quiet)
      ensures ctrl == if drv.run.Absent? then AfterAlerts(quiet) else HasRead(quiet, off, recd, ev)
    {
      off, recd, ev := drv.off, drv.recd, None;
      if drv.run.Absent? {
        ctrl := AfterAlerts(quiet);
        return;
      }
      if drv.fail {
        ev := Some(SaysFail);
      } else if drv.succ {
        ev := Some(SaysOk);
      }
      ctrl := HasRead(quiet, off, recd, ev);
      drv := drv.(succ := false, fail := false, off := false, recd := false);
    }

    /** Recovery is started after a bus-off, and the controller after a recovery. */
    method Recover(ghost past: seq<Event>, turns: seq<CtrlTurn>, i: nat,
                   quiet: bool, off: bool, recd: bool, ev: Option<Verdict>)
      requires i < |turns| && Reached(CtrlTask, past, turns, i) && ctrl == HasRead(quiet, off, recd, ev)
      modifies this
      ensures Reached(CtrlTask, past, turns, i + 1) && ctrl == Post(quiet, off, ev)
    {
      hide Run, Played, OthersOf, RxStep, TxStep, DriverStep;
      Await(CtrlTask, past, turns, i);
      if off && drv.run.BusOff? {
        drv := drv.(run := Recovering, held := []);
      }
      if recd && drv.run.Stopped? && turns[i].own.luck.accepted {
        drv := drv.(run := Running);
      }
      ctrl := Post(quiet, off, ev);
      Record(CtrlTask, past, turns, i);
    }

    method PostOutcome(ghost past: seq<Event>, turns: seq<CtrlTurn>, i: nat,
                       quiet: bool, off: bool, ev: Option<Verdict>)
      requires i < |turns| && Reached(CtrlTask, past, turns, i) && ctrl == Post(quiet, off, ev)
      modifies this
      ensures Reached(CtrlTask, past, turns, i + 1) && ctrl == if off then PostAbort(quiet) else AfterAlerts(quiet)
    {
      hide Run, Played, OthersOf, RxStep, TxStep, DriverStep;
      Await(CtrlTask, past, turns, i);
      if ev.Some? {
        PostVerdict(ev.value);
      }
      ctrl := if off then PostAbort(quiet) else AfterAlerts(quiet);
      Record(CtrlTask, past, turns, i);
    }

    method PostBusOff(ghost past: seq<Event>, turns: seq<CtrlTurn>, i: nat, quiet: bool)
      requires i < |turns| && Reached(CtrlTask, past, turns, i) && ctrl == PostAbort(quiet)
      modifies this
      ensures Reached(CtrlTask, past, turns, i + 1) && ctrl == AfterAlerts(quiet)
    {
      hide Run, Played, OthersOf, RxStep, TxStep, DriverStep;
      Await(CtrlTask, past, turns, i);
      PostVerdict(SaysAbort);
      ctrl := AfterAlerts(quiet);
      Record(CtrlTask, past, turns, i);
    }
  }

  /** What only this task writes. */
  datatype Own =
    | OwnRx(place: Place)
    | OwnTx(place: Place, have: bool, pending: Frame, inflight: bool)
    | OwnCtrl(ctrl: Ctrl, cycle: nat)

  function Mine(me: Task, b: Bridge): Own {
    match me
    case RxTask => OwnRx(b.rx)
    case TxTask => OwnTx(b.tx, b.have, b.pending, b.inflight)
    case CtrlTask => OwnCtrl(b.ctrl, b.cycle)
  }

  lemma Undisturbed(me: Task, b: Bridge, e: Event)
    requires TaskOf(e) != Some(me)
    ensures Mine(me, Step(b, e)) == Mine(me, b)
  {
    hide RxStep, TxStep, CtrlStep, DriverStep;
    match e
    case RxRuns => RxMoves(b);
    case TxRuns(next, busy) => TxMoves(b, next, busy);
    case CtrlRuns(luck) => CtrlMoves(b, luck);
    case DriverDoes(what) => DriverMoves(b, what);
  }

  lemma RxMoves(b: Bridge)
    ensures RxStep(b) == b.(rx := RxStep(b).rx, rxAck := RxStep(b).rxAck)
  {
    hide ParkStep;
  }

  lemma TxMoves(b: Bridge, next: Option<Frame>, busy: bool)
    ensures var k := TxStep(b, next, busy); (k.rx, k.ctrl, k.cycle) == (b.rx, b.ctrl, b.cycle)
  {
    hide ParkStep;
  }

  lemma CtrlMoves(b: Bridge, k: Luck)
    ensures var c := CtrlStep(b, k);
            (c.rx, c.tx, c.have, c.pending, c.inflight) == (b.rx, b.tx, b.have, b.pending, b.inflight)
  {
    hide React, Uninstall, Started, Enqueue;
  }

  lemma DriverMoves(b: Bridge, e: DriverEvent)
    ensures var c := DriverStep(b, e);
            && (c.rx, c.tx, c.ctrl, c.cycle) == (b.rx, b.tx, b.ctrl, b.cycle)
            && (c.have, c.pending, c.inflight) == (b.have, b.pending, b.inflight)
  {}

  /** The events of the others among `es` take the machine on. */
  method Elsewhere(me: Task, b: Bridge, ghost past: seq<Event>, es: seq<Event>) returns (s: Bridge)
    requires b == Run(past)
    ensures s == Run(past + OthersOf(me, es)) && Mine(me, s) == Mine(me, b)
  {
    hide Step, Mine, Run;
    s := b;
    assert past + OthersOf(me, []) == past && es[..0] == [];
    for k := 0 to |es|
      invariant s == Run(past + OthersOf(me, es[..k])) && Mine(me, s) == Mine(me, b)
    {
      OthersNext(me, past, es, k);
      if TaskOf(es[k]) != Some(me) {
        Undisturbed(me, s, es[k]);
        Extended(past + OthersOf(me, es[..k]), es[k]);
        s := Step(s, es[k]);
      }
    }
    assert es[..|es|] == es;
  }

  lemma OthersNext(me: Task, past: seq<Event>, es: seq<Event>, k: nat)
    requires k < |es|
    ensures if TaskOf(es[k]) == Some(me) then OthersOf(me, es[..k + 1]) == OthersOf(me, es[..k])
            else past + OthersOf(me, es[..k + 1]) == past + OthersOf(me, es[..k]) + [es[k]]
  {
    assert es[..k + 1][..k] == es[..k];
  }

  lemma Extended(es: seq<Event>, e: Event)
    ensures Run(es + [e]) == Step(Run(es), e)
  {
    assert (es + [e])[..|es|] == es;
    hide Step;
  }
}
