/**
 The CAN transmit path of main/main.c: can_tx_task, ctrl_task and twai_rx_task over
 one TWAI driver that cannot give a frame back. Every step of a task up to its next
 access to shared state is one step here; can_tx_task outranks ctrl_task on the
 same core, so its drain-then-submit is one step.

 The driver is an environment: it sends or fails the frame it holds, goes bus-off,
 recovers, keeps sticky alert bits, and forgets both frame and bits at a teardown.
 */
module BridgeModel {
  import opened Words
  import opened PcanMsg

  const EVENT_SLOTS: nat := 8

  datatype RunState = Absent | Running | BusOff | Recovering | Stopped

  /** `held` is the copies in the driver; the rest are alert bits not yet read. */
  datatype Driver = Driver(run: RunState, listen: bool, held: seq<Frame>, succ: bool, fail: bool, off: bool, recd: bool)

  datatype Verdict = SaysOk | SaysFail | SaysAbort

  /** A TWAI task: at the top of its loop, in quiesce_park before and after it has acknowledged, or at work. */
  datatype Place = Top | Park(cycle: nat) | Parked | Work

  /** `quiet` means between a true ctrl_quiesce_begin and ctrl_quiesce_end. */
  datatype Ctrl =
    | Boot
    | Loop
    | Wait(sawRx: bool)
    | Abandon
    | Alerts(quiet: bool)
    | HasRead(quiet: bool, off: bool, recd: bool, ev: Option<Verdict>)
    | Post(quiet: bool, off: bool, ev: Option<Verdict>)
    | PostAbort(quiet: bool)
    | Teardown
    | Install
    | AbortAll
    | End

  /** A frame can_tx_task let go: times sent, successes erased by a teardown, and whether it was confirmed. */
  datatype Done = Done(frame: Frame, copies: nat, lost: nat, confirmed: bool)

  /**
   `popped`, `wire` and `done` are history: frames taken from the ring, frames sent on
   the bus, frames let go. `copies` and `lost` are the running counts of the pending one.
   */
  datatype Bridge = Bridge(
    cycle: nat, rxAck: nat, txAck: nat, rx: Place, tx: Place, ctrl: Ctrl, drv: Driver, events: seq<Verdict>,
    have: bool, pending: Frame, inflight: bool,
    popped: seq<Frame>, wire: seq<Frame>, done: seq<Done>, copies: nat, lost: nat)

  const NO_DRIVER: Driver := Driver(Absent, false, [], false, false, false, false)

  const START: Bridge := Bridge(0, 0, 0, Top, Top, Boot, NO_DRIVER, [], false, BLANK, false, [], [], [], 0, 0)

  predicate Odd(n: nat) { n % 2 == 1 }

  /** Sending to a full queue does nothing. */
  function Enqueue(q: seq<Verdict>, v: Verdict): seq<Verdict> {
    if |q| < EVENT_SLOTS then q + [v] else q
  }

  // ---- the TWAI tasks -------------------------------------------------------

  /** The steps of quiesce_park and of the check before it; None when it goes to work. */
  function ParkStep(p: Place, cycle: nat): Option<Place> {
    match p
    case Top => if Odd(cycle) then Some(Park(cycle)) else Some(Work)
    case Park(_) => Some(Parked)
    case Parked => if Odd(cycle) then Some(Park(cycle)) else Some(Top)
    case Work => None
  }

  function AckAfter(p: Place, ack: nat): nat {
    if p.Park? then p.cycle else ack
  }

  /** At work the receive task is inside the driver. */
  function RxStep(b: Bridge): Bridge {
    var p := ParkStep(b.rx, b.cycle);
    if p.None? then b.(rx := Top) else b.(rx := p.value, rxAck := AckAfter(b.rx, b.rxAck))
  }

  /** `popped` is what the ring hands out, `busy` any error of the driver that defers the frame. */
  function TxStep(b: Bridge, popped: Option<Frame>, busy: bool): Bridge {
    var p := ParkStep(b.tx, b.cycle);
    if p.Some? then b.(tx := p.value, txAck := AckAfter(b.tx, b.txAck))
    else if !b.have then
      if popped.None? then b.(tx := Top) else Popped(b, popped.value)
    else if !b.inflight then Submit(b, busy).(tx := Top)
    else if b.events == [] then b.(tx := Top)
    else Judge(b).(tx := Top)
  }

  function Popped(b: Bridge, f: Frame): Bridge {
    b.(have := true, pending := f, popped := b.popped + [f], copies := 0, lost := 0)
  }

  function LetGo(b: Bridge, confirmed: bool): Bridge {
    b.(have := false, done := b.done + [Done(b.pending, b.copies, b.lost, confirmed)], copies := 0, lost := 0)
  }

  /** Drain the stale verdicts, then hand the frame to the driver. */
  function Submit(b: Bridge, busy: bool): Bridge {
    var c := b.(events := []);
    if b.drv.run.Absent? then c
    else if b.drv.listen then LetGo(c, false)
    else if !b.drv.run.Running? || busy then c
    else c.(drv := b.drv.(held := b.drv.held + [b.pending]), inflight := true)
  }

  /** Take a verdict on the frame in flight. */
  function Judge(b: Bridge): Bridge
    requires b.events != []
  {
    var c := b.(events := b.events[1..], inflight := false);
    if b.events[0].SaysOk? then LetGo(c, true) else c
  }

  // ---- the control task -----------------------------------------------------

  /** What the control task meets: a pending reconfigure, its patience, what the driver accepts, and the settings. */
  datatype Luck = Luck(reconf: bool, timeout: bool, accepted: bool, busOn: bool, listen: bool)

  /** After the alerts: on to the teardown, or back to the top. */
  function AfterAlerts(quiet: bool): Ctrl { if quiet then Teardown else Loop }

  /** Reading the alerts clears them; FAIL wins over OK. */
  function ReadAlerts(b: Bridge, quiet: bool): Bridge {
    var d := b.drv;
    if d.run.Absent? then b.(ctrl := AfterAlerts(quiet))
    else
      var ev := if d.fail then Some(SaysFail) else if d.succ then Some(SaysOk) else None;
      b.(drv := d.(succ := false, fail := false, off := false, recd := false),
         ctrl := HasRead(quiet, d.off, d.recd, ev))
  }

  /** Recovery drops the frame in the driver; after it the controller is started again. */
  function React(d: Driver, off: bool, recd: bool, accepted: bool): Driver {
    var e := if off && d.run.BusOff? then d.(run := Recovering, held := []) else d;
    if recd && e.run.Stopped? && accepted then e.(run := Running) else e
  }

  /** A recovering driver cannot be uninstalled; any other forgets frame and alerts. */
  function Uninstall(d: Driver): Driver {
    if d.run.Recovering? then d else NO_DRIVER.(listen := d.listen)
  }

  function Started(d: Driver, listen: bool): Driver {
    if d.run.Absent? then Driver(Running, listen, [], false, false, false, false) else d
  }

  function CtrlStep(b: Bridge, k: Luck): Bridge {
    match b.ctrl
    case Boot => b.(ctrl := Loop, drv := if k.accepted then Started(b.drv, true) else b.drv)
    case Loop => if k.reconf then b.(cycle := b.cycle + 1, ctrl := Wait(false)) else b.(ctrl := Alerts(false))
    case Wait(sawRx) =>
      if !sawRx && b.rxAck == b.cycle then b.(ctrl := Wait(true))
      else if sawRx && b.txAck == b.cycle then b.(ctrl := Alerts(true))
      else if k.timeout then b.(ctrl := Abandon)
      else b.(ctrl := Wait(false))
    case Abandon => b.(cycle := b.cycle + 1, ctrl := Alerts(false))
    case Alerts(quiet) => ReadAlerts(b, quiet)
    case HasRead(quiet, off, recd, ev) => b.(drv := React(b.drv, off, recd, k.accepted), ctrl := Post(quiet, off, ev))
    case Post(quiet, off, ev) =>
      b.(events := if ev.Some? then Enqueue(b.events, ev.value) else b.events,
         ctrl := if off then PostAbort(quiet) else AfterAlerts(quiet))
    case PostAbort(quiet) => b.(events := Enqueue(b.events, SaysAbort), ctrl := AfterAlerts(quiet))
    case Teardown =>
      b.(drv := Uninstall(b.drv), ctrl := Install,
         lost := if b.drv.succ && !b.drv.run.Recovering? then b.lost + 1 else b.lost)
    case Install => b.(ctrl := AbortAll, drv := if k.busOn && k.accepted then Started(b.drv, k.listen) else b.drv)
    case AbortAll => b.(events := Enqueue(b.events, SaysAbort), ctrl := End)
    case End => b.(cycle := b.cycle + 1, ctrl := Alerts(false))
  }

  // ---- the driver and the bus -----------------------------------------------

  datatype DriverEvent = Sends | Fails | GoesBusOff | Recovers

  function DriverStep(b: Bridge, e: DriverEvent): Bridge {
    var d := b.drv;
    match e
    case Sends =>
      if d.run.Running? && d.held != [] then
        b.(drv := d.(held := d.held[1..], succ := true), wire := b.wire + [d.held[0]], copies := b.copies + 1)
      else b
    case Fails =>
      if d.run.Running? && d.held != [] then b.(drv := d.(held := d.held[1..], fail := true)) else b
    case GoesBusOff => if d.run.Running? then b.(drv := d.(run := BusOff, off := true)) else b
    case Recovers => if d.run.Recovering? then b.(drv := d.(run := Stopped, recd := true)) else b
  }

  // ---- runs -----------------------------------------------------------------

  datatype Event =
    | RxRuns
    | TxRuns(popped: Option<Frame>, busy: bool)
    | CtrlRuns(luck: Luck)
    | DriverDoes(what: DriverEvent)

  function Step(b: Bridge, e: Event): Bridge {
    match e
    case RxRuns => RxStep(b)
    case TxRuns(popped, busy) => TxStep(b, popped, busy)
    case CtrlRuns(luck) => CtrlStep(b, luck)
    case DriverDoes(what) => DriverStep(b, what)
  }

  function Run(es: seq<Event>): Bridge {
    if es == [] then START else Step(Run(es[..|es| - 1]), es[|es| - 1])
  }
}
