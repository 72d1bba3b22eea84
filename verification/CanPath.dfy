/**
 From the USB host to the bus: the EP2-OUT drain of main/usb_glue.c, the transmit ring
 of main/ringbuf.c and the transmit path of main/main.c in one machine. The drain
 pushes frame by frame through the steps of the ring, can_tx_task pops through them,
 and everything interleaves; only the callbacks of the USB stack wait for a drain
 under way, which runs in the same task.
 */
module CanPath {
  import opened Words
  import opened PcanMsg
  import Out = UsbOut
  import Ring = RingSteps
  import Bus = BridgeModel
  import Safe = BridgeSafety

  /** `draining` means that a drain of session `gen` is under way. */
  datatype Path = Path(out: Out.Out, ring: Ring.Ring, bus: Bus.Bridge, draining: bool, gen: nat)

  datatype Event =
    | Usb(e: Out.Event)
    | DrainBegins(g: nat)
    | DrainSteps(patient: bool, accepted: bool)
    | Pops
    | Reads
    | OnBus(f: Bus.Event)

  function Init(slots: seq<Frame>): Path
    requires slots != []
  {
    Path(Out.INIT, Ring.InitRing(slots), Bus.START, false, 0)
  }

  // ---- steps ----------------------------------------------------------------

  function UsbStep(s: Path, e: Out.Event): Path {
    if s.draining || e.OnDrain? || !Out.Allowed(s.out, e) then s else s.(out := Out.Step(s.out, e))
  }

  /** The next step of the drain: start a push, end one, stop for want of room, or re-arm. */
  function DrainStep(s: Path, patient: bool, accepted: bool): Path {
    if !s.draining then s
    else if s.ring.p.PIdle? then
      if s.out.pending == [] then s.(out := s.out.(armed := accepted, needsRearm := !accepted), draining := false)
      else if s.ring.spaces == 0 then s.(draining := false)
      else s.(ring := Ring.PushStep(s.ring, s.out.pending[0]))
    else
      var k := s.(ring := Ring.ProduceStep(s.ring, patient));
      if s.ring.p.PTimedOut? then k.(draining := false)
      else if s.ring.p.PUnlocked? && s.out.pending != [] then k.(out := Out.MovedOne(s.out))
      else k
  }

  /** can_tx_task is in `pcan_rb_pop`. */
  predicate Popping(b: Bus.Bridge) { b.tx.Work? && !b.have }

  function PopStep(s: Path): Path {
    if !Popping(s.bus) then s
    else if s.ring.c.CIdle? then s.(ring := Ring.PopStep(s.ring))
    else
      var k := s.(ring := Ring.ConsumeStep(s.ring));
      if s.ring.c.CUnlocked? then k.(bus := Bus.TxStep(s.bus, Some(s.ring.c.f), false)) else k
  }

  /** While a pop is under way only its own steps move can_tx_task. */
  function BusStep(s: Path, e: Bus.Event): Path {
    if !e.TxRuns? then s.(bus := Bus.Step(s.bus, e))
    else if Popping(s.bus) && !s.ring.c.CIdle? then s
    else s.(bus := Bus.TxStep(s.bus, None, e.busy))
  }

  function Step(s: Path, e: Event): Path {
    match e
    case Usb(f) => UsbStep(s, f)
    case DrainBegins(g) => if !s.draining && Out.Live(s.out, g) then s.(draining := true, gen := g) else s
    case DrainSteps(patient, accepted) => DrainStep(s, patient, accepted)
    case Pops => PopStep(s)
    case Reads => s.(ring := Ring.ReadStep(s.ring))
    case OnBus(f) => BusStep(s, f)
  }

  function Run(slots: seq<Frame>, es: seq<Event>): Path
    requires slots != []
  {
    if es == [] then Init(slots) else Step(Run(slots, es[..|es| - 1]), es[|es| - 1])
  }

  // ---- invariant ------------------------------------------------------------

  /** A push under way is of the first pending frame. */
  predicate Pushing(r: Ring.Ring, pending: seq<Frame>) {
    match r.p
    case PIdle => true
    case PTimedOut => true
    case PSpace(f) => pending != [] && f == pending[0]
    case PLocked(f) => pending != [] && f == pending[0]
    case _ => pending != [] && |r.log| == r.accepted + 1 && r.log[r.accepted] == pending[0]
  }

  /** What entered the ring is what the drain marked as pushed; what left it is what can_tx_task popped. */
  predicate Joined(s: Path) {
    && s.ring.accepted <= |s.ring.log| && Out.Kept(s.out.fates) == s.ring.log[..s.ring.accepted]
    && s.bus.popped == s.ring.popped
    && Pushing(s.ring, s.out.pending)
    && (if s.draining then Out.Live(s.out, s.gen) else s.ring.p.PIdle?)
    && (!s.ring.c.CIdle? ==> Popping(s.bus))
  }

  predicate Inv(s: Path) {
    Out.Inv(s.out) && Ring.Inv(s.ring) && Safe.Inv(s.bus) && Joined(s)
  }

  lemma InitInv(slots: seq<Frame>)
    requires slots != []
    ensures Inv(Init(slots))
  {
    Ring.InitInv(slots);
    Safe.ReachableInv([]);
  }

  lemma UsbKeeps(s: Path, e: Out.Event)
    requires Inv(s)
    ensures Inv(UsbStep(s, e))
  {
    hide Ring.Inv, Safe.Inv, Out.Inv, Out.Step, Out.Kept;
    if !s.draining && !e.OnDrain? && Out.Allowed(s.out, e) {
      Out.StepKeeps(s.out, e);
      Out.RingGets(s.out, e);
      assert Out.Kept(s.out.fates) + [] == Out.Kept(s.out.fates);
    }
  }

  /** One frame pushed keeps the accounts of the EP2-OUT side. */
  lemma MovedOneKeeps(o: Out.Out)
    requires Out.Inv(o) && o.pending != []
    ensures Out.Inv(Out.MovedOne(o)) && Out.Kept(Out.MovedOne(o).fates) == Out.Kept(o.fates) + [o.pending[0]]
  {
    Out.OneFate(o.fates, Out.Pushed(o.pending[0]));
    hide Out.All, Out.Kept, Out.LostCount;
    assert o.pending == [o.pending[0]] + o.pending[1..];
  }

  /** What the producer's steps do to the history of the ring. */
  lemma ProduceHistory(r: Ring.Ring, patient: bool, pending: seq<Frame>)
    requires Ring.Inv(r) && Pushing(r, pending) && !r.p.PIdle?
    ensures var k := Ring.ProduceStep(r, patient);
            && k.popped == r.popped && k.c == r.c && r.log <= k.log && k.accepted <= |k.log|
            && (if r.p.PUnlocked? then pending != [] && k.p.PIdle? && k.accepted == r.accepted + 1
                                       && k.log[..k.accepted] == r.log[..r.accepted] + [pending[0]]
                else k.accepted == r.accepted && k.log[..k.accepted] == r.log[..r.accepted] && Pushing(k, pending))
            && (r.p.PTimedOut? ==> k.p.PIdle?)
  {
    if r.p.PLocked? {
      Ring.WriteIsSafe(r);
    }
    hide Ring.Stored, Ring.Locks, Ring.Tokens;
  }

  lemma DrainKeeps(s: Path, patient: bool, accepted: bool)
    requires Inv(s)
    ensures Inv(DrainStep(s, patient, accepted))
  {
    if !s.draining {
      return;
    }
    if s.ring.p.PIdle? {
      DrainStartKeeps(s, patient, accepted);
      return;
    }
    ProduceHistory(s.ring, patient, s.out.pending);
    Ring.ProduceKeeps(s.ring, patient);
    if s.ring.p.PUnlocked? {
      MovedOneKeeps(s.out);
    }
    hide Ring.Inv, Safe.Inv, Out.Inv, Ring.ProduceStep, Out.Kept;
  }

  lemma DrainStartKeeps(s: Path, patient: bool, accepted: bool)
    requires Inv(s) && s.draining && s.ring.p.PIdle?
    ensures Inv(DrainStep(s, patient, accepted))
  {
    if s.out.pending != [] {
      Ring.StepKeeps(s.ring, Ring.Push(s.out.pending[0]));
    }
    hide Ring.Inv, Safe.Inv, Out.Kept, Out.All, Out.LostCount;
  }

  lemma PopKeeps(s: Path)
    requires Inv(s)
    ensures Inv(PopStep(s))
  {
    hide Ring.Inv, Safe.Inv, Out.Inv, Out.Kept, Pushing;
    if Popping(s.bus) {
      Ring.StepKeeps(s.ring, if s.ring.c.CIdle? then Ring.Pop else Ring.Consume);
      ConsumerLeavesPush(s.ring, s.out.pending);
      if s.ring.c.CUnlocked? {
        Safe.TxKeeps(s.bus, Some(s.ring.c.f), false);
      }
    }
  }

  /** The steps of pop touch nothing of push. */
  lemma ConsumerLeavesPush(r: Ring.Ring, pending: seq<Frame>)
    ensures forall k <- [Ring.PopStep(r), Ring.ConsumeStep(r)] ::
              (k.p, k.log, k.accepted) == (r.p, r.log, r.accepted) && Pushing(k, pending) == Pushing(r, pending)
  {
  }

  /** Only can_tx_task itself moves its place, its frame and the frames popped. */
  lemma OthersLeaveTx(b: Bus.Bridge, e: Bus.Event)
    requires !e.TxRuns?
    ensures var k := Bus.Step(b, e); (k.tx, k.have, k.popped) == (b.tx, b.have, b.popped)
  {
    hide Bus.React, Bus.Uninstall, Bus.Started, Bus.Enqueue, Bus.ParkStep;
  }

  lemma TxLeavesPopped(b: Bus.Bridge, busy: bool)
    ensures Bus.TxStep(b, None, busy).popped == b.popped
  {
    hide Bus.ParkStep;
  }

  lemma BusKeeps(s: Path, e: Bus.Event)
    requires Inv(s)
    ensures Inv(BusStep(s, e))
  {
    hide Ring.Inv, Safe.Inv, Out.Inv, Out.Kept, Bus.TxStep, Bus.Step;
    if !e.TxRuns? {
      Safe.StepKeeps(s.bus, e);
      OthersLeaveTx(s.bus, e);
    } else if !Popping(s.bus) || s.ring.c.CIdle? {
      Safe.TxKeeps(s.bus, None, e.busy);
      TxLeavesPopped(s.bus, e.busy);
    }
  }

  lemma StepKeeps(s: Path, e: Event)
    requires Inv(s)
    ensures Inv(Step(s, e))
  {
    match e
    case Usb(f) => UsbKeeps(s, f);
    case DrainBegins(_) => hide Ring.Inv, Safe.Inv, Out.Inv;
    case DrainSteps(patient, accepted) => DrainKeeps(s, patient, accepted);
    case Pops => PopKeeps(s);
    case Reads => ReadKeeps(s);
    case OnBus(f) => BusKeeps(s, f);
    hide Ring.Inv, Safe.Inv, Out.Inv;
  }

  lemma ReadKeeps(s: Path)
    requires Inv(s)
    ensures Inv(s.(ring := Ring.ReadStep(s.ring)))
  {
    Ring.StepKeeps(s.ring, Ring.Read);
    hide Ring.Inv, Safe.Inv, Out.Inv;
  }

  lemma {:induction false} ReachableInv(slots: seq<Frame>, es: seq<Event>)
    requires slots != []
    ensures Inv(Run(slots, es))
    decreases |es|
  {
    hide Inv, Step, Init;
    if es == [] {
      InitInv(slots);
    } else {
      ReachableInv(slots, es[..|es| - 1]);
      StepKeeps(Run(slots, es[..|es| - 1]), es[|es| - 1]);
    }
  }

  // ---- from the host to the bus ---------------------------------------------

  /**
   In every run: each frame decoded is pushed, counted as lost at a reset, or pending,
   in order; the frames can_tx_task has popped are the first of those pushed; and the
   bus carries the popped frames in that order, each confirmed one once, plus once for
   every success a teardown erased.
   */
  lemma HostToBus(slots: seq<Frame>, es: seq<Event>)
    requires slots != []
    ensures var s := Run(slots, es);
            && s.out.decoded == Out.All(s.out.fates) + s.out.pending
            && |s.out.decoded| == |Out.Kept(s.out.fates)| + s.out.counted + |s.out.pending|
            && s.bus.popped <= Out.Kept(s.out.fates)
            && s.bus.popped == Safe.FramesOf(s.bus.done) + (if s.bus.have then [s.bus.pending] else [])
            && s.bus.wire == Safe.Sent(s.bus.done) + Times(s.bus.pending, s.bus.copies)
            && forall k :: 0 <= k < |s.bus.done| ==> Safe.Settled(s.bus.done[k])
  {
    ReachableInv(slots, es);
    hide Run;
    var s := Run(slots, es);
    Out.FatesSplit(s.out.fates);
    hide Out.All, Out.Kept, Safe.FramesOf, Safe.Sent, Safe.Handshake, Safe.Ownership, Safe.DriverSound;
    hide Ring.Stored, Ring.Locks, Ring.Places, Ring.Tokens;
  }
}
