/**
 From every state of the machine that joins the EP2-OUT drain, the transmit ring and the
 transmit path, the next transfer of the host can be brought to the bus frame by frame:
 no part of it can be left waiting for another for good.
 */
module CanPathProgress {
  import opened Words
  import opened PcanMsg
  import opened CanPath
  import Out = UsbOut
  import Ring = RingSteps
  import Turns = RingProgress
  import Bus = BridgeModel
  import Safe = BridgeSafety
  import Moves = BridgeProgress

  // ---- going on from a state ------------------------------------------------

  function Play(s: Path, fs: seq<Event>): Path {
    if fs == [] then s else Step(Play(s, fs[..|fs| - 1]), fs[|fs| - 1])
  }

  lemma {:induction false} PlayOn(s: Path, fs: seq<Event>, gs: seq<Event>)
    ensures Play(s, fs + gs) == Play(Play(s, fs), gs)
    decreases |gs|
  {
    hide Step;
    if gs == [] {
      assert fs + gs == fs;
    } else {
      PlayOn(s, fs, gs[..|gs| - 1]);
      assert (fs + gs)[..|fs + gs| - 1] == fs + gs[..|gs| - 1];
    }
  }

  lemma {:induction false} RunOn(slots: seq<Frame>, es: seq<Event>, fs: seq<Event>)
    requires slots != []
    ensures Run(slots, es + fs) == Play(Run(slots, es), fs)
    decreases |fs|
  {
    hide Step, Init;
    if fs == [] {
      assert es + fs == es;
    } else {
      RunOn(slots, es, fs[..|fs| - 1]);
      assert (es + fs)[..|es + fs| - 1] == es + fs[..|fs| - 1];
    }
  }

  predicate Good(s: Path) { Inv(s) && Moves.OffSeen(s.bus) }

  lemma StepGood(s: Path, e: Event)
    requires Good(s)
    ensures Good(Step(s, e))
  {
    StepKeeps(s, e);
    hide Ring.Inv, Out.Inv, CanPath.Joined, Moves.OffSeen, Safe.Inv, Ring.PopStep, Ring.ConsumeStep, Ring.ProduceStep;
    hide Bus.TxStep, Bus.Step;
    match e
    case Pops =>
      if Popping(s.bus) && s.ring.c.CUnlocked? {
        TxSame(s.bus, Some(s.ring.c.f), false);
      }
    case OnBus(f) =>
      if f.TxRuns? {
        TxSame(s.bus, None, f.busy);
      } else {
        Moves.OffStep(s.bus, f);
      }
    case _ => hide UsbStep, DrainStep; BusSame(s, e);
  }

  lemma BusSame(s: Path, e: Event)
    requires !e.Pops? && !e.OnBus?
    ensures Step(s, e).bus == s.bus
  {
    hide Ring.ProduceStep, Ring.PushStep, Out.Step;
  }

  lemma TxSame(b: Bus.Bridge, popped: Option<Frame>, busy: bool)
    requires Safe.Inv(b) && Moves.OffSeen(b)
    ensures Moves.OffSeen(Bus.TxStep(b, popped, busy))
  {
    hide Safe.Inv, Bus.TxStep;
    Moves.OffStep(b, Bus.TxRuns(popped, busy));
  }

  lemma {:induction false} PlayGood(s: Path, fs: seq<Event>)
    requires Good(s)
    ensures Good(Play(s, fs))
    decreases |fs|
  {
    hide Good, Step;
    if fs != [] {
      PlayGood(s, fs[..|fs| - 1]);
      StepGood(Play(s, fs[..|fs| - 1]), fs[|fs| - 1]);
    }
  }

  lemma Reached(slots: seq<Frame>, es: seq<Event>)
    requires slots != []
    ensures Good(Run(slots, es))
  {
    InitInv(slots);
    hide Inv, Step;
    PlayGood(Init(slots), es);
    RunOn(slots, [], es);
    assert [] + es == es;
  }

  /** One more event, which leads to `t`. */
  lemma Then(s: Path, fs: seq<Event>, e: Event, t: Path) returns (gs: seq<Event>)
    requires Step(Play(s, fs), e) == t
    ensures gs == fs + [e] && Play(s, gs) == t
  {
    gs := fs + [e];
    assert gs[..|fs|] == fs;
    hide Step, Play;
  }

  // ---- steps of the transmit path alone -------------------------------------

  function OnBusAll(fs: seq<Bus.Event>): seq<Event> {
    if fs == [] then [] else OnBusAll(fs[..|fs| - 1]) + [OnBus(fs[|fs| - 1])]
  }

  /** With no pop under way the transmit path runs as on its own. */
  lemma {:induction false} BusPlays(s: Path, fs: seq<Bus.Event>)
    requires s.ring.c.CIdle? && Moves.NoPops(fs)
    ensures Play(s, OnBusAll(fs)) == s.(bus := Moves.Play(s.bus, fs))
    decreases |fs|
  {
    hide Bus.Step, Bus.TxStep;
    if fs != [] {
      var init, e := fs[..|fs| - 1], fs[|fs| - 1];
      BusPlays(s, init);
      assert OnBusAll(fs)[..|OnBusAll(fs)| - 1] == OnBusAll(init);
      OneBusStep(s.(bus := Moves.Play(s.bus, init)), e);
    }
  }

  lemma OneBusStep(s: Path, e: Bus.Event)
    requires s.ring.c.CIdle? && (e.TxRuns? ==> e.popped.None?)
    ensures Step(s, OnBus(e)) == s.(bus := Bus.Step(s.bus, e))
  {
    hide Bus.TxStep, Bus.RxStep, Bus.CtrlStep, Bus.DriverStep;
  }

  // ---- the ring -------------------------------------------------------------

  /** The step of the joined machine by which the ring goes on. */
  function Onward(r: Ring.Ring): Event {
    match Turns.Onward(r)
    case Read => Reads
    case Produce(_) => DrainSteps(true, true)
    case _ => Pops
  }

  /** Frames that wait in the static buffer and are not about to be taken out of it. */
  function Waiting(s: Path): int { |s.out.pending| - Turns.Accepting(s.ring.p) }

  /** A pop under way hands its frame to the transmit task; nothing else happens to the transmit path. */
  predicate Handed(s: Path, t: Path) {
    if s.ring.c.CIdle? then t.bus == s.bus else t.bus == Bus.Popped(s.bus, t.bus.pending)
  }

  /** The ring has gone on; the accounts of the USB side are as they were. */
  predicate SameUsb(s: Path, t: Path) {
    && (t.out.open, t.out.gen, t.out.decoded, t.out.counted) == (s.out.open, s.out.gen, s.out.decoded, s.out.counted)
    && (t.out.armed, t.out.needsRearm) == (s.out.armed, s.out.needsRearm)
    && Waiting(t) == Waiting(s)
  }

  /** What one such step does. */
  predicate GoesOn(s: Path, t: Path) {
    && t.ring == Ring.Step(s.ring, Turns.Onward(s.ring))
    && SameUsb(s, t)
    && (if s.ring.c.CUnlocked? && Onward(s.ring).Pops? then t.bus == Bus.Popped(s.bus, t.bus.pending)
        else t.bus == s.bus)
    && (t.ring.c.CIdle? <==> s.ring.c.CIdle? || (s.ring.c.CUnlocked? && Onward(s.ring).Pops?))
  }

  lemma DrainGoesOn(s: Path)
    requires Inv(s) && !s.ring.p.PIdle? && Turns.Onward(s.ring) == Ring.Produce(true)
    requires s.ring.p.PSpace? ==> s.ring.lock.Free?
    ensures GoesOn(s, Step(s, DrainSteps(true, true)))
  {
    hide Ring.Inv, Safe.Inv, Out.Inv, Bus.Popped;
  }

  lemma PopGoesOn(s: Path)
    requires Inv(s) && !s.ring.c.CIdle? && Turns.Onward(s.ring) == Ring.Consume
    ensures GoesOn(s, Step(s, Pops))
  {
    hide Ring.Inv, Safe.Inv, Out.Inv;
    if s.ring.c.CUnlocked? {
      TxPops(s.bus, s.ring.c.f);
    }
    hide Bus.TxStep, Bus.Popped;
  }

  lemma ReadGoesOn(s: Path)
    requires s.ring.reading
    ensures GoesOn(s, Step(s, Reads))
  {}

  lemma OneOnward(s: Path)
    requires Inv(s) && !Turns.Quiet(s.ring)
    ensures GoesOn(s, Step(s, Onward(s.ring)))
  {
    LocksOf(s.ring);
    hide Inv, Step, GoesOn;
    if s.ring.reading {
      ReadGoesOn(s);
    } else if s.ring.lock.ByConsumer? || s.ring.p.PIdle? {
      PopGoesOn(s);
    } else {
      DrainGoesOn(s);
    }
  }

  lemma LocksOf(r: Ring.Ring)
    requires Ring.Inv(r)
    ensures r.lock.ByConsumer? ==> !r.c.CIdle?
    ensures r.reading <==> r.lock.ByReader?
    ensures !r.reading && !r.lock.ByConsumer? && r.p.PSpace? ==> r.lock.Free?
  {
    hide Ring.Stored;
  }

  lemma TxPops(b: Bus.Bridge, f: Frame)
    requires Popping(b)
    ensures Bus.TxStep(b, Some(f), false) == Bus.Popped(b, f)
  {}

  /** Whatever goes on in the ring comes to its end. */
  lemma {:induction false} RingRests(s: Path) returns (fs: seq<Event>)
    requires Good(s)
    ensures var t := Play(s, fs);
            && Turns.Quiet(t.ring) && SameUsb(s, t) && Handed(s, t)
            && |t.ring.popped| == Ring.Taken(s.ring) && t.ring.accepted == s.ring.accepted + Turns.Accepting(s.ring.p)
    decreases Turns.Left(s.ring)
  {
    hide Play, Step, Ring.Step, Ring.Inv, Safe.Inv, Out.Inv, Turns.Left, Bus.Popped, SameUsb;
    PlayNone(s);
    if Turns.Quiet(s.ring) {
      fs := [];
      AtRest(s);
      return;
    }
    var e := Onward(s.ring);
    OneOnward(s);
    Turns.OneOnward(s.ring);
    StepGood(s, e);
    var rest := RingRests(Step(s, e));
    fs := [e] + rest;
    PlayOn(s, [e], rest);
    HandedThen(s, Step(s, e), Play(s, fs));
    SameUsbThen(s, Step(s, e), Play(s, fs));
  }

  lemma AtRest(s: Path)
    requires Turns.Quiet(s.ring)
    ensures SameUsb(s, s) && Handed(s, s) && |s.ring.popped| == Ring.Taken(s.ring)
    ensures Turns.Accepting(s.ring.p) == 0
  {}

  lemma SameUsbThen(s: Path, t: Path, u: Path)
    requires SameUsb(s, t) && SameUsb(t, u)
    ensures SameUsb(s, u)
  {}

  lemma PlayNone(s: Path)
    ensures Play(s, []) == s
    ensures forall e :: Play(s, [e]) == Step(s, e)
  {
    forall e
      ensures Play(s, [e]) == Step(s, e)
    {
      assert [e][..0] == [];
    }
    hide Step;
  }

  lemma HandedThen(s: Path, t: Path, u: Path)
    requires Handed(t, u)
    requires if s.ring.c.CIdle? then t.ring.c.CIdle? && t.bus == s.bus
             else if t.ring.c.CIdle? then t.bus == Bus.Popped(s.bus, t.bus.pending) else t.bus == s.bus
    ensures Handed(s, u)
  {}

  // ---- one frame after the other --------------------------------------------

  /** The ring is at rest, the driver sends, and no frame is owned. */
  predicate Calm(s: Path) {
    && Good(s) && Turns.Quiet(s.ring) && s.bus.ctrl == Bus.Loop && Moves.Sending(s.bus.drv) && !s.bus.have
  }

  /** The frames let go since then, from the `free`-th on, were all confirmed. */
  predicate LetGo(a: seq<Bus.Done>, b: seq<Bus.Done>, free: nat) {
    a <= b && forall k :: |a| + free <= k < |b| ==> b[k].confirmed
  }

  /** Nothing is decoded or lost, and every frame let go has been confirmed. */
  predicate Advances(s: Path, t: Path) {
    && t.out.decoded == s.out.decoded && t.out.counted == s.out.counted
    && LetGo(s.bus.done, t.bus.done, 0)
  }

  /** The USB session and its buffer are as they were. */
  predicate SameSession(s: Path, t: Path) {
    && (t.out.open, t.out.gen, t.out.armed, t.out.needsRearm) == (s.out.open, s.out.gen, s.out.armed, s.out.needsRearm)
    && |t.out.pending| == |s.out.pending|
  }

  lemma LetGoThen(a: seq<Bus.Done>, b: seq<Bus.Done>, c: seq<Bus.Done>, free: nat)
    requires LetGo(a, b, free) && LetGo(b, c, 0)
    ensures LetGo(a, c, free)
  {
    forall k | |a| + free <= k < |c|
      ensures c[k].confirmed
    {
      if k < |b| {
        assert b[k].confirmed && c[k] == b[k];
      }
    }
  }

  /** Tokens of a ring at rest. */
  lemma QuietTokens(r: Ring.Ring)
    requires Ring.Inv(r) && Turns.Quiet(r)
    ensures r.items + |r.popped| == r.accepted && r.lock.Free?
    ensures r.items == 0 ==> r.spaces > 0 && r.popped == r.log[..r.accepted]
  {
    hide Ring.Stored;
  }

  /** The transmit task gets to work and takes an item of the ring. */
  lemma TakesItem(s: Path) returns (fs: seq<Event>)
    requires Calm(s) && s.ring.items > 0
    ensures var t := Play(s, fs);
            && t.ring == Ring.PopStep(s.ring) && t.out == s.out
            && t.bus == s.bus.(tx := Bus.Work, txAck := t.bus.txAck)
  {
    hide Play, Ring.PopStep, Ring.Inv, Out.Inv, Safe.Inv, CanPath.Joined, Moves.Sending, Moves.OffSeen, OnBusAll;
    Moves.EvenAtLoop(s.bus);
    var gs := Moves.GoesToWork(s.bus);
    BusPlays(s, gs);
    var t := Play(s, OnBusAll(gs));
    fs := Then(s, OnBusAll(gs), Pops, t.(ring := Ring.PopStep(t.ring)));
  }

  /** One frame leaves the ring and is confirmed. */
  lemma PopOne(s: Path) returns (fs: seq<Event>)
    requires Calm(s) && s.ring.items > 0
    ensures var t := Play(s, fs);
            Calm(t) && Advances(s, t) && SameSession(s, t) && t.ring.items == s.ring.items - 1
  {
    hide Play, Ring.Inv, Out.Inv, Safe.Inv, CanPath.Joined, Moves.OffSeen, Moves.Sending, Moves.Play;
    QuietTokens(s.ring);
    fs := TakesItem(s);
    var t := Play(s, fs);
    PlayGood(s, fs);
    var gs := RingRests(t);
    PlayOn(s, fs, gs);
    fs := fs + gs;
    var u := Play(s, fs);
    PlayGood(s, fs);
    var hs := Moves.Confirm(u.bus);
    BusPlays(u, hs);
    PlayOn(s, fs, OnBusAll(hs));
    fs := fs + OnBusAll(hs);
    PlayGood(s, fs);
    QuietTokens(Play(s, fs).ring);
    Confirmed(s.bus, u.bus, Play(s, fs).bus);
  }

  lemma Confirmed(b: Bus.Bridge, c: Bus.Bridge, d: Bus.Bridge)
    requires c.done == b.done && Moves.Delivered(c, d)
    ensures LetGo(b.done, d.done, 0)
  {}

  /** The ring is emptied. */
  lemma {:induction false} EmptyRing(s: Path) returns (fs: seq<Event>)
    requires Calm(s)
    ensures var t := Play(s, fs); Calm(t) && Advances(s, t) && SameSession(s, t) && t.ring.items == 0
    decreases s.ring.items
  {
    hide Play, Calm, LetGo;
    PlayNone(s);
    fs := [];
    if s.ring.items > 0 {
      fs := PopOne(s);
      var t := Play(s, fs);
      var gs := EmptyRing(t);
      PlayOn(s, fs, gs);
      LetGoThen(s.bus.done, t.bus.done, Play(t, gs).bus.done, 0);
      fs := fs + gs;
    } else {
      NoneLetGo(s.bus.done);
    }
  }

  lemma NoneLetGo(a: seq<Bus.Done>)
    ensures LetGo(a, a, 0)
  {}

  /** The drain is under way. */
  lemma Draining(s: Path) returns (fs: seq<Event>)
    requires Calm(s) && s.out.open && s.out.needsRearm
    ensures var t := Play(s, fs);
            t == s.(draining := true, gen := t.gen) && Good(t)
  {
    hide Play, Ring.Inv, Out.Inv, Safe.Inv, Moves.OffSeen, Moves.Sending;
    PlayNone(s);
    fs := [];
    if !s.draining {
      fs := Then(s, [], DrainBegins(s.out.gen), s.(draining := true, gen := s.out.gen));
    }
    PlayGood(s, fs);
  }

  /** One pending frame enters the ring. */
  lemma PushOne(s: Path) returns (fs: seq<Event>)
    requires Calm(s) && s.ring.items == 0 && s.out.open && s.out.needsRearm && s.out.pending != []
    ensures var t := Play(s, fs);
            && Calm(t) && Advances(s, t) && t.out.open && t.out.needsRearm
            && |t.out.pending| == |s.out.pending| - 1
  {
    hide Play, Ring.Inv, Out.Inv, Safe.Inv, CanPath.Joined, Moves.OffSeen, Moves.Sending;
    QuietTokens(s.ring);
    fs := Draining(s);
    var t := Play(s, fs);
    fs := Then(s, fs, DrainSteps(true, true), t.(ring := Ring.PushStep(t.ring, t.out.pending[0])));
    PlayGood(s, fs);
    var u := Play(s, fs);
    var gs := RingRests(u);
    PlayOn(s, fs, gs);
    fs := fs + gs;
    PlayGood(s, fs);
  }

  /** With nothing pending and nothing in the ring the endpoint is armed. */
  lemma Arms(s: Path) returns (fs: seq<Event>)
    requires Calm(s) && s.out.open && s.out.needsRearm && s.out.pending == []
    ensures var t := Play(s, fs);
            && Calm(t) && Advances(s, t) && t.out.open && t.out.armed && t.out.pending == []
            && t.ring == s.ring && !t.draining
  {
    hide Play, Ring.Inv, Out.Inv, Safe.Inv, CanPath.Joined, Moves.OffSeen, Moves.Sending;
    fs := Draining(s);
    var t := Play(s, fs);
    fs := Then(s, fs, DrainSteps(true, true), t.(out := t.out.(armed := true, needsRearm := false), draining := false));
    PlayGood(s, fs);
  }

  /** The endpoint waits for a transfer, and every frame decoded before has been let go or counted as lost. */
  predicate AllOut(s: Path) {
    && Calm(s) && s.out.open && s.out.armed && s.out.pending == [] && s.ring.items == 0 && !s.draining
  }

  /** Everything pending is brought to the bus. */
  lemma {:induction false} DrainAll(s: Path) returns (fs: seq<Event>)
    requires Calm(s) && s.out.open
    ensures AllOut(Play(s, fs)) && Advances(s, Play(s, fs))
    decreases |s.out.pending|
  {
    hide Play, Ring.Inv, Safe.Inv, Moves.OffSeen, Moves.Sending, LetGo, Out.All, Out.Kept, Out.LostCount;
    fs := EmptyRing(s);
    var t := Play(s, fs);
    if t.out.armed {
      return;
    }
    var gs: seq<Event>;
    if t.out.pending == [] {
      gs := Arms(t);
    } else {
      gs := PushOne(t);
      var u := Play(t, gs);
      var hs := DrainAll(u);
      PlayOn(t, gs, hs);
      LetGoThen(t.bus.done, u.bus.done, Play(u, hs).bus.done, 0);
      gs := gs + hs;
    }
    PlayOn(s, fs, gs);
    LetGoThen(s.bus.done, t.bus.done, Play(t, gs).bus.done, 0);
    fs := fs + gs;
  }

  // ---- from anywhere --------------------------------------------------------

  /** What is under way ends, and the frame owned is let go, confirmed or refused. */
  lemma BecomesCalm(s: Path) returns (fs: seq<Event>)
    requires Good(s)
    ensures var t := Play(s, fs);
            && Calm(t) && t.out.open == s.out.open
            && t.out.decoded == s.out.decoded && t.out.counted == s.out.counted && LetGo(s.bus.done, t.bus.done, 1)
  {
    hide Play, Ring.Inv, Out.Inv, Safe.Inv, CanPath.Joined, Moves.OffSeen, Moves.Sending, Moves.Play, Moves.Gone;
    fs := RingRests(s);
    var t := Play(s, fs);
    PlayGood(s, fs);
    var gs := Moves.Clears(t.bus);
    BusPlays(t, gs);
    PlayOn(s, fs, OnBusAll(gs));
    fs := fs + OnBusAll(gs);
    PlayGood(s, fs);
    OneGone(t.bus, Play(s, fs).bus);
  }

  lemma OneGone(b: Bus.Bridge, c: Bus.Bridge)
    requires Moves.Gone(b, c)
    ensures LetGo(b.done, c.done, 1) && !c.have
  {}

  /** A closed interface is opened. */
  lemma Opens(s: Path) returns (fs: seq<Event>)
    requires Calm(s)
    ensures var t := Play(s, fs); Calm(t) && Advances(s, t) && t.out.open
  {
    hide Play, Ring.Inv, Safe.Inv, Moves.OffSeen, Moves.Sending, Out.All, Out.Kept, Out.LostCount;
    PlayNone(s);
    fs := [];
    if !s.out.open {
      fs := Then(s, [], Usb(Out.OnOpen(true)), s.(out := Out.DrvOpen(s.out, true)));
    }
    PlayGood(s, fs);
  }

  /** A transfer comes in. */
  lemma Arrives(s: Path, buf: Bytes) returns (fs: seq<Event>)
    requires AllOut(s) && buf != []
    ensures var t := Play(s, fs);
            && Calm(t) && t.out.open && t.out.decoded == s.out.decoded + Out.FramesOf(buf)
            && t.out.counted == s.out.counted && t.bus == s.bus
  {
    hide Play, Ring.Inv, Safe.Inv, Moves.OffSeen, Moves.Sending, Out.All, Out.Kept, Out.LostCount, Out.FramesOf;
    PlayNone(s);
    fs := Then(s, [], Usb(Out.OnDone(true, buf)), s.(out := Out.DrvDone(s.out, true, buf)));
    PlayGood(s, fs);
  }

  /** Every frame that entered the ring has been let go. */
  lemma NothingLeft(s: Path)
    requires AllOut(s)
    ensures Safe.FramesOf(s.bus.done) == Out.Kept(s.out.fates)
  {
    QuietTokens(s.ring);
    hide Ring.Inv, Out.Kept, Safe.FramesOf, Safe.Handshake, Safe.DriverSound, Safe.Ownership, Moves.OffSeen;
  }

  /**
   From every state a run may reach, whatever is under way in the USB driver, the
   ring, the tasks and the controller, and with the interface closed too: it can go on
   so that the next transfer is taken, nothing of it or of what was pending is lost,
   every frame that has entered the ring is let go, all of them confirmed except at most
   the first, and the endpoint waits for another transfer.
   */
  lemma NextTransferReachesBus(slots: seq<Frame>, es: seq<Event>, buf: Bytes) returns (fs: seq<Event>)
    requires slots != [] && buf != []
    ensures var s, t := Run(slots, es), Run(slots, es + fs);
            && t.out.decoded == s.out.decoded + Out.FramesOf(buf) && t.out.counted == s.out.counted
            && t.out.pending == [] && t.out.armed && Safe.FramesOf(t.bus.done) == Out.Kept(t.out.fates)
            && LetGo(s.bus.done, t.bus.done, 1)
  {
    hide Run, Play, Good, Calm, LetGo, Out.FramesOf;
    Reached(slots, es);
    var s := Run(slots, es);
    fs := BecomesCalm(s);
    var gs := Opens(Play(s, fs));
    fs := Follows(s, fs, gs);
    gs := DrainAll(Play(s, fs));
    fs := Follows(s, fs, gs);
    gs := Arrives(Play(s, fs), buf);
    PlayOn(s, fs, gs);
    fs := fs + gs;
    gs := DrainAll(Play(s, fs));
    fs := Follows(s, fs, gs);
    NothingLeft(Play(s, fs));
    RunOn(slots, es, fs);
  }

  lemma Follows(s: Path, fs: seq<Event>, gs: seq<Event>) returns (hs: seq<Event>)
    requires LetGo(s.bus.done, Play(s, fs).bus.done, 1) && Advances(Play(s, fs), Play(Play(s, fs), gs))
    ensures Play(s, hs) == Play(Play(s, fs), gs) && LetGo(s.bus.done, Play(s, hs).bus.done, 1)
  {
    hide Play, LetGo;
    hs := fs + gs;
    PlayOn(s, fs, gs);
    LetGoThen(s.bus.done, Play(s, fs).bus.done, Play(s, hs).bus.done, 1);
  }
}
