/**
 From every state of the machine that joins the receive ring, the packing task and
 EP2-IN, the next frame, a calibration and an error report can be brought to the USB
 host: no flush, no push and no stage of the packing loop is a dead end.
 */
module HostPathProgress {
  import opened Words
  import opened PcanMsg
  import opened PcanBatch
  import opened UsbTxTask
  import opened HostPath
  import Ring = RingSteps
  import Turns = RingProgress
  import In = UsbIn
  import Onto = UsbInProgress
  import Send = UsbSend

  // ---- going on from a state ------------------------------------------------

  function Play(s: Path, fs: seq<Event>): Path {
    if fs == [] then s else Step(Play(s, fs[..|fs| - 1]), fs[|fs| - 1])
  }

  lemma {:induction false} PlayOn(s: Path, fs: seq<Event>, gs: seq<Event>)
    ensures Play(s, fs + gs) == Play(Play(s, fs), gs)
    decreases |gs|
  {
    hide Step;
    if gs == [] {
      assert fs + gs == fs;
    } else {
      PlayOn(s, fs, gs[..|gs| - 1]);
      assert (fs + gs)[..|fs + gs| - 1] == fs + gs[..|gs| - 1];
    }
  }

  lemma {:induction false} RunOn(slots: seq<Frame>, es: seq<Event>, fs: seq<Event>)
    requires slots != []
    ensures Run(slots, es + fs) == Play(Run(slots, es), fs)
    decreases |fs|
  {
    hide Step, Init;
    if fs == [] {
      assert es + fs == es;
    } else {
      RunOn(slots, es, fs[..|fs| - 1]);
      assert (es + fs)[..|es + fs| - 1] == es + fs[..|fs| - 1];
    }
  }

  lemma {:induction false} PlayKeeps(s: Path, fs: seq<Event>)
    requires Inv(s)
    ensures Inv(Play(s, fs))
    decreases |fs|
  {
    hide Inv, Step;
    if fs != [] {
      PlayKeeps(s, fs[..|fs| - 1]);
      StepKeeps(Play(s, fs[..|fs| - 1]), fs[|fs| - 1]);
    }
  }

  /** One event leads to `t`. */
  lemma One(s: Path, e: Event, t: Path) returns (fs: seq<Event>)
    requires Step(s, e) == t
    ensures fs == [e] && Play(s, fs) == t
  {
    fs := [e];
    assert fs[..0] == [];
    hide Step;
  }

  lemma PlayNone(s: Path)
    ensures Play(s, []) == s
  {}

  // ---- what has become of the batches ---------------------------------------

  /** The batches released since then, from the `free`-th on, were read by the host and not dropped. */
  predicate Heard(a: seq<In.Released>, b: seq<In.Released>, free: nat) {
    a <= b && forall k :: |a| + free <= k < |b| ==> b[k].copies >= 1 && !b[k].dropped
  }

  /** A deinit has dropped the batch that is being offered. */
  function Lost(w: In.World): nat { if w.n.state.Dropped? then 1 else 0 }

  /** Batches have been released; only one that had been dropped before may not have been read. */
  predicate Goes(s: Path, t: Path) {
    && s.log <= t.log && Heard(s.usb.done, t.usb.done, Lost(s.usb))
    && Lost(t.usb) <= Lost(s.usb)
    && (|t.usb.done| > |s.usb.done| ==> Lost(t.usb) == 0)
  }

  lemma GoesThen(s: Path, t: Path, u: Path)
    requires Goes(s, t) && Goes(t, u)
    ensures Goes(s, u)
  {
    var n := |s.usb.done| + Lost(s.usb);
    forall k | n <= k < |u.usb.done|
      ensures u.usb.done[k].copies >= 1 && !u.usb.done[k].dropped
    {
      if k < |t.usb.done| {
        assert u.usb.done[k] == t.usb.done[k];
      }
    }
  }

  lemma Follows(s: Path, fs: seq<Event>, gs: seq<Event>) returns (hs: seq<Event>)
    requires Goes(s, Play(s, fs)) && Goes(Play(s, fs), Play(Play(s, fs), gs))
    ensures Play(s, hs) == Play(Play(s, fs), gs) && Goes(s, Play(s, hs))
  {
    hide Play, Goes;
    hs := fs + gs;
    PlayOn(s, fs, gs);
    GoesThen(s, Play(s, fs), Play(s, hs));
  }

  // ---- a flush --------------------------------------------------------------

  /** The world as the next offer finds it. */
  function Offered(s: Path): In.World { s.usb.(current := Wire(s.recs)) }

  /** What happens next in a flush when nothing goes wrong. */
  function FlushEvent(s: Path): Event {
    var e := Onto.Onward(Offered(s), Wire(s.recs));
    if e.CallSend? then Offers else Usb(e)
  }

  lemma OfferedInv(s: Path)
    requires Inv(s) && s.flushing && s.recs != []
    ensures In.Inv(Offered(s)) && In.WfBatch(Wire(s.recs))
  {
    hide Ring.Inv, Fed, In.Inv, Matches, Accounted, Plain, Sound, Wire;
    OpenIsSound(s);
    var b := Wire(s.recs);
    if In.Resting(s.usb) {
      Send.Present(s.usb, b);
    }
    assert s.usb.current == b ==> Offered(s) == s.usb;
  }

  /** Events of the environment take no notice of which batch comes next while none is held. */
  lemma SameStep(w: In.World, b: Bytes, e: In.Event)
    requires !e.CallSend?
    ensures In.Step(w.(current := b), e) == In.Step(w, e).(current := b)
    ensures In.Allowed(w.(current := b), e) == In.Allowed(w, e)
  {}

  /** Nothing but the driver's world has changed. */
  predicate SameBatch(s: Path, t: Path) {
    (t.ring, t.stage, t.flushing, t.recs, t.log) == (s.ring, s.stage, s.flushing, s.recs, s.log)
  }

  /** The open batch has been released. */
  predicate Flushed(s: Path, t: Path) {
    && t == s.(usb := t.usb, log := t.log, recs := [], flushing := false)
    && t.log == if s.recs == [] then s.log else s.log + [s.recs]
  }

  lemma OneOfFlush(s: Path)
    requires Inv(s) && s.flushing && s.recs != []
    ensures var t := Step(s, FlushEvent(s));
            var w := Offered(s);
            && Goes(s, t)
            && (if Onto.Distance(w) == 1 then Flushed(s, t)
                else SameBatch(s, t) && Onto.Distance(Offered(t)) == Onto.Distance(w) - 1)
  {
    hide Inv, Wire, Fits, FitsBatch;
    OfferedInv(s);
    var b, w := Wire(s.recs), Offered(s);
    var e := Onto.Onward(w, b);
    Onto.OnwardAllowed(w, b);
    hide In.Step, In.Inv, In.Allowed, Onto.Onward;
    if !e.CallSend? {
      SameStep(s.usb, b, e);
    }
    OfferOutcome(w, b);
    hide Onto.Distance;
    assert s.log <= s.log + [s.recs];
  }

  /** What an event onward does to the released batches. */
  lemma OfferOutcome(w: In.World, b: Bytes)
    requires In.Inv(w) && In.WfBatch(b)
    ensures var v := In.Step(w, Onto.Onward(w, b));
            && (if Onto.Distance(w) == 1 then
                  |v.done| == |w.done| + 1 && Onto.Onward(w, b).CallSend?
                else v.done == w.done && (Onto.Onward(w, b).CallSend? ==> v.current == w.current))
            && Heard(w.done, v.done, Lost(w)) && Lost(v) <= Lost(w) && (|v.done| > |w.done| ==> Lost(v) == 0)
  {
    hide In.Heard, Times;
  }

  /** A flush comes to its end. */
  lemma {:induction false} Flush(s: Path) returns (fs: seq<Event>)
    requires Inv(s) && s.flushing
    ensures Flushed(s, Play(s, fs)) && Goes(s, Play(s, fs))
    decreases Onto.Distance(Offered(s))
  {
    hide Play, Inv, Onto.Distance, Offered, FlushEvent, Goes;
    if s.recs == [] {
      fs := One(s, Offers, s.(flushing := false));
      SameWorld(s, s.(flushing := false));
      return;
    }
    hide Step;
    var e := FlushEvent(s);
    fs := One(s, e, Step(s, e));
    OneOfFlush(s);
    PlayKeeps(s, fs);
    if !Flushed(s, Step(s, e)) {
      var gs := Flush(Step(s, e));
      fs := Follows(s, fs, gs);
    }
  }

  // ---- the ring -------------------------------------------------------------

  /** The step of the joined machine by which the ring goes on. */
  function Onward(r: Ring.Ring): Event {
    match Turns.Onward(r)
    case Read => Reads
    case Produce(_) => Pushes(true)
    case _ => Pops
  }

  /** A pop under way hands its frame to the packing; nothing else happens outside the ring. */
  predicate Handed(s: Path, t: Path) {
    if s.ring.c.CIdle? then t == s.(ring := t.ring) && t.ring.popped == s.ring.popped
    else
      && s.stage.Frames? && t.ring.popped != []
      && t == HostPath.Packed(s.(ring := t.ring), t.ring.popped[|t.ring.popped| - 1], s.stage.taken + 1)
  }

  lemma OneOnward(s: Path)
    requires Inv(s) && !Turns.Quiet(s.ring)
    ensures var t := Step(s, Onward(s.ring));
            && t.ring == Ring.Step(s.ring, Turns.Onward(s.ring))
            && if s.ring.c.CUnlocked? && Onward(s.ring).Pops? then Handed(s, t) && t.ring.c.CIdle? else Nothing(s, t)
  {
    hide Ring.Inv, Fed, In.Inv, Matches, Accounted, OpenSound, Presented, HostPath.Packed, WfRecs, FitsBatch;
    LocksOf(s.ring);
    ConsumerOnly(s.ring);
    hide Ring.ProduceStep, Ring.ReadStep;
    if s.ring.c.CUnlocked? {
      PackedMeans(s.(ring := Ring.ConsumeStep(s.ring)), s.ring.c.f, s.stage.taken + 1);
    }
  }

  /** Only the consumer's steps move the consumer. */
  lemma ConsumerOnly(r: Ring.Ring)
    ensures forall k <- [Ring.ProduceStep(r, true), Ring.ReadStep(r)] :: (k.c, k.popped) == (r.c, r.popped)
  {}

  lemma LocksOf(r: Ring.Ring)
    requires Ring.Inv(r)
    ensures r.lock.ByConsumer? ==> !r.c.CIdle?
    ensures r.reading <==> r.lock.ByReader?
  {
    hide Ring.Stored;
  }

  /** The packing looks at nothing in the ring. */
  lemma PackedRing(s: Path, r: Ring.Ring, f: Frame, taken: nat)
    ensures HostPath.Packed(s, f, taken).(ring := r) == HostPath.Packed(s.(ring := r), f, taken)
  {
    hide Fits, Added;
  }

  /** What one step towards rest does to the hand-over. */
  predicate Nothing(s: Path, t: Path) {
    t == s.(ring := t.ring) && (t.ring.c.CIdle? <==> s.ring.c.CIdle?) && t.ring.popped == s.ring.popped
  }

  lemma HandedThen(s: Path, t: Path, u: Path)
    requires Handed(t, u) && Nothing(s, t)
    ensures Handed(s, u)
  {
    hide HostPath.Packed, WfRecs, FitsBatch;
    assert t.(ring := u.ring) == s.(ring := u.ring);
  }

  lemma HandedLast(s: Path, t: Path, u: Path)
    requires Handed(s, t) && !s.ring.c.CIdle? && t.ring.c.CIdle? && Handed(t, u)
    ensures Handed(s, u)
  {
    hide HostPath.Packed, WfRecs, FitsBatch;
    PackedRing(s.(ring := t.ring), u.ring, t.ring.popped[|t.ring.popped| - 1], s.stage.taken + 1);
    assert s.(ring := t.ring).(ring := u.ring) == s.(ring := u.ring);
  }

  /** Whatever goes on in the ring comes to its end. */
  lemma {:induction false} RingRests(s: Path) returns (fs: seq<Event>)
    requires Inv(s)
    ensures var t := Play(s, fs);
            && Turns.Quiet(t.ring) && Handed(s, t)
            && |t.ring.popped| == Ring.Taken(s.ring) && t.ring.accepted == s.ring.accepted + Turns.Accepting(s.ring.p)
            && t.ring.log == Turns.Logged(s.ring)
    decreases Turns.Left(s.ring)
  {
    hide Play, Step, Inv, Ring.Step, Turns.Left, Turns.Logged, Turns.Quiet, Turns.Accepting, Ring.Taken;
    hide Handed, Nothing;
    RingSound(s);
    if Turns.Quiet(s.ring) {
      fs := [];
      PlayNone(s);
      AtRest(s);
      return;
    }
    var e := Onward(s.ring);
    OneOnward(s);
    Turns.OneOnward(s.ring);
    fs := One(s, e, Step(s, e));
    PlayKeeps(s, fs);
    var rest := RingRests(Step(s, e));
    PlayOn(s, fs, rest);
    Unlocking(s);
    if s.ring.c.CUnlocked? && e.Pops? {
      HandedLast(s, Step(s, e), Play(s, fs + rest));
    } else {
      HandedThen(s, Step(s, e), Play(s, fs + rest));
    }
    fs := fs + rest;
  }

  lemma Unlocking(s: Path)
    ensures s.ring.c.CUnlocked? ==> !s.ring.c.CIdle?
  {}

  lemma AtRest(s: Path)
    requires Turns.Quiet(s.ring)
    ensures Handed(s, s) && |s.ring.popped| == Ring.Taken(s.ring)
    ensures Turns.Accepting(s.ring.p) == 0 && s.ring.log == Turns.Logged(s.ring)
  {}

  /** Tokens of a ring at rest. */
  lemma QuietTokens(r: Ring.Ring)
    requires Ring.Inv(r) && Turns.Quiet(r)
    ensures r.items + |r.popped| == r.accepted == |r.log| && r.popped == r.log[..|r.popped|]
    ensures r.items == 0 ==> r.spaces > 0
  {
    hide Ring.Stored;
  }

  // ---- the packing task -----------------------------------------------------

  const NONE: Luck := Luck(false, None, 0)

  /** Everything received has been released; the task is at the head of its loop. */
  predicate Home(s: Path) {
    Turns.Quiet(s.ring) && s.ring.items == 0 && s.stage == Frames(0) && !s.flushing && s.recs == []
  }

  function Far(stage: Stage): nat {
    match stage
    case Over => 1
    case Errors => 2
    case Frames(_) => 4
    case PackAgain(_, _) => 5
    case _ => 3
  }

  /** Steps until the next frame is taken, or until the task is home. */
  function Phases(s: Path): nat {
    var takes := s.stage.Frames? && s.ring.items > 0 && s.stage.taken < MAX_DRAIN + 1;
    var ready := takes || (s.stage == Frames(0) && s.recs == []);
    (if ready then 0 else 2 * Far(s.stage)) + if s.flushing then 1 else 0
  }

  predicate Nearer(s: Path, t: Path) {
    && Turns.Quiet(t.ring) && Goes(s, t) && t.ring.accepted == s.ring.accepted
    && (t.ring.items < s.ring.items || (t.ring.items == s.ring.items && Phases(t) < Phases(s)))
  }

  lemma SameWorld(s: Path, t: Path)
    requires t.usb == s.usb && t.log == s.log
    ensures Goes(s, t)
  {}

  /** A pop begins. */
  lemma PopBegins(s: Path) returns (fs: seq<Event>)
    requires Inv(s) && Turns.Quiet(s.ring) && Popping(s) && s.ring.items > 0
    ensures Play(s, fs) == s.(ring := s.ring.(items := s.ring.items - 1, c := Ring.CItem)) && Inv(Play(s, fs))
  {
    hide Play, Inv;
    fs := One(s, Pops, s.(ring := Ring.PopStep(s.ring)));
    PlayKeeps(s, fs);
  }

  /** The next frame has been taken from the ring and packed, or kept for after a flush. */
  predicate Took(s: Path, t: Path) {
    && s.stage.Frames? && Turns.Quiet(t.ring) && t.ring.accepted == s.ring.accepted && t.ring.log == s.ring.log
    && t.ring.items == s.ring.items - 1 && t.ring.popped != []
    && t == HostPath.Packed(s.(ring := t.ring), t.ring.popped[|t.ring.popped| - 1], s.stage.taken + 1)
  }

  /** The next frame is taken from the ring. */
  lemma TakesFrame(s: Path) returns (fs: seq<Event>)
    requires Inv(s) && Turns.Quiet(s.ring) && Popping(s) && s.ring.items > 0
    ensures Took(s, Play(s, fs))
  {
    hide Play, Step, Inv, Ring.Inv, HostPath.Packed, Handed, Took, Turns.Quiet, Popping;
    fs := PopBegins(s);
    var t := Play(s, fs);
    var gs := RingRests(t);
    PlayOn(s, fs, gs);
    fs := fs + gs;
    PlayKeeps(s, fs);
    RingSound(s);
    QuietTokens(s.ring);
    RingSound(Play(s, fs));
    QuietTokens(Play(s, fs).ring);
    TookIs(s, t, Play(s, fs));
  }

  lemma TookIs(s: Path, t: Path, u: Path)
    requires Turns.Quiet(s.ring) && Popping(s) && s.ring.items > 0
    requires t == s.(ring := s.ring.(items := s.ring.items - 1, c := Ring.CItem))
    requires Turns.Quiet(u.ring) && Handed(t, u) && |u.ring.popped| == Ring.Taken(t.ring)
    requires u.ring.accepted == t.ring.accepted + Turns.Accepting(t.ring.p) && u.ring.log == Turns.Logged(t.ring)
    requires s.ring.items + |s.ring.popped| == s.ring.accepted && u.ring.items + |u.ring.popped| == u.ring.accepted
    ensures Took(s, u)
  {
    hide HostPath.Packed, WfRecs, FitsBatch;
    assert t.(ring := u.ring) == s.(ring := u.ring);
  }

  lemma PackedMeans(s: Path, f: Frame, taken: nat)
    ensures var t := HostPath.Packed(s, f, taken); t.usb == s.usb && t.log == s.log && t.ring == s.ring
  {
    hide Fits;
  }

  /** A stage of the loop with nothing to report. */
  lemma WorkNearer(s: Path)
    requires Inv(s) && Turns.Quiet(s.ring) && !s.flushing && !Home(s)
    requires !(s.stage.Frames? && s.ring.items > 0 && s.stage.taken < MAX_DRAIN + 1)
    ensures Nearer(s, WorkStep(s, NONE))
  {
    hide Ring.Inv, Fed, In.Inv, Matches, Accounted, Presented, Plain, Sound, Fits, Added, Goes, WfRecs, FitsBatch;
    SameWorld(s, WorkStep(s, NONE));
  }

  lemma FlushNearer(s: Path, t: Path)
    requires Turns.Quiet(s.ring) && s.flushing && Flushed(s, t) && Goes(s, t)
    ensures Nearer(s, t)
  {
    hide Goes;
  }

  lemma FrameNearer(s: Path) returns (fs: seq<Event>)
    requires Inv(s) && Turns.Quiet(s.ring) && Popping(s) && s.ring.items > 0
    ensures Nearer(s, Play(s, fs))
  {
    hide Play, Step, Inv, Turns.Quiet, Goes, HostPath.Packed;
    fs := TakesFrame(s);
    var t := Play(s, fs);
    PackedMeans(s.(ring := t.ring), t.ring.popped[|t.ring.popped| - 1], s.stage.taken + 1);
    SameWorld(s, t);
  }

  lemma OnePhase(s: Path) returns (fs: seq<Event>)
    requires Inv(s) && Turns.Quiet(s.ring) && !Home(s)
    ensures Nearer(s, Play(s, fs))
  {
    hide Play, Step, Inv, Turns.Quiet, Flushed, Nearer, Home, WorkStep;
    if s.flushing {
      fs := Flush(s);
      FlushNearer(s, Play(s, fs));
    } else if s.stage.Frames? && s.ring.items > 0 && s.stage.taken < MAX_DRAIN + 1 {
      fs := FrameNearer(s);
    } else {
      WorkNearer(s);
      fs := Work(s, NONE);
    }
  }

  lemma Work(s: Path, k: Luck) returns (fs: seq<Event>)
    ensures fs == [Works(k)] && Play(s, fs) == WorkStep(s, k)
  {
    hide Play, WorkStep;
    fs := One(s, Works(k), WorkStep(s, k));
  }

  /** The task comes home. */
  lemma {:induction false} GoesHome(s: Path) returns (fs: seq<Event>)
    requires Inv(s) && Turns.Quiet(s.ring)
    ensures Home(Play(s, fs)) && Goes(s, Play(s, fs)) && Play(s, fs).ring.accepted == s.ring.accepted
    decreases s.ring.items, Phases(s)
  {
    hide Play, Inv, Turns.Quiet, Goes, Home, Phases;
    fs := [];
    PlayNone(s);
    SameWorld(s, s);
    if !Home(s) {
      fs := OnePhase(s);
      PlayKeeps(s, fs);
      var gs := GoesHome(Play(s, fs));
      fs := Follows(s, fs, gs);
    }
  }

  // ---- one pass -------------------------------------------------------------

  lemma FramesHome(s: Path)
    requires Inv(s) && Home(s)
    ensures FramesIn(Flatten(s.log)) == s.ring.popped == s.ring.log && |s.ring.log| == s.ring.accepted
    ensures s.ring.spaces > 0
  {
    QuietTokens(s.ring);
    hide Ring.Inv, Fed, In.Inv, Matches, OpenSound, Presented, Flatten;
    assert FramesIn([]) == [];
  }

  /** A frame is received. */
  lemma FrameReceived(s: Path, f: Frame) returns (fs: seq<Event>)
    requires Inv(s) && Home(s) && WfFrame(f)
    ensures var t := Play(s, fs);
            && t == s.(ring := t.ring) && Inv(t)
            && Turns.Quiet(t.ring) && t.ring.items == 1 && t.ring.log == s.ring.log + [f]
  {
    hide Play, Inv, Ring.Inv, HostPath.Packed, Fed;
    FramesHome(s);
    var t := s.(ring := Ring.PushStep(s.ring, f));
    fs := One(s, Receives(f), t);
    PlayKeeps(s, fs);
    var gs := RingRests(t);
    PlayOn(s, fs, gs);
    fs := fs + gs;
    PlayKeeps(s, fs);
    RingSound(Play(s, fs));
    QuietTokens(Play(s, fs).ring);
  }

  /** It is taken into the empty batch. */
  lemma FrameComesIn(s: Path, f: Frame) returns (fs: seq<Event>)
    requires Inv(s) && Home(s) && WfFrame(f)
    ensures var t := Play(s, fs);
            && t == s.(ring := t.ring, stage := Frames(1), recs := [Data(f)])
            && Turns.Quiet(t.ring) && t.ring.items == 0 && t.ring.log == s.ring.log + [f]
  {
    hide Play, Step, Inv, Ring.Inv, HostPath.Packed, Turns.Quiet;
    fs := FrameReceived(s, f);
    var u := Play(s, fs);
    var gs := TakesFrame(u);
    PlayOn(s, fs, gs);
    fs := fs + gs;
    PlayKeeps(s, fs);
    PackedMeans(u.(ring := Play(s, fs).ring), Play(s, fs).ring.popped[|Play(s, fs).ring.popped| - 1], 1);
    RingSound(Play(s, fs));
    QuietTokens(Play(s, fs).ring);
    PackedFirst(u.(ring := Play(s, fs).ring), f, 1);
  }

  /** Any frame fits an empty batch. */
  lemma PackedFirst(s: Path, f: Frame, taken: nat)
    requires s.recs == [] && WfFrame(f)
    ensures HostPath.Packed(s, f, taken) == s.(recs := [Data(f)], stage := Frames(taken))
  {
    FitsAlone(Data(f));
    hide Fits, Added;
  }

  /** A stage that asks for a flush, and the flush. */
  lemma WorkAndFlush(s: Path, k: Luck) returns (fs: seq<Event>)
    requires Inv(s) && WorkStep(s, k).flushing && WorkStep(s, k).usb == s.usb && WorkStep(s, k).log == s.log
    ensures Goes(s, Play(s, fs)) && Flushed(WorkStep(s, k), Play(s, fs)) && Inv(Play(s, fs))
  {
    hide Play, Step, Inv, Goes, WorkStep, Flushed;
    fs := Work(s, k);
    SameWorld(s, Play(s, fs));
    PlayKeeps(s, fs);
    var gs := Flush(Play(s, fs));
    fs := Follows(s, fs, gs);
    PlayKeeps(s, fs);
  }

  /** A due calibration is released after what was packed before it, in a batch of its own. */
  lemma CalibGoesOut(s: Path, ts16: u16) returns (fs: seq<Event>)
    requires Inv(s) && s.ring.c.CIdle? && s.stage == CalibCheck && !s.flushing && s.recs != []
    ensures var t := Play(s, fs);
            && Goes(s, t) && t == s.(usb := t.usb, log := t.log, stage := Errors, recs := [])
            && t.log == s.log + [s.recs, [Calib(ts16)]]
  {
    hide Play, Step, Inv, Goes, Fits;
    var due := Luck(true, None, ts16);
    fs := WorkAndFlush(s, due);
    var t := Play(s, fs);
    FitsAlone(Calib(ts16));
    var gs := WorkAndFlush(t, due);
    fs := Follows(s, fs, gs);
    assert s.log + [s.recs] + [[Calib(ts16)]] == s.log + [s.recs, [Calib(ts16)]];
  }

  /** An error report is packed, and released at the end of the pass. */
  lemma FaultGoesOut(s: Path, mask: byte, ts16: u16) returns (fs: seq<Event>)
    requires Inv(s) && s.ring.c.CIdle? && s.stage == Errors && !s.flushing && s.recs == []
    ensures var t := Play(s, fs);
            && Goes(s, t) && t == s.(usb := t.usb, log := t.log, stage := Frames(0))
            && t.log == s.log + [[ErrorRec(mask, ts16)]]
  {
    hide Play, Step, Inv, Goes, Fits;
    FitsAlone(ErrorRec(mask, ts16));
    fs := Work(s, Luck(false, Some(mask), ts16));
    SameWorld(s, Play(s, fs));
    PlayKeeps(s, fs);
    var gs := WorkAndFlush(Play(s, fs), NONE);
    fs := Follows(s, fs, gs);
    var t := Play(s, fs);
    gs := Work(t, NONE);
    SameWorld(t, Play(t, gs));
    fs := Follows(s, fs, gs);
  }

  /** One pass of the loop: a frame, a due calibration and an error report, released in this order. */
  lemma OnePass(s: Path, f: Frame, calib: u16, mask: byte, ts16: u16) returns (fs: seq<Event>)
    requires Inv(s) && Home(s) && WfFrame(f)
    ensures var t := Play(s, fs);
            && Goes(s, t) && Home(t) && t.ring.log == s.ring.log + [f]
            && t.log == s.log + [[Data(f)], [Calib(calib)], [ErrorRec(mask, ts16)]]
  {
    hide Play, Step, Inv, Goes;
    fs := FrameComesIn(s, f);
    assert Play(s, fs).ring.c.CIdle?;
    SameWorld(s, Play(s, fs));
    PlayKeeps(s, fs);
    var t := Play(s, fs);
    var gs := Work(t, NONE);
    SameWorld(t, Play(t, gs));
    fs := Follows(s, fs, gs);
    PlayKeeps(s, fs);
    gs := CalibGoesOut(Play(s, fs), calib);
    fs := Follows(s, fs, gs);
    PlayKeeps(s, fs);
    gs := FaultGoesOut(Play(s, fs), mask, ts16);
    fs := Follows(s, fs, gs);
  }

  /**
   From every state a run may reach, whatever is under way in the ring, the packing
   task, the driver and on the bus, it can go on so that the next frame, a calibration
   and an error report are released in this order, after everything accepted before;
   the host has read every batch released on the way, except one that a deinit had
   dropped before; and nothing is left in the ring or in the open batch.
   */
  lemma NextPassReachesHost(slots: seq<Frame>, es: seq<Event>, f: Frame, calib: u16, mask: byte, ts16: u16)
    returns (fs: seq<Event>)
    requires slots != [] && WfFrame(f)
    ensures var s, t := Run(slots, es), Run(slots, es + fs);
            && |t.log| >= |s.log| + 3 && t.log[..|s.log|] == s.log
            && t.log[|t.log| - 3..] == [[Data(f)], [Calib(calib)], [ErrorRec(mask, ts16)]]
            && FramesIn(Flatten(t.log)) == t.ring.log && |t.ring.log| == t.ring.accepted > 0
            && t.ring.log[|t.ring.log| - 1] == f
            && Heard(s.usb.done, t.usb.done, Lost(s.usb)) && Home(t)
  {
    hide Run, Play, Inv, Goes, Home, Flatten, FramesIn;
    ReachableInv(slots, es);
    var s := Run(slots, es);
    fs := RingRests(s);
    HandedWorld(s, Play(s, fs));
    SameWorld(s, Play(s, fs));
    PlayKeeps(s, fs);
    var gs := GoesHome(Play(s, fs));
    fs := Follows(s, fs, gs);
    PlayKeeps(s, fs);
    var t := Play(s, fs);
    GoesMeans(s, t);
    gs := OnePass(t, f, calib, mask, ts16);
    fs := Follows(s, fs, gs);
    PlayKeeps(s, fs);
    FramesHome(Play(s, fs));
    RunOn(slots, es, fs);
    GoesMeans(s, Play(s, fs));
  }

  lemma GoesMeans(s: Path, t: Path)
    requires Goes(s, t)
    ensures s.log <= t.log && Heard(s.usb.done, t.usb.done, Lost(s.usb))
  {}

  lemma HandedWorld(s: Path, t: Path)
    requires Handed(s, t)
    ensures t.usb == s.usb && t.log == s.log
  {
    hide Fits;
  }
}
