/**
 From the bus to the USB host: twai_rx_task and usb_tx_task of main/main.c, the receive
 ring of main/ringbuf.c and the EP2-IN half of main/usb_glue.c in one machine. Frames are
 pushed and popped through the steps of the ring; the open batch is filled and flushed
 record by record, each offer of a flush being one step; everything interleaves.
 */
module HostPath {
  import opened Words
  import opened PcanMsg
  import opened PcanBatch
  import opened PcanHost
  import opened UsbTxTask
  import opened UsbPath
  import Ring = RingSteps
  import In = UsbIn
  import Send = UsbSend

  /** Where usb_tx_task stands in its loop; `taken` counts the frames of this pass. */
  datatype Stage =
    | Frames(taken: nat)
    | PackAgain(f: Frame, taken: nat)
    | CalibCheck
    | AddCalib
    | Errors
    | ErrorAgain(mask: byte)
    | Over

  type Open = recs: seq<Rec> | WfRecs(recs) && FitsBatch(recs) witness []

  /** `recs` is the open batch; while `flushing` it is offered until it is released. `log` is what was released. */
  datatype Path = Path(ring: Ring.Ring, stage: Stage, flushing: bool, recs: Open, usb: In.World, log: seq<seq<Rec>>)

  /** What usb_tx_task meets: a calibration due, an error mask posted, the clock. */
  datatype Luck = Luck(due: bool, fault: Option<byte>, ts16: u16)

  datatype Event =
    | Receives(f: Frame)
    | Pushes(patient: bool)
    | Reads
    | Pops
    | Works(luck: Luck)
    | Offers
    | Usb(e: In.Event)

  function Init(slots: seq<Frame>): Path
    requires slots != []
  {
    Path(Ring.InitRing(slots), Frames(0), false, [], In.Start([0]), [])
  }

  // ---- steps ----------------------------------------------------------------

  predicate Fits(recs: Open, r: Rec) { WfRec(r) && FitsBatch(recs + [r]) }

  /** Adds a record, or leaves the batch as it is. */
  function Added(recs: Open, r: Rec): Open {
    if Fits(recs, r) then recs + [r] else recs
  }

  /** A popped frame joins the batch, after a flush if it must. */
  function Packed(s: Path, f: Frame, taken: nat): Path {
    if Fits(s.recs, Data(f)) then s.(recs := Added(s.recs, Data(f)), stage := Frames(taken))
    else s.(stage := PackAgain(f, taken), flushing := true)
  }

  /** usb_tx_task is in `pcan_rb_pop`, or may enter it. */
  predicate Popping(s: Path) {
    s.stage.Frames? && !s.flushing && s.stage.taken < MAX_DRAIN + 1
  }

  function PopStep(s: Path): Path {
    if !Popping(s) then s
    else if s.ring.c.CIdle? then s.(ring := Ring.PopStep(s.ring))
    else
      var k := s.(ring := Ring.ConsumeStep(s.ring));
      if s.ring.c.CUnlocked? then Packed(k, s.ring.c.f, s.stage.taken + 1) else k
  }

  /** The next step of usb_tx_task outside the ring and the flushes. */
  function WorkStep(s: Path, k: Luck): Path {
    if s.flushing || !s.ring.c.CIdle? then s
    else
      match s.stage
      case Frames(n) => if s.ring.items > 0 && n < MAX_DRAIN + 1 then s else s.(stage := CalibCheck)
      case PackAgain(f, n) => s.(recs := Added(s.recs, Data(f)), stage := Frames(n))
      case CalibCheck => if k.due then s.(stage := AddCalib, flushing := true) else s.(stage := Errors)
      case AddCalib => s.(recs := Added(s.recs, Calib(k.ts16)), stage := Errors, flushing := true)
      case Errors => if k.fault.None? then s.(stage := Over, flushing := true) else Faulted(s, k.fault.value, k.ts16)
      case ErrorAgain(mask) => s.(recs := Added(s.recs, ErrorRec(mask, k.ts16)), stage := Errors)
      case Over => s.(stage := Frames(0))
  }

  function Faulted(s: Path, mask: byte, ts16: u16): Path {
    var r := ErrorRec(mask, ts16);
    if Fits(s.recs, r) then s.(recs := Added(s.recs, r)) else s.(stage := ErrorAgain(mask), flushing := true)
  }

  /** One turn of the flush loop. */
  function OfferStep(s: Path): Path {
    if !s.flushing then s
    else if s.recs == [] then s.(flushing := false)
    else
      var b := Wire(s.recs);
      var w := In.Step(s.usb.(current := b), In.CallSend(b));
      if |w.done| == |s.usb.done| then s.(usb := w)
      else s.(usb := w, recs := [], log := s.log + [s.recs], flushing := false)
  }

  /** Bus, host and stack; what cannot happen now does not. */
  function UsbStep(s: Path, e: In.Event): Path {
    if e.CallSend? || !In.Allowed(s.usb, e) then s else s.(usb := In.Step(s.usb, e))
  }

  function Step(s: Path, e: Event): Path {
    match e
    case Receives(f) => if WfFrame(f) then s.(ring := Ring.PushStep(s.ring, f)) else s
    case Pushes(patient) => s.(ring := Ring.ProduceStep(s.ring, patient))
    case Reads => s.(ring := Ring.ReadStep(s.ring))
    case Pops => PopStep(s)
    case Works(luck) => WorkStep(s, luck)
    case Offers => OfferStep(s)
    case Usb(f) => UsbStep(s, f)
  }

  function Run(slots: seq<Frame>, es: seq<Event>): Path
    requires slots != []
  {
    if es == [] then Init(slots) else Step(Run(slots, es[..|es| - 1]), es[|es| - 1])
  }

  // ---- invariant ------------------------------------------------------------

  /** The frames among the records. */
  function FramesIn(recs: seq<Rec>): seq<Frame> {
    if recs == [] then []
    else FramesIn(recs[..|recs| - 1]) + if recs[|recs| - 1].Data? then [recs[|recs| - 1].f] else []
  }

  function InHand(stage: Stage): seq<Frame> {
    if stage.PackAgain? then [stage.f] else []
  }

  /** What was popped is in the released batches, in the open one, or in hand. */
  predicate Accounted(popped: seq<Frame>, log: seq<seq<Rec>>, recs: seq<Rec>, stage: Stage) {
    popped == FramesIn(Flatten(log)) + FramesIn(recs) + InHand(stage)
  }

  /** A calibration record is alone in the open batch, and only until the flush that follows. */
  predicate OpenSound(s: Path) {
    if s.flushing && s.stage.Errors? then s.recs == [] || Sound(s.recs)
    else
      && Plain(s.recs)
      && (!s.flushing && (s.stage.PackAgain? || s.stage.AddCalib? || s.stage.ErrorAgain? || s.stage.Over?) ==>
            s.recs == [])
  }

  /** The driver holds the open batch, if any. */
  predicate Presented(s: Path) {
    In.Resting(s.usb) || (s.flushing && s.recs != [] && s.usb.current == Wire(s.recs))
  }

  predicate AllWfFrames(fs: seq<Frame>) { forall k :: 0 <= k < |fs| ==> WfFrame(fs[k]) }

  /** Only well-formed frames are pushed. */
  predicate Fed(r: Ring.Ring) {
    && AllWfFrames(r.log)
    && (match r.p case PSpace(f) => WfFrame(f) case PLocked(f) => WfFrame(f) case _ => true)
  }

  predicate Inv(s: Path) {
    && Ring.Inv(s.ring) && Fed(s.ring) && In.Inv(s.usb)
    && Matches(Batches(s.usb.done), s.log)
    && Accounted(s.ring.popped, s.log, s.recs, s.stage)
    && OpenSound(s) && Presented(s)
    && (s.stage.PackAgain? ==> WfFrame(s.stage.f))
    && (!s.ring.c.CIdle? ==> Popping(s))
  }

  lemma InitInv(slots: seq<Frame>)
    requires slots != []
    ensures Inv(Init(slots))
  {
    Ring.InitInv(slots);
    In.ReachableInv([0], []);
  }

  // ---- the ring -------------------------------------------------------------

  /** Steps that touch the ring alone and return no frame. */
  lemma RingKeeps(s: Path, r: Ring.Ring)
    requires Inv(s) && Ring.Inv(r) && Fed(r) && r.popped == s.ring.popped
    requires r.c.CIdle? || Popping(s)
    ensures Inv(s.(ring := r))
  {
    hide Ring.Inv, Fed, In.Inv, In.Resting, Matches, Accounted, Plain, Sound, Wire;
  }

  lemma FeedKeeps(s: Path, f: Frame)
    requires Inv(s) && WfFrame(f)
    ensures Inv(s.(ring := Ring.PushStep(s.ring, f)))
  {
    hide Ring.Inv, In.Inv, Matches, Accounted, OpenSound, Presented;
    Ring.StepKeeps(s.ring, Ring.Push(f));
    RingKeeps(s, Ring.PushStep(s.ring, f));
  }

  lemma ProduceFed(r: Ring.Ring, patient: bool)
    requires Fed(r)
    ensures var k := Ring.ProduceStep(r, patient); Fed(k) && k.popped == r.popped && k.c == r.c
  {}

  lemma PushKeeps(s: Path, patient: bool)
    requires Inv(s)
    ensures Inv(s.(ring := Ring.ProduceStep(s.ring, patient)))
  {
    hide Ring.Inv, In.Inv, Matches, Accounted, OpenSound, Presented, Fed, Ring.ProduceStep;
    Ring.StepKeeps(s.ring, Ring.Produce(patient));
    ProduceFed(s.ring, patient);
    RingKeeps(s, Ring.ProduceStep(s.ring, patient));
  }

  lemma ReadKeeps(s: Path)
    requires Inv(s)
    ensures Inv(s.(ring := Ring.ReadStep(s.ring)))
  {
    hide Ring.Inv, In.Inv, Matches, Accounted, OpenSound, Presented;
    Ring.StepKeeps(s.ring, Ring.Read);
    RingKeeps(s, Ring.ReadStep(s.ring));
  }

  // ---- packing --------------------------------------------------------------

  lemma FramesAppend(recs: seq<Rec>, r: Rec)
    ensures FramesIn(recs + [r]) == FramesIn(recs) + if r.Data? then [r.f] else []
  {
    assert (recs + [r])[..|recs|] == recs;
  }

  /** A record that fits joins the open batch. */
  lemma AddKeeps(s: Path, r: Rec, popped: seq<Frame>, stage: Stage)
    requires Fits(s.recs, r) && Walkable(r) && (r.Status? ==> r.func != REC_TS) && Plain(s.recs)
    requires popped == FramesIn(Flatten(s.log)) + FramesIn(s.recs) + if r.Data? then [r.f] else []
    requires InHand(stage) == []
    ensures Plain(Added(s.recs, r)) && Accounted(popped, s.log, Added(s.recs, r), stage)
  {
    hide Plain, Flatten, FramesIn, FitsBatch;
    FramesAppend(s.recs, r);
    PlainAppend(s.recs, r);
  }

  /** What the ring does for pop. */
  lemma ConsumeFed(r: Ring.Ring)
    requires Ring.Inv(r) && Fed(r)
    ensures var k := if r.c.CIdle? then Ring.PopStep(r) else Ring.ConsumeStep(r);
            && Ring.Inv(k) && Fed(k)
            && (if r.c.CUnlocked? then k.popped == r.popped + [r.c.f] && k.c.CIdle? && WfFrame(r.c.f)
                else k.popped == r.popped)
  {
    Ring.StepKeeps(r, if r.c.CIdle? then Ring.Pop else Ring.Consume);
    hide Ring.Stored, Ring.Locks, Ring.Places, Ring.Tokens;
  }

  lemma PopKeeps(s: Path)
    requires Inv(s)
    ensures Inv(PopStep(s))
  {
    hide Inv, Ring.Inv, Fed, Packed, Ring.ConsumeStep, Ring.PopStep;
    RingSound(s);
    if Popping(s) {
      ConsumeFed(s.ring);
      if s.ring.c.CUnlocked? {
        PackedKeeps(s, s.ring.c.f, Ring.ConsumeStep(s.ring));
      } else {
        RingKeeps(s, if s.ring.c.CIdle? then Ring.PopStep(s.ring) else Ring.ConsumeStep(s.ring));
      }
    }
  }

  lemma RingSound(s: Path)
    requires Inv(s)
    ensures Ring.Inv(s.ring) && Fed(s.ring)
  {}

  lemma PackedKeeps(s: Path, f: Frame, r: Ring.Ring)
    requires Inv(s) && Popping(s) && WfFrame(f) && Ring.Inv(r) && Fed(r)
    requires r.popped == s.ring.popped + [f] && r.c.CIdle?
    ensures Inv(Packed(s.(ring := r), f, s.stage.taken + 1))
  {
    hide Ring.Inv, Fed, In.Inv, Matches, Plain, FramesIn, Flatten, FitsBatch;
    if Fits(s.recs, Data(f)) {
      AddKeeps(s, Data(f), r.popped, Frames(s.stage.taken + 1));
    }
  }

  /** Nothing but the stage, the batch and the flush changes. */
  lemma StageKeeps(s: Path, stage: Stage, flushing: bool, recs: Open)
    requires Inv(s) && !s.flushing && s.ring.c.CIdle?
    requires var k := s.(stage := stage, flushing := flushing, recs := recs);
             OpenSound(k) && Accounted(s.ring.popped, s.log, recs, stage) && !stage.PackAgain?
    ensures Inv(s.(stage := stage, flushing := flushing, recs := recs))
  {
    hide Ring.Inv, Fed, In.Inv, Matches, OpenSound, Accounted, In.Resting;
  }

  lemma FitsAlone(r: Rec)
    requires WfRec(r)
    ensures Fits([], r) && Added([], r) == [r]
  {
    EveryRecordFits(r);
    assert [] + [r] == [r];
  }

  lemma WorkKeeps(s: Path, k: Luck)
    requires Inv(s)
    ensures Inv(WorkStep(s, k))
  {
    hide Ring.Inv, Fed, In.Inv, Matches, Plain, FramesIn, Flatten, FitsBatch, Sound, Presented, Faulted, Calib, Fits;
    if s.flushing || !s.ring.c.CIdle? {
      return;
    }
    match s.stage
    case Frames(n) => StageKeeps(s, CalibCheck, false, s.recs);
    case PackAgain(f, n) =>
      FitsAlone(Data(f));
      AddKeeps(s, Data(f), s.ring.popped, Frames(n));
      StageKeeps(s, Frames(n), false, Added(s.recs, Data(f)));
    case CalibCheck =>
      StageKeeps(s, AddCalib, true, s.recs);
      StageKeeps(s, Errors, false, s.recs);
    case AddCalib => CalibKeeps(s, k.ts16);
    case Errors =>
      if k.fault.Some? {
        FaultKeeps(s, k.fault.value, k.ts16);
      } else {
        StageKeeps(s, Over, true, s.recs);
      }
    case ErrorAgain(mask) =>
      FitsAlone(ErrorRec(mask, k.ts16));
      AddKeeps(s, ErrorRec(mask, k.ts16), s.ring.popped, Errors);
      StageKeeps(s, Errors, false, Added(s.recs, ErrorRec(mask, k.ts16)));
    case Over => StageKeeps(s, Frames(0), false, s.recs);
  }

  lemma CalibKeeps(s: Path, ts16: u16)
    requires Inv(s) && s.stage.AddCalib? && !s.flushing && s.ring.c.CIdle?
    ensures Inv(s.(recs := Added(s.recs, Calib(ts16)), stage := Errors, flushing := true))
  {
    hide Ring.Inv, Fed, In.Inv, Matches, Plain, Flatten, FitsBatch, Sound, Presented, Calib, Fits;
    var r := Calib(ts16);
    FitsAlone(r);
    CalibSound(ts16);
    FramesAppend([], r);
    CalibIsStatus(ts16);
    assert [] + [r] == [r];
    StageKeeps(s, Errors, true, [r]);
  }

  lemma CalibIsStatus(ts16: u16)
    ensures Calib(ts16).Status?
  {}

  lemma FaultKeeps(s: Path, mask: byte, ts16: u16)
    requires Inv(s) && s.stage.Errors? && !s.flushing && s.ring.c.CIdle?
    ensures Inv(Faulted(s, mask, ts16))
  {
    hide Ring.Inv, Fed, In.Inv, Matches, Plain, Flatten, FramesIn, FitsBatch, Sound, Presented, Fits;
    var r := ErrorRec(mask, ts16);
    if Fits(s.recs, r) {
      AddKeeps(s, r, s.ring.popped, Errors);
      StageKeeps(s, Errors, false, Added(s.recs, r));
    } else {
      StageKeeps(s, ErrorAgain(mask), true, s.recs);
    }
  }

  // ---- flushing -------------------------------------------------------------

  lemma BatchesAppend(done: seq<In.Released>, r: In.Released)
    ensures Batches(done + [r]) == Batches(done) + [r.batch]
  {
    assert (done + [r])[..|done|] == done;
  }

  lemma OpenIsSound(s: Path)
    requires OpenSound(s) && s.recs != []
    ensures Sound(s.recs) && In.WfBatch(Wire(s.recs))
  {
    hide Sound, Plain;
    if !(s.flushing && s.stage.Errors?) {
      PlainSound(s.recs);
    }
    hide OpenSound;
  }

  lemma OfferKeeps(s: Path)
    requires Inv(s)
    ensures Inv(OfferStep(s))
  {
    hide Ring.Inv, Fed, In.Inv, Matches, Accounted, Plain, Sound, In.Step, Wire;
    if s.flushing && s.recs != [] {
      OpenIsSound(s);
      var b := Wire(s.recs);
      if In.Resting(s.usb) {
        Send.Present(s.usb, b);
      }
      var u := s.usb.(current := b);
      assert s.usb.current == b ==> u == s.usb;
      Send.OfferKeeps(u);
      OfferedKeeps(s, u, b);
    } else if s.flushing {
      EmptyKeeps(s);
    }
  }

  lemma EmptyKeeps(s: Path)
    requires Inv(s) && s.recs == []
    ensures Inv(s.(flushing := false))
  {
    hide Ring.Inv, Fed, In.Inv, Matches, Accounted, In.Resting, Sound;
  }

  lemma OfferedKeeps(s: Path, u: In.World, b: Bytes)
    requires Inv(s) && s.flushing && s.recs != [] && b == Wire(s.recs) && Sound(s.recs)
    requires u == s.usb.(current := b) && In.Inv(u)
    requires var k := In.Step(u, In.CallSend(b));
             && In.Inv(k) && k.current == b
             && (if In.Send(u.n, b).released != 0 then
                   In.Resting(k) && k.done == u.done + [In.Released(b, u.copies, u.n.state.Dropped?)]
                 else k.done == u.done && k.copies == u.copies)
    ensures Inv(OfferStep(s))
  {
    hide Ring.Inv, Fed, In.Inv, Matches, Plain, Sound, In.Step, In.Resting, In.Send, Wire, FramesIn, Flatten;
    var k := In.Step(u, In.CallSend(b));
    if |k.done| != |u.done| {
      BatchesAppend(u.done, k.done[|u.done|]);
      MatchesAppend(Batches(u.done), s.log, s.recs);
      ReleasedFrames(s.log, s.recs);
      PlainNone();
    }
  }

  lemma PlainNone()
    ensures Plain([]) && FramesIn([]) == []
  {}

  lemma ReleasedFrames(log: seq<seq<Rec>>, recs: seq<Rec>)
    ensures FramesIn(Flatten(log + [recs])) == FramesIn(Flatten(log)) + FramesIn(recs)
  {
    FlattenAppend(log, recs);
    FramesJoin(Flatten(log), recs);
  }

  lemma {:induction false} FramesJoin(a: seq<Rec>, b: seq<Rec>)
    ensures FramesIn(a + b) == FramesIn(a) + FramesIn(b)
    decreases |b|
  {
    if b == [] {
      assert a + b == a;
    } else {
      hide FramesIn;
      var init, last := b[..|b| - 1], b[|b| - 1];
      FramesJoin(a, init);
      FramesAppend(a + init, last);
      FramesAppend(init, last);
      LastApart(a, b);
      Joined(FramesIn(a), FramesIn(init), if last.Data? then [last.f] else []);
    }
  }

  lemma UsbKeeps(s: Path, e: In.Event)
    requires Inv(s)
    ensures Inv(UsbStep(s, e))
  {
    hide Ring.Inv, Fed, In.Inv, Matches, Accounted, Plain, Sound, In.Step, In.Resting, In.Allowed, Wire;
    if !e.CallSend? && In.Allowed(s.usb, e) {
      In.StepKeeps(s.usb, e);
      Send.RestStays(s.usb, e);
    }
  }

  lemma StepKeeps(s: Path, e: Event)
    requires Inv(s)
    ensures Inv(Step(s, e))
  {
    hide Inv, PopStep, WorkStep, OfferStep, UsbStep, Ring.ProduceStep, Ring.PushStep, Ring.ReadStep;
    match e
    case Receives(f) =>
      if WfFrame(f) {
        FeedKeeps(s, f);
      }
    case Pushes(patient) => PushKeeps(s, patient);
    case Reads => ReadKeeps(s);
    case Pops => PopKeeps(s);
    case Works(luck) => WorkKeeps(s, luck);
    case Offers => OfferKeeps(s);
    case Usb(f) => UsbKeeps(s, f);
  }

  lemma {:induction false} ReachableInv(slots: seq<Frame>, es: seq<Event>)
    requires slots != []
    ensures Inv(Run(slots, es))
    decreases |es|
  {
    hide Inv, Step, Init;
    if es == [] {
      InitInv(slots);
    } else {
      ReachableInv(slots, es[..|es| - 1]);
      StepKeeps(Run(slots, es[..|es| - 1]), es[|es| - 1]);
    }
  }

  // ---- from the bus to the host ---------------------------------------------

  /** The frames among what the host has decoded. */
  function FramesSeen(ss: seq<Seen>): seq<Seen> {
    if ss == [] then [] else FramesSeen(ss[..|ss| - 1]) + if ss[|ss| - 1].SeenFrame? then [ss[|ss| - 1]] else []
  }

  /** The frames as the host decodes them, ticks aside. */
  function AsSeen(fs: seq<Frame>): seq<Seen>
    requires AllWfFrames(fs)
  {
    if fs == [] then [] else AsSeen(fs[..|fs| - 1]) + [SeenAs(Data(fs[|fs| - 1]), 0)]
  }

  lemma {:induction false} FramesOfContents(recs: seq<Rec>)
    requires WfRecs(recs)
    ensures AllWfFrames(FramesIn(recs)) && FramesSeen(Contents(recs)) == AsSeen(FramesIn(recs))
    decreases |recs|
  {
    hide SeenAs;
    if recs != [] {
      var n := |recs| - 1;
      FramesOfContents(recs[..n]);
      SeenOnce(Contents(recs[..n]), SeenAs(recs[n], 0));
      KindKept(recs[n]);
      if recs[n].Data? {
        var fs := FramesIn(recs[..n]);
        assert (fs + [recs[n].f])[..|fs|] == fs;
      } else {
        assert FramesIn(recs[..n]) + [] == FramesIn(recs[..n]);
      }
    }
  }

  lemma KindKept(r: Rec)
    requires WfRec(r)
    ensures SeenAs(r, 0).SeenFrame? <==> r.Data?
  {}

  lemma SeenOnce(ss: seq<Seen>, x: Seen)
    ensures FramesSeen(ss + [x]) == FramesSeen(ss) + if x.SeenFrame? then [x] else []
  {
    assert (ss + [x])[..|ss|] == ss;
  }

  lemma {:induction false} SeenJoin(a: seq<Seen>, b: seq<Seen>)
    ensures FramesSeen(a + b) == FramesSeen(a) + FramesSeen(b)
    decreases |b|
  {
    if b == [] {
      assert a + b == a;
    } else {
      hide FramesSeen;
      var init, last := b[..|b| - 1], b[|b| - 1];
      SeenJoin(a, init);
      SeenOnce(a + init, last);
      SeenOnce(init, last);
      LastApart(a, b);
      Joined(FramesSeen(a), FramesSeen(init), if last.SeenFrame? then [last] else []);
    }
  }

  lemma {:induction false} SeenRepeat(ss: seq<Seen>, n: nat)
    ensures FramesSeen(Repeat(ss, n)) == Repeat(FramesSeen(ss), n)
  {
    if n > 0 {
      SeenRepeat(ss, n - 1);
      SeenJoin(Repeat(ss, n - 1), ss);
    }
  }

  /** The frames of each released batch, as often as the host read it. */
  function ToldFrames(log: seq<seq<Rec>>, done: seq<In.Released>): seq<Seen>
    requires |done| <= |log| && AllWf(log)
  {
    if done == [] then []
    else
      var n := |done| - 1;
      FramesOfContents(log[n]);
      ToldFrames(log, done[..n]) + Repeat(AsSeen(FramesIn(log[n])), done[n].copies)
  }

  lemma {:induction false} FramesOfTold(log: seq<seq<Rec>>, done: seq<In.Released>)
    requires |done| <= |log| && AllWf(log)
    ensures FramesSeen(Told(log, done)) == ToldFrames(log, done)
    decreases |done|
  {
    hide Contents, AsSeen, FramesIn, WfRecs;
    if done != [] {
      var n := |done| - 1;
      FramesOfTold(log, done[..n]);
      FramesOfContents(log[n]);
      SeenRepeat(Contents(log[n]), done[n].copies);
      SeenJoin(Told(log, done[..n]), Repeat(Contents(log[n]), done[n].copies));
    }
  }

  lemma {:induction false} BatchesLength(done: seq<In.Released>)
    ensures |Batches(done)| == |done|
  {
    if done != [] {
      BatchesLength(done[..|done| - 1]);
    }
  }

  /** What the host has decoded so far. */
  lemma HostHeard(s: Path)
    requires Inv(s)
    ensures |s.usb.done| == |s.log| && AllWf(s.log)
    ensures HostStream(s.usb.host) == Told(s.log, s.usb.done) + Repeat(Contents(s.recs), s.usb.copies)
  {
    hide Ring.Inv, Fed, Accounted, Plain, Sound, Contents, HostStream, Wire, Told, Matches, Batches;
    var w := s.usb;
    BatchesLength(w.done);
    SameLength(Batches(w.done), s.log);
    assert Batches(w.done)[..|w.done|] == Batches(w.done);
    StreamHeard(w.done, Batches(w.done), s.log);
    StreamAppend(In.Heard(w.done), Times(w.current, w.copies));
    if In.Resting(w) {
      RestingHeard(w.current);
    } else {
      OpenIsSound(s);
      StreamTimes(w.current, s.recs, w.copies);
    }
    hide In.Heard, Times, Repeat;
  }

  lemma SameLength(shipped: seq<Bytes>, log: seq<seq<Rec>>)
    requires Matches(shipped, log)
    ensures |shipped| == |log|
  {}

  lemma RestingHeard(b: Bytes)
    ensures HostStream(Times(b, 0)) == []
  {}

  /**
   In every run: the frames usb_tx_task has popped are the first of those push accepted
   into the receive ring; in order, they are in the released batches, in the open batch or
   in hand; and the frames the host has decoded are those of the released batches and of
   the open one, in order, each batch as often as the host read it, which for a released
   batch is at least once unless a deinit dropped it.
   */
  lemma BusToHost(slots: seq<Frame>, es: seq<Event>)
    requires slots != []
    ensures var s := Run(slots, es);
            && s.ring.accepted <= |s.ring.log| && s.ring.popped <= s.ring.log[..s.ring.accepted]
            && s.ring.popped == FramesIn(Flatten(s.log)) + FramesIn(s.recs) + InHand(s.stage)
            && |s.usb.done| == |s.log| && AllWf(s.log) && AllWfFrames(FramesIn(s.recs))
            && (forall k :: 0 <= k < |s.usb.done| ==> s.usb.done[k].copies >= 1 || s.usb.done[k].dropped)
            && FramesSeen(HostStream(s.usb.host))
            == ToldFrames(s.log, s.usb.done) + Repeat(AsSeen(FramesIn(s.recs)), s.usb.copies)
  {
    ReachableInv(slots, es);
    var s := Run(slots, es);
    hide Run;
    HostHeard(s);
    hide HostStream, Told, Contents, FramesSeen, AsSeen, Matches, FramesIn, ToldFrames, Repeat, Flatten, AllWfFrames;
    FramesOfTold(s.log, s.usb.done);
    FramesOfContents(s.recs);
    SeenRepeat(Contents(s.recs), s.usb.copies);
    SeenJoin(Told(s.log, s.usb.done), Repeat(Contents(s.recs), s.usb.copies));
    hide Ring.Stored, Ring.Locks, Ring.Places, Ring.Tokens, In.Heard, Times, Fed, OpenSound, Presented;
  }

  /** Without repeats and drops the host has decoded the first frames accepted, in order. */
  lemma BusToHostExactly(slots: seq<Frame>, es: seq<Event>)
    requires slots != []
    requires EachOnce(Run(slots, es).usb.done) && Run(slots, es).usb.copies == 0
    ensures var s := Run(slots, es);
            var n := |FramesIn(Flatten(s.log))|;
            && n <= |s.ring.popped| <= s.ring.accepted <= |s.ring.log| && AllWfFrames(s.ring.log[..n])
            && FramesSeen(HostStream(s.usb.host)) == AsSeen(s.ring.log[..n])
  {
    hide *;
    BusToHost(slots, es);
    ReachableInv(slots, es);
    var s := Run(slots, es);
    ExactlyHeard(s);
    FramesOfContents(Flatten(s.log));
    FirstAccepted(s.ring, FramesIn(Flatten(s.log)), FramesIn(s.recs), InHand(s.stage));
  }

  lemma ExactlyHeard(s: Path)
    requires Inv(s) && EachOnce(s.usb.done) && s.usb.copies == 0
    ensures WfRecs(Flatten(s.log)) && HostStream(s.usb.host) == Contents(Flatten(s.log))
  {
    hide Inv, EachOnce, HostStream, Contents, Told, Flatten, WfRecs;
    HostHeard(s);
    ToldOnce(s.log, s.usb.done);
    assert s.log[..|s.log|] == s.log;
    assert Told(s.log, s.usb.done) + [] == Told(s.log, s.usb.done);
  }

  lemma FirstAccepted(r: Ring.Ring, a: seq<Frame>, b: seq<Frame>, c: seq<Frame>)
    requires r.accepted <= |r.log| && r.popped <= r.log[..r.accepted] && r.popped == a + b + c
    ensures |a| <= |r.popped| <= r.accepted && a == r.log[..|a|]
  {
    assert a == r.popped[..|a|] == r.log[..r.accepted][..|a|];
  }
}
