/**
 The EP2-OUT half of main/usb_glue.c: a decoded transfer stays in static storage,
 and the endpoint stays unarmed, until every frame of it has entered the transmit
 ring. Deferred drains may be lost, repeated or arbitrarily late, and the ring
 takes as many frames as it has room for.
 */
module UsbOut {
  import opened Words
  import opened PcanMsg
  import opened PcanBatch

  const MAX_FRAMES: int := 32

  /** What became of a decoded frame. */
  datatype Fate = Pushed(f: Frame) | Lost(f: Frame)

  /**
   `armed` means the endpoint waits for a transfer. The rest is history: every frame
   decoded so far, those no longer pending, how many losses the statistics counted,
   and how many frames a transfer overwrote.
   */
  datatype Out = Out(open: bool, gen: nat, pending: seq<Frame>, needsRearm: bool, armed: bool,
                     decoded: seq<Frame>, fates: seq<Fate>, counted: nat, overwritten: nat)

  const INIT: Out := Out(false, 0, [], false, false, [], [], 0, 0)

  function Fated(fs: seq<Frame>, lost: bool): seq<Fate> {
    if fs == [] then []
    else Fated(fs[..|fs| - 1], lost) + [if lost then Lost(fs[|fs| - 1]) else Pushed(fs[|fs| - 1])]
  }

  // ---- callbacks ------------------------------------------------------------

  /** What is pending is forgotten; only deinit and reset count it. */
  function EndSession(o: Out, counting: bool): Out {
    o.(open := false, gen := o.gen + 1, pending := [], needsRearm := false, armed := false,
       fates := o.fates + Fated(o.pending, true),
       counted := if counting then o.counted + |o.pending| else o.counted)
  }

  function DrvOpen(o: Out, accepted: bool): Out {
    o.(open := true, gen := o.gen + 1, pending := [], needsRearm := !accepted, armed := accepted,
       fates := o.fates + Fated(o.pending, true))
  }

  /** A malformed transfer yields no frames. */
  function FramesOf(buf: Bytes): (fs: seq<Frame>)
    ensures |fs| <= MAX_FRAMES
  {
    var d := DecodeTx(buf, MAX_FRAMES);
    if d.None? then [] else d.value
  }

  /** A transfer has ended; only a successful one with data carries frames. */
  function DrvDone(o: Out, ok: bool, buf: Bytes): Out {
    if !ok || buf == [] then o.(armed := false, needsRearm := true)
    else
      o.(armed := false, needsRearm := true, pending := FramesOf(buf), decoded := o.decoded + FramesOf(buf),
         fates := o.fates + Fated(o.pending, true), counted := o.counted + |o.pending|,
         overwritten := o.overwritten + |o.pending|)
  }

  predicate Live(o: Out, g: nat) { o.open && g == o.gen && o.needsRearm }

  /** The first `n` pending frames have been pushed. */
  function Moved(o: Out, n: nat): Out
    requires n <= |o.pending|
  {
    o.(pending := o.pending[n..], fates := o.fates + Fated(o.pending[..n], false))
  }

  function MovedOne(o: Out): Out
    requires o.pending != []
  {
    o.(pending := o.pending[1..], fates := o.fates + [Pushed(o.pending[0])])
  }

  /** A drain for which the ring has room for `room` more frames. */
  function Drain(o: Out, g: nat, room: nat, accepted: bool): Out {
    if !Live(o, g) then o
    else
      var n := if |o.pending| < room then |o.pending| else room;
      var m := Moved(o, n);
      if |o.pending| > room then m
      else m.(armed := accepted, needsRearm := !accepted)
  }

  // ---- the object -----------------------------------------------------------

  class GlueOut {
    var open: bool
    var gen: nat
    const frames: array<Frame>
    var count: nat
    var index: nat
    var needsRearm: bool
    var resetDrops: nat
    var ring: seq<Frame>
    ghost var armed: bool
    ghost var decoded: seq<Frame>
    ghost var fates: seq<Fate>
    ghost var overwritten: nat

    ghost predicate Valid()
      reads this, frames
    {
      frames.Length == MAX_FRAMES && index <= count <= MAX_FRAMES
    }

    ghost function State(): Out
      reads this, frames
      requires Valid()
    {
      Out(open, gen, frames[index..count], needsRearm, armed, decoded, fates, resetDrops, overwritten)
    }

    constructor ()
      ensures Valid() && fresh(frames) && State() == INIT && ring == []
    {
      open, gen, count, index, needsRearm, resetDrops, ring := false, 0, 0, 0, false, 0, [];
      frames := new Frame[MAX_FRAMES](_ => BLANK);
      armed, decoded, fates, overwritten := false, [], [], 0;
    }

    /** deinit and reset alike. */
    method Close()
      requires Valid()
      modifies this
      ensures Valid() && State() == EndSession(old(State()), true) && ring == old(ring)
    {
      hide Fated;
      open, gen := false, gen + 1;
      resetDrops := resetDrops + (count - index);
      fates := fates + Fated(frames[index..count], true);
      count, index, needsRearm, armed := 0, 0, false, false;
    }

    method Open(accepted: bool)
      requires Valid()
      modifies this
      ensures Valid() && State() == DrvOpen(old(State()), accepted) && ring == old(ring)
    {
      open, gen := true, gen + 1;
      fates := fates + Fated(frames[index..count], true);
      count, index := 0, 0;
      needsRearm, armed := !accepted, accepted;
    }

    method Done(ok: bool, buf: Bytes)
      requires Valid()
      modifies this, frames
      ensures Valid() && State() == DrvDone(old(State()), ok, buf) && ring == old(ring)
    {
      armed := false;
      if ok && |buf| > 0 {
        HandleMsg(buf);
      } else {
        needsRearm := true;
      }
    }

    method HandleMsg(buf: Bytes)
      requires Valid()
      modifies this`count, this`index, this`needsRearm, this`resetDrops, this`decoded, this`fates,
        this`overwritten, frames
      ensures Valid() && needsRearm && frames[index..count] == FramesOf(buf)
      ensures decoded == old(decoded) + FramesOf(buf)
      ensures fates == old(fates) + Fated(old(frames[index..count]), true)
      ensures overwritten == old(overwritten) + |old(frames[index..count])|
      ensures resetDrops == old(resetDrops) + |old(frames[index..count])|
    {
      hide Fated;
      var room := new Frame[MAX_FRAMES](_ => BLANK);
      var n := DecodeInto(buf, room);
      if n < 0 {
        n := 0;
      }
      ghost var got := FramesOf(buf);
      assert room[..n] == got;
      if index < count {
        resetDrops := resetDrops + (count - index);
      }
      overwritten := overwritten + (count - index);
      fates := fates + Fated(frames[index..count], true);
      decoded := decoded + got;
      forall k | 0 <= k < n {
        frames[k] := room[k];
      }
      index, count, needsRearm := 0, n, true;
      assert frames[index..count] == got;
    }

    /** Moves pending frames into the ring until it is full or nothing is pending, then re-arms. */
    method RunDrain(g: nat, room: nat, accepted: bool)
      requires Valid()
      modifies this
      ensures Valid() && State() == Drain(old(State()), g, room, accepted)
      ensures ring == old(ring) + old(State()).pending[..Taken(old(State()), g, room)]
    {
      ghost var o := State();
      if !(open && g == gen && needsRearm) {
        assert ring == old(ring) + [];
        return;
      }
      MoveSome(room);
      hide Fated;
      if index >= count {
        needsRearm, armed := !accepted, accepted;
      }
    }

    /** Pushes pending frames in order while the ring takes them. */
    method MoveSome(room: nat)
      requires Valid()
      modifies this`ring, this`fates, this`index, this`count
      ensures Valid()
      ensures var o := old(State());
              var n := if |o.pending| < room then |o.pending| else room;
              && State() == Moved(o, n) && ring == old(ring) + o.pending[..n]
              && (index >= count <==> |o.pending| <= room)
    {
      ghost var o: Out, r, n: nat := State(), ring, 0;
      var left: nat := room;
      MovedNone(o);
      assert ring == r + o.pending[..0];
      assert State() == Moved(o, 0) && |o.pending| == count - index;
      hide Fated, Moved, MovedOne, GlueOut.State;
      while index < count && left > 0
        invariant Valid() && left + n == room && n <= |o.pending|
        invariant State() == Moved(o, n) && ring == r + o.pending[..n]
        invariant count - index == |o.pending| - n
        decreases count - index
      {
        MovedNext(o, n);
        Snoc(r, o.pending[..n], Moved(o, n).pending[0]);
        MoveOne();
        left, n := left - 1, n + 1;
      }
    }

    method MoveOne()
      requires Valid() && index < count
      modifies this`ring, this`fates, this`index, this`count
      ensures Valid() && count - index == old(count - index) - 1
      ensures old(State()).pending != [] && State() == MovedOne(old(State()))
      ensures ring == old(ring) + [old(State()).pending[0]]
    {
      ring := ring + [frames[index]];
      fates := fates + [Pushed(frames[index])];
      index := index + 1;
      if index >= count {
        index, count := 0, 0;
      }
    }
  }

  lemma MovedNone(o: Out)
    ensures Moved(o, 0) == o
  {
    assert o.fates + [] == o.fates;
  }

  lemma MovedNext(o: Out, n: nat)
    requires n < |o.pending|
    ensures Moved(o, n).pending != [] && Moved(o, n + 1) == MovedOne(Moved(o, n))
    ensures o.pending[..n] + [Moved(o, n).pending[0]] == o.pending[..n + 1]
  {
    var fs := o.pending;
    assert fs[..n + 1][..n] == fs[..n];
    Snoc(o.fates, Fated(fs[..n], false), Pushed(fs[n]));
  }

  /** How many frames a drain moves. */
  function Taken(o: Out, g: nat, room: nat): (n: nat)
    ensures n <= |o.pending|
  {
    if !Live(o, g) then 0 else if |o.pending| < room then |o.pending| else room
  }

  // ---- all runs -------------------------------------------------------------

  datatype Event =
    | OnInit
    | OnClose
    | OnOpen(accepted: bool)
    | OnDone(ok: bool, buf: Bytes)
    | OnDrain(g: nat, room: nat, accepted: bool)

  /** init comes before any open or after a close, open never twice, completions follow armed transfers. */
  predicate Allowed(o: Out, e: Event) {
    match e
    case OnInit => !o.open
    case OnOpen(_) => !o.open
    case OnDone(_, _) => o.armed
    case _ => true
  }

  function Step(o: Out, e: Event): Out {
    match e
    case OnInit => EndSession(o, false)
    case OnClose => EndSession(o, true)
    case OnOpen(accepted) => DrvOpen(o, accepted)
    case OnDone(ok, buf) => DrvDone(o, ok, buf)
    case OnDrain(g, room, accepted) => Drain(o, g, room, accepted)
  }

  function Run(es: seq<Event>): Out {
    if es == [] then INIT
    else
      var o, e := Run(es[..|es| - 1]), es[|es| - 1];
      if Allowed(o, e) then Step(o, e) else o
  }

  function All(fates: seq<Fate>): seq<Frame> {
    if fates == [] then [] else All(fates[..|fates| - 1]) + [fates[|fates| - 1].f]
  }

  /** The frames the ring got, in order. */
  function Kept(fates: seq<Fate>): seq<Frame> {
    if fates == [] then []
    else Kept(fates[..|fates| - 1]) + if fates[|fates| - 1].Pushed? then [fates[|fates| - 1].f] else []
  }

  function LostCount(fates: seq<Fate>): nat {
    if fates == [] then 0 else LostCount(fates[..|fates| - 1]) + if fates[|fates| - 1].Lost? then 1 else 0
  }

  predicate Inv(o: Out) {
    && (if o.open then o.armed != o.needsRearm else !o.armed && !o.needsRearm)
    && (o.armed || !o.open ==> o.pending == [])
    && All(o.fates) + o.pending == o.decoded
    && LostCount(o.fates) == o.counted
    && o.overwritten == 0
  }

  lemma {:induction false} FatedFacts(a: seq<Fate>, fs: seq<Frame>, lost: bool)
    ensures All(a + Fated(fs, lost)) == All(a) + fs
    ensures Kept(a + Fated(fs, lost)) == if lost then Kept(a) else Kept(a) + fs
    ensures LostCount(a + Fated(fs, lost)) == LostCount(a) + if lost then |fs| else 0
    decreases |fs|
  {
    if fs == [] {
      assert a + [] == a;
      return;
    }
    hide Fated, All, Kept, LostCount;
    var init, x := fs[..|fs| - 1], fs[|fs| - 1];
    FatedFacts(a, init, lost);
    FatedLast(a, init, x, lost);
    Snoc(if lost then All(a) else Kept(a), init, x);
    Snoc(All(a), init, x);
    assert fs == init + [x];
  }

  lemma FatedLast(a: seq<Fate>, init: seq<Frame>, x: Frame, lost: bool)
    ensures var b := a + Fated(init, lost);
            && All(a + Fated(init + [x], lost)) == All(b) + [x]
            && Kept(a + Fated(init + [x], lost)) == (if lost then Kept(b) else Kept(b) + [x])
            && LostCount(a + Fated(init + [x], lost)) == LostCount(b) + (if lost then 1 else 0)
  {
    var f := if lost then Lost(x) else Pushed(x);
    assert Fated(init + [x], lost) == Fated(init, lost) + [f] by {
      assert (init + [x])[..|init|] == init;
    }
    hide Fated, All, Kept, LostCount;
    Snoc(a, Fated(init, lost), f);
    OneFate(a + Fated(init, lost), f);
  }

  lemma Snoc<T>(a: seq<T>, b: seq<T>, x: T)
    ensures a + (b + [x]) == a + b + [x]
  {}

  lemma OneFate(a: seq<Fate>, f: Fate)
    ensures All(a + [f]) == All(a) + [f.f]
    ensures Kept(a + [f]) == if f.Lost? then Kept(a) else Kept(a) + [f.f]
    ensures LostCount(a + [f]) == LostCount(a) + if f.Lost? then 1 else 0
  {
    assert (a + [f])[..|a|] == a;
  }

  lemma StepKeeps(o: Out, e: Event)
    requires Inv(o) && Allowed(o, e)
    ensures Inv(Step(o, e))
  {
    hide Fated, All, Kept, LostCount, FramesOf;
    FatedFacts(o.fates, o.pending, true);
    match e
    case OnDrain(g, room, accepted) =>
      var n := Taken(o, g, room);
      FatedFacts(o.fates, o.pending[..n], false);
      assert o.pending == o.pending[..n] + o.pending[n..];
    case _ =>
  }

  lemma {:induction false} ReachableInv(es: seq<Event>)
    ensures Inv(Run(es))
    decreases |es|
  {
    if es == [] {
      return;
    }
    hide Inv, Step;
    var o, e := Run(es[..|es| - 1]), es[|es| - 1];
    ReachableInv(es[..|es| - 1]);
    if Allowed(o, e) {
      StepKeeps(o, e);
    }
  }

  /**
   In every run: while the interface is open the endpoint is either armed or due to
   be armed, and armed only with nothing pending; each decoded frame is in the ring,
   pending, or counted as a reset drop, in the order decoded; no transfer ever
   overwrites a pending frame.
   */
  lemma Backpressure(es: seq<Event>)
    ensures var o := Run(es);
            && (o.open ==> (o.armed <==> !o.needsRearm))
            && (o.armed ==> o.pending == [])
            && o.decoded == All(o.fates) + o.pending
            && |o.decoded| == |Kept(o.fates)| + |o.pending| + o.counted
            && o.overwritten == 0
  {
    ReachableInv(es);
    FatesSplit(Run(es).fates);
    hide Run;
  }

  lemma {:induction false} FatesSplit(fates: seq<Fate>)
    ensures |All(fates)| == |fates| == |Kept(fates)| + LostCount(fates)
    decreases |fates|
  {
    if fates != [] {
      FatesSplit(fates[..|fates| - 1]);
    }
  }

  /** A drain puts exactly the frames it marks as pushed into the ring, and no other event does. */
  lemma RingGets(o: Out, e: Event)
    requires Allowed(o, e)
    ensures Kept(Step(o, e).fates)
         == Kept(o.fates) + if e.OnDrain? then o.pending[..Taken(o, e.g, e.room)] else []
  {
    hide Fated, All, Kept, FramesOf;
    FatedFacts(o.fates, o.pending, true);
    match e
    case OnDrain(g, room, _) =>
      FatedFacts(o.fates, o.pending[..Taken(o, g, room)], false);
    case _ =>
  }
}
