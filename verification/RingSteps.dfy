/**
 The frame ring of main/ringbuf.c as a machine of single steps: each take or give
 of a semaphore or of the lock, each copy and each index move of push and pop is
 one step, and the steps of the producer, the consumer and whoever reads the
 drop counter interleave freely.

 `log`, `accepted` and `popped` are history: frames copied in, how many of them
 push has returned true for, and frames pop has returned.
 */
module RingSteps {
  import opened Words
  import opened PcanMsg

  datatype Owner = Free | ByProducer | ByConsumer | ByReader

  /** Where push is; `PTimedOut` still holds the space it reserved. */
  datatype Producer = PIdle | PSpace(f: Frame) | PTimedOut | PLocked(f: Frame) | PCopied(f: Frame) | PMoved | PUnlocked

  datatype Consumer = CIdle | CItem | CLocked | CCopied(f: Frame) | CMoved(f: Frame) | CUnlocked(f: Frame)

  datatype Ring = Ring(slots: seq<Frame>, head: nat, tail: nat, items: nat, spaces: nat, lock: Owner,
                       p: Producer, c: Consumer, reading: bool,
                       log: seq<Frame>, accepted: nat, popped: seq<Frame>)

  datatype Event = Push(f: Frame) | Produce(patient: bool) | Pop | Consume | Read

  function InitRing(slots: seq<Frame>): Ring
    requires slots != []
  {
    Ring(slots, 0, 0, 0, |slots|, Free, PIdle, CIdle, false, [], 0, [])
  }

  function Bump(i: nat, cap: nat): nat { if i + 1 >= cap then 0 else i + 1 }

  // ---- steps ----------------------------------------------------------------

  /** Reserves a space, or returns false. */
  function PushStep(r: Ring, f: Frame): Ring {
    if r.p.PIdle? && r.spaces > 0 then r.(spaces := r.spaces - 1, p := PSpace(f)) else r
  }

  /** The next step of a push under way; an impatient one gives up on a lock that is held. */
  function ProduceStep(r: Ring, patient: bool): Ring {
    match r.p
    case PIdle => r
    case PSpace(f) =>
      if r.lock.Free? then r.(lock := ByProducer, p := PLocked(f))
      else if patient then r
      else r.(p := PTimedOut)
    case PTimedOut => r.(spaces := r.spaces + 1, p := PIdle)
    case PLocked(f) =>
      if r.head < |r.slots| then r.(slots := r.slots[r.head := f], log := r.log + [f], p := PCopied(f)) else r
    case PCopied(f) => r.(head := Bump(r.head, |r.slots|), p := PMoved)
    case PMoved => r.(lock := Free, p := PUnlocked)
    case PUnlocked => r.(items := r.items + 1, accepted := r.accepted + 1, p := PIdle)
  }

  /** Takes an item, or returns false. */
  function PopStep(r: Ring): Ring {
    if r.c.CIdle? && r.items > 0 then r.(items := r.items - 1, c := CItem) else r
  }

  function ConsumeStep(r: Ring): Ring {
    match r.c
    case CIdle => r
    case CItem => if r.lock.Free? then r.(lock := ByConsumer, c := CLocked) else r
    case CLocked => if r.tail < |r.slots| then r.(c := CCopied(r.slots[r.tail])) else r
    case CCopied(f) => r.(tail := Bump(r.tail, |r.slots|), c := CMoved(f))
    case CMoved(f) => r.(lock := Free, c := CUnlocked(f))
    case CUnlocked(f) => r.(spaces := r.spaces + 1, popped := r.popped + [f], c := CIdle)
  }

  /** The statistics task takes the lock for a moment. */
  function ReadStep(r: Ring): Ring {
    if r.reading then r.(lock := Free, reading := false)
    else if r.lock.Free? then r.(lock := ByReader, reading := true)
    else r
  }

  function Step(r: Ring, e: Event): Ring {
    match e
    case Push(f) => PushStep(r, f)
    case Produce(patient) => ProduceStep(r, patient)
    case Pop => PopStep(r)
    case Consume => ConsumeStep(r)
    case Read => ReadStep(r)
  }

  function Run(slots: seq<Frame>, es: seq<Event>): Ring
    requires slots != []
  {
    if es == [] then InitRing(slots) else Step(Run(slots, es[..|es| - 1]), es[|es| - 1])
  }

  // ---- invariant ------------------------------------------------------------

  function One(b: bool): nat { if b then 1 else 0 }

  /** Tokens in the hands of the two tasks. */
  function Held(r: Ring): nat { One(!r.p.PIdle?) + One(!r.c.CIdle?) }

  /** Frames whose slot is complete and passed by `head`. */
  function Filled(r: Ring): nat { r.accepted + One(r.p.PMoved? || r.p.PUnlocked?) }

  /** Items taken, and slots passed by `tail`. */
  function Taken(r: Ring): nat { |r.popped| + One(!r.c.CIdle?) }

  function Emptied(r: Ring): nat { |r.popped| + One(r.c.CMoved? || r.c.CUnlocked?) }

  predicate Tokens(r: Ring) {
    && r.items + Taken(r) == r.accepted
    && r.spaces + r.accepted + One(!r.p.PIdle?) == |r.slots| + |r.popped|
  }

  predicate Locks(r: Ring) {
    && (r.p.PLocked? || r.p.PCopied? || r.p.PMoved? <==> r.lock == ByProducer)
    && (r.c.CLocked? || r.c.CCopied? || r.c.CMoved? <==> r.lock == ByConsumer)
    && (r.reading <==> r.lock == ByReader)
  }

  predicate Places(r: Ring) {
    && r.slots != [] && r.head == Filled(r) % |r.slots| && r.tail == Emptied(r) % |r.slots|
    && |r.log| == r.accepted + One(r.p.PCopied? || r.p.PMoved? || r.p.PUnlocked?)
  }

  /** Everything copied in and not yet copied out is still in its slot. */
  predicate Stored(slots: seq<Frame>, log: seq<Frame>, from: nat)
    requires slots != []
  {
    forall i :: from <= i < |log| ==> slots[i % |slots|] == log[i]
  }

  predicate Order(r: Ring) {
    && |r.popped| <= r.accepted <= |r.log| && r.popped == r.log[..|r.popped|]
    && (r.c.CCopied? || r.c.CMoved? || r.c.CUnlocked? ==> |r.popped| < |r.log| && r.c.f == r.log[|r.popped|])
  }

  predicate Inv(r: Ring) {
    r.slots != [] && Tokens(r) && Locks(r) && Places(r) && Stored(r.slots, r.log, Emptied(r)) && Order(r)
  }

  lemma BumpMod(n: nat, cap: nat)
    requires cap > 0
    ensures Bump(n % cap, cap) == (n + 1) % cap
  {
    BlockStep(n, cap);
  }

  lemma InitInv(slots: seq<Frame>)
    requires slots != []
    ensures Inv(InitRing(slots))
  {}

  /** The slot the producer is about to write is none of those still to be copied out. */
  lemma WriteIsSafe(r: Ring)
    requires Inv(r) && r.p.PLocked?
    ensures r.head < |r.slots| && r.head == |r.log| % |r.slots| && |r.log| < Emptied(r) + |r.slots|
    ensures forall i :: Emptied(r) <= i < |r.log| ==> i % |r.slots| != r.head
  {
    forall i | Emptied(r) <= i < |r.log|
      ensures i % |r.slots| != r.head
    {
      ModDiffers(i, |r.log|, |r.slots|);
    }
  }

  lemma WriteKeeps(r: Ring)
    requires Inv(r) && r.p.PLocked?
    ensures Inv(ProduceStep(r, true))
  {
    WriteIsSafe(r);
    var s := ProduceStep(r, true);
    assert s.slots == r.slots[r.head := r.p.f] && s.log == r.log + [r.p.f];
    forall i | Emptied(s) <= i < |s.log|
      ensures s.slots[i % |s.slots|] == s.log[i]
    {
      if i < |r.log| {
        assert r.slots[i % |r.slots|] == r.log[i];
      }
    }
  }

  lemma ProduceKeeps(r: Ring, patient: bool)
    requires Inv(r)
    ensures Inv(ProduceStep(r, patient))
  {
    if r.p.PLocked? {
      WriteKeeps(r);
    } else if r.p.PCopied? {
      AdvanceKeeps(r);
    } else {
      WaitKeeps(r, patient);
    }
    hide Inv, ProduceStep;
  }

  lemma AdvanceKeeps(r: Ring)
    requires Inv(r) && r.p.PCopied?
    ensures Inv(ProduceStep(r, true)) && ProduceStep(r, false) == ProduceStep(r, true)
  {
    BumpMod(Filled(r), |r.slots|);
    hide Bump, Stored;
  }

  lemma WaitKeeps(r: Ring, patient: bool)
    requires Inv(r) && !r.p.PLocked? && !r.p.PCopied?
    ensures Inv(ProduceStep(r, patient))
  {
    hide Stored;
  }

  lemma ReadKeeps(r: Ring)
    requires Inv(r) && r.c.CLocked?
    ensures r.tail < |r.slots| && |r.popped| < |r.log| && r.slots[r.tail] == r.log[|r.popped|]
  {
    assert Emptied(r) == |r.popped| < r.accepted;
  }

  lemma ConsumeKeeps(r: Ring)
    requires Inv(r)
    ensures Inv(ConsumeStep(r))
  {
    if r.c.CLocked? {
      CopyKeeps(r);
    } else if r.c.CCopied? {
      MoveKeeps(r);
    } else {
      ReturnKeeps(r);
    }
    hide Inv, ConsumeStep;
  }

  lemma CopyKeeps(r: Ring)
    requires Inv(r) && r.c.CLocked?
    ensures Inv(ConsumeStep(r))
  {
    ReadKeeps(r);
    hide Stored;
  }

  lemma MoveKeeps(r: Ring)
    requires Inv(r) && r.c.CCopied?
    ensures Inv(ConsumeStep(r))
  {
    BumpMod(Emptied(r), |r.slots|);
    hide Bump;
  }

  lemma ReturnKeeps(r: Ring)
    requires Inv(r) && !r.c.CLocked? && !r.c.CCopied?
    ensures Inv(ConsumeStep(r))
  {
    hide Stored;
  }

  lemma StepKeeps(r: Ring, e: Event)
    requires Inv(r)
    ensures Inv(Step(r, e))
  {
    hide Stored, ProduceStep, ConsumeStep;
    match e
    case Push(_) =>
    case Produce(patient) => ProduceKeeps(r, patient);
    case Pop =>
    case Consume => ConsumeKeeps(r);
    case Read =>
  }

  lemma SlotsStay(r: Ring, e: Event)
    ensures |Step(r, e).slots| == |r.slots|
  {}

  lemma {:induction false} ReachableInv(slots: seq<Frame>, es: seq<Event>)
    requires slots != []
    ensures Inv(Run(slots, es)) && |Run(slots, es).slots| == |slots|
    decreases |es|
  {
    hide Inv, Step;
    if es == [] {
      InitInv(slots);
    } else {
      ReachableInv(slots, es[..|es| - 1]);
      StepKeeps(Run(slots, es[..|es| - 1]), es[|es| - 1]);
      SlotsStay(Run(slots, es[..|es| - 1]), es[|es| - 1]);
    }
  }

  // ---- what the ring is for -------------------------------------------------

  /** Frames push has returned true for and no pop has reserved. */
  function Queue(r: Ring): seq<Frame>
    requires Inv(r)
  {
    r.log[Taken(r)..r.accepted]
  }

  /** No token is lost or made; what pop returned is what push accepted, in order. */
  lemma RingTheorem(slots: seq<Frame>, es: seq<Event>)
    requires slots != []
    ensures var r := Run(slots, es);
            && r.items + r.spaces + Held(r) == |slots|
            && |r.popped| <= r.accepted <= |r.log|
            && r.popped == r.log[..r.accepted][..|r.popped|]
            && |r.log| - Emptied(r) <= |slots|
  {
    ReachableInv(slots, es);
    hide Run;
  }

  /** Each step is one of a bounded queue, or none: an accepted frame joins the end, a reserved one leaves the front. */
  lemma RefinesFifo(r: Ring, e: Event)
    requires Inv(r)
    ensures Inv(Step(r, e))
    ensures var q, s := Queue(r), Step(r, e);
            var q' := Queue(s);
            if s.accepted > r.accepted then q' == q + [r.log[r.accepted]] && |q'| <= |r.slots|
            else if r.c.CIdle? && !s.c.CIdle? then q != [] && q' == q[1..] && q[0] == r.log[|r.popped|]
            else q' == q
  {
    hide Step, Inv, Taken;
    StepKeeps(r, e);
    CountsMove(r, e);
    QueueBounds(r);
    QueueBounds(Step(r, e));
    SliceMoves(r.log, Step(r, e).log, Taken(r), r.accepted);
  }

  lemma QueueBounds(r: Ring)
    requires Inv(r)
    ensures Taken(r) <= r.accepted <= |r.log| && r.accepted - Taken(r) <= |r.slots|
  {
    hide Places, Stored, Locks;
  }

  lemma SliceMoves<T>(a: seq<T>, b: seq<T>, i: nat, j: nat)
    requires a <= b && i <= j <= |a|
    ensures b[i..j] == a[i..j]
    ensures j < |a| ==> b[i..j + 1] == a[i..j] + [a[j]]
    ensures i < j ==> b[i + 1..j] == a[i..j][1..] && a[i..j][0] == a[i]
  {}

  lemma CountsMove(r: Ring, e: Event)
    requires Inv(r)
    ensures var s := Step(r, e);
            && |s.slots| == |r.slots| && r.log <= s.log && (s.accepted > r.accepted ==> r.accepted < |r.log|)
            && (s.accepted, Taken(s)) ==
               (if s.accepted > r.accepted then (r.accepted + 1, Taken(r))
                else if r.c.CIdle? && !s.c.CIdle? then (r.accepted, Taken(r) + 1)
                else (r.accepted, Taken(r)))
            && (r.c.CIdle? ==> Taken(r) == |r.popped|)
  {
    hide Stored, Locks;
  }

  /** A frame, once reserved, is the one this pop returns. */
  lemma PopReturnsReserved(r: Ring)
    requires Inv(r) && r.c.CUnlocked?
    ensures ConsumeStep(r).popped == r.popped + [r.log[|r.popped|]]
  {}

  /** Push finds no space exactly when every slot holds an accepted frame that no pop has returned. */
  lemma RefusedIffFull(r: Ring, f: Frame)
    requires Inv(r) && r.p.PIdle?
    ensures PushStep(r, f) == r <==> r.accepted - |r.popped| == |r.slots|
  {}

  /** The lock is never in two hands. */
  lemma OneLockHolder(slots: seq<Frame>, es: seq<Event>)
    requires slots != []
    ensures var r := Run(slots, es);
            One(r.p.PLocked? || r.p.PCopied? || r.p.PMoved?) + One(r.c.CLocked? || r.c.CCopied? || r.c.CMoved?)
            + One(r.reading) == One(!r.lock.Free?)
  {
    ReachableInv(slots, es);
    hide Run;
  }
}
