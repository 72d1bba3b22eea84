/**
 The ring itself, in place: a slot array, two indices, two semaphore counts and a
 lock. `Producer` and `Consumer` run one step at a time as the scheduler lets them;
 `PushAlone` and `PopAlone` are push and pop with nothing interleaved.
 */
module RingBuf {
  import opened Words
  import opened PcanMsg
  import opened RingSteps

  class RingObject {
    const slots: array<Frame>
    var head: nat
    var tail: nat
    var items: nat
    var spaces: nat
    var lock: Owner
    var p: Producer
    var c: Consumer
    var reading: bool
    ghost var log: seq<Frame>
    ghost var accepted: nat
    ghost var popped: seq<Frame>

    ghost function State(): Ring
      reads this, slots
    {
      Ring(slots[..], head, tail, items, spaces, lock, p, c, reading, log, accepted, popped)
    }

    ghost predicate Valid()
      reads this, slots
    {
      Inv(State())
    }

    constructor (capacity: nat, blank: Frame)
      requires capacity > 0
      ensures Valid() && fresh(slots) && slots.Length == capacity
      ensures State() == InitRing(seq(capacity, _ => blank))
    {
      slots := new Frame[capacity](_ => blank);
      head, tail, items, spaces := 0, 0, 0, capacity;
      lock, p, c, reading := Free, PIdle, CIdle, false;
      log, accepted, popped := [], 0, [];
      new;
      assert slots[..] == seq(capacity, _ => blank);
    }

    /** Reserves a space for `f`; false when there is none. */
    method BeginPush(f: Frame) returns (ok: bool)
      requires Valid()
      modifies this`spaces, this`p
      ensures State() == Step(old(State()), Push(f)) && Valid()
      ensures old(p).PIdle? ==> (ok <==> old(accepted) - |old(popped)| < slots.Length)
      ensures p == if ok then PSpace(f) else old(p)
    {
      StepKeeps(State(), Push(f));
      ok := p.PIdle? && spaces > 0;
      if ok {
        spaces := spaces - 1;
        p := PSpace(f);
      }
    }

    /** The next step of the push under way. */
    method AdvancePush(patient: bool)
      requires Valid()
      modifies this`head, this`items, this`spaces, this`lock, this`p, this`log, this`accepted, slots
      ensures State() == Step(old(State()), Produce(patient)) && Valid()
    {
      hide Inv;
      StepKeeps(State(), Produce(patient));
      ghost var next := ProduceStep(State(), patient);
      if p.PLocked? {
        WriteIsSafe(State());
      }
      match p
      case PIdle =>
      case PSpace(f) =>
        if lock.Free? {
          lock, p := ByProducer, PLocked(f);
        } else if !patient {
          p := PTimedOut;
        }
      case PTimedOut =>
        spaces, p := spaces + 1, PIdle;
      case PLocked(f) =>
        slots[head] := f;
        log := log + [f];
        p := PCopied(f);
      case PCopied(f) =>
        head := if head + 1 >= slots.Length then 0 else head + 1;
        p := PMoved;
      case PMoved =>
        lock, p := Free, PUnlocked;
      case PUnlocked =>
        items, accepted, p := items + 1, accepted + 1, PIdle;
      assert State() == next;
    }

    /** Reserves the next item; false when there is none. */
    method BeginPop() returns (ok: bool)
      requires Valid()
      modifies this`items, this`c
      ensures State() == Step(old(State()), Pop) && Valid()
      ensures old(c).CIdle? ==> (ok <==> Queue(old(State())) != [])
      ensures c == if ok then CItem else old(c)
    {
      StepKeeps(State(), Pop);
      ok := c.CIdle? && items > 0;
      if ok {
        items := items - 1;
        c := CItem;
      }
    }

    /** The next step of the pop under way; its last one hands out the frame. */
    method AdvancePop() returns (out: Option<Frame>)
      requires Valid()
      modifies this`tail, this`spaces, this`lock, this`c, this`popped
      ensures State() == Step(old(State()), Consume) && Valid()
      ensures out.Some? <==> old(c).CUnlocked?
      ensures out.Some? ==> |old(popped)| < |log| && out.value == log[|old(popped)|]
    {
      StepKeeps(State(), Consume);
      out := None;
      match c
      case CIdle =>
      case CItem =>
        if lock.Free? {
          lock, c := ByConsumer, CLocked;
        }
      case CLocked =>
        ReadKeeps(State());
        c := CCopied(slots[tail]);
      case CCopied(f) =>
        tail := if tail + 1 >= slots.Length then 0 else tail + 1;
        c := CMoved(f);
      case CMoved(f) =>
        lock, c := Free, CUnlocked(f);
      case CUnlocked(f) =>
        spaces, popped, c := spaces + 1, popped + [f], CIdle;
        out := Some(f);
    }

    /** Push with nobody else running: the frame joins the queue, or the ring is full. */
    method PushAlone(f: Frame) returns (ok: bool)
      requires Valid() && p.PIdle? && lock.Free?
      modifies this, slots
      ensures Valid() && p.PIdle? && lock.Free? && popped == old(popped) && c == old(c)
      ensures ok <==> old(accepted) - |old(popped)| < slots.Length
      ensures Queue(State()) == if ok then Queue(old(State())) + [f] else Queue(old(State()))
    {
      hide Inv;
      ghost var r := State();
      ok := BeginPush(f);
      RefinesFifo(r, Push(f));
      if !ok {
        return;
      }
      while !p.PIdle?
        invariant Valid() && popped == r.popped && c == r.c && Underway(State(), f)
        invariant accepted == r.accepted + One(p.PIdle?)
        invariant Queue(State()) == if p.PIdle? then Queue(r) + [f] else Queue(r)
        decreases Rank(p)
      {
        ghost var s := State();
        AdvancePush(true);
        RefinesFifo(s, Produce(true));
        UnderwayStep(s, f);
      }
    }

    /** Pop with nobody else running: the front of the queue, or none. */
    method PopAlone() returns (out: Option<Frame>)
      requires Valid() && c.CIdle? && lock.Free?
      modifies this
      ensures Valid() && c.CIdle? && lock.Free? && p == old(p)
      ensures var q := Queue(old(State()));
              if q == [] then out.None? && Queue(State()) == []
              else out == Some(q[0]) && Queue(State()) == q[1..]
    {
      hide Inv;
      ghost var r := State();
      RefinesFifo(r, Pop);
      var ok := BeginPop();
      out := None;
      if !ok {
        return;
      }
      ReservedInLog(State());
      while !c.CIdle?
        invariant Valid() && p == r.p && log == r.log
        invariant c.CLocked? || c.CCopied? || c.CMoved? || lock.Free?
        invariant if c.CIdle? then out == Some(Queue(r)[0]) else popped == r.popped
        invariant Queue(r) != [] && |r.popped| < |r.log| && Queue(r)[0] == r.log[|r.popped|]
        invariant Queue(State()) == Queue(r)[1..]
        decreases CRank(c)
      {
        ghost var s := State();
        ReservedInLog(s);
        out := AdvancePop();
        RefinesFifo(s, Consume);
      }
    }
  }

  function Rank(p: Producer): nat {
    match p
    case PIdle => 0
    case PSpace(_) => 5
    case PTimedOut => 6
    case PLocked(_) => 4
    case PCopied(_) => 3
    case PMoved => 2
    case PUnlocked => 1
  }

  /** A push of `f` that found the lock free. */
  predicate Underway(r: Ring, f: Frame) {
    match r.p
    case PIdle => r.lock.Free?
    case PSpace(g) => g == f && r.lock.Free?
    case PTimedOut => false
    case PLocked(g) => g == f
    case PUnlocked => |r.log| == r.accepted + 1 && r.log[r.accepted] == f && r.lock.Free?
    case _ => |r.log| == r.accepted + 1 && r.log[r.accepted] == f
  }

  lemma UnderwayStep(r: Ring, f: Frame)
    requires Inv(r) && Underway(r, f) && !r.p.PIdle?
    ensures var s := ProduceStep(r, true);
            && Underway(s, f) && Rank(s.p) < Rank(r.p) && s.popped == r.popped && s.c == r.c
            && (s.p.PIdle? <==> r.p.PUnlocked?) && s.accepted == r.accepted + One(r.p.PUnlocked?)
  {
    if r.p.PLocked? {
      WriteIsSafe(r);
    }
    hide Stored;
  }

  lemma ReservedInLog(r: Ring)
    requires Inv(r) && !r.c.CIdle?
    ensures |r.popped| < |r.log|
    ensures var s := ConsumeStep(r);
            && s.p == r.p && s.log == r.log && s.accepted == r.accepted
            && (r.c.CUnlocked? <==> s.c.CIdle?) && (!r.c.CUnlocked? ==> s.popped == r.popped)
            && (r.c.CMoved? ==> s.lock.Free?)
            && (r.lock.Free? || r.c.CLocked? || r.c.CCopied? || r.c.CMoved? ==>
                  Order(s) && CRank(s.c) < CRank(r.c) && (s.c.CLocked? || s.c.CCopied? || s.c.CMoved? || s.lock.Free?))
  {
    ConsumeKeeps(r);
    if r.c.CLocked? {
      ReadKeeps(r);
    }
    hide Stored;
  }

  function CRank(c: Consumer): nat {
    match c
    case CIdle => 0
    case CItem => 5
    case CLocked => 4
    case CCopied(_) => 3
    case CMoved(_) => 2
    case CUnlocked(_) => 1
  }
}
