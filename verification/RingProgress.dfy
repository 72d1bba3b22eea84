/**
 No interleaving of the ring's tasks ends in a deadlock: a push, a pop and a look at
 the statistics that are under way can always be finished, by their own steps alone
 and in a bounded number of them, and a free space or a queued frame is then there for
 the next push or pop.
 */
module RingProgress {
  import opened Words
  import opened PcanMsg
  import opened RingSteps

  /** Nothing is under way. */
  predicate Quiet(r: Ring) { r.p.PIdle? && r.c.CIdle? && !r.reading }

  /** Steps until push returns, the lock being free or its own. */
  function PushLeft(p: Producer): nat {
    match p
    case PIdle => 0
    case PSpace(_) => 5
    case PTimedOut => 1
    case PLocked(_) => 4
    case PCopied(_) => 3
    case PMoved => 2
    case PUnlocked => 1
  }

  function PopLeft(c: Consumer): nat {
    match c
    case CIdle => 0
    case CItem => 5
    case CLocked => 4
    case CCopied(_) => 3
    case CMoved(_) => 2
    case CUnlocked(_) => 1
  }

  /** Steps until nothing is under way. */
  function Left(r: Ring): nat { PushLeft(r.p) + PopLeft(r.c) + One(r.reading) }

  /** The owner of the lock goes first, then whoever waits for it. */
  function Onward(r: Ring): Event {
    if r.reading then Read
    else if r.lock.ByConsumer? then Consume
    else if !r.p.PIdle? then Produce(true)
    else Consume
  }

  /** What is under way ends with the frame accepted, and the frame reserved returned. */
  function Accepting(p: Producer): nat { One(!p.PIdle? && !p.PTimedOut?) }

  /** What `log` will be once the push under way has copied its frame in. */
  function Logged(r: Ring): seq<Frame> {
    r.log + match r.p case PSpace(f) => [f] case PLocked(f) => [f] case _ => []
  }

  /** One step of one of those under way is always possible, and brings all of them nearer to their end. */
  lemma OneOnward(r: Ring)
    requires Inv(r) && !Quiet(r)
    ensures var s := Step(r, Onward(r));
            && Left(s) == Left(r) - 1
            && s.accepted + Accepting(s.p) == r.accepted + Accepting(r.p)
            && Taken(s) == Taken(r) && Logged(s) == Logged(r)
  {
    if r.p.PLocked? {
      WriteIsSafe(r);
    }
    if r.c.CLocked? {
      ReadKeeps(r);
    }
    hide Stored;
  }

  /**
   From every state a run may reach, steps of the tasks under way alone, at most
   eleven, let every one of them return: the push with its frame accepted unless it had
   given up, the pop with the frame it had reserved. The lock is free then, and all
   tokens are back.
   */
  lemma {:induction false} AllReturn(slots: seq<Frame>, es: seq<Event>) returns (fs: seq<Event>)
    requires slots != []
    ensures |fs| == Left(Run(slots, es)) <= 11
    ensures forall k :: 0 <= k < |fs| ==> fs[k] in {Read, Consume, Produce(true)}
    ensures var r, s := Run(slots, es), Run(slots, es + fs);
            && Quiet(s) && s.lock.Free?
            && s.accepted == r.accepted + Accepting(r.p) && |s.popped| == Taken(r)
            && s.log == Logged(r) && s.items == s.accepted - |s.popped| && s.items + s.spaces == |slots|
    decreases Left(Run(slots, es))
  {
    hide Run, Stored, Order, Step;
    ReachableInv(slots, es);
    var r := Run(slots, es);
    if Quiet(r) {
      fs := [];
      assert es + fs == es;
      return;
    }
    hide Inv;
    var e := Onward(r);
    OneOnward(r);
    Append(slots, es, e);
    hide Left, Taken, Accepting, Quiet, Logged;
    var rest := AllReturn(slots, es + [e]);
    fs := [e] + rest;
    assert es + fs == (es + [e]) + rest;
    MostLeft(r);
  }

  lemma Append(slots: seq<Frame>, es: seq<Event>, e: Event)
    requires slots != []
    ensures Run(slots, es + [e]) == Step(Run(slots, es), e)
  {
    assert (es + [e])[..|es|] == es;
    hide Step;
  }

  lemma MostLeft(r: Ring)
    ensures Left(r) <= 11
  {}

  /** Pop finds a frame exactly when one is queued, and takes the first of them. */
  lemma PopFindsIffQueued(slots: seq<Frame>, es: seq<Event>)
    requires slots != []
    ensures Inv(Run(slots, es))
    ensures var r := Run(slots, es);
            r.c.CIdle? ==>
              && (PopStep(r).c.CItem? <==> Queue(r) != [])
              && (Queue(r) != [] ==> PopStep(r) == r.(items := r.items - 1, c := CItem))
  {
    ReachableInv(slots, es);
    QueueBounds(Run(slots, es));
    hide Run, Places, Stored, Locks;
  }

  /** A push under way gives up exactly when somebody else holds the lock for longer than it is ready to wait. */
  lemma GivesUpIff(slots: seq<Frame>, es: seq<Event>, e: Event)
    requires slots != []
    ensures var r, s := Run(slots, es), Step(Run(slots, es), e);
            !r.p.PTimedOut? && s.p.PTimedOut? <==>
              r.p.PSpace? && e == Produce(false) && (r.c.CLocked? || r.c.CCopied? || r.c.CMoved? || r.reading)
  {
    ReachableInv(slots, es);
    hide Run, Places, Stored, Tokens, Order;
  }
}
