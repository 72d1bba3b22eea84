/**
 A batch offered to EP2-IN does get to the host: what an offer schedules, and how a
 run goes on from any state it may be in to the release of the current batch. The
 deferred calls made on the way are calls the driver itself has scheduled.
 */
module UsbInProgress {
  import opened Words
  import opened UsbIn

  /** A call is scheduled exactly when the state becomes Queued, by an offer, new or again, to an open driver. */
  lemma ScheduledIff(first: Bytes, es: seq<Event>, e: Event)
    requires WfBatch(first) && Allowed(Run(first, es), e)
    ensures var w := Run(first, es);
            var m := Step(w, e).n;
            var s := Send(w.n, w.current);
            && (!w.n.state.Queued? && m.state.Queued? <==> e.CallSend? && s.deferred.Some?)
            && (s.deferred.Some? <==> w.n.open && (w.n.state.Idle? || w.n.state.Retry?))
            && (s.deferred.Some? ==> s.deferred == Some(w.n.gen) && s.released == 0 && s.n.data == w.current
                                     && Live(s.n, w.n.gen))
  {
    ReachableInv(first, es);
    hide Run, Heard, Times;
  }

  /** The generations for which the offers of a run have scheduled a call. */
  function Scheduled(first: Bytes, es: seq<Event>): set<nat> {
    if es == [] then {}
    else
      var w, e := Run(first, es[..|es| - 1]), es[|es| - 1];
      var s := Send(w.n, w.current);
      Scheduled(first, es[..|es| - 1])
      + if Allowed(w, e) && e.CallSend? && s.deferred.Some? then {s.deferred.value} else {}
  }

  /** The environment may produce `e` next: a deferred call runs only if an offer scheduled it. */
  predicate Can(first: Bytes, es: seq<Event>, e: Event) {
    Allowed(Run(first, es), e) && (e.CallDeferred? ==> e.g in Scheduled(first, es))
  }

  /** The run `es` may go on with `fs`. */
  predicate GoesOn(first: Bytes, es: seq<Event>, fs: seq<Event>)
    decreases |fs|
  {
    fs == [] || (Can(first, es, fs[0]) && GoesOn(first, es + [fs[0]], fs[1..]))
  }

  lemma Append(first: Bytes, es: seq<Event>, e: Event)
    requires Allowed(Run(first, es), e)
    ensures Run(first, es + [e]) == Step(Run(first, es), e)
    ensures Scheduled(first, es) <= Scheduled(first, es + [e])
  {
    assert (es + [e])[..|es|] == es;
    hide Allowed, Step, Send;
  }

  /** Whatever is queued has a call on its way. */
  lemma {:induction false} QueuedIsScheduled(first: Bytes, es: seq<Event>)
    requires WfBatch(first)
    ensures Run(first, es).n.state.Queued? ==> Run(first, es).n.gen in Scheduled(first, es)
    decreases |es|
  {
    if es != [] {
      var before, e := es[..|es| - 1], es[|es| - 1];
      QueuedIsScheduled(first, before);
      ReachableInv(first, before);
      if Allowed(Run(first, before), e) {
        ScheduledIff(first, before, e);
      }
      hide Heard, Times;
    }
  }

  /** What happens next when nothing goes wrong, `next` being the batch after the current one. */
  function Onward(w: World, next: Bytes): Event {
    match w.n.state
    case Queued => CallDeferred(w.n.gen, true)
    case Submitted => if w.heard then Finishes(true) else HostReads
    case Complete => CallSend(next)
    case Dropped => CallSend(next)
    case _ => if w.n.open then CallSend(next) else OnOpen
  }

  /** How many such events it takes to release the current batch. */
  function Distance(w: World): nat {
    match w.n.state
    case Queued => 4
    case Submitted => if w.heard then 2 else 3
    case Complete => 1
    case Dropped => 1
    case _ => if w.n.open then 5 else 6
  }

  /** An event of a bus on which nothing goes wrong. */
  predicate Smooth(e: Event, next: Bytes) {
    e in {OnOpen, CallSend(next), HostReads, Finishes(true)} || (e.CallDeferred? && e.submitted)
  }

  /** One event nearer to the release of the same batch. */
  predicate Nearer(w: World, v: World) {
    && Distance(v) == Distance(w) - 1 && v.done == w.done && v.current == w.current
    && w.n.state.Dropped? == v.n.state.Dropped?
  }

  lemma OnwardAllowed(w: World, next: Bytes)
    requires Inv(w) && WfBatch(next)
    ensures Allowed(w, Onward(w, next))
    ensures var v := Step(w, Onward(w, next));
            Distance(w) > 1 ==> Nearer(w, v)
    ensures Distance(w) == 1 ==> Step(w, Onward(w, next)) == Release(w, next)
  {
    hide Heard, Times;
  }

  /** The caller of `w` has been released from its batch, `c` copies of which were read, and presents `next`. */
  predicate Ends(w: World, v: World, c: nat, next: Bytes) {
    && v.done == w.done + [Released(w.current, c, w.n.state.Dropped?)]
    && (c >= 1 || w.n.state.Dropped?)
    && v.n.state.Idle? && v.current == next && v.copies == 0
  }

  lemma CompleteWasRead(first: Bytes, es: seq<Event>)
    requires WfBatch(first)
    ensures Run(first, es).n.state.Complete? ==> Run(first, es).copies >= 1
  {
    ReachableInv(first, es);
    hide Run;
  }

  /** One event onward is possible, and either ends the batch or comes nearer to that. */
  lemma OneOnward(first: Bytes, es: seq<Event>, next: Bytes)
    requires WfBatch(first) && WfBatch(next)
    ensures var w, e := Run(first, es), Onward(Run(first, es), next);
            var v := Run(first, es + [e]);
            && Can(first, es, e)
            && Smooth(e, next)
            && (Distance(w) == 1 ==> Ends(w, v, w.copies, next))
            && (Distance(w) > 1 ==> Nearer(w, v))
  {
    ReachableInv(first, es);
    QueuedIsScheduled(first, es);
    CompleteWasRead(first, es);
    var e := Onward(Run(first, es), next);
    hide Run, Step, Inv, Allowed, Scheduled, Send;
    OnwardAllowed(Run(first, es), next);
    Append(first, es, e);
  }

  /** The run goes on, one such event after the other, until the current batch is released. */
  lemma {:induction false} GoOn(first: Bytes, es: seq<Event>, next: Bytes) returns (fs: seq<Event>, c: nat)
    requires WfBatch(first) && WfBatch(next)
    ensures |fs| == Distance(Run(first, es)) && GoesOn(first, es, fs)
    ensures forall k :: 0 <= k < |fs| ==> Smooth(fs[k], next)
    ensures Ends(Run(first, es), Run(first, es + fs), c, next)
    decreases Distance(Run(first, es))
  {
    hide Run, Step, Inv, Allowed, Scheduled, Can, Onward;
    OneOnward(first, es, next);
    var w := Run(first, es);
    var e := Onward(w, next);
    if Distance(w) == 1 {
      fs, c := [e], w.copies;
      assert GoesOn(first, es + [e], fs[1..]);
    } else {
      var rest;
      rest, c := GoOn(first, es + [e], next);
      fs := [e] + rest;
      assert fs[1..] == rest && es + fs == (es + [e]) + rest;
    }
  }

  /**
   From every state a run may reach, closed or in retry after a reset included, at
   most six events release the current batch: the session opens, the batch is
   offered, the call scheduled for it submits it, the host reads it, the transfer
   ends well and the next offer finds it done. Unless a deinit had dropped it, the
   host has read it at least once by then.
   */
  lemma {:induction false} NextIsDelivered(first: Bytes, es: seq<Event>, next: Bytes) returns (fs: seq<Event>, c: nat)
    requires WfBatch(first) && WfBatch(next)
    ensures |fs| <= 6 && GoesOn(first, es, fs)
    ensures forall k :: 0 <= k < |fs| ==> Smooth(fs[k], next)
    ensures var w, v := Run(first, es), Run(first, es + fs);
            Ends(w, v, c, next) && v.host == Heard(v.done)
  {
    fs, c := GoOn(first, es, next);
    ReachableInv(first, es + fs);
    AllHeard(Run(first, es + fs));
    hide Run, Inv, GoesOn, Heard;
  }

  lemma AllHeard(w: World)
    requires Inv(w) && w.copies == 0
    ensures w.host == Heard(w.done)
  {
    assert Times(w.current, 0) == [];
  }

  // ---- what is given up -----------------------------------------------------

  /** A batch under way is given up at a deinit alone; a reset and a failed transfer lead to a retry. */
  lemma GivenUpIff(first: Bytes, es: seq<Event>, e: Event)
    requires WfBatch(first) && Allowed(Run(first, es), e)
    ensures var n, m := Run(first, es).n, Step(Run(first, es), e).n;
            && (!n.state.Dropped? && m.state.Dropped? <==> e.OnDeinit? && Pending(n.state))
            && (Pending(n.state) && !Pending(m.state) && !m.state.Dropped? ==>
                  e.OnInit? || (e == Finishes(true) && m.state.Complete?))
  {
    ReachableInv(first, es);
    hide Run, Heard, Times;
  }

  /** In a run without deinit every batch the caller was released from has reached the host. */
  lemma {:induction false} NothingIsDropped(first: Bytes, es: seq<Event>)
    requires WfBatch(first) && OnDeinit !in es
    ensures !Run(first, es).n.state.Dropped?
    ensures forall r <- Run(first, es).done :: r.copies >= 1 && !r.dropped
    decreases |es|
  {
    if es != [] {
      var before, e := es[..|es| - 1], es[|es| - 1];
      NothingIsDropped(first, before);
      ReachableInv(first, before);
      ReachableInv(first, es);
      if Allowed(Run(first, before), e) {
        GivenUpIff(first, before, e);
      }
      hide Heard, Times;
    }
  }
}
