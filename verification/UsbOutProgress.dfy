/**
 A transfer on EP2-OUT does get into the transmit ring, and the next one can follow:
 what any sequence of drains moves, and how a run goes on from any state it may be in.
 */
module UsbOutProgress {
  import opened Words
  import opened PcanMsg
  import opened UsbOut

  // ---- drains ---------------------------------------------------------------

  /** The room the drains of a session find, all told. */
  function Room(g: nat, ds: seq<Event>): nat {
    if ds == [] then 0
    else Room(g, ds[..|ds| - 1]) + var d := ds[|ds| - 1]; if d.OnDrain? && d.g == g then d.room else 0
  }

  /** One of the drains finds room for whatever is left of `n` frames, and the endpoint takes the submit. */
  predicate Rearms(g: nat, n: nat, ds: seq<Event>) {
    exists k :: 0 <= k < |ds| && RearmsAt(g, n, ds, k)
  }

  predicate RearmsAt(g: nat, n: nat, ds: seq<Event>, k: nat)
    requires k < |ds|
  {
    ds[k].OnDrain? && ds[k].g == g && ds[k].accepted && Room(g, ds[..k + 1]) >= n
  }

  predicate AllDrains(ds: seq<Event>) { forall k :: 0 <= k < |ds| ==> ds[k].OnDrain? }

  function Least(a: nat, b: nat): nat { if a < b then a else b }

  /** `o` after drains that found room for `room` frames in all. */
  predicate Drained(o: Out, p: Out, room: nat) {
    var n := Least(|o.pending|, room);
    && p.open && p.gen == o.gen && p.pending == o.pending[n..] && p.decoded == o.decoded && p.counted == o.counted
    && Kept(p.fates) == Kept(o.fates) + o.pending[..n]
  }

  lemma Append(es: seq<Event>, e: Event)
    ensures Run(es + [e]) == if Allowed(Run(es), e) then Step(Run(es), e) else Run(es)
  {
    assert (es + [e])[..|es|] == es;
    hide Step, Allowed;
  }

  lemma Slices(q: seq<Frame>, n: nat, m: nat)
    requires n + m <= |q|
    ensures q[..n] + q[n..][..m] == q[..n + m] && q[n..][m..] == q[n + m..]
  {}

  /** One drain more. */
  lemma DrainNext(o: Out, p: Out, room: nat, e: Event)
    requires e.OnDrain? && Inv(p) && Drained(o, p, room)
    requires p.needsRearm || |o.pending| <= room
    ensures Drained(o, Step(p, e), room + if e.g == o.gen then e.room else 0)
    ensures !p.needsRearm ==> Step(p, e) == p
    ensures p.needsRearm ==>
              (Step(p, e).armed <==> e.g == o.gen && e.accepted && |o.pending| <= room + e.room)
    ensures Step(p, e).needsRearm || |o.pending| <= room + if e.g == o.gen then e.room else 0
  {
    hide All, Kept, LostCount, Fated, FramesOf;
    RingGets(p, e);
    var n, m := Least(|o.pending|, room), Taken(p, e.g, e.room);
    Slices(o.pending, n, m);
    Joined(Kept(o.fates), o.pending[..n], o.pending[n..][..m]);
  }

  /** What the drains `ds` have made of `o`. */
  predicate Moves(o: Out, p: Out, ds: seq<Event>) {
    && Drained(o, p, Room(o.gen, ds))
    && (p.armed <==> Rearms(o.gen, |o.pending|, ds)) && (p.needsRearm <==> !p.armed)
    && (p.armed ==> |o.pending| <= Room(o.gen, ds))
  }

  lemma MovesNext(o: Out, p: Out, init: seq<Event>, d: Event)
    requires Inv(p) && Inv(Step(p, d)) && d.OnDrain? && Moves(o, p, init)
    ensures Moves(o, Step(p, d), init + [d])
  {
    hide Inv, Step, Drained, Rearms;
    var room := Room(o.gen, init);
    assert Room(o.gen, init + [d]) == room + if d.g == o.gen then d.room else 0 by {
      assert (init + [d])[..|init|] == init;
    }
    DrainNext(o, p, room, d);
    RearmsNext(o.gen, |o.pending|, init, d);
    hide Room;
    OpenFacts(o, Step(p, d), Room(o.gen, init + [d]));
  }

  lemma OpenFacts(o: Out, p: Out, room: nat)
    requires Inv(p) && Drained(o, p, room)
    ensures p.armed <==> !p.needsRearm
  {
    hide All, Kept, LostCount;
  }

  /**
   In every session, whatever the drains that follow one another, stale ones and ones
   that find the ring full included: they move as many frames as they found room for,
   in order, and the endpoint waits for the next transfer exactly when one of them
   found room for the last frame and its submit was accepted.
   */
  lemma {:induction false} DrainsDeliver(es: seq<Event>, ds: seq<Event>)
    requires Run(es).open && Run(es).needsRearm && AllDrains(ds)
    ensures Moves(Run(es), Run(es + ds), ds)
    decreases |ds|
  {
    hide Run, Moves, Inv, Step;
    var o := Run(es);
    if ds == [] {
      ReachableInv(es);
      assert es + ds == es;
      NoDrains(o);
      return;
    }
    var init, d := ds[..|ds| - 1], ds[|ds| - 1];
    DrainsDeliver(es, init);
    ReachableInv(es + init);
    ReachableInv(es + ds);
    assert es + ds == (es + init) + [d];
    Append(es + init, d);
    MovesNext(o, Run(es + init), init, d);
    assert init + [d] == ds;
  }

  lemma NoDrains(o: Out)
    requires Inv(o) && o.open && o.needsRearm
    ensures Moves(o, o, [])
  {
    assert o.pending[..0] == [] && o.pending[0..] == o.pending;
    hide Kept;
    assert Kept(o.fates) + [] == Kept(o.fates);
  }

  lemma RearmsNext(g: nat, n: nat, init: seq<Event>, d: Event)
    ensures Rearms(g, n, init + [d])
       <==> Rearms(g, n, init) || (d.OnDrain? && d.g == g && d.accepted && Room(g, init + [d]) >= n)
  {
    var ds := init + [d];
    assert ds[..|ds|] == ds;
    forall k | 0 <= k < |init|
      ensures RearmsAt(g, n, ds, k) <==> RearmsAt(g, n, init, k)
    {
      assert ds[..k + 1] == init[..k + 1];
    }
    assert RearmsAt(g, n, ds, |init|) <==> d.OnDrain? && d.g == g && d.accepted && Room(g, ds) >= n;
  }

  // ---- the next transfer ----------------------------------------------------

  /** usb_glue_service asks for drains of the session of the moment, and only while the endpoint is due to be armed. */
  predicate Can(o: Out, e: Event) { Allowed(o, e) && (e.OnDrain? ==> Live(o, e.g)) }

  predicate GoesOn(es: seq<Event>, fs: seq<Event>)
    decreases |fs|
  {
    fs == [] || (Can(Run(es), fs[0]) && GoesOn(es + [fs[0]], fs[1..]))
  }

  /** The endpoint waits for a transfer, everything that was pending has entered the ring, and `more` after it. */
  predicate Ready(o: Out, p: Out, more: seq<Frame>) {
    && p.open && p.armed && p.decoded == o.decoded + more && p.counted == o.counted
    && Kept(p.fates) == Kept(o.fates) + o.pending + more
  }

  /** One event that brings the endpoint nearer to waiting for a transfer, as long as it does not. */
  function Onward(o: Out): Event {
    if !o.open then OnOpen(true) else OnDrain(o.gen, |o.pending|, true)
  }

  lemma OnwardReady(o: Out)
    requires Inv(o) && !o.armed
    ensures Can(o, Onward(o)) && Allowed(o, Onward(o)) && Ready(o, Step(o, Onward(o)), [])
  {
    hide All, Kept, LostCount, Fated, FramesOf;
    RingGets(o, Onward(o));
    assert o.pending[..|o.pending|] == o.pending && o.decoded + [] == o.decoded;
  }

  /** From every state a run may reach, closed ones included, at most one event has the endpoint wait for a transfer. */
  lemma GetsReady(es: seq<Event>) returns (fs: seq<Event>)
    ensures |fs| <= 1 && GoesOn(es, fs) && Ready(Run(es), Run(es + fs), [])
  {
    hide Run, Step, Can, Ready;
    ReachableInv(es);
    var o := Run(es);
    if o.armed {
      fs := [];
      assert es + fs == es;
      AlreadyReady(o);
    } else {
      fs := [Onward(o)];
      OnwardReady(o);
      Append(es, Onward(o));
      assert GoesOn(es + fs, fs[1..]);
    }
    hide Inv;
  }

  lemma AlreadyReady(o: Out)
    requires Inv(o) && o.armed
    ensures Ready(o, o, [])
  {
    hide All, Kept, LostCount;
    assert Kept(o.fates) + [] + [] == Kept(o.fates) && o.decoded + [] == o.decoded;
  }

  lemma DoneStep(o: Out, buf: Bytes)
    requires Inv(o) && o.armed && buf != []
    ensures Can(o, OnDone(true, buf)) && Allowed(o, OnDone(true, buf))
    ensures var p := Step(o, OnDone(true, buf));
            && p.open && p.pending == FramesOf(buf) && p.decoded == o.decoded + FramesOf(buf) && p.counted == o.counted
            && Kept(p.fates) == Kept(o.fates) && p.needsRearm && !p.armed
  {
    hide All, Kept, LostCount, FramesOf;
    RingGets(o, OnDone(true, buf));
  }

  /**
   From every state a run may reach, at most three events, a drain only while one is
   due, put everything pending and then every frame of the next transfer into the
   ring, lose nothing, and have the endpoint wait for another transfer.
   */
  lemma NextTransferArrives(es: seq<Event>, buf: Bytes) returns (fs: seq<Event>)
    requires buf != []
    ensures |fs| <= 3 && GoesOn(es, fs) && Ready(Run(es), Run(es + fs), FramesOf(buf))
  {
    hide Run, Step, Can, Inv, FramesOf, Kept, GoesOn;
    fs := GetsReady(es);
    var o, done := Run(es), OnDone(true, buf);
    var p := Run(es + fs);
    ReachableInv(es + fs);
    DoneStep(p, buf);
    Append(es + fs, done);
    var gs := fs + [done];
    assert es + gs == (es + fs) + [done];
    ReachableInv(es + gs);
    var q := Run(es + gs);
    OnwardReady(q);
    Append(es + gs, Onward(q));
    assert (es + gs) + [Onward(q)] == es + (gs + [Onward(q)]);
    Longer(es, fs, done);
    Longer(es, gs, Onward(q));
    fs := gs + [Onward(q)];
    assert Kept(o.fates) + o.pending + [] + FramesOf(buf) == Kept(o.fates) + o.pending + FramesOf(buf);
    assert o.decoded + [] + FramesOf(buf) == o.decoded + FramesOf(buf);
  }

  lemma {:induction false} Longer(es: seq<Event>, fs: seq<Event>, e: Event)
    requires GoesOn(es, fs) && Can(Run(es + fs), e)
    ensures GoesOn(es, fs + [e])
    decreases |fs|
  {
    hide Run, Can;
    if fs == [] {
      assert es + fs == es && (fs + [e])[1..] == [];
      assert GoesOn(es + [e], []);
    } else {
      assert (es + [fs[0]]) + fs[1..] == es + fs;
      Longer(es + [fs[0]], fs[1..], e);
      assert (fs + [e])[1..] == fs[1..] + [e];
    }
  }

  /** Pending frames are lost at the end of a session alone, all of them, and each is counted. */
  lemma LostIff(es: seq<Event>, e: Event)
    requires Allowed(Run(es), e)
    ensures var o, p := Run(es), Step(Run(es), e);
            && LostCount(p.fates) == LostCount(o.fates) + (if e.OnInit? || e.OnClose? then |o.pending| else 0)
            && p.counted == o.counted + (if e.OnInit? || e.OnClose? then |o.pending| else 0)
  {
    hide Run, All, Kept, Fated, FramesOf, LostCount;
    ReachableInv(es);
    LostStep(Run(es), e);
  }

  lemma LostStep(o: Out, e: Event)
    requires Inv(o) && Allowed(o, e)
    ensures var p, n := Step(o, e), if e.OnInit? || e.OnClose? then |o.pending| else 0;
            LostCount(p.fates) == LostCount(o.fates) + n && p.counted == o.counted + n
  {
    hide All, Kept, Fated, FramesOf, LostCount;
    StepKeeps(o, e);
    if e.OnDrain? {
      FatedFacts(o.fates, o.pending[..Taken(o, e.g, e.room)], false);
    } else {
      FatedFacts(o.fates, o.pending, true);
    }
  }
}
