/**
 The EP2-IN half of main/usb_glue.c: one batch is retained through bus resets and
 failed transfers until it has completed. First the driver's own state and its
 callbacks, then the world around it: the caller that keeps presenting the same
 batch, the endpoint, and the host. Deferred calls may be lost, repeated or
 arbitrarily late.
 */
module UsbIn {
  import opened Words

  datatype InState = Idle | Queued | Submitted | Complete | Retry | Dropped

  /** `data` is the retained batch in the transfer buffer. */
  datatype In = In(open: bool, gen: nat, state: InState, data: Bytes, boundTo: nat)

  const INIT: In := In(false, 0, Idle, [], 0)

  // ---- callbacks ------------------------------------------------------------

  predicate Pending(s: InState) { s.Queued? || s.Submitted? || s.Retry? }

  function DrvInit(n: In): In {
    n.(open := false, gen := n.gen + 1, state := Idle, data := [])
  }

  function DrvDeinit(n: In): In {
    n.(open := false, gen := n.gen + 1, state := if Pending(n.state) then Dropped else n.state)
  }

  function DrvReset(n: In): In {
    var m := n.(open := false, gen := n.gen + 1);
    if Pending(n.state) then m.(state := Retry, boundTo := m.gen) else m
  }

  function DrvOpen(n: In): In {
    var m := n.(open := true, gen := n.gen + 1);
    if n.state.Retry? then m.(boundTo := m.gen) else m
  }

  /** A completed transfer. */
  function DrvDone(n: In, ok: bool): In {
    if !n.state.Submitted? then n else n.(state := if ok then Complete else Retry)
  }

  /** Whether a deferred call of generation `g` may touch the endpoint. */
  predicate Live(n: In, g: nat) {
    n.open && g == n.gen && n.state.Queued? && n.boundTo == g && n.data != []
  }

  function Deferred(n: In, g: nat, submitted: bool): In {
    if !Live(n, g) then n else n.(state := if submitted then Submitted else Retry)
  }

  /** `released` is the length returned, `deferred` the generation of a call to schedule. */
  datatype Sent = Sent(n: In, released: nat, deferred: Option<nat>)

  function Send(n: In, b: Bytes): Sent {
    if b == [] || |b| > 64 then Sent(n, 0, None)
    else
      match n.state
      case Complete => if |b| == |n.data| then Sent(n.(state := Idle, data := []), |b|, None) else Sent(n, 0, None)
      case Dropped => if |b| == |n.data| then Sent(n.(state := Idle, data := []), |b|, None) else Sent(n, 0, None)
      case Idle =>
        if n.open then Sent(n.(state := Queued, data := b, boundTo := n.gen), 0, Some(n.gen)) else Sent(n, 0, None)
      case Retry => if n.open && n.boundTo == n.gen then Sent(n.(state := Queued), 0, Some(n.gen)) else Sent(n, 0, None)
      case Queued => Sent(n, 0, None)
      case Submitted => Sent(n, 0, None)
  }

  // ---- the object -----------------------------------------------------------

  class GlueIn {
    var open: bool
    var gen: nat
    var state: InState
    const buf: array<byte>
    var len: nat
    var boundTo: nat

    ghost predicate Valid()
      reads this, buf
    {
      buf.Length == 64 && len <= 64
    }

    ghost function State(): In
      reads this, buf
      requires Valid()
    {
      In(open, gen, state, buf[..len], boundTo)
    }

    constructor ()
      ensures Valid() && fresh(buf) && State() == INIT
    {
      open, gen, state, len, boundTo := false, 0, Idle, 0, 0;
      buf := new byte[64](_ => 0);
    }

    method Init()
      requires Valid()
      modifies this
      ensures Valid() && State() == DrvInit(old(State()))
    {
      open, gen, state, len := false, gen + 1, Idle, 0;
    }

    method Deinit()
      requires Valid()
      modifies this
      ensures Valid() && State() == DrvDeinit(old(State()))
    {
      open, gen := false, gen + 1;
      if state.Queued? || state.Submitted? || state.Retry? {
        state := Dropped;
      }
    }

    method Reset()
      requires Valid()
      modifies this
      ensures Valid() && State() == DrvReset(old(State()))
    {
      open, gen := false, gen + 1;
      if state.Queued? || state.Submitted? || state.Retry? {
        state, boundTo := Retry, gen;
      }
    }

    method Open()
      requires Valid()
      modifies this
      ensures Valid() && State() == DrvOpen(old(State()))
    {
      open, gen := true, gen + 1;
      if state.Retry? {
        boundTo := gen;
      }
    }

    method Done(ok: bool)
      requires Valid()
      modifies this`state
      ensures Valid() && State() == DrvDone(old(State()), ok)
    {
      if state.Submitted? {
        state := if ok then Complete else Retry;
      }
    }

    /** `claimed` and `accepted` are the endpoint's answers; `submitted` tells that it now owns the buffer. */
    method RunDeferred(g: nat, claimed: bool, accepted: bool) returns (submitted: bool)
      requires Valid()
      modifies this`state
      ensures Valid() && State() == Deferred(old(State()), g, claimed && accepted)
      ensures submitted <==> Live(old(State()), g) && claimed && accepted
    {
      submitted := false;
      if open && g == gen && state.Queued? && boundTo == g && len != 0 {
        submitted := claimed && accepted;
        state := if submitted then Submitted else Retry;
      }
    }

    method SendMsgBatch(b: Bytes) returns (released: nat, deferred: Option<nat>)
      requires Valid()
      modifies this`state, this`len, this`boundTo, buf
      ensures Valid() && Sent(State(), released, deferred) == Send(old(State()), b)
    {
      released, deferred := 0, None;
      if |b| == 0 || |b| > 64 {
        return;
      }
      match state {
        case Complete =>
          if |b| == len {
            state, len, released := Idle, 0, |b|;
          }
        case Dropped =>
          if |b| == len {
            state, len, released := Idle, 0, |b|;
          }
        case Idle =>
          if open {
            forall k | 0 <= k < |b| {
              buf[k] := b[k];
            }
            len, boundTo, state := |b|, gen, Queued;
            assert buf[..len] == b;
            deferred := Some(gen);
          }
        case Retry =>
          if open && boundTo == gen {
            state := Queued;
            deferred := Some(gen);
          }
        case Queued =>
        case Submitted =>
      }
    }
  }

  // ---- the world around it --------------------------------------------------

  /** A batch the caller was told is gone, how often the host got it, and whether it went with a deinit. */
  datatype Released = Released(batch: Bytes, copies: nat, dropped: bool)

  /**
   `flying` means the endpoint owns the transfer buffer, `heard` that the host has
   read this transfer, `copies` how often it read the batch the caller holds.
   */
  datatype World = World(n: In, flying: bool, heard: bool, current: Bytes, copies: nat,
                         done: seq<Released>, host: seq<Bytes>)

  datatype Event =
    | CallSend(next: Bytes)
    | CallDeferred(g: nat, submitted: bool)
    | HostReads
    | Finishes(ok: bool)
    | OnInit
    | OnDeinit
    | OnReset
    | OnOpen

  predicate WfBatch(b: Bytes) { 0 < |b| <= 64 }

  /** What the environment does: open follows init or reset, completions follow transfers. */
  predicate Allowed(w: World, e: Event) {
    match e
    case CallSend(next) => WfBatch(next)
    case HostReads => w.flying && !w.heard
    case Finishes(ok) => w.flying && (ok ==> w.heard)
    case OnOpen => !w.n.open
    case _ => true
  }

  function Step(w: World, e: Event): World {
    match e
    case CallSend(next) =>
      var s := Send(w.n, w.current);
      if s.released == 0 then w.(n := s.n)
      else
        var r := Released(w.current, w.copies, w.n.state.Dropped?);
        w.(n := s.n, done := w.done + [r], current := next, copies := 0)
    case CallDeferred(g, submitted) =>
      if Live(w.n, g) && submitted then w.(n := Deferred(w.n, g, true), flying := true, heard := false)
      else w.(n := Deferred(w.n, g, false))
    case HostReads => w.(heard := true, host := w.host + [w.n.data], copies := w.copies + 1)
    case Finishes(ok) => w.(n := DrvDone(w.n, ok), flying := false, heard := false)
    case OnInit => w.(n := DrvInit(w.n), flying := false, heard := false)
    case OnDeinit => w.(n := DrvDeinit(w.n), flying := false, heard := false)
    case OnReset => w.(n := DrvReset(w.n), flying := false, heard := false)
    case OnOpen => w.(n := DrvOpen(w.n))
  }

  function Start(first: Bytes): World { World(INIT, false, false, first, 0, [], []) }

  /** Events the environment cannot produce in a state are skipped. */
  function Run(first: Bytes, es: seq<Event>): World {
    if es == [] then Start(first)
    else
      var w, e := Run(first, es[..|es| - 1]), es[|es| - 1];
      if Allowed(w, e) then Step(w, e) else w
  }

  /** b1 k1 times, b2 k2 times, and so on. */
  function Heard(done: seq<Released>): seq<Bytes> {
    if done == [] then []
    else Heard(done[..|done| - 1]) + Times(done[|done| - 1].batch, done[|done| - 1].copies)
  }

  /** No batch is being presented. */
  predicate Resting(w: World) { w.n.state.Idle? && w.copies == 0 }

  /** A batch under way is bound to the session of the moment and is the caller's batch, byte for byte. */
  predicate Inv(w: World) {
    && WfBatch(w.current)
    && (!w.n.state.Idle? ==> w.n.data == w.current)
    && (w.n.state.Queued? || w.n.state.Submitted? ==> w.n.open && w.n.boundTo == w.n.gen)
    && (w.n.state.Retry? ==> w.n.boundTo == w.n.gen)
    && (w.flying <==> w.n.state.Submitted?)
    && (w.flying && w.heard ==> w.copies >= 1)
    && (w.n.state.Complete? ==> w.copies >= 1)
    && w.host == Heard(w.done) + Times(w.current, w.copies)
    && forall k :: 0 <= k < |w.done| ==> w.done[k].copies >= 1 || w.done[k].dropped
  }

  lemma HeardAppend(done: seq<Released>, r: Released)
    ensures Heard(done + [r]) == Heard(done) + Times(r.batch, r.copies)
  {
    assert (done + [r])[..|done|] == done;
    hide Times;
  }

  /** An offer that is answered by 0 changes the driver's state alone. */
  lemma HoldKeeps(w: World, next: Bytes)
    requires Inv(w) && Send(w.n, w.current).released == 0
    ensures Inv(Step(w, CallSend(next)))
  {
    var n := Send(w.n, w.current).n;
    assert Step(w, CallSend(next)) == w.(n := n);
    assert !n.state.Idle? ==> n.data == w.current;
    hide Heard, Times, Send, Step;
  }

  /** The caller is told that its batch is gone, and presents `next`. */
  function Release(w: World, next: Bytes): World {
    var r := Released(w.current, w.copies, w.n.state.Dropped?);
    w.(n := w.n.(state := Idle, data := []), done := w.done + [r], current := next, copies := 0)
  }

  lemma ReleaseStep(w: World, next: Bytes)
    requires WfBatch(w.current) && w.n.data == w.current && (w.n.state.Complete? || w.n.state.Dropped?)
    ensures Step(w, CallSend(next)) == Release(w, next)
  {}

  lemma ReleaseKeeps(w: World, next: Bytes)
    requires Inv(w) && WfBatch(next) && (w.n.state.Complete? || w.n.state.Dropped?)
    ensures Inv(Release(w, next))
  {
    HeardAppend(w.done, Released(w.current, w.copies, w.n.state.Dropped?));
    assert Times(next, 0) == [];
    hide Heard, Times;
    assert w.host + [] == w.host;
  }

  lemma SendKeeps(w: World, next: Bytes)
    requires Inv(w) && WfBatch(next)
    ensures Inv(Step(w, CallSend(next)))
  {
    hide Heard, Times, Step, Release;
    if w.n.state.Complete? || w.n.state.Dropped? {
      ReleaseStep(w, next);
      ReleaseKeeps(w, next);
    } else {
      HoldKeeps(w, next);
    }
    hide Inv;
  }

  lemma StepKeeps(w: World, e: Event)
    requires Inv(w) && Allowed(w, e)
    ensures Inv(Step(w, e))
  {
    match e
    case CallSend(next) => SendKeeps(w, next);
    case HostReads =>
      assert Heard(w.done) + Times(w.current, w.copies) + [w.current]
          == Heard(w.done) + (Times(w.current, w.copies) + [w.current]);
    case _ =>
  }

  lemma {:induction false} ReachableInv(first: Bytes, es: seq<Event>)
    requires WfBatch(first)
    ensures Inv(Run(first, es))
    decreases |es|
  {
    if es == [] {
      assert Times(first, 0) == [];
      return;
    }
    hide Inv, Step;
    var w, e := Run(first, es[..|es| - 1]), es[|es| - 1];
    ReachableInv(first, es[..|es| - 1]);
    if Allowed(w, e) {
      StepKeeps(w, e);
    }
  }

  /**
   In every run the host sees b1 k1 times, b2 k2 times and so on, then the current
   batch; every batch the caller was released from reached the host at least once
   unless a deinit dropped it, and what is under way is the caller's batch in the
   current session.
   */
  lemma RetainedUntilDelivered(first: Bytes, es: seq<Event>)
    requires WfBatch(first)
    ensures var w := Run(first, es);
            && w.host == Heard(w.done) + Times(w.current, w.copies)
            && (forall k :: 0 <= k < |w.done| ==> w.done[k].copies >= 1 || w.done[k].dropped)
            && (w.n.state.Queued? || w.n.state.Submitted? ==>
                  w.n.open && w.n.boundTo == w.n.gen && w.n.data == w.current)
  {
    ReachableInv(first, es);
    hide Run;
  }

  /** The caller is released only by a completed transfer of its batch or by a deinit that dropped it. */
  lemma ReleasedOnlyWhenDone(first: Bytes, es: seq<Event>)
    requires WfBatch(first)
    ensures var w := Run(first, es);
            && Send(w.n, w.current).released == (if w.n.state.Complete? || w.n.state.Dropped? then |w.current| else 0)
            && (w.n.state.Complete? ==> |w.host| > 0 && w.host[|w.host| - 1] == w.current)
  {
    ReachableInv(first, es);
    hide Run;
  }

  /** A deferred call left over from an earlier session does nothing. */
  lemma StaleDeferredIgnored(n: In, m: In, g: nat, submitted: bool)
    requires m in {DrvInit(n), DrvDeinit(n), DrvReset(n), DrvOpen(n)} && g <= n.gen
    ensures Deferred(m, g, submitted) == m
  {}
}
