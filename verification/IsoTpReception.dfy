/**
 How a reception ends when its consecutive frames stop coming: N_Cr, the receiver's twin of
 module IsoTpTimeout. Polls are at most `d` ms apart; the peer and the application may do
 anything. A poll that finishes or loses the message being sent returns before it looks at the
 receive half, so the bound grows by `d` with each such poll, and no bound exists when their
 number is not limited.
 */
module IsoTpReception {
  import opened Words
  import opened IsoTp
  import opened IsoTpStream
  import opened IsoTpTimeout

  /** A data frame for this link: if the reception goes on after it, it was accepted. */
  predicate DataFrame(l: Link, e: Event) {
    && e.Frame? && e.id == l.rxId && 1 <= |e.bytes| <= CAN_DL
    && (|| PciType(e.bytes[0]) == PCI_CF
        || (PciType(e.bytes[0]) == PCI_FF && |e.bytes| == CAN_DL && FfLength(e.bytes) > SF_MAX_DATA))
  }

  /** A poll at which the message being sent ends, by its last frame or by a failed transmit. */
  predicate ReturnsEarly(l: Link, e: Event) {
    e.Poll? && CfDue(l.tx, e.now) && (!e.ok || l.tx.off + CF_MAX_DATA >= |l.tx.msg|)
  }

  /** The next poll may return early. */
  predicate MayReturn(limit: Option<nat>, early: nat) {
    limit.Some? ==> early < limit.value
  }

  /**
   `es` runs `l`, last polled at `poll` and observed at `t`, to `k` at `end`, reassembling all
   along. The last data frame was taken at `heard`, and `early` polls have returned early since;
   in `k` it was taken at `last`.
   */
  ghost predicate Receiving(l: Link, t: nat, poll: nat, heard: nat, early: nat, limit: Option<nat>, d: nat,
                            es: seq<Timed>, k: Link, end: nat, last: nat)
    decreases |es|
  {
    && LinkInv(l) && l.rx.phase == Recv
    && if es == [] then k == l && end == t && last == heard
       else
         var x := es[0];
         && ClockOk(x) && t <= x.at <= poll + d
         && (ReturnsEarly(l, x.e) ==> MayReturn(limit, early))
         && Receiving(Step(l, x.e).link, x.at, if x.e.Poll? then x.at else poll,
                      if DataFrame(l, x.e) then x.at else heard,
                      if DataFrame(l, x.e) then 0 else if ReturnsEarly(l, x.e) then early + 1 else early,
                      limit, d, es[1..], k, end, last)
  }

  // ---- what one event does --------------------------------------------------

  /** A poll that looks at the receive half keeps the reception before N_Cr and ends it from then on. */
  lemma PollDecides(l: Link, now: u32, ok: bool)
    requires LinkInv(l) && l.rx.phase == Recv
    ensures var e := Event.Poll(now, ok);
            var k := Step(l, e).link;
            if ReturnsEarly(l, e) || Elapsed32(now, l.rx.timer) < l.cfg.nCr then k.rx == l.rx
            else k.rx.phase == Idle && k.rx.complete == l.rx.complete && k.rx.result == Timeout
  {
    assert ReturnsEarly(l, Event.Poll(now, ok)) <==> PollStopsEarly(l.tx, PollTx(l.cfg, l.tx, now, ok), now);
    hide PollTx;
  }

  /** After it nothing but a new first or single frame reaches the receive half. */
  lemma LateFramesIgnored(l: Link, f: Bytes, now: u32, ok: bool)
    requires LinkInv(l) && l.rx.phase == Idle && 1 <= |f| <= CAN_DL && PciType(f[0]) == PCI_CF
    ensures Step(l, Frame(l.rxId, f, now, ok)) == LinkOut(l, [])
  {}

  /** Only an accepted data frame starts N_Cr anew. */
  lemma TimerFollows(l: Link, e: Event)
    requires LinkInv(l) && Step(l, e).link.rx.phase == Recv
    ensures DataFrame(l, e) ==> Step(l, e).link.rx.timer == e.now
    ensures !DataFrame(l, e) ==> l.rx.phase == Recv && Step(l, e).link.rx.timer == l.rx.timer
  {
    match e
    case Send(_, _, _) =>
    case Poll(now, ok) => PollTimer(l, now, ok);
    case Frame(id, bytes, now, ok) => FrameTimer(l, id, bytes, now, ok);
    case Collect(_) =>
    hide Step, DataFrame;
  }

  lemma PollTimer(l: Link, now: u32, ok: bool)
    requires LinkInv(l)
    ensures var k := Step(l, Event.Poll(now, ok)).link;
            k.rx.phase == Recv ==> l.rx.phase == Recv && k.rx.timer == l.rx.timer
  {
    hide PollTx;
  }

  lemma FrameTimer(l: Link, id: u32, f: Bytes, now: u32, ok: bool)
    requires LinkInv(l)
    ensures var e := Frame(id, f, now, ok);
            var k := Step(l, e).link;
            k.rx.phase == Recv ==>
              if DataFrame(l, e) then k.rx.timer == now else l.rx.phase == Recv && k.rx.timer == l.rx.timer
  {
    hide Blit, FcFrame, HandleFc;
  }

  // ---- the bound ------------------------------------------------------------

  /** The latest time at which a reception can still be observed, after `early` polls that returned early. */
  function Patience(cfg: Cfg, early: nat, d: nat): nat {
    cfg.nCr + (early + 1) * d
  }

  lemma PatienceStep(cfg: Cfg, early: nat, n: nat, d: nat)
    requires early <= n
    ensures Patience(cfg, early + 1, d) == Patience(cfg, early, d) + d
    ensures Patience(cfg, early, d) <= Patience(cfg, n, d)
    ensures Patience(cfg, early, d) >= cfg.nCr + d
  {
    MulMonotone(d, early + 1, n + 1);
    assert (early + 2) * d == (early + 1) * d + d;
    MulMonotone(d, 1, early + 1);
  }

  /** Where a reception stands in time. */
  predicate Timely(l: Link, t: nat, poll: nat, heard: nat, early: nat, d: nat) {
    && l.cfg.nCr > 0 && l.rx.timer == heard % TWO_32 && heard <= t && poll <= t <= poll + d
    && poll + d < heard + Patience(l.cfg, early, d)
  }

  lemma EventTimely(l: Link, t: nat, poll: nat, heard: nat, early: nat, n: nat, d: nat, x: Timed)
    requires LinkInv(l) && l.rx.phase == Recv && Timely(l, t, poll, heard, early, d)
    requires early <= n && Patience(l.cfg, n, d) <= TWO_32
    requires ClockOk(x) && t <= x.at <= poll + d && (ReturnsEarly(l, x.e) ==> early < n)
    requires Step(l, x.e).link.rx.phase == Recv
    ensures var data, back := DataFrame(l, x.e), ReturnsEarly(l, x.e);
            Timely(Step(l, x.e).link, x.at, if x.e.Poll? then x.at else poll, if data then x.at else heard,
                   if data then 0 else if back then early + 1 else early, d)
  {
    TimerFollows(l, x.e);
    PatienceStep(l.cfg, early, n, d);
    PatienceStep(l.cfg, 0, n, d);
    if x.e.Poll? {
      assert x.at < heard + TWO_32;
      TrueElapsed(x.at, heard);
      PollDecides(l, x.e.now, x.e.ok);
      assert !ReturnsEarly(l, x.e) ==> x.at - heard < l.cfg.nCr;
    }
    assert Step(l, x.e).link.cfg == l.cfg;
    hide Step, Patience, ReturnsEarly, LinkInv, Elapsed32;
  }

  lemma {:induction false} BoundedReception(l: Link, t: nat, poll: nat, heard: nat, early: nat, n: nat, d: nat,
                                           es: seq<Timed>, k: Link, end: nat, last: nat)
    requires Receiving(l, t, poll, heard, early, Some(n), d, es, k, end, last)
    requires Timely(l, t, poll, heard, early, d) && early <= n && Patience(l.cfg, n, d) <= TWO_32
    ensures end < last + Patience(l.cfg, n, d)
    decreases |es|
  {
    hide Step, DataFrame, ReturnsEarly, Patience, LinkInv, ClockOk;
    PatienceStep(l.cfg, early, n, d);
    if es != [] {
      var x := es[0];
      ReceivingNow(Step(l, x.e).link, es[1..], k);
      EventTimely(l, t, poll, heard, early, n, d, x);
      BoundedReception(Step(l, x.e).link, x.at, if x.e.Poll? then x.at else poll,
                       if DataFrame(l, x.e) then x.at else heard,
                       if DataFrame(l, x.e) then 0 else if ReturnsEarly(l, x.e) then early + 1 else early,
                       n, d, es[1..], k, end, last);
    }
  }

  lemma ReceivingNow(l: Link, es: seq<Timed>, k: Link)
    ensures forall t, poll, heard, early, limit, d, end, last ::
              Receiving(l, t, poll, heard, early, limit, d, es, k, end, last) ==> LinkInv(l) && l.rx.phase == Recv
  {}

  /**
   Whatever the peer does: a reception that an accepted frame `x` has started or continued is
   observed for less than N_Cr + (n+1) * d ms after the last data frame it took, when at most `n`
   polls since then returned early; so for less than N_Cr + d ms when none did.
   */
  lemma EveryReceptionEnds(l: Link, x: Timed, poll: nat, n: nat, d: nat, es: seq<Timed>, k: Link, end: nat, last: nat)
    requires LinkInv(l) && ClockOk(x) && DataFrame(l, x.e) && poll <= x.at <= poll + d
    requires l.cfg.nCr > 0 && l.cfg.nCr + (n + 1) * d <= TWO_32
    requires Receiving(Step(l, x.e).link, x.at, poll, x.at, 0, Some(n), d, es, k, end, last)
    ensures end < last + l.cfg.nCr + (n + 1) * d
  {
    TimerFollows(l, x.e);
    PatienceStep(l.cfg, 0, n, d);
    BoundedReception(Step(l, x.e).link, x.at, poll, x.at, 0, n, d, es, k, end, last);
    hide Step, Receiving, DataFrame;
  }

  // ---- without a limit there is no bound ------------------------------------

  const EIGHT: Bytes := [0, 0, 0, 0, 0, 0, 0, 0]

  /** Once every ms, `n` times: eight bytes are sent, granted, and their last frame goes out with the poll. */
  function Chatter(id: u32, t: nat, n: nat): seq<Timed>
    decreases n
  {
    if n == 0 then []
    else
      var now: u32 := t % TWO_32;
      [Timed(t, Send(EIGHT, now, true)), Timed(t, Frame(id, [0x30], now, true)), Timed(t, Event.Poll(now, true))]
      + Chatter(id, t + 1, n - 1)
  }

  /** One such exchange: the receive half never notices. */
  lemma ChatterRound(l: Link, now: u32)
    requires LinkInv(l) && l.tx.phase == Idle
    ensures var a := Step(l, Send(EIGHT, now, true)).link;
            var b := Step(a, Frame(l.rxId, [0x30], now, true)).link;
            var e := Event.Poll(now, true);
            var c := Step(b, e).link;
            && a == l.(tx := a.tx) && b == l.(tx := b.tx) && c == l.(tx := c.tx) && c.tx.phase == Idle
            && a.tx.phase == WaitFc && b.tx.phase == Sending && ReturnsEarly(b, e)
  {
    var a := Step(l, Send(EIGHT, now, true)).link;
    assert a.tx == l.tx.(phase := WaitFc, msg := EIGHT, off := FF_FIRST_DATA, sn := 1, wft := 0, timer := now);
    var b := Step(a, Frame(l.rxId, [0x30], now, true)).link;
    assert b.tx == a.tx.(bsLeft := 0, stmin := 0, wft := 0, phase := Sending, stTimer := now);
    assert Elapsed32(now, now) == 0;
    hide FfFrame, CfFrame;
  }

  /** The three events of a round, ahead of a run that goes on receiving. */
  lemma ThreeEvents(l: Link, t: nat, poll: nat, heard: nat, early: nat, d: nat, rest: seq<Timed>, k: Link, end: nat)
    requires LinkInv(l) && l.tx.phase == Idle && l.rx.phase == Recv && poll <= t <= poll + d
    requires var now: u32 := t % TWO_32;
             var a := Step(l, Send(EIGHT, now, true)).link;
             var b := Step(a, Frame(l.rxId, [0x30], now, true)).link;
             Receiving(Step(b, Event.Poll(now, true)).link, t, t, heard, early + 1, None, d, rest, k, end, heard)
    ensures var now: u32 := t % TWO_32;
            Receiving(l, t, poll, heard, early, None, d,
                      [Timed(t, Send(EIGHT, now, true)), Timed(t, Frame(l.rxId, [0x30], now, true)),
                       Timed(t, Event.Poll(now, true))] + rest, k, end, heard)
  {
    var now: u32 := t % TWO_32;
    ChatterRound(l, now);
    var x, y, z := Timed(t, Send(EIGHT, now, true)), Timed(t, Frame(l.rxId, [0x30], now, true)),
                   Timed(t, Event.Poll(now, true));
    var a := Step(l, x.e).link;
    var b := Step(a, y.e).link;
    assert !DataFrame(l, x.e) && !DataFrame(a, y.e) && !DataFrame(b, z.e) && ReturnsEarly(b, z.e);
    hide Step, DataFrame, ReturnsEarly;
    var es := [x, y, z] + rest;
    assert es[1..] == [y, z] + rest && es[1..][1..] == [z] + rest && es[1..][1..][1..] == rest;
    assert Receiving(b, t, poll, heard, early, None, d, [z] + rest, k, end, heard);
    assert Receiving(a, t, poll, heard, early, None, d, [y, z] + rest, k, end, heard);
  }

  lemma {:induction false} ChatterNeverEnds(l: Link, t: nat, poll: nat, heard: nat, early: nat, d: nat, n: nat)
    returns (k: Link)
    requires LinkInv(l) && l.tx.phase == Idle && l.rx.phase == Recv && d >= 1 && poll <= t <= poll + d
    ensures Receiving(l, t, poll, heard, early, None, d, Chatter(l.rxId, t, n), k,
                      if n == 0 then t else t + n - 1, heard)
    decreases n
  {
    hide Step, LinkInv, DataFrame, ReturnsEarly;
    if n == 0 {
      k := l;
      return;
    }
    var now: u32, rest := t % TWO_32, Chatter(l.rxId, t + 1, n - 1);
    ChatterRound(l, now);
    var a := Step(l, Send(EIGHT, now, true)).link;
    var b := Step(a, Frame(l.rxId, [0x30], now, true)).link;
    var c := Step(b, Event.Poll(now, true)).link;
    if n == 1 {
      k := c;
    } else {
      k := ChatterNeverEnds(c, t + 1, t, heard, early + 1, d, n - 1);
      Sooner(c, t, t + 1, t, heard, early + 1, d, rest, k, t + n - 1);
    }
    ThreeEvents(l, t, poll, heard, early, d, rest, k, t + n - 1);
  }

  /** A run that starts later than it could. */
  lemma Sooner(l: Link, t: nat, u: nat, poll: nat, heard: nat, early: nat, d: nat, es: seq<Timed>, k: Link, end: nat)
    requires t <= u && es != [] && Receiving(l, u, poll, heard, early, None, d, es, k, end, heard)
    ensures Receiving(l, t, poll, heard, early, None, d, es, k, end, heard)
  {
    hide Step, DataFrame, ReturnsEarly;
  }

  /** However peer and application behave, the reception is over `bound` ms after its last data frame. */
  ghost predicate ReceptionEndsWithin(l: Link, t: nat, poll: nat, limit: Option<nat>, d: nat, bound: nat) {
    forall es: seq<Timed>, k: Link, end: nat, last: nat ::
      Receiving(l, t, poll, t, 0, limit, d, es, k, end, last) ==> end <= last + bound
  }

  /** A bound exists exactly when the polls that return early after a data frame are limited in number. */
  lemma ReceptionsEndIffLimited(l: Link, x: Timed, poll: nat, limit: Option<nat>, d: nat)
    requires LinkInv(l) && ClockOk(x) && DataFrame(l, x.e) && poll <= x.at <= poll + d && d >= 1
    requires l.tx.phase == Idle && Step(l, x.e).link.rx.phase == Recv
    requires l.cfg.nCr > 0 && (limit.Some? ==> l.cfg.nCr + (limit.value + 1) * d <= TWO_32)
    ensures (exists bound: nat :: ReceptionEndsWithin(Step(l, x.e).link, x.at, poll, limit, d, bound)) <==> limit.Some?
  {
    var s := Step(l, x.e).link;
    if limit.Some? {
      var bound: nat := l.cfg.nCr + (limit.value + 1) * d;
      forall es: seq<Timed>, k: Link, end: nat, last: nat |
        Receiving(s, x.at, poll, x.at, 0, limit, d, es, k, end, last)
        ensures end <= last + bound
      {
        EveryReceptionEnds(l, x, poll, limit.value, d, es, k, end, last);
      }
      assert ReceptionEndsWithin(s, x.at, poll, limit, d, bound);
    } else {
      StillIdle(l, x.e);
      forall bound: nat ensures !ReceptionEndsWithin(s, x.at, poll, limit, d, bound) {
        var k := ChatterNeverEnds(s, x.at, poll, x.at, 0, d, bound + 2);
      }
    }
  }

  lemma StillIdle(l: Link, e: Event)
    requires LinkInv(l) && DataFrame(l, e) && l.tx.phase == Idle
    ensures Step(l, e).link.tx == l.tx
  {
    hide HandleFf, HandleCf;
  }
}
