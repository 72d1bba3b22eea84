/**
 Delivery completed. In a run without timeouts every message arrives as soon as both
 links have been served often enough; and such a run can be continued to that point
 from everywhere exactly when one of the links waits longer for a consecutive frame
 than the separation time its peer asks of it.
 */
module IsoTpLiveness {
  import opened Words
  import opened IsoTp
  import opened IsoTpStream
  import opened IsoTpLoss
  import opened IsoTpDelivery
  import opened IsoTpDuplex

  /** Everything sent was handed up, each message with its number of flow controls. */
  predicate AllGot(h: Hist, bs: byte) {
    |h.got| == |h.sent| && forall i | 0 <= i < |h.sent| :: h.got[i] == Receipt(h.sent[i], GrantsFor(bs, |h.sent[i]|))
  }

  predicate Delivered(s: Sys) {
    s.a.tx.phase == Idle && s.b.tx.phase == Idle && AllGot(s.fromA, s.b.cfg.bs) && AllGot(s.fromB, s.a.cfg.bs)
  }

  predicate NoSends(es: seq<SysEvent>) { forall e | e in es :: !e.act.SendMsg? }

  /** The system as the link of `e` sees it. */
  function View(s: Sys, e: SysEvent): Sys {
    if e.side == A then s else Swap(s)
  }

  lemma NoWorkDelivered(s: Sys)
    requires SysInv(s) && SysWork(s) == 0
    ensures Delivered(s)
  {
    AllDelivered(s);
    DeliveredArePrefix(Forward(s));
    DeliveredArePrefix(Backward(s));
    hide DirInv;
  }

  lemma SwapKeeps(s: Sys)
    requires SysInv(s)
    ensures SysInv(Swap(s)) && Swap(Swap(s)) == s && SysWork(Swap(s)) == SysWork(s)
  {
    hide DirInv, Work;
  }

  /** Without a send neither the messages sent nor the configurations change. */
  lemma StepStays(s: Sys, e: SysEvent)
    requires SysInv(s) && CanAct(View(s, e), e.act)
    ensures var k := SysStep(s, e);
            && (k.a.cfg, k.b.cfg) == (s.a.cfg, s.b.cfg)
            && (!e.act.SendMsg? ==> (k.fromA.sent, k.fromB.sent) == (s.fromA.sent, s.fromB.sent))
  {
    LinksOk(s);
    var v := View(s, e);
    ActStays(v, e.act);
    hide DirInv, Act1;
  }

  lemma ActStays(v: Sys, act: Act)
    requires LinkInv(v.a) && CanAct(v, act)
    ensures var k := Act1(v, act);
            && k.a.cfg == v.a.cfg && k.b == v.b
            && (!act.SendMsg? ==> (k.fromA.sent, k.fromB.sent) == (v.fromA.sent, v.fromB.sent))
  {
    hide Step, Receive;
  }

  lemma {:induction false} RunStays(s: Sys, es: seq<SysEvent>, k: Sys, n: nat)
    requires SysInv(s) && Reaches(s, es, k, n)
    ensures SysInv(k) && (k.a.cfg, k.b.cfg) == (s.a.cfg, s.b.cfg)
    ensures NoSends(es) ==> (k.fromA.sent, k.fromB.sent) == (s.fromA.sent, s.fromB.sent)
    decreases |es|
  {
    hide DirInv, SysStep, CanAct, Productive, SysWork;
    if es != [] {
      StepKeeps(s, es[0]);
      StepStays(s, es[0]);
      RunStays(SysStep(s, es[0]), es[1..], k, n - if Productive(View(s, es[0]), es[0].act) then 1 else 0);
    }
  }

  // ---- every run that serves both links delivers ----------------------------

  /**
   Within `es`, link `a` collects what is complete, takes a frame if one waits, and
   polls, if it is sending, at a time when the separation time is over.
   */
  ghost predicate ServesA(s: Sys, side: Side, es: seq<SysEvent>) {
    && (s.a.rx.complete ==> On(side, CollectMsg) in es)
    && (!s.a.rx.complete && s.ba != [] ==> exists now: u32 :: On(side, TakeFrame(now)) in es)
    && (s.a.tx.phase == Sending ==> exists now: u32 :: CfDue(s.a.tx, now) && On(side, PollNow(now)) in es)
  }

  ghost predicate Serves(s: Sys, es: seq<SysEvent>) {
    ServesA(s, A, es) && ServesA(Swap(s), B, es)
  }

  /** An event that would move a message forward now: by the time it has happened, some event has. */
  lemma {:induction false} SomeEventWorks(s: Sys, es: seq<SysEvent>, k: Sys, n: nat, e: SysEvent)
    requires SysInv(s) && Reaches(s, es, k, n) && NoSends(es) && e in es && Productive(View(s, e), e.act)
    ensures n >= 1
    decreases |es|
  {
    hide DirInv, SysStep, CanAct, Productive;
    if !Productive(View(s, es[0]), es[0].act) {
      StepKeeps(s, es[0]);
      assert SysStep(s, es[0]) == s;
      SomeEventWorks(s, es[1..], k, n, e);
    }
  }

  lemma ServedRoundWorks(s: Sys, es: seq<SysEvent>, k: Sys, n: nat)
    requires SysInv(s) && Reaches(s, es, k, n) && NoSends(es) && Serves(s, es) && SysWork(s) > 0
    ensures n >= 1
  {
    SomethingUnderWay(s);
    var e := UsefulEvent(s, es);
    hide DirInv, Serves, Productive, Reaches;
    SomeEventWorks(s, es, k, n, e);
  }

  lemma UsefulEvent(s: Sys, es: seq<SysEvent>) returns (e: SysEvent)
    requires Serves(s, es)
    requires || s.a.rx.complete || s.b.rx.complete || s.ab != [] || s.ba != []
             || s.a.tx.phase == Sending || s.b.tx.phase == Sending
    ensures e in es && Productive(View(s, e), e.act)
  {
    if s.a.rx.complete {
      e := On(A, CollectMsg);
    } else if s.b.rx.complete {
      e := On(B, CollectMsg);
    } else if s.ba != [] {
      var now: u32 :| On(A, TakeFrame(now)) in es;
      e := On(A, TakeFrame(now));
    } else if s.ab != [] {
      var now: u32 :| On(B, TakeFrame(now)) in es;
      e := On(B, TakeFrame(now));
    } else if s.a.tx.phase == Sending {
      var now: u32 :| CfDue(s.a.tx, now) && On(A, PollNow(now)) in es;
      e := On(A, PollNow(now));
    } else {
      var now: u32 :| CfDue(s.b.tx, now) && On(B, PollNow(now)) in es;
      e := On(B, PollNow(now));
    }
  }

  /** A run without sends, cut into rounds that each serve both links. */
  ghost predicate Rounds(s: Sys, rounds: seq<seq<SysEvent>>, k: Sys)
    decreases |rounds|
  {
    if rounds == [] then k == s
    else
      && NoSends(rounds[0]) && Serves(s, rounds[0])
      && exists m: Sys, n: nat :: Reaches(s, rounds[0], m, n) && Rounds(m, rounds[1..], k)
  }

  lemma {:induction false} RoundsDeliver(s: Sys, rounds: seq<seq<SysEvent>>, k: Sys)
    requires SysInv(s) && Rounds(s, rounds, k) && |rounds| >= SysWork(s)
    ensures SysInv(k) && SysWork(k) == 0
    ensures (k.fromA.sent, k.fromB.sent) == (s.fromA.sent, s.fromB.sent)
    decreases |rounds|
  {
    hide DirInv, Serves, SysWork;
    LinksOk(s);
    if rounds != [] {
      var m: Sys, n: nat :| Reaches(s, rounds[0], m, n) && Rounds(m, rounds[1..], k);
      RunStays(s, rounds[0], m, n);
      ProgressIsBounded(s, rounds[0], m, n);
      if SysWork(s) > 0 {
        ServedRoundWorks(s, rounds[0], m, n);
      }
      RoundsDeliver(m, rounds[1..], k);
    }
  }

  /**
   From every reachable state, as many rounds as there is work left hand up every
   message sent, in both directions, and leave both senders idle: for every bs,
   STmin and pad byte, whatever else happens within a round.
   */
  lemma EveryMessageArrives(z: Sys, es: seq<SysEvent>, s: Sys, n: nat, rounds: seq<seq<SysEvent>>, k: Sys)
    requires Start(z) && Reaches(z, es, s, n) && Rounds(s, rounds, k)
    ensures SysInv(s)
    ensures |rounds| >= SysWork(s) ==> Delivered(k) && (k.fromA.sent, k.fromB.sent) == (s.fromA.sent, s.fromB.sent)
  {
    hide DirInv, Delivered, Rounds, SysWork;
    StartInv(z);
    RunStays(z, es, s, n);
    LinksOk(s);
    if |rounds| >= SysWork(s) {
      RoundsDeliver(s, rounds, k);
      NoWorkDelivered(k);
    }
  }

  /**
   Each message of 1 to 4095 bytes handed to an idle link, in any reachable state, is handed up by
   the other link as the next of this direction once both have been served often enough.
   */
  lemma SentMessageArrives(z: Sys, es: seq<SysEvent>, s: Sys, n: nat, side: Side, m: Bytes, now: u32,
                           y: Sys, p: nat, rounds: seq<seq<SysEvent>>, k: Sys)
    requires Start(z) && Reaches(z, es, s, n) && Reaches(s, [On(side, SendMsg(m, now))], y, p) && Rounds(y, rounds, k)
    requires View(s, On(side, SendMsg(m, now))).a.tx.phase == Idle && Sendable(m)
    ensures SysInv(y)
    ensures var e := On(side, SendMsg(m, now));
            var h, v := View(s, e).fromA, View(k, e);
            |rounds| >= SysWork(y) ==>
              && v.fromA.sent == h.sent + [m] && v.a.tx.phase == Idle
              && |v.fromA.got| == |h.sent| + 1
              && v.fromA.got[|h.sent|] == Receipt(m, GrantsFor(v.b.cfg.bs, |m|))
  {
    hide DirInv, Rounds, SysWork, SysStep, Reaches;
    var e := On(side, SendMsg(m, now));
    StartInv(z);
    RunStays(z, es, s, n);
    RunStays(s, [e], y, p);
    OneStep(s, e, y, p);
    SwapKeeps(s);
    SendJoins(View(s, e), m, now);
    LinksOk(y);
    if |rounds| >= SysWork(y) {
      RoundsDeliver(y, rounds, k);
      NoWorkDelivered(k);
    }
    SentBy(s, e);
    hide SysInv;
  }

  /** What the link of `e` has sent after its send. */
  lemma SentBy(s: Sys, e: SysEvent)
    requires LinkInv(s.a) && LinkInv(s.b) && e.act.SendMsg?
    ensures View(SysStep(s, e), e).fromA.sent == Act1(View(s, e), e.act).fromA.sent
  {
    hide Act1, LinkInv;
  }

  lemma OneStep(s: Sys, e: SysEvent, y: Sys, p: nat)
    requires Reaches(s, [e], y, p)
    ensures LinkInv(s.a) && LinkInv(s.b) && CanAct(View(s, e), e.act) && y == SysStep(s, e)
  {
    hide SysStep, LinkInv, Productive;
    assert [e][1..] == [];
  }

  // ---- when a run can always be continued to delivery -----------------------

  /** One link's N_Cr exceeds the separation time its peer asks of it. */
  predicate TimersFit(ca: Cfg, cb: Cfg) {
    ca.nCr > StminToMs(cb.stmin) || cb.nCr > StminToMs(ca.stmin)
  }

  /** A reading within `limit` of `rx` and at least `gap` after `st`. */
  lemma Window(st: u32, rx: u32, gap: u32, limit: u32) returns (now: u32)
    requires gap < limit
    ensures Elapsed32(now, rx) < limit && Elapsed32(now, st) >= gap
  {
    now := if Elapsed32(rx, st) >= gap then rx else (st + gap) % TWO_32;
  }

  /** Something to collect or to take can be taken at any time. */
  lemma WaitingEvent(s: Sys) returns (e: SysEvent)
    requires s.a.rx.complete || s.b.rx.complete || s.ab != [] || s.ba != []
    ensures !e.act.SendMsg? && CanAct(View(s, e), e.act) && Productive(View(s, e), e.act)
  {
    if s.a.rx.complete {
      e := On(A, CollectMsg);
    } else if s.b.rx.complete {
      e := On(B, CollectMsg);
    } else if s.ba != [] {
      e := On(A, TakeFrame(0));
    } else {
      e := On(B, TakeFrame(0));
    }
  }

  lemma ProductiveEvent(s: Sys) returns (e: SysEvent)
    requires SysInv(s) && SysWork(s) > 0 && s.a.cfg.nCr > StminToMs(s.b.cfg.stmin)
    ensures !e.act.SendMsg? && CanAct(View(s, e), e.act) && Productive(View(s, e), e.act)
  {
    SomethingUnderWay(s);
    hide SysWork;
    if s.a.rx.complete || s.b.rx.complete || s.ab != [] || s.ba != [] {
      e := WaitingEvent(s);
    } else if s.a.tx.phase == Sending {
      var act := PacedPoll(s);
      e := On(A, act);
    } else {
      var act := FreePoll(s);
      e := On(B, act);
    }
    hide DirInv;
  }

  lemma PacedPoll(s: Sys) returns (act: Act)
    requires SysInv(s) && s.a.tx.phase == Sending && s.a.cfg.nCr > StminToMs(s.b.cfg.stmin)
    ensures act.PollNow? && CanAct(s, act) && Productive(s, act)
  {
    assert s.a.tx.stmin == s.b.cfg.stmin;
    hide DirInv;
    var now := Window(s.a.tx.stTimer, s.a.rx.timer, StminToMs(s.a.tx.stmin), s.a.cfg.nCr);
    act := PollNow(now);
  }

  /** With nothing from an idle `a` under way, `b` receives nothing that could time out. */
  lemma FreePoll(s: Sys) returns (act: Act)
    requires SysInv(s) && s.ab == [] && s.ba == [] && !s.b.rx.complete
    requires s.a.tx.phase != Sending && s.b.tx.phase == Sending
    ensures act.PollNow? && CanAct(Swap(s), act) && Productive(Swap(s), act)
  {
    hide DirInv;
    QueueLength(s.ab);
    QueueLength(s.ba);
    NeverStuck(Forward(s));
    assert s.b.rx.phase == Idle;
    var now: u32 := (s.b.tx.stTimer + StminToMs(s.b.tx.stmin)) % TWO_32;
    act := PollNow(now);
  }

  /** While work is left, some event moves a message forward without a timeout. */
  lemma NeverDeadlocked(s: Sys) returns (e: SysEvent)
    requires SysInv(s) && SysWork(s) > 0 && TimersFit(s.a.cfg, s.b.cfg)
    ensures !e.act.SendMsg? && CanAct(View(s, e), e.act) && Productive(View(s, e), e.act)
  {
    hide DirInv, SysWork, CanAct, Productive;
    if s.a.cfg.nCr > StminToMs(s.b.cfg.stmin) {
      e := ProductiveEvent(s);
    } else {
      SwapKeeps(s);
      var f := ProductiveEvent(Swap(s));
      e := f.(side := if f.side == A then B else A);
      assert View(s, e) == View(Swap(s), f);
    }
  }

  lemma {:induction false} Finish(s: Sys) returns (es: seq<SysEvent>, k: Sys, n: nat)
    requires SysInv(s) && TimersFit(s.a.cfg, s.b.cfg)
    ensures NoSends(es) && Reaches(s, es, k, n) && SysInv(k) && SysWork(k) == 0
    decreases SysWork(s)
  {
    hide DirInv, SysWork, CanAct, Productive, SysStep;
    LinksOk(s);
    if SysWork(s) == 0 {
      es, k, n := [], s, 0;
    } else {
      var e := NeverDeadlocked(s);
      StepKeeps(s, e);
      StepStays(s, e);
      var rest;
      rest, k, n := Finish(SysStep(s, e));
      es, n := [e] + rest, n + 1;
      assert es[1..] == rest;
    }
  }

  /**
   Some continuation without sends and without timeouts, at clock readings free to
   choose, delivers everything. Module IsoTpTimely is about links served in true time.
   */
  ghost predicate CanFinish(s: Sys) {
    exists es: seq<SysEvent>, k: Sys, n: nat :: NoSends(es) && Reaches(s, es, k, n) && Delivered(k)
  }

  /** Two links so configured never run into a state they cannot finish from without a timeout. */
  ghost predicate AlwaysFinishes(ca: Cfg, cb: Cfg) {
    forall z: Sys, es: seq<SysEvent>, s: Sys, n: nat ::
      Start(z) && z.a.cfg == ca && z.b.cfg == cb && Reaches(z, es, s, n) ==> CanFinish(s)
  }

  lemma AlwaysFinishesIff(ca: Cfg, cb: Cfg)
    ensures AlwaysFinishes(ca, cb) <==> TimersFit(ca, cb)
  {
    hide DirInv, Reaches, Start, SysWork, CanFinish, Delivered, TimersFit;
    if TimersFit(ca, cb) {
      forall z: Sys, es: seq<SysEvent>, s: Sys, n: nat
        | Start(z) && z.a.cfg == ca && z.b.cfg == cb && Reaches(z, es, s, n)
        ensures CanFinish(s)
      {
        StartInv(z);
        RunStays(z, es, s, n);
        FitFinishes(s);
      }
    } else {
      var z, es, s, n := StuckRun(ca, cb);
      StuckNeverFinishes(s);
    }
  }

  lemma FitFinishes(s: Sys)
    requires SysInv(s) && TimersFit(s.a.cfg, s.b.cfg)
    ensures CanFinish(s)
  {
    var fs, k, m := Finish(s);
    NoWorkDelivered(k);
    hide DirInv;
  }

  // ---- the stuck state ------------------------------------------------------

  /** More than one frame to send, and the separation time no shorter than N_Cr, which both count from time 0. */
  predicate Blocked(l: Link) {
    && l.tx.phase == Sending && l.tx.stTimer == 0 && l.tx.off + CF_MAX_DATA < |l.tx.msg|
    && l.rx.phase == Recv && l.rx.timer == 0 && !l.rx.complete
    && l.cfg.nCr <= StminToMs(l.tx.stmin)
  }

  predicate Stuck(s: Sys) {
    SysInv(s) && s.ab == [] && s.ba == [] && Blocked(s.a) && Blocked(s.b)
  }

  lemma {:induction false} StuckStays(s: Sys, es: seq<SysEvent>, k: Sys, n: nat)
    requires Stuck(s) && NoSends(es) && Reaches(s, es, k, n)
    ensures k == s
    decreases |es|
  {
    if es != [] {
      assert !es[0].act.SendMsg?;
      assert !Productive(View(s, es[0]), es[0].act);
      hide DirInv, SysStep, CanAct, Productive;
      StepKeeps(s, es[0]);
      assert SysStep(s, es[0]) == s;
      StuckStays(s, es[1..], k, n);
    }
  }

  lemma StuckNeverFinishes(s: Sys)
    requires Stuck(s)
    ensures !CanFinish(s)
  {
    if CanFinish(s) {
      var es: seq<SysEvent>, k: Sys, n: nat :| NoSends(es) && Reaches(s, es, k, n) && Delivered(k);
      StuckStays(s, es, k, n);
      assert false;
    }
  }

  const TWENTY: Bytes := [0, 0, 0, 0, 0, 0, 0, 0, 0, 0, 0, 0, 0, 0, 0, 0, 0, 0, 0, 0]

  lemma SendStarts(l: Link, m: Bytes, now: u32)
    requires LinkInv(l) && l.tx.phase == Idle && |m| == 20
    ensures var o := Step(l, Send(m, now, true));
            && o.sent == [FfFrame(l.cfg, m)] && o.link == l.(tx := o.link.tx) && o.link.tx.timer == now
            && o.link.tx.phase == WaitFc && o.link.tx.msg == m && o.link.tx.off == FF_FIRST_DATA
  {}

  lemma FirstFrameStarts(l: Link, cfg: Cfg, m: Bytes, now: u32)
    requires LinkInv(l) && |m| == 20
    ensures var o := Step(l, Frame(l.rxId, FfFrame(cfg, m), now, true));
            && o.sent == [FcFrame(l.cfg, FS_CTS)] && o.link == l.(rx := o.link.rx)
            && o.link.rx.phase == Recv && o.link.rx.timer == now && o.link.rx.complete == l.rx.complete
  {
    FfRoundTrip(cfg, m);
  }

  lemma GrantStarts(l: Link, cfg: Cfg, now: u32)
    requires LinkInv(l) && l.tx.phase == WaitFc
    ensures var o := Step(l, Frame(l.rxId, FcFrame(cfg, FS_CTS), now, true));
            && o.sent == [] && o.link == l.(tx := o.link.tx)
            && o.link.tx == l.tx.(phase := Sending, stTimer := now, bsLeft := cfg.bs, stmin := cfg.stmin, wft := 0)
  {
    FcRoundTrip(cfg);
  }

  lemma {:induction false} OneMore(z: Sys, es: seq<SysEvent>, s: Sys, n: nat, e: SysEvent) returns (m: nat)
    requires SysInv(z) && Reaches(z, es, s, n)
    requires CanAct(View(s, e), e.act)
    ensures SysInv(s) && Reaches(z, es + [e], SysStep(s, e), m)
    decreases |es|
  {
    hide DirInv, SysStep, CanAct, Productive, SysWork;
    LinksOk(z);
    if es == [] {
      m := if Productive(View(s, e), e.act) then 1 else 0;
      assert ([] + [e])[1..] == [];
    } else {
      StepKeeps(z, es[0]);
      var d := if Productive(View(z, es[0]), es[0].act) then 1 else 0;
      m := OneMore(SysStep(z, es[0]), es[1..], s, n - d, e);
      m := m + d;
      assert (es + [e])[1..] == es[1..] + [e];
    }
  }

  lemma SendStage(v: Sys, m: Bytes, now: u32)
    requires LinkInv(v.a) && v.a.tx.phase == Idle && |m| == 20
    ensures var k := Act1(v, SendMsg(m, now));
            && k.b == v.b && k.ba == v.ba && k.a == v.a.(tx := k.a.tx) && k.a.tx.timer == now
            && k.fromA.sent == v.fromA.sent + [m]
            && k.a.tx.phase == WaitFc && k.a.tx.msg == m && k.a.tx.off == FF_FIRST_DATA
            && |k.ab| == |v.ab| + 1 && k.ab[..|v.ab|] == v.ab
            && k.ab[|v.ab|].Data? && k.ab[|v.ab|].x.bytes == FfFrame(v.a.cfg, m)
  {
    SendStarts(v.a, m, now);
    hide Step, FfFrame;
  }

  lemma TakeFirstStage(v: Sys, cfg: Cfg, m: Bytes, now: u32)
    requires LinkInv(v.a) && |m| == 20 && !v.a.rx.complete && v.a.rxId == v.b.txId
    requires v.ba != [] && v.ba[0].Data? && v.ba[0].x.bytes == FfFrame(cfg, m)
    ensures var k := Act1(v, TakeFrame(now));
            && k.b == v.b && k.ba == v.ba[1..] && k.ab == v.ab + [Fc(FcFrame(v.a.cfg, FS_CTS))]
            && k.a == v.a.(rx := k.a.rx) && k.a.rx.phase == Recv && k.a.rx.timer == now && !k.a.rx.complete
  {
    FirstFrameStarts(v.a, cfg, m, now);
    hide Step, FfFrame, FcFrame;
  }

  lemma TakeGrantStage(v: Sys, cfg: Cfg, now: u32)
    requires LinkInv(v.a) && v.a.tx.phase == WaitFc && !v.a.rx.complete && v.a.rxId == v.b.txId
    requires v.ba != [] && v.ba[0] == Fc(FcFrame(cfg, FS_CTS))
    ensures var k := Act1(v, TakeFrame(now));
            && k.b == v.b && k.ba == v.ba[1..] && k.ab == v.ab && k.a == v.a.(tx := k.a.tx)
            && k.a.tx == v.a.tx.(phase := Sending, stTimer := now, bsLeft := cfg.bs, stmin := cfg.stmin, wft := 0)
  {
    GrantStarts(v.a, cfg, now);
    hide Step, FcFrame;
  }

  /** One more event of either link, with the invariant. */
  lemma Next(z: Sys, es: seq<SysEvent>, s: Sys, n: nat, e: SysEvent) returns (fs: seq<SysEvent>, k: Sys, m: nat)
    requires SysInv(z) && Reaches(z, es, s, n) && CanAct(View(s, e), e.act)
    ensures SysInv(s) && k == SysStep(s, e) && Reaches(z, fs, k, m) && SysInv(k)
    ensures k == if e.side == A then Act1(s, e.act) else Swap(Act1(Swap(s), e.act))
  {
    m := OneMore(z, es, s, n, e);
    fs, k := es + [e], SysStep(s, e);
    hide DirInv;
    RunStays(z, fs, k, m);
  }

  /** Both links send twenty bytes at time 0, take each other's first frames and then each other's grants. */
  lemma StuckRun(ca: Cfg, cb: Cfg) returns (z: Sys, es: seq<SysEvent>, s: Sys, n: nat)
    requires !TimersFit(ca, cb)
    ensures Start(z) && z.a.cfg == ca && z.b.cfg == cb && Reaches(z, es, s, n) && Stuck(s)
  {
    var a, b := Link(1, 2, NO_FUNC_ID, ca, InitTx(), InitRx()), Link(2, 1, NO_FUNC_ID, cb, InitTx(), InitRx());
    var h := Hist([], Pos(-1, 0), 0, []);
    z := Sys(a, b, [], [], h, h);
    StartInv(z);
    hide DirInv, Act1, SysStep, Reaches, FfFrame, FcFrame, LinkInv;
    es, s, n := BothSend(z, TWENTY);
    es, s, n := BothTakeFirst(z, es, s, n, TWENTY);
    es, s, n := BothTakeGrant(z, es, s, n);
  }

  predicate Posted(q: seq<Wire>, cfg: Cfg, m: Bytes)
    requires |m| == 20
  {
    q != [] && q[0].Data? && q[0].x.bytes == FfFrame(cfg, m)
  }

  predicate FirstOut(t: Tx) {
    t.phase == WaitFc && |t.msg| == 20 && t.off == FF_FIRST_DATA
  }

  lemma BothSend(z: Sys, m: Bytes) returns (es: seq<SysEvent>, s: Sys, n: nat)
    requires Start(z) && SysInv(z) && |m| == 20
    ensures Reaches(z, es, s, n) && SysInv(s) && (s.a.cfg, s.b.cfg) == (z.a.cfg, z.b.cfg)
    ensures !s.a.rx.complete && !s.b.rx.complete && FirstOut(s.a.tx) && FirstOut(s.b.tx)
    ensures Posted(s.ab, s.a.cfg, m) && |s.ab| == 1 && Posted(s.ba, s.b.cfg, m) && |s.ba| == 1
  {
    LinksOk(z);
    SendStage(z, m, 0);
    assert Reaches(z, [], z, 0);
    hide DirInv, Act1, SysStep, Reaches, FfFrame, LinkInv;
    es, s, n := Next(z, [], z, 0, On(A, SendMsg(m, 0)));
    LinksOk(s);
    SendStage(Swap(s), m, 0);
    es, s, n := Next(z, es, s, n, On(B, SendMsg(m, 0)));
  }

  lemma BothTakeFirst(z: Sys, es: seq<SysEvent>, s: Sys, n: nat, m: Bytes)
    returns (fs: seq<SysEvent>, k: Sys, p: nat)
    requires SysInv(z) && Reaches(z, es, s, n) && SysInv(s) && |m| == 20
    requires !s.a.rx.complete && !s.b.rx.complete && FirstOut(s.a.tx) && FirstOut(s.b.tx)
    requires Posted(s.ab, s.a.cfg, m) && |s.ab| == 1 && Posted(s.ba, s.b.cfg, m) && |s.ba| == 1
    ensures Reaches(z, fs, k, p) && SysInv(k) && (k.a.cfg, k.b.cfg) == (s.a.cfg, s.b.cfg)
    ensures FirstOut(k.a.tx) && FirstOut(k.b.tx)
    ensures k.a.rx.phase == Recv && k.a.rx.timer == 0 && !k.a.rx.complete
    ensures k.b.rx.phase == Recv && k.b.rx.timer == 0 && !k.b.rx.complete
    ensures k.ab == [Fc(FcFrame(k.a.cfg, FS_CTS))] && k.ba == [Fc(FcFrame(k.b.cfg, FS_CTS))]
  {
    hide DirInv, Act1, SysStep, Reaches, FfFrame, FcFrame, LinkInv;
    LinksOk(s);
    TakeFirstStage(s, s.b.cfg, m, 0);
    fs, k, p := Next(z, es, s, n, On(A, TakeFrame(0)));
    assert k.ba == [] && k.ab[0] == s.ab[0];
    LinksOk(k);
    TakeFirstStage(Swap(k), k.a.cfg, m, 0);
    fs, k, p := Next(z, fs, k, p, On(B, TakeFrame(0)));
  }

  lemma BothTakeGrant(z: Sys, es: seq<SysEvent>, s: Sys, n: nat) returns (fs: seq<SysEvent>, k: Sys, p: nat)
    requires SysInv(z) && Reaches(z, es, s, n) && SysInv(s) && !TimersFit(s.a.cfg, s.b.cfg)
    requires FirstOut(s.a.tx) && FirstOut(s.b.tx)
    requires s.a.rx.phase == Recv && s.a.rx.timer == 0 && !s.a.rx.complete
    requires s.b.rx.phase == Recv && s.b.rx.timer == 0 && !s.b.rx.complete
    requires s.ab == [Fc(FcFrame(s.a.cfg, FS_CTS))] && s.ba == [Fc(FcFrame(s.b.cfg, FS_CTS))]
    ensures Reaches(z, fs, k, p) && Stuck(k)
  {
    hide DirInv, Act1, SysStep, Reaches, FcFrame, LinkInv;
    LinksOk(s);
    TakeGrantStage(s, s.b.cfg, 0);
    fs, k, p := Next(z, es, s, n, On(A, TakeFrame(0)));
    LinksOk(k);
    TakeGrantStage(Swap(k), k.a.cfg, 0);
    fs, k, p := Next(z, fs, k, p, On(B, TakeFrame(0)));
  }
}
