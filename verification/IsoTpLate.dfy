/**
 The timer condition of module IsoTpTimely is exact: for any shorter N_Bs or N_Cr a run
 in which both links are served in time and a poll still meets the timeout.
 */
module IsoTpLate {
  import opened Words
  import opened IsoTp
  import opened IsoTpStream
  import opened IsoTpLoss
  import opened IsoTpDelivery
  import opened IsoTpDuplex
  import opened IsoTpLiveness
  import opened IsoTpTimed
  import opened IsoTpTimely

  /** Served in time, the link on `side` is polled at `at` and meets a timeout. */
  predicate TimesOut(x: TSys, side: Side, at: nat, w: nat) {
    Served(x, at, w) && !CanAct(TView(x, side).s, PollNow(Clock(at)))
  }

  /** A run that starts in `z` and, for the first time, meets a timeout. */
  ghost predicate LateRun(z: TSys, es: seq<TEvent>, x: TSys, side: Side, at: nat, w: nat) {
    TStart(z) && TReaches(z, es, x, w) && TimesOut(x, side, at, w)
  }

  ghost predicate CanTimeOut(ca: Cfg, cb: Cfg, w: nat) {
    exists z: TSys, es: seq<TEvent>, x: TSys, side: Side, at: nat ::
      LateRun(z, es, x, side, at, w) && z.s.a.cfg == ca && z.s.b.cfg == cb
  }

  // ---- the condition is enough ----------------------------------------------

  lemma FitNeverLate(z: TSys, es: seq<TEvent>, x: TSys, side: Side, at: nat, w: nat)
    requires Fits(z.s.a.cfg, w) && Fits(z.s.b.cfg, w) && TStart(z) && TReaches(z, es, x, w) && Served(x, at, w)
    ensures CanAct(TView(x, side).s, PollNow(Clock(at)))
  {
    hide TStart, TReaches, TSysInv, Served, CanAct;
    TStartInv(z, w);
    RunTimed(z, es, x, w);
    SwapTimed(x, w);
    SwapServed(x, at, w);
    PollIsTimely(TView(x, side), at, w);
  }

  // ---- building runs --------------------------------------------------------

  /** A run has led to `x`. */
  ghost predicate OnCourse(z: TSys, es: seq<TEvent>, x: TSys, w: nat) {
    && TReaches(z, es, x, w) && SysInv(x.s) && Lined(x)
    && (x.s.a.cfg, x.s.b.cfg) == (z.s.a.cfg, z.s.b.cfg)
  }

  lemma LinesStay(x: TSys, m: Move, at: nat)
    requires Lined(x) && CanAct(x.s, ActAt(m, at))
    requires m.Takes? ==> 1 <= |WireBytes(x.s.ba[0])| <= CAN_DL
    requires m.Takes? && x.s.ba[0].Fc? ==> PciType(x.s.ba[0].f[0]) == PCI_FC
    ensures var y := TAct(x, m, at); |y.abAt| == |y.s.ab| && |y.baAt| == |y.s.ba|
  {
    hide LinkInv, Act1, CfDue;
    match m
    case Sends(data) => SendGrows(x.s, data, Clock(at));
    case Polls => PollGrows(x.s, Clock(at));
    case Takes =>
      TakeGrows(x.s, Clock(at));
      if x.s.ba[0].Fc? {
        GrantQuiet(x.s, Clock(at));
      }
    case Collects => CollectQuiet(x.s);
  }

  lemma Go(z: TSys, es: seq<TEvent>, x: TSys, e: TEvent, w: nat) returns (fs: seq<TEvent>, k: TSys)
    requires OnCourse(z, es, x, w) && Served(x, e.at, w) && CanAct(TView(x, e.side).s, ActAt(e.move, e.at))
    ensures k == TStep(x, e) && OnCourse(z, fs, k, w)
  {
    hide SysInv, LinkInv, Served, CanAct, TAct, TReaches;
    k := TStep(x, e);
    GoKeeps(x, e);
    GoReaches(x, e, w);
    Joins(z, es, x, [e], k, w);
    fs := es + [e];
    CfgsStay(x, e);
  }

  lemma GoReaches(x: TSys, e: TEvent, w: nat)
    requires Lined(x) && Served(x, e.at, w) && CanAct(TView(x, e.side).s, ActAt(e.move, e.at))
    ensures TReaches(x, [e], TStep(x, e), w)
  {
    hide LinkInv, Served, CanAct, TStep, TView;
    assert [e][1..] == [];
    assert TReaches(TStep(x, e), [], TStep(x, e), w);
  }

  lemma GoKeeps(x: TSys, e: TEvent)
    requires SysInv(x.s) && Lined(x) && CanAct(TView(x, e.side).s, ActAt(e.move, e.at))
    ensures SysInv(TStep(x, e).s) && Lined(TStep(x, e))
  {
    hide LinkInv, DirInv, CanAct, TAct;
    var v := TView(x, e.side);
    StepKeeps(x.s, On(e.side, ActAt(e.move, e.at)));
    GoesAsSys(x, e);
    LinksOk(TStep(x, e).s);
    if e.move.Takes? {
      GoTakes(v, e.at);
    }
    LinesStay(v, e.move, e.at);
  }

  lemma GoesAsSys(x: TSys, e: TEvent)
    requires Lined(x) && CanAct(TView(x, e.side).s, ActAt(e.move, e.at))
    ensures TStep(x, e).s == SysStep(x.s, On(e.side, ActAt(e.move, e.at)))
  {
    hide LinkInv, CanAct, Act1;
  }

  lemma GoTakes(v: TSys, at: nat)
    requires SysInv(v.s) && CanAct(v.s, TakeFrame(Clock(at)))
    ensures 1 <= |WireBytes(v.s.ba[0])| <= CAN_DL
    ensures v.s.ba[0].Fc? ==> PciType(v.s.ba[0].f[0]) == PCI_FC
  {
    hide SysInv;
    HeadOk(v.s, Clock(at));
  }

  /** Neither link has anything to do at `at`. */
  predicate Idles(s: Sys, at: nat) {
    && CanAct(s, PollNow(Clock(at))) && !CfDue(s.a.tx, Clock(at))
    && CanAct(Swap(s), PollNow(Clock(at))) && !CfDue(s.b.tx, Clock(at))
  }

  function PolledAt(x: TSys, at: nat): TSys {
    x.(at := at, a := x.a.(polled := at), b := x.b.(polled := at))
  }

  /** A poll with nothing due leaves the link as it is. */
  lemma IdlePoll(x: TSys, at: nat)
    requires SysInv(x.s) && Lined(x) && CanAct(x.s, PollNow(Clock(at))) && !CfDue(x.s.a.tx, Clock(at))
    ensures TAct(x, Polls, at) == x.(at := at, a := x.a.(polled := at))
  {
    hide LinkInv, DirInv, Act1, CfDue;
    PollKeepsSys(x.s, Clock(at));
  }

  lemma BothPoll(z: TSys, es: seq<TEvent>, x: TSys, at: nat, w: nat) returns (fs: seq<TEvent>, k: TSys)
    requires OnCourse(z, es, x, w) && Served(x, at, w) && Idles(x.s, at)
    ensures OnCourse(z, fs, k, w) && k == PolledAt(x, at)
  {
    hide LinkInv, DirInv, Act1, CfDue, TAct, CanAct, TReaches;
    IdlePoll(x, at);
    fs, k := Go(z, es, x, TEvent(A, Polls, at), w);
    assert Lined(TSwap(k)) && SysInv(TSwap(k).s);
    IdlePoll(TSwap(k), at);
    StillServed(x, k, at, w);
    fs, k := Go(z, fs, k, TEvent(B, Polls, at), w);
  }

  lemma StillServed(x: TSys, y: TSys, at: nat, w: nat)
    requires Served(x, at, w) && y == x.(at := at, a := x.a.(polled := at))
    ensures Served(y, at, w)
  {}

  /** Nothing waits in either queue or receive buffer, and both links were polled just now. */
  predicate Clear(x: TSys) {
    && NothingWaits(x.s) && x.abAt == [] && x.baAt == []
    && x.a.polled == x.at && x.b.polled == x.at
  }

  /** Both links are polled every millisecond until `until`. */
  lemma {:induction false} IdleUntil(z: TSys, es: seq<TEvent>, x: TSys, until: nat, w: nat)
    returns (fs: seq<TEvent>, k: TSys)
    requires OnCourse(z, es, x, w) && Clear(x) && w > 0 && x.at <= until
    requires forall u: nat :: x.at < u <= until ==> Idles(x.s, u)
    ensures OnCourse(z, fs, k, w) && k == PolledAt(x, until)
    decreases until - x.at
  {
    hide OnCourse, Idles, NothingWaits;
    fs, k := es, x;
    if x.at < until {
      ClearServed(x, x.at + 1, w);
      fs, k := BothPoll(z, es, x, x.at + 1, w);
      fs, k := IdleUntil(z, fs, k, until, w);
    }
  }

  lemma ClearServed(x: TSys, at: nat, w: nat)
    requires Clear(x) && x.at <= at <= x.at + w
    ensures Served(x, at, w)
  {}

  // ---- a sender whose N_Bs is too short -------------------------------------

  /** Two idle links with these configurations. */
  function Fresh(ca: Cfg, cb: Cfg): TSys {
    var a, b := Link(1, 2, NO_FUNC_ID, ca, InitTx(), InitRx()), Link(2, 1, NO_FUNC_ID, cb, InitTx(), InitRx());
    var h := Hist([], Pos(-1, 0), 0, []);
    TSys(Sys(a, b, [], [], h, h), 0, [], [], Watch(0, 0, 0, 0, []), Watch(0, 0, 0, 0, []))
  }

  /** `a` has sent a first frame at time 0; both links were polled at `x.at`. */
  predicate Opened(x: TSys) {
    && x.a.polled == x.at && x.b.polled == x.at
    && x.s.a.rx.phase == Idle && !x.s.a.rx.complete && !x.s.b.rx.complete && x.s.b.tx.phase == Idle
    && FirstOut(x.s.a.tx) && x.s.a.tx.timer == 0
  }

  /** The first frame is still under way. */
  predicate Started(x: TSys) {
    && Opened(x) && x.abAt == [0] && x.baAt == [] && x.s.ba == [] && x.s.b.rx.phase == Idle
    && Posted(x.s.ab, x.s.a.cfg, TWENTY) && |x.s.ab| == 1
  }

  /** `b` took it at time `t`, and its grant is under way. */
  predicate Granted(x: TSys, t: nat) {
    && Opened(x) && x.abAt == [] && x.baAt == [t] && x.s.ab == []
    && x.s.b.rx.phase == Recv && x.s.b.rx.timer == Clock(t) && x.s.ba == [Fc(FcFrame(x.s.b.cfg, FS_CTS))]
  }

  lemma Begin(ca: Cfg, cb: Cfg, w: nat) returns (es: seq<TEvent>, x: TSys)
    ensures TStart(Fresh(ca, cb)) && OnCourse(Fresh(ca, cb), es, x, w) && Started(x) && x.at == 0
    ensures x.s.a.cfg == ca && x.s.b.cfg == cb
  {
    var z := Fresh(ca, cb);
    StartInv(z.s);
    assert TReaches(z, [], z, w);
    assert Served(z, 0, w);
    assert OnCourse(z, [], z, w);
    hide LinkInv, DirInv, Act1, OnCourse, FfFrame, Served;
    es, x := Go(z, [], z, TEvent(A, Sends(TWENTY), 0), w);
    SendStage(z.s, TWENTY, 0);
  }

  lemma Answer(z: TSys, es: seq<TEvent>, x: TSys, w: nat) returns (fs: seq<TEvent>, k: TSys)
    requires OnCourse(z, es, x, w) && Started(x) && x.at <= w
    ensures OnCourse(z, fs, k, w) && Granted(k, x.at) && k.at == x.at
  {
    hide DirInv, Act1, FfFrame, FcFrame, TReaches;
    LinksOk(x.s);
    hide LinkInv;
    TakeFirstStage(TSwap(x).s, x.s.a.cfg, TWENTY, Clock(x.at));
    fs, k := Go(z, es, x, TEvent(B, Takes, x.at), w);
  }

  /** While it waits for its grant, a sender is silent until N_Bs is over. */
  lemma OpenIdles(x: TSys, at: nat)
    requires Opened(x) && x.s.b.rx.phase == Idle && at < x.s.a.cfg.nBs
    ensures Idles(x.s, at)
  {}

  /** The grant comes after 2w, and N_Bs is no longer than that. */
  lemma ShortNBs(ca: Cfg, cb: Cfg, w: nat) returns (es: seq<TEvent>, x: TSys)
    requires ca.nBs <= 2 * w && w > 0
    ensures LateRun(Fresh(ca, cb), es, x, A, ca.nBs, w)
  {
    hide OnCourse, FfFrame, FcFrame, TStart;
    var z := Fresh(ca, cb);
    es, x := Begin(ca, cb, w);
    if ca.nBs > w {
      OpenIdles(x, w);
      es, x := BothPoll(z, es, x, w, w);
      es, x := Answer(z, es, x, w);
    }
    CourseReaches(z, es, x, w);
    SenderLate(x, w);
  }

  lemma CourseReaches(z: TSys, es: seq<TEvent>, x: TSys, w: nat)
    requires OnCourse(z, es, x, w)
    ensures TReaches(z, es, x, w) && (x.s.a.cfg, x.s.b.cfg) == (z.s.a.cfg, z.s.b.cfg)
  {}

  lemma SenderLate(x: TSys, w: nat)
    requires (Started(x) && x.at == 0 && x.s.a.cfg.nBs <= w) || (Granted(x, w) && x.at == w)
    requires x.at <= x.s.a.cfg.nBs <= 2 * w
    ensures TimesOut(x, A, x.s.a.cfg.nBs, w)
  {
    hide FfFrame, FcFrame;
  }

  // ---- a receiver whose N_Cr is too short -----------------------------------

  /** The sender took the grant at time `w`; the receiver has heard nothing since time 0. */
  predicate Slow(x: TSys, w: nat) {
    && Clear(x) && x.s.b.tx.phase == Idle && x.s.b.rx.phase == Recv && x.s.b.rx.timer == 0
    && x.s.a.rx.phase == Idle && x.s.a.tx.phase == Sending && x.s.a.tx.stTimer == Clock(w)
    && x.s.a.tx.stmin == x.s.b.cfg.stmin && TxInv(x.s.a.tx) && |x.s.a.tx.msg| == 20 && x.s.a.tx.off == FF_FIRST_DATA
  }

  lemma TakeUp(z: TSys, es: seq<TEvent>, x: TSys, w: nat) returns (fs: seq<TEvent>, k: TSys)
    requires OnCourse(z, es, x, w) && Granted(x, 0) && x.at == w
    ensures OnCourse(z, fs, k, w) && Slow(k, w) && k.at == w
  {
    hide DirInv, Act1, FfFrame, FcFrame, TReaches;
    LinksOk(x.s);
    TakeGrantStage(x.s, x.s.b.cfg, Clock(w));
    fs, k := Go(z, es, x, TEvent(A, Takes, w), w);
    LinksOk(k.s);
  }

  lemma GrantedIdles(x: TSys, at: nat)
    requires Granted(x, 0) && at < x.s.a.cfg.nBs && at < x.s.b.cfg.nCr
    ensures Idles(x.s, at)
  {}

  lemma SlowIdles(x: TSys, at: nat, w: nat)
    requires Slow(x, w) && w <= at <= w + Lag(x.s.b.cfg.stmin) && at < x.s.b.cfg.nCr
    requires StminToMs(x.s.b.cfg.stmin) > 0
    ensures Idles(x.s, at)
  {
    TrueElapsed(at, w);
  }

  /** The run up to the moment the separation time is nearly over, or N_Cr within reach. */
  lemma Dawdle(z: TSys, es: seq<TEvent>, x: TSys, until: nat, w: nat) returns (fs: seq<TEvent>, k: TSys)
    requires OnCourse(z, es, x, w) && Slow(x, w) && x.at == w > 0
    requires w <= until <= w + Lag(x.s.b.cfg.stmin) && until < x.s.b.cfg.nCr
    ensures OnCourse(z, fs, k, w) && Slow(k, w) && k.at == until && k.s == x.s
  {
    hide OnCourse;
    forall u: nat | x.at < u <= until ensures Idles(x.s, u) {
      SlowIdles(x, u, w);
    }
    hide Idles;
    fs, k := IdleUntil(z, es, x, until, w);
  }

  lemma SlowLate(x: TSys, at: nat, w: nat)
    requires Slow(x, w) && x.at <= at <= x.at + w && at == x.s.b.cfg.nCr
    ensures TimesOut(x, B, at, w)
  {
    ClearServed(x, at, w);
    hide Served;
  }

  /** What makes the poll of `b` at `at` late. */
  predicate Overdue(x: TSys, at: nat) {
    && x.at <= at == x.s.b.cfg.nCr && !x.s.a.rx.complete && !x.s.b.rx.complete && x.s.b.tx.phase == Idle
    && x.s.b.rx.phase == Recv && x.s.b.rx.timer == 0
  }

  lemma OverdueLate(x: TSys, at: nat, w: nat)
    requires Overdue(x, at) && at <= x.a.polled + w && at <= x.b.polled + w
    requires Recent(x.abAt, at, w) && Recent(x.baAt, at, w)
    ensures TimesOut(x, B, at, w)
  {
    hide Recent;
  }

  /** After the separation time `a` sends its next frame as late as it can, and N_Cr ends before it is taken. */
  lemma LateFrame(z: TSys, es: seq<TEvent>, x: TSys, w: nat) returns (fs: seq<TEvent>, k: TSys)
    requires OnCourse(z, es, x, w) && Slow(x, w) && x.at == w + Lag(x.s.b.cfg.stmin) && w > 0
    requires x.at + w < x.s.b.cfg.nCr <= x.at + 2 * w
    ensures OnCourse(z, fs, k, w) && TimesOut(k, B, x.s.b.cfg.nCr, w)
  {
    hide SysInv, DirInv, Act1, FfFrame, FcFrame, TReaches, TAct;
    var at := x.at + w;
    ClearServed(x, at, w);
    assert CanAct(x.s, PollNow(Clock(at)));
    PollsLeave(x, at);
    fs, k := Go(z, es, x, TEvent(A, Polls, at), w);
    var y := k;
    assert CanAct(TSwap(y).s, PollNow(Clock(at))) && !CfDue(y.s.b.tx, Clock(at));
    SwapLined(y);
    assert Served(y, at, w);
    IdlePoll(TSwap(y), at);
    fs, k := Go(z, fs, y, TEvent(B, Polls, at), w);
    assert k == y.(at := at, b := y.b.(polled := at));
    hide LinkInv, OnCourse;
    OverdueLate(k, x.s.b.cfg.nCr, w);
  }

  lemma SwapLined(x: TSys)
    requires SysInv(x.s) && Lined(x)
    ensures SysInv(TSwap(x).s) && Lined(TSwap(x))
  {
    hide DirInv, LinkInv;
  }

  lemma ShortNCr(ca: Cfg, cb: Cfg, w: nat) returns (es: seq<TEvent>, x: TSys)
    requires ca.nBs > 2 * w && cb.nCr <= Lag(cb.stmin) + 3 * w && w > 0
    ensures LateRun(Fresh(ca, cb), es, x, B, cb.nCr, w)
  {
    hide OnCourse, FfFrame, FcFrame, TStart, TimesOut, Idles;
    var z, n, slow := Fresh(ca, cb), cb.nCr, w + Lag(cb.stmin);
    es, x := Begin(ca, cb, w);
    es, x := Answer(z, es, x, w);
    CourseReaches(z, es, x, w);
    if n <= w {
      OverdueLate(x, n, w);
      return;
    }
    GrantedIdles(x, w);
    GrantedServed(x, w);
    es, x := BothPoll(z, es, x, w, w);
    es, x := TakeUp(z, es, x, w);
    CourseReaches(z, es, x, w);
    hide Granted;
    if n <= slow + w {
      es, x := Dawdle(z, es, x, if n > 2 * w then n - w else w, w);
      SlowLate(x, n, w);
    } else {
      es, x := Dawdle(z, es, x, slow, w);
      es, x := LateFrame(z, es, x, w);
    }
    CourseReaches(z, es, x, w);
  }

  lemma GrantedServed(x: TSys, w: nat)
    requires Granted(x, 0) && x.at == 0
    ensures Served(x, w, w)
  {}

  // ---- the condition is exact -----------------------------------------------

  function Flip(e: TEvent): TEvent { e.(side := if e.side == A then B else A) }

  function FlipAll(es: seq<TEvent>): seq<TEvent> {
    if es == [] then [] else [Flip(es[0])] + FlipAll(es[1..])
  }

  /** Exchanging the two links makes no difference. */
  lemma {:induction false} SwapRun(x: TSys, es: seq<TEvent>, k: TSys, w: nat)
    requires TReaches(x, es, k, w) && SysInv(x.s)
    ensures TReaches(TSwap(x), FlipAll(es), TSwap(k), w)
    decreases |es|
  {
    hide SysInv, LinkInv, Served, CanAct;
    if es != [] {
      var e := es[0];
      SwapLined(x);
      assert TSwap(TSwap(x)) == x;
      SwapServed(x, e.at, w);
      GoKeeps(x, e);
      assert TStep(TSwap(x), Flip(e)) == TSwap(TStep(x, e));
      hide TStep, TSwap;
      SwapRun(TStep(x, e), es[1..], k, w);
    }
  }

  lemma SwapLate(z: TSys, es: seq<TEvent>, x: TSys, side: Side, at: nat, w: nat)
    requires LateRun(z, es, x, side, at, w)
    ensures LateRun(TSwap(z), FlipAll(es), TSwap(x), if side == A then B else A, at, w)
  {
    StartInv(z.s);
    SwapRun(z, es, x, w);
    SwapServed(x, at, w);
    hide TReaches, Served, LinkInv, CanAct, SysInv, FlipAll;
    assert TSwap(TSwap(x)) == x;
  }

  /**
   A link that is served at least every `w` ms can meet a timeout if and only if, on one
   side, N_Bs is at most 2w or N_Cr is at most 3w and the lag of the separation time that
   side asks for.
   */
  lemma TimesOutIff(ca: Cfg, cb: Cfg, w: nat)
    requires w > 0
    ensures CanTimeOut(ca, cb, w) <==> !(Fits(ca, w) && Fits(cb, w))
  {
    hide TStart, TReaches, Served, CanAct, LateRun;
    if Fits(ca, w) && Fits(cb, w) {
      NeverLate(ca, cb, w);
    } else if ca.nBs <= 2 * w {
      var es, x := ShortNBs(ca, cb, w);
    } else if cb.nBs <= 2 * w {
      var es, x := ShortNBs(cb, ca, w);
      SwapLate(Fresh(cb, ca), es, x, A, cb.nBs, w);
      assert TSwap(Fresh(cb, ca)).s.a.cfg == ca;
    } else if !WaitsEnough(cb, w) {
      var es, x := ShortNCr(ca, cb, w);
    } else {
      var es, x := ShortNCr(cb, ca, w);
      SwapLate(Fresh(cb, ca), es, x, B, ca.nCr, w);
      assert TSwap(Fresh(cb, ca)).s.a.cfg == ca;
    }
  }

  lemma NeverLate(ca: Cfg, cb: Cfg, w: nat)
    requires Fits(ca, w) && Fits(cb, w)
    ensures !CanTimeOut(ca, cb, w)
  {
    hide TStart, TReaches, Served, CanAct;
    if CanTimeOut(ca, cb, w) {
      var z: TSys, es: seq<TEvent>, x: TSys, side: Side, at: nat :|
        LateRun(z, es, x, side, at, w) && z.s.a.cfg == ca && z.s.b.cfg == cb;
      FitNeverLate(z, es, x, side, at, w);
      assert false;
    }
  }
}
