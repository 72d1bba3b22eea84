/**
 Two links in real time, each served at least every `w` ms: every frame is taken at most
 `w` ms after it was emitted, a completed message is collected and each link polled
 within `w` ms. No poll of any such run meets a timeout exactly when each link's N_Bs
 exceeds 2w and its N_Cr exceeds 3w by more than the separation time it asks for can
 delay a frame; and then every message is handed up within a stated time of its send,
 whatever else is sent in either direction.
 */
module IsoTpTimely {
  import opened Words
  import opened IsoTp
  import opened IsoTpStream
  import opened IsoTpLoss
  import opened IsoTpDelivery
  import opened IsoTpDuplex
  import opened IsoTpLiveness
  import opened IsoTpTimed

  /**
   When a link's running send timer was started, when it took its last data frame, when it
   was polled last, when it completed the message it holds, and when its sends were accepted.
   */
  datatype Watch = Watch(from: nat, heard: nat, polled: nat, since: nat, born: seq<nat>)

  /** `abAt` and `baAt` tell when the frames under way were emitted. */
  datatype TSys = TSys(s: Sys, at: nat, abAt: seq<nat>, baAt: seq<nat>, a: Watch, b: Watch)

  datatype Move = Sends(data: Bytes) | Polls | Takes | Collects

  datatype TEvent = TEvent(side: Side, move: Move, at: nat)

  /** The link reads the true time modulo 2^32. */
  function ActAt(m: Move, at: nat): Act {
    match m
    case Sends(data) => SendMsg(data, Clock(at))
    case Polls => PollNow(Clock(at))
    case Takes => TakeFrame(Clock(at))
    case Collects => CollectMsg
  }

  function TSwap(x: TSys): TSys {
    TSys(Swap(x.s), x.at, x.baAt, x.abAt, x.b, x.a)
  }

  function TView(x: TSys, side: Side): TSys {
    if side == A then x else TSwap(x)
  }

  function TAct(x: TSys, m: Move, at: nat): TSys
    requires LinkInv(x.s.a) && CanAct(x.s, ActAt(m, at))
    requires |x.abAt| == |x.s.ab| && |x.baAt| == |x.s.ba|
  {
    var k := Act1(x.s, ActAt(m, at));
    var y := x.(s := k, at := at);
    match m
    case Sends(_) =>
      if |k.fromA.sent| == |x.s.fromA.sent| then y
      else y.(abAt := x.abAt + [at], a := x.a.(from := at, born := x.a.born + [at]))
    case Polls =>
      if CfDue(x.s.a.tx, Clock(at)) then y.(abAt := x.abAt + [at], a := x.a.(from := at, polled := at))
      else y.(a := x.a.(polled := at))
    case Takes =>
      if x.s.ba[0].Fc? then y.(baAt := x.baAt[1..], a := x.a.(from := at))
      else y.(baAt := x.baAt[1..], abAt := if |k.ab| == |x.s.ab| then x.abAt else x.abAt + [at],
              a := x.a.(heard := at, since := at))
    case Collects => y
  }

  function TStep(x: TSys, e: TEvent): TSys
    requires LinkInv(x.s.a) && LinkInv(x.s.b) && CanAct(TView(x, e.side).s, ActAt(e.move, e.at))
    requires |x.abAt| == |x.s.ab| && |x.baAt| == |x.s.ba|
  {
    if e.side == A then TAct(x, e.move, e.at) else TSwap(TAct(TSwap(x), e.move, e.at))
  }

  // ---- the clocks of one direction ------------------------------------------

  function DataAt(ws: seq<Wire>, q: seq<nat>): seq<nat>
    requires |ws| == |q|
  {
    if ws == [] then [] else (if ws[0].Data? then [q[0]] else []) + DataAt(ws[1..], q[1..])
  }

  function FcsAt(ws: seq<Wire>, q: seq<nat>): seq<nat>
    requires |ws| == |q|
  {
    if ws == [] then [] else (if ws[0].Fc? then [q[0]] else []) + FcsAt(ws[1..], q[1..])
  }

  /** The direction in which `a` sends. */
  function TForward(x: TSys): Timed
    requires |x.abAt| == |x.s.ab| && |x.baAt| == |x.s.ba|
  {
    Timed(Forward(x.s), x.at, DataAt(x.s.ab, x.abAt), FcsAt(x.s.ba, x.baAt),
          x.a.from, x.b.heard, x.a.polled, x.b.since, x.a.born)
  }

  predicate TSysInv(x: TSys, w: nat) {
    && SysInv(x.s) && |x.abAt| == |x.s.ab| && |x.baAt| == |x.s.ba|
    && TimedInv(TForward(x), w) && TimedInv(TForward(TSwap(x)), w)
  }

  /** By `at` nothing will have waited for longer than `w`. */
  predicate Served(x: TSys, at: nat, w: nat) {
    && x.at <= at <= x.a.polled + w && at <= x.b.polled + w
    && Recent(x.abAt, at, w) && Recent(x.baAt, at, w)
    && (x.s.a.rx.complete ==> at <= x.a.since + w)
    && (x.s.b.rx.complete ==> at <= x.b.since + w)
  }

  // ---- queues ---------------------------------------------------------------

  lemma StampsPush(ws: seq<Wire>, q: seq<nat>, w: Wire, at: nat)
    requires |ws| == |q|
    ensures DataAt(ws + [w], q + [at]) == DataAt(ws, q) + if w.Data? then [at] else []
    ensures FcsAt(ws + [w], q + [at]) == FcsAt(ws, q) + if w.Fc? then [at] else []
  {
    hide DataAt, FcsAt;
    DataPush(ws, q, w, at);
    FcsPush(ws, q, w, at);
  }

  lemma {:induction false} DataPush(ws: seq<Wire>, q: seq<nat>, w: Wire, at: nat)
    requires |ws| == |q|
    ensures DataAt(ws + [w], q + [at]) == DataAt(ws, q) + if w.Data? then [at] else []
  {
    if ws == [] {
      assert (ws + [w])[1..] == [] && (q + [at])[1..] == [];
    } else {
      assert (ws + [w])[1..] == ws[1..] + [w] && (q + [at])[1..] == q[1..] + [at];
      DataPush(ws[1..], q[1..], w, at);
    }
  }

  lemma {:induction false} FcsPush(ws: seq<Wire>, q: seq<nat>, w: Wire, at: nat)
    requires |ws| == |q|
    ensures FcsAt(ws + [w], q + [at]) == FcsAt(ws, q) + if w.Fc? then [at] else []
  {
    if ws == [] {
      assert (ws + [w])[1..] == [] && (q + [at])[1..] == [];
    } else {
      assert (ws + [w])[1..] == ws[1..] + [w] && (q + [at])[1..] == q[1..] + [at];
      FcsPush(ws[1..], q[1..], w, at);
    }
  }

  lemma StampsPop(ws: seq<Wire>, q: seq<nat>)
    requires |ws| == |q| && ws != []
    ensures DataAt(ws[1..], q[1..]) == if ws[0].Data? then DataAt(ws, q)[1..] else DataAt(ws, q)
    ensures FcsAt(ws[1..], q[1..]) == if ws[0].Fc? then FcsAt(ws, q)[1..] else FcsAt(ws, q)
    ensures ws[0].Data? ==> DataAt(ws, q) != []
    ensures ws[0].Fc? ==> FcsAt(ws, q) != []
  {}

  lemma {:induction false} StampsRecent(ws: seq<Wire>, q: seq<nat>, at: nat, w: nat)
    requires |ws| == |q| && Recent(q, at, w)
    ensures Recent(DataAt(ws, q), at, w) && Recent(FcsAt(ws, q), at, w)
  {
    if ws != [] {
      StampsRecent(ws[1..], q[1..], at, w);
    }
  }

  lemma ServedInTime(x: TSys, at: nat, w: nat)
    requires |x.abAt| == |x.s.ab| && |x.baAt| == |x.s.ba| && Served(x, at, w)
    ensures InTime(TForward(x), at, w) && InTime(TForward(TSwap(x)), at, w)
  {
    StampsRecent(x.s.ab, x.abAt, at, w);
    StampsRecent(x.s.ba, x.baAt, at, w);
    hide DataOf, FcsOf, DataAt, FcsAt, Recent;
  }

  // ---- every move is a step of one direction --------------------------------

  predicate Lined(x: TSys) {
    && |x.abAt| == |x.s.ab| && |x.baAt| == |x.s.ba|
    && LinkInv(x.s.a) && LinkInv(x.s.b) && x.s.a.rxId == x.s.b.txId
  }

  /** `a` sends: its own direction becomes `f`, the other one only sees time pass. */
  predicate Ahead(x: TSys, y: TSys, f: Timed) {
    && |y.abAt| == |y.s.ab| && |y.baAt| == |y.s.ba| && |x.abAt| == |x.s.ab| && |x.baAt| == |x.s.ba|
    && TForward(y) == f && TForward(TSwap(y)) == TForward(TSwap(x)).(at := y.at)
  }

  /** `a` receives: the direction of its peer becomes `f`. */
  predicate Back(x: TSys, y: TSys, f: Timed) {
    && |y.abAt| == |y.s.ab| && |y.baAt| == |y.s.ba| && |x.abAt| == |x.s.ab| && |x.baAt| == |x.s.ba|
    && TForward(TSwap(y)) == f && TForward(y) == TForward(x).(at := y.at)
  }

  lemma SendGrows(s: Sys, data: Bytes, now: u32)
    requires LinkInv(s.a)
    ensures var k := Act1(s, SendMsg(data, now));
            && k.ba == s.ba
            && if |k.fromA.sent| == |s.fromA.sent| then k.ab == s.ab
               else |k.ab| == |s.ab| + 1 && k.ab == s.ab + [k.ab[|s.ab|]] && k.ab[|s.ab|].Data?
  {
    hide SendTx;
  }

  lemma SendsIsStep(x: TSys, data: Bytes, at: nat)
    requires Lined(x)
    ensures Ahead(x, TAct(x, Sends(data), at), TSend(TForward(x), data, at))
  {
    hide LinkInv, Act1, DSend, DataOf, FcsOf, DataAt, FcsAt, Clock;
    SendIsStep(x.s, data, Clock(at));
    SendGrows(x.s, data, Clock(at));
    var k := Act1(x.s, SendMsg(data, Clock(at)));
    if |k.fromA.sent| != |x.s.fromA.sent| {
      StampsPush(x.s.ab, x.abAt, k.ab[|x.s.ab|], at);
    }
  }

  lemma PollGrows(s: Sys, now: u32)
    requires LinkInv(s.a) && CanAct(s, PollNow(now))
    ensures var k := Act1(s, PollNow(now));
            && k.ba == s.ba
            && if !CfDue(s.a.tx, now) then k.ab == s.ab
               else |k.ab| == |s.ab| + 1 && k.ab == s.ab + [k.ab[|s.ab|]] && k.ab[|s.ab|].Data?
  {
    TimelyPoll(s.a, now);
    hide Advance, CfFrame;
  }

  lemma PollsIsStep(x: TSys, at: nat)
    requires Lined(x) && CanAct(x.s, PollNow(Clock(at)))
    ensures Ahead(x, TAct(x, Polls, at), TPoll(TForward(x), at))
  {
    hide LinkInv, Act1, DPoll, DataOf, FcsOf, DataAt, FcsAt, CfDue, Clock;
    PollIsStep(x.s, Clock(at));
    PollGrows(x.s, Clock(at));
    var k := Act1(x.s, PollNow(Clock(at)));
    if CfDue(x.s.a.tx, Clock(at)) {
      StampsPush(x.s.ab, x.abAt, k.ab[|x.s.ab|], at);
    }
  }

  lemma TakeGrows(s: Sys, now: u32)
    requires LinkInv(s.a) && CanAct(s, TakeFrame(now))
    ensures var k := Act1(s, TakeFrame(now));
            && k.ba == s.ba[1..]
            && (|k.ab| == |s.ab| || |k.ab| == |s.ab| + 1) && (|k.ab| == |s.ab| ==> k.ab == s.ab)
            && (|k.ab| == |s.ab| + 1 ==> k.ab == s.ab + [k.ab[|s.ab|]] && k.ab[|s.ab|].Fc?)
  {
    hide Step;
    var o := Step(s.a, Frame(s.b.txId, WireBytes(s.ba[0]), now, true));
    assert s.ab + [] == s.ab;
  }

  /** A grant is not answered. */
  lemma GrantQuiet(s: Sys, now: u32)
    requires LinkInv(s.a) && CanAct(s, TakeFrame(now)) && s.a.rxId == s.b.txId
    requires s.ba[0].Fc? && 1 <= |s.ba[0].f| <= CAN_DL && PciType(s.ba[0].f[0]) == PCI_FC
    ensures Act1(s, TakeFrame(now)).ab == s.ab
  {
    FcFrameStep(s.a, s.ba[0].f, now);
    hide Step, HandleFc;
  }

  lemma TakesGrantIsStep(x: TSys, at: nat)
    requires Lined(x) && CanAct(x.s, TakeFrame(Clock(at)))
    requires x.s.ba[0].Fc? && 1 <= |x.s.ba[0].f| <= CAN_DL && PciType(x.s.ba[0].f[0]) == PCI_FC
    ensures TForward(x).d.fcs != [] && TForward(x).d.fcs[0] == x.s.ba[0].f && TForward(x).fcsAt != []
    ensures Ahead(x, TAct(x, Takes, at), TGrant(TForward(x), at))
  {
    hide LinkInv, Act1, DGrant, DataOf, FcsOf, DataAt, FcsAt, Clock;
    QueuePop(x.s.ba);
    StampsPop(x.s.ba, x.baAt);
    TakeFcIsStep(x.s, Clock(at));
    TakeGrows(x.s, Clock(at));
    GrantQuiet(x.s, Clock(at));
  }

  lemma TakesDataIsStep(x: TSys, at: nat)
    requires Lined(x) && CanAct(x.s, TakeFrame(Clock(at)))
    requires x.s.ba[0].Data? && 1 <= |x.s.ba[0].x.bytes| <= CAN_DL
    requires PciType(x.s.ba[0].x.bytes[0]) in {PCI_SF, PCI_FF, PCI_CF}
    ensures var f := TForward(TSwap(x)); f.d.chan != [] && f.d.chan[0] == x.s.ba[0].x && f.chanAt != []
    ensures Back(x, TAct(x, Takes, at), TTake(TForward(TSwap(x)), at))
  {
    hide LinkInv, Act1, DTake, DataOf, FcsOf, DataAt, FcsAt, Clock;
    QueuePop(x.s.ba);
    StampsPop(x.s.ba, x.baAt);
    TakeDataIsStep(x.s, Clock(at));
    TakeGrows(x.s, Clock(at));
    var k := Act1(x.s, TakeFrame(Clock(at)));
    if |k.ab| > |x.s.ab| {
      QueuePush(x.s.ab, k.ab[|x.s.ab|]);
      StampsPush(x.s.ab, x.abAt, k.ab[|x.s.ab|], at);
    }
  }

  lemma CollectQuiet(s: Sys)
    requires LinkInv(s.a)
    ensures Act1(s, CollectMsg).ab == s.ab && Act1(s, CollectMsg).ba == s.ba
  {
    hide Receive;
  }

  lemma CollectsIsStep(x: TSys, at: nat)
    requires Lined(x)
    ensures Back(x, TAct(x, Collects, at), TCollect(TForward(TSwap(x)), at))
  {
    hide LinkInv, Act1, DCollect, DataOf, FcsOf, DataAt, FcsAt;
    CollectIsStep(x.s);
    CollectQuiet(x.s);
  }

  // ---- every move keeps pace and deadlines ----------------------------------

  /** The timers of a link are long enough for both roles it plays. */
  predicate Fits(cfg: Cfg, w: nat) { cfg.nBs > 2 * w && WaitsEnough(cfg, w) }

  lemma Lines(x: TSys, w: nat)
    requires TSysInv(x, w)
    ensures Lined(x) && SysInv(x.s) && x.s.b.rxId == x.s.a.txId
    ensures TimedInv(TForward(x), w) && TimedInv(TForward(TSwap(x)), w)
  {
    LinksOk(x.s);
  }

  /** No poll of `a` meets a timeout. */
  lemma PollIsTimely(x: TSys, at: nat, w: nat)
    requires TSysInv(x, w) && Served(x, at, w) && Fits(x.s.a.cfg, w)
    ensures CanAct(x.s, PollNow(Clock(at)))
  {
    Lines(x, w);
    hide TSysInv, LinkInv, DirInv, Clocked, Paced, OnTime, DataOf, FcsOf, DataAt, FcsAt, Clock, Served, InTime;
    ServedInTime(x, at, w);
    NoTimeout(TForward(x), at, w);
    NoTimeout(TForward(TSwap(x)), at, w);
  }

  predicate BothTimed(y: TSys, w: nat) {
    && |y.abAt| == |y.s.ab| && |y.baAt| == |y.s.ba|
    && TimedInv(TForward(y), w) && TimedInv(TForward(TSwap(y)), w)
  }

  /** A move of `a` keeps the invariant if it keeps it in both directions. */
  lemma MoveKept(x: TSys, m: Move, at: nat, w: nat)
    requires Lined(x) && SysInv(x.s) && CanAct(x.s, ActAt(m, at)) && BothTimed(TAct(x, m, at), w)
    ensures TSysInv(TAct(x, m, at), w)
  {
    hide LinkInv, SysInv, TimedInv, TForward, Act1, CanAct;
    Act1Keeps(x.s, ActAt(m, at));
    assert TAct(x, m, at).s == Act1(x.s, ActAt(m, at));
    hide TAct;
  }

  lemma SendsKeep(x: TSys, data: Bytes, at: nat, w: nat)
    requires TSysInv(x, w) && Served(x, at, w)
    ensures Lined(x) && TSysInv(TAct(x, Sends(data), at), w)
  {
    hide TSysInv, LinkInv, SysInv, TimedInv, TAct, TForward, InTime;
    Lines(x, w);
    ServedInTime(x, at, w);
    SendsIsStep(x, data, at);
    SendTimed(TForward(x), data, at, w);
    Moved(x, Sends(data), at);
    PassTimed(TForward(TSwap(x)), at, w);
    MoveKept(x, Sends(data), at, w);
  }

  lemma Moved(x: TSys, m: Move, at: nat)
    requires Lined(x) && CanAct(x.s, ActAt(m, at))
    ensures TAct(x, m, at).at == at && TForward(x).at == x.at == TForward(TSwap(x)).at
    ensures TForward(x).d == Forward(x.s) && TForward(TSwap(x)).d == Backward(x.s)
  {
    hide LinkInv, Act1;
  }

  lemma PollsKeep(x: TSys, at: nat, w: nat)
    requires TSysInv(x, w) && Served(x, at, w) && WaitsEnough(x.s.b.cfg, w) && CanAct(x.s, PollNow(Clock(at)))
    ensures Lined(x) && TSysInv(TAct(x, Polls, at), w)
  {
    hide TSysInv, LinkInv, SysInv, TimedInv, TAct, TForward, InTime;
    Lines(x, w);
    ServedInTime(x, at, w);
    PollsIsStep(x, at);
    Moved(x, Polls, at);
    PollTimed(TForward(x), at, w);
    PassTimed(TForward(TSwap(x)), at, w);
    MoveKept(x, Polls, at, w);
  }

  lemma TakesKeep(x: TSys, at: nat, w: nat)
    requires CanAct(x.s, ActAt(Takes, at)) && TSysInv(x, w) && Served(x, at, w)
    ensures Lined(x) && TSysInv(TAct(x, Takes, at), w)
  {
    hide TSysInv, LinkInv, SysInv, TimedInv, TAct, TForward, InTime;
    Lines(x, w);
    HeadOk(x.s, Clock(at));
    ServedInTime(x, at, w);
    Moved(x, Takes, at);
    hide Served;
    if x.s.ba[0].Fc? {
      TakesGrantIsStep(x, at);
      GrantTimed(TForward(x), at, w);
      PassTimed(TForward(TSwap(x)), at, w);
    } else {
      TakesDataIsStep(x, at);
      TakeTimed(TForward(TSwap(x)), at, w);
      PassTimed(TForward(x), at, w);
    }
    MoveKept(x, Takes, at, w);
  }

  /** The frame at the head of the queue is one of the four kinds. */
  lemma HeadOk(s: Sys, now: u32)
    requires SysInv(s) && s.ba != [] && !s.a.rx.complete
    ensures 1 <= |WireBytes(s.ba[0])| <= CAN_DL
    ensures s.ba[0].Fc? ==> PciType(s.ba[0].f[0]) == PCI_FC
    ensures s.ba[0].Data? ==> PciType(s.ba[0].x.bytes[0]) in {PCI_SF, PCI_FF, PCI_CF}
  {
    QueuePop(s.ba);
    hide DirInv, DataOf, FcsOf;
    if s.ba[0].Fc? {
      GrantKeeps(Forward(s), now);
    } else {
      TakeKeeps(Backward(s), now);
    }
  }

  lemma CollectsKeep(x: TSys, at: nat, w: nat)
    requires CanAct(x.s, ActAt(Collects, at)) && TSysInv(x, w) && Served(x, at, w)
    ensures Lined(x) && TSysInv(TAct(x, Collects, at), w)
  {
    hide TSysInv, LinkInv, SysInv, TimedInv, TAct, TForward, InTime;
    Lines(x, w);
    ServedInTime(x, at, w);
    CollectsIsStep(x, at);
    Moved(x, Collects, at);
    CollectTimed(TForward(TSwap(x)), at, w);
    PassTimed(TForward(x), at, w);
    MoveKept(x, Collects, at, w);
  }

  lemma MoveKeeps(x: TSys, m: Move, at: nat, w: nat)
    requires TSysInv(x, w) && Served(x, at, w) && WaitsEnough(x.s.b.cfg, w) && CanAct(x.s, ActAt(m, at))
    ensures Lined(x) && TSysInv(TAct(x, m, at), w)
  {
    hide TSysInv, TAct, Served, CanAct, LinkInv;
    match m
    case Sends(data) => SendsKeep(x, data, at, w);
    case Polls => PollsKeep(x, at, w);
    case Takes => TakesKeep(x, at, w);
    case Collects => CollectsKeep(x, at, w);
  }

  lemma SwapTimed(x: TSys, w: nat)
    ensures TSwap(TSwap(x)) == x && (TSysInv(x, w) ==> TSysInv(TSwap(x), w))
  {
    hide TimedInv, DirInv, TForward;
    assert TSwap(TSwap(x)) == x;
  }

  lemma SwapServed(x: TSys, at: nat, w: nat)
    ensures Served(x, at, w) == Served(TSwap(x), at, w)
  {
    hide Recent;
  }

  lemma StepTimed(x: TSys, e: TEvent, w: nat)
    requires TSysInv(x, w) && Served(x, e.at, w) && CanAct(TView(x, e.side).s, ActAt(e.move, e.at))
    requires WaitsEnough(x.s.a.cfg, w) && WaitsEnough(x.s.b.cfg, w)
    ensures LinkInv(x.s.a) && LinkInv(x.s.b) && TSysInv(TStep(x, e), w)
  {
    SwapTimed(x, w);
    LinksOk(x.s);
    hide TAct, LinkInv, CanAct, WaitsEnough, Served;
    if e.side == A {
      MoveKeeps(x, e.move, e.at, w);
    } else {
      SwapServed(x, e.at, w);
      MoveKeeps(TSwap(x), e.move, e.at, w);
      SwapTimed(TAct(TSwap(x), e.move, e.at), w);
    }
    hide TSysInv;
  }

  // ---- runs -----------------------------------------------------------------

  /** `x` leads to `k` through `es`, with both links served in time and no poll meeting a timeout. */
  ghost predicate TReaches(x: TSys, es: seq<TEvent>, k: TSys, w: nat)
    decreases |es|
  {
    if es == [] then k == x
    else
      && Lined(x) && Served(x, es[0].at, w) && CanAct(TView(x, es[0].side).s, ActAt(es[0].move, es[0].at))
      && TReaches(TStep(x, es[0]), es[1..], k, w)
  }

  /** Idle links polled at time `x.at`. */
  predicate TStart(x: TSys) {
    && Start(x.s) && x.abAt == [] && x.baAt == []
    && x.a == Watch(x.at, x.at, x.at, x.at, []) && x.b == x.a
  }

  lemma TStartInv(x: TSys, w: nat)
    requires TStart(x)
    ensures TSysInv(x, w)
  {
    StartInv(x.s);
    hide DirInv;
  }

  lemma CfgsStay(x: TSys, e: TEvent)
    requires SysInv(x.s) && Lined(x) && CanAct(TView(x, e.side).s, ActAt(e.move, e.at))
    ensures (TStep(x, e).s.a.cfg, TStep(x, e).s.b.cfg) == (x.s.a.cfg, x.s.b.cfg)
  {
    StepStays(x.s, On(e.side, ActAt(e.move, e.at)));
    assert TStep(x, e).s == SysStep(x.s, On(e.side, ActAt(e.move, e.at)));
    hide DirInv, SysStep, TStep;
  }

  lemma {:induction false} RunTimed(x: TSys, es: seq<TEvent>, k: TSys, w: nat)
    requires TSysInv(x, w) && TReaches(x, es, k, w)
    requires WaitsEnough(x.s.a.cfg, w) && WaitsEnough(x.s.b.cfg, w)
    ensures TSysInv(k, w) && (k.s.a.cfg, k.s.b.cfg) == (x.s.a.cfg, x.s.b.cfg)
    decreases |es|
  {
    hide TimedInv, SysInv, TStep, LinkInv, CanAct, Served, WaitsEnough, TForward;
    if es != [] {
      StepTimed(x, es[0], w);
      CfgsStay(x, es[0]);
      RunTimed(TStep(x, es[0]), es[1..], k, w);
    }
  }

  // ---- every message arrives in time ----------------------------------------

  /** The `i`-th message accepted by `s.a` has been handed up with its number of flow controls. */
  predicate HandedUp(s: Sys, i: nat) {
    i < |s.fromA.got| && i < |s.fromA.sent|
    && s.fromA.got[i] == Receipt(s.fromA.sent[i], GrantsFor(s.b.cfg.bs, |s.fromA.sent[i]|))
  }

  lemma GotInTime(x: TSys, at: nat, w: nat, i: nat)
    requires TSysInv(x, w) && Served(x, at, w) && i < |x.s.fromA.sent|
    ensures |x.a.born| == |x.s.fromA.sent|
    ensures at > x.a.born[i] + Allowance(x.s.b.cfg.stmin, w, |x.s.fromA.sent[i]|) ==> HandedUp(x.s, i)
  {
    hide TSysInv, SysInv, DirInv, Clocked, Paced, InTime, DataOf, FcsOf, DataAt, FcsAt, Allowance, Served, GrantsFor;
    Lines(x, w);
    ServedInTime(x, at, w);
    OverdueIsGot(TForward(x), at, w, i);
    SentInOrder(x.s);
  }

  lemma SentInOrder(s: Sys)
    requires SysInv(s)
    ensures forall i: nat :: i < |s.fromA.got| ==> HandedUp(s, i)
  {
    DeliveredArePrefix(Forward(s));
    hide DirInv, DataOf, FcsOf, GrantsFor;
  }

  /**
   Whatever else is sent in either direction, at any moment that a run can reach every
   message is handed up whose allowance is over: 2w for a single frame, and for one of K
   consecutive frames 4w + K * (3w + lag), where the lag is the separation time its
   receiver asks for, less one millisecond.
   */
  lemma ArrivesInTime(z: TSys, es: seq<TEvent>, x: TSys, side: Side, at: nat, w: nat, i: nat)
    requires TStart(z) && Fits(z.s.a.cfg, w) && Fits(z.s.b.cfg, w)
    requires TReaches(z, es, x, w) && Served(x, at, w)
    requires i < |TView(x, side).s.fromA.sent|
    ensures var v := TView(x, side);
            && |v.a.born| == |v.s.fromA.sent|
            && (at > v.a.born[i] + Allowance(v.s.b.cfg.stmin, w, |v.s.fromA.sent[i]|) ==> HandedUp(v.s, i))
  {
    hide TStart, TReaches, TSysInv, Served, Allowance, HandedUp;
    TStartInv(z, w);
    RunTimed(z, es, x, w);
    SwapTimed(x, w);
    SwapServed(x, at, w);
    GotInTime(TView(x, side), at, w, i);
  }

  // ---- a message sent is one of them ----------------------------------------

  /** Messages sent, and the times of their sends, are never taken back. */
  predicate Grown(x: TSys, y: TSys) {
    && x.s.fromA.sent <= y.s.fromA.sent && x.a.born <= y.a.born
    && x.s.fromB.sent <= y.s.fromB.sent && x.b.born <= y.b.born
  }

  lemma ActGrows(x: TSys, m: Move, at: nat)
    requires LinkInv(x.s.a) && CanAct(x.s, ActAt(m, at)) && |x.abAt| == |x.s.ab| && |x.baAt| == |x.s.ba|
    ensures Grown(x, TAct(x, m, at))
  {
    hide LinkInv, Step, Receive;
  }

  lemma {:induction false} RunGrows(x: TSys, es: seq<TEvent>, k: TSys, w: nat)
    requires TReaches(x, es, k, w)
    ensures Grown(x, k)
    decreases |es|
  {
    hide TAct, LinkInv, CanAct, Served;
    if es != [] {
      ActGrows(TView(x, es[0].side), es[0].move, es[0].at);
      RunGrows(TStep(x, es[0]), es[1..], k, w);
    }
  }

  /** One event at a time that lets nothing wait too long. */
  lemma TOneStep(x: TSys, e: TEvent, k: TSys, w: nat)
    requires TReaches(x, [e], k, w)
    ensures Lined(x) && Served(x, e.at, w) && CanAct(TView(x, e.side).s, ActAt(e.move, e.at)) && k == TStep(x, e)
  {
    hide TStep, Lined, Served, CanAct;
    assert [e][1..] == [];
  }

  /** A send by an idle link is accepted, and its time is noted. */
  lemma SendsBorn(x: TSys, m: Bytes, at: nat)
    requires SysInv(x.s) && Lined(x) && x.s.a.tx.phase == Idle && Sendable(m)
    ensures var y := TAct(x, Sends(m), at);
            y.s.fromA.sent == x.s.fromA.sent + [m] && y.a.born == x.a.born + [at]
  {
    SendJoins(x.s, m, Clock(at));
    hide SysInv, LinkInv, Act1, Clock;
  }

  lemma BornNow(x: TSys, m: Bytes, side: Side, t: nat, y: TSys, w: nat)
    requires TSysInv(x, w) && TReaches(x, [TEvent(side, Sends(m), t)], y, w)
    requires TView(x, side).s.a.tx.phase == Idle && Sendable(m)
    ensures var v, u := TView(x, side), TView(y, side);
            u.s.fromA.sent == v.s.fromA.sent + [m] && u.a.born == v.a.born + [t]
            && |v.a.born| == |v.s.fromA.sent|
  {
    hide TReaches, TSysInv, SysInv, LinkInv, TAct;
    SwapTimed(x, w);
    TOneStep(x, TEvent(side, Sends(m), t), y, w);
    var v := TView(x, side);
    Lines(v, w);
    SendsBorn(v, m, t);
    BornCount(v, w);
    assert TView(y, side) == TAct(v, Sends(m), t);
  }

  lemma BornCount(x: TSys, w: nat)
    requires TSysInv(x, w)
    ensures |x.a.born| == |x.s.fromA.sent|
  {
    Lines(x, w);
    hide TSysInv, SysInv, DirInv, Clocked, Paced, SenderOnTime, FramesOnTime, ReceiverOnTime;
  }

  /**
   Each message of 1 to 4095 bytes handed to an idle link at time `t`, in any state that a run can
   reach, has been handed up by the other link once its allowance is over.
   */
  lemma SentMessageArrivesInTime(z: TSys, es: seq<TEvent>, x: TSys, side: Side, m: Bytes, t: nat, y: TSys,
                                 fs: seq<TEvent>, k: TSys, at: nat, w: nat)
    requires TStart(z) && Fits(z.s.a.cfg, w) && Fits(z.s.b.cfg, w) && TReaches(z, es, x, w)
    requires TView(x, side).s.a.tx.phase == Idle && Sendable(m)
    requires TReaches(x, [TEvent(side, Sends(m), t)], y, w) && TReaches(y, fs, k, w) && Served(k, at, w)
    ensures var i, v := |TView(x, side).s.fromA.sent|, TView(k, side);
            && i < |v.s.fromA.sent| && v.s.fromA.sent[i] == m
            && (at > t + Allowance(v.s.b.cfg.stmin, w, |m|) ==> HandedUp(v.s, i))
  {
    hide TStart, TReaches, TSysInv, Served, Allowance, HandedUp, TAct, Fits;
    var e := TEvent(side, Sends(m), t);
    TStartInv(z, w);
    FitsWait(z, w);
    RunTimed(z, es, x, w);
    BornNow(x, m, side, t, y, w);
    RunGrows(y, fs, k, w);
    Joins(x, [e], y, fs, k, w);
    Joins(z, es, x, [e] + fs, k, w);
    ArrivesInTime(z, es + ([e] + fs), k, side, at, w, |TView(x, side).s.fromA.sent|);
  }

  lemma FitsWait(z: TSys, w: nat)
    requires Fits(z.s.a.cfg, w) && Fits(z.s.b.cfg, w)
    ensures WaitsEnough(z.s.a.cfg, w) && WaitsEnough(z.s.b.cfg, w)
  {}

  // ---- time can always go on ------------------------------------------------

  predicate NoTSends(es: seq<TEvent>) { forall k :: 0 <= k < |es| ==> !es[k].move.Sends? }

  lemma {:induction false} Joins(x: TSys, es: seq<TEvent>, y: TSys, fs: seq<TEvent>, k: TSys, w: nat)
    requires TReaches(x, es, y, w) && TReaches(y, fs, k, w)
    ensures TReaches(x, es + fs, k, w)
    decreases |es|
  {
    hide LinkInv, Served, CanAct, TStep;
    if es == [] {
      assert es + fs == fs;
    } else {
      Joins(TStep(x, es[0]), es[1..], y, fs, k, w);
      assert (es + fs)[1..] == es[1..] + fs;
    }
  }

  lemma RecentPush(q: seq<nat>, at: nat, w: nat)
    requires Recent(q, at, w)
    ensures Recent(q + [at], at, w) && (q != [] ==> Recent(q[1..], at, w))
  {}

  /** An event at time `at` lets nothing wait longer. */
  lemma ServedStays(x: TSys, m: Move, at: nat, w: nat)
    requires SysInv(x.s) && Lined(x) && CanAct(x.s, ActAt(m, at)) && Served(x, at, w)
    ensures Served(TAct(x, m, at), at, w)
  {
    hide SysInv, LinkInv, Recent, Act1;
    RecentPush(x.abAt, at, w);
    RecentPush(x.baAt, at, w);
    if m.Takes? {
      HeadOk(x.s, Clock(at));
    }
    CompleteStays(x.s, ActAt(m, at));
  }

  /** Only a data frame completes a message. */
  lemma CompleteStays(s: Sys, act: Act)
    requires LinkInv(s.a) && CanAct(s, act) && s.a.rxId == s.b.txId
    requires act.TakeFrame? && s.ba[0].Fc? ==> 1 <= |s.ba[0].f| <= CAN_DL && PciType(s.ba[0].f[0]) == PCI_FC
    ensures var k := Act1(s, act);
            k.b == s.b && (k.a.rx.complete && !(act.TakeFrame? && s.ba[0].Data?) ==> s.a.rx.complete)
  {
    if act.TakeFrame? && s.ba[0].Fc? {
      FcFrameStep(s.a, s.ba[0].f, act.now);
      hide Step, HandleFc;
    } else {
      hide RxOnData, PollTx, SendTx, OnFrame;
    }
  }

  /** A state from which time can go on: nothing is overdue, and the timers fit. */
  predicate Sound(x: TSys, w: nat) {
    TSysInv(x, w) && Served(x, x.at, w) && Fits(x.s.a.cfg, w) && Fits(x.s.b.cfg, w)
  }

  lemma SoundStep(x: TSys, e: TEvent, w: nat)
    requires Sound(x, w) && Served(x, e.at, w) && CanAct(TView(x, e.side).s, ActAt(e.move, e.at))
    ensures Lined(x) && Sound(TStep(x, e), w) && TReaches(x, [e], TStep(x, e), w) && TStep(x, e).at == e.at
  {
    hide TSysInv, LinkInv, SysInv, TAct, Served, CanAct, Fits;
    Lines(x, w);
    SwapTimed(x, w);
    SoundWaits(x, w);
    StepTimed(x, e, w);
    CfgsStay(x, e);
    hide TView;
    assert [e][1..] == [];
    assert TReaches(TStep(x, e), [], TStep(x, e), w);
    SoundServed(x, e, w);
  }

  lemma SoundWaits(x: TSys, w: nat)
    requires Sound(x, w)
    ensures WaitsEnough(x.s.a.cfg, w) && WaitsEnough(x.s.b.cfg, w)
  {
    hide TSysInv, Served;
  }

  lemma SoundServed(x: TSys, e: TEvent, w: nat)
    requires TSysInv(x, w) && Lined(x) && Served(x, e.at, w) && CanAct(TView(x, e.side).s, ActAt(e.move, e.at))
    ensures Served(TStep(x, e), e.at, w) && TStep(x, e).at == e.at
  {
    hide TSysInv, LinkInv, SysInv, TAct, Served, CanAct;
    SwapTimed(x, w);
    SwapServed(x, e.at, w);
    var v := TView(x, e.side);
    Lines(v, w);
    ServedStays(v, e.move, e.at, w);
    Moved(v, e.move, e.at);
    SwapServed(TAct(v, e.move, e.at), e.at, w);
    hide TSwap;
  }

  lemma {:induction false} SoundAll(x: TSys, es: seq<TEvent>, k: TSys, w: nat)
    requires Sound(x, w) && TReaches(x, es, k, w)
    ensures Sound(k, w) && (k.s.a.cfg, k.s.b.cfg) == (x.s.a.cfg, x.s.b.cfg)
    decreases |es|
  {
    hide TSysInv, Served, LinkInv, CanAct, TStep, Fits;
    if es != [] {
      SoundStep(x, es[0], w);
      Lines(x, w);
      CfgsStay(x, es[0]);
      SoundAll(TStep(x, es[0]), es[1..], k, w);
    }
  }

  predicate NothingWaits(s: Sys) { s.ab == [] && s.ba == [] && !s.a.rx.complete && !s.b.rx.complete }

  /** Takes or collects what waits. */
  lemma WaitingMove(x: TSys) returns (e: TEvent)
    requires !NothingWaits(x.s)
    ensures e.at == x.at && !e.move.Sends?
    ensures var act := ActAt(e.move, e.at);
            CanAct(TView(x, e.side).s, act) && Productive(View(x.s, On(e.side, act)), act)
  {
    var m := if x.s.a.rx.complete || x.s.b.rx.complete then Collects else Takes;
    var side := if x.s.a.rx.complete then A else if x.s.b.rx.complete then B else if x.s.ba != [] then A else B;
    e := TEvent(side, m, x.at);
  }

  lemma WorkFalls(x: TSys, e: TEvent)
    requires SysInv(x.s) && Lined(x) && !e.move.Sends?
    requires var act := ActAt(e.move, e.at);
             CanAct(TView(x, e.side).s, act) && Productive(View(x.s, On(e.side, act)), act)
    ensures SysInv(TStep(x, e).s) && SysWork(TStep(x, e).s) < SysWork(x.s)
  {
    hide DirInv, SysWork, Productive, CanAct;
    var f := On(e.side, ActAt(e.move, e.at));
    StepKeeps(x.s, f);
    assert TStep(x, e).s == SysStep(x.s, f);
    hide SysStep, TStep;
  }

  lemma SoundLines(x: TSys, w: nat)
    requires Sound(x, w)
    ensures Lined(x) && SysInv(x.s) && Served(x, x.at, w)
  {
    hide TSysInv, Served;
    Lines(x, w);
  }

  /** One more event. */
  lemma Then(x: TSys, es: seq<TEvent>, y: TSys, e: TEvent, w: nat) returns (fs: seq<TEvent>)
    requires TReaches(x, es, y, w) && NoTSends(es) && !e.move.Sends?
    requires Sound(y, w) && Served(y, e.at, w) && CanAct(TView(y, e.side).s, ActAt(e.move, e.at))
    ensures Lined(y) && NoTSends(fs) && TReaches(x, fs, TStep(y, e), w)
    ensures Sound(TStep(y, e), w) && TStep(y, e).at == e.at
  {
    hide Sound, TReaches, Served, LinkInv, CanAct, TStep, TView;
    SoundLines(y, w);
    SoundStep(y, e, w);
    Joins(x, es, y, [e], TStep(y, e), w);
    fs := es + [e];
  }

  /** At the same moment, everything that waits is taken and collected. */
  lemma {:induction false} Drain(x: TSys, es: seq<TEvent>, y: TSys, w: nat) returns (fs: seq<TEvent>, k: TSys)
    requires Sound(y, w) && Lined(y) && TReaches(x, es, y, w) && NoTSends(es)
    ensures NoTSends(fs) && TReaches(x, fs, k, w) && Sound(k, w) && k.at == y.at && NothingWaits(k.s)
    decreases SysWork(y.s)
  {
    hide Sound, TReaches, Served, LinkInv, CanAct, TStep, SysWork, Productive, SysInv, NoTSends;
    fs, k := es, y;
    if !NothingWaits(y.s) {
      var e := WaitingMove(y);
      SoundLines(y, w);
      fs := Then(x, es, y, e, w);
      WorkFalls(y, e);
      k := TStep(y, e);
      SoundLines(k, w);
      fs, k := Drain(x, fs, k, w);
    }
  }

  /** A link is polled at `at`. */
  lemma PollAt(x: TSys, es: seq<TEvent>, y: TSys, side: Side, at: nat, w: nat) returns (fs: seq<TEvent>, k: TSys)
    requires Sound(y, w) && Served(y, at, w) && TReaches(x, es, y, w) && NoTSends(es)
    ensures NoTSends(fs) && TReaches(x, fs, k, w) && Sound(k, w) && k.at == at
    ensures TView(k, side).a.polled == at && TView(k, side).b == TView(y, side).b
    ensures TView(k, side).baAt == TView(y, side).baAt
    ensures TView(k, side).abAt == TView(y, side).abAt || TView(k, side).abAt == TView(y, side).abAt + [at]
    ensures k.s.a.rx.complete == y.s.a.rx.complete && k.s.b.rx.complete == y.s.b.rx.complete
    ensures |k.abAt| == |k.s.ab| && |k.baAt| == |k.s.ba|
  {
    hide TReaches, LinkInv, CanAct, SysInv, NoTSends, TSysInv, Served, TAct, Fits;
    SoundLines(y, w);
    SwapTimed(y, w);
    SwapServed(y, at, w);
    PollIsTimely(TView(y, side), at, w);
    Lines(TView(y, side), w);
    PollsLeave(TView(y, side), at);
    fs := Then(x, es, y, TEvent(side, Polls, at), w);
    k := TStep(y, TEvent(side, Polls, at));
    SoundLines(k, w);
  }

  lemma JustEmitted(q: seq<nat>, at: nat, w: nat)
    requires q == [] || q == [at]
    ensures Recent(q, at + w, w)
  {}

  /** What a poll leaves alone. */
  lemma PollsLeave(x: TSys, at: nat)
    requires Lined(x) && CanAct(x.s, PollNow(Clock(at)))
    ensures var y := TAct(x, Polls, at);
            && y.a.polled == at && y.b == x.b && y.at == at && y.baAt == x.baAt
            && (y.abAt == x.abAt || y.abAt == x.abAt + [at])
            && y.s.b == x.s.b && y.s.a.rx.complete == x.s.a.rx.complete
  {
    hide LinkInv, PollTx;
    TimelyPoll(x.s.a, Clock(at));
    hide Step;
  }

  /** Everything that waits is served at this moment: then time may go on by `w`. */
  lemma ServeAll(x: TSys, w: nat) returns (es: seq<TEvent>, k: TSys)
    requires Sound(x, w)
    ensures NoTSends(es) && TReaches(x, es, k, w) && Sound(k, w) && k.at == x.at && Served(k, x.at + w, w)
  {
    hide Sound, TReaches, LinkInv, SysInv, Served, NoTSends;
    SoundLines(x, w);
    NoEvents(x, w);
    es, k := Drain(x, [], x, w);
    SoundLines(k, w);
    assert k.abAt == [] && k.baAt == [];
    es, k := PollAt(x, es, k, A, x.at, w);
    SoundLines(k, w);
    es, k := PollAt(x, es, k, B, x.at, w);
    JustServed(k, x.at, w);
  }

  lemma JustServed(x: TSys, at: nat, w: nat)
    requires x.at == at == x.a.polled == x.b.polled && !x.s.a.rx.complete && !x.s.b.rx.complete
    requires (x.abAt == [] || x.abAt == [at]) && (x.baAt == [] || x.baAt == [at])
    ensures Served(x, at + w, w)
  {
    JustEmitted(x.abAt, at, w);
    JustEmitted(x.baAt, at, w);
  }

  /** Nothing that waits holds up the clock. */
  lemma {:induction false} TimeGoesOn(x: TSys, w: nat, until: nat) returns (es: seq<TEvent>, k: TSys)
    requires Sound(x, w) && w > 0
    ensures NoTSends(es) && TReaches(x, es, k, w) && Sound(k, w) && k.at >= until
    decreases until - x.at
  {
    hide Sound, TReaches, TView, NoTSends, Served, Lined;
    es, k := [], x;
    if x.at >= until {
      NoEvents(x, w);
      return;
    }
    es, k := ServeAll(x, w);
    ServedEarlier(k, w);
    es, k := PollAt(x, es, k, A, k.at + 1, w);
    var fs, y := TimeGoesOn(k, w, until);
    Joins(x, es, k, fs, y, w);
    BothSendFree(es, fs);
    es, k := es + fs, y;
  }

  lemma NoEvents(x: TSys, w: nat)
    ensures NoTSends([]) && TReaches(x, [], x, w)
  {}

  lemma BothSendFree(es: seq<TEvent>, fs: seq<TEvent>)
    requires NoTSends(es) && NoTSends(fs)
    ensures NoTSends(es + fs)
  {}

  lemma ServedEarlier(x: TSys, w: nat)
    requires Served(x, x.at + w, w) && w > 0
    ensures Served(x, x.at + 1, w)
  {}
}
