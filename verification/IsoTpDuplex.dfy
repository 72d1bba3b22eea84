/**
 Two links joined by lossless FIFO queues, both sending at once. Each queue mixes
 the data frames of one direction with the flow controls of the other. Every
 event of a link is a step of one direction of module IsoTpDelivery and leaves
 the other direction alone, so delivery, grant counts and progress carry over.
 */
module IsoTpDuplex {
  import opened Words
  import opened IsoTp
  import opened IsoTpStream
  import opened IsoTpLoss
  import opened IsoTpDelivery

  datatype Wire = Data(x: Parcel) | Fc(f: Bytes)

  /** History of one direction. */
  datatype Hist = Hist(sent: seq<Bytes>, last: Pos, grants: nat, got: seq<Receipt>)

  datatype Sys = Sys(a: Link, b: Link, ab: seq<Wire>, ba: seq<Wire>, fromA: Hist, fromB: Hist)

  datatype Act = SendMsg(data: Bytes, now: u32) | PollNow(now: u32) | TakeFrame(now: u32) | CollectMsg

  datatype Side = A | B

  datatype SysEvent = On(side: Side, act: Act)

  function WireBytes(w: Wire): Bytes {
    match w
    case Data(x) => x.bytes
    case Fc(f) => f
  }

  function DataOf(ws: seq<Wire>): seq<Parcel> {
    if ws == [] then []
    else (if ws[0].Data? then [ws[0].x] else []) + DataOf(ws[1..])
  }

  function FcsOf(ws: seq<Wire>): seq<Bytes> {
    if ws == [] then []
    else (if ws[0].Fc? then [ws[0].f] else []) + FcsOf(ws[1..])
  }

  function Swap(s: Sys): Sys {
    Sys(s.b, s.a, s.ba, s.ab, s.fromB, s.fromA)
  }

  /** The direction in which `a` sends. */
  function Forward(s: Sys): Dir {
    Dir(s.a.cfg, s.a.tx, DataOf(s.ab), s.b.cfg, s.b.rx, FcsOf(s.ba),
        s.fromA.sent, s.fromA.last, s.fromA.grants, s.fromA.got)
  }

  function Backward(s: Sys): Dir {
    Forward(Swap(s))
  }

  predicate SysInv(s: Sys) {
    && DirInv(Forward(s)) && DirInv(Backward(s))
    && s.a.rxId == s.b.txId && s.b.rxId == s.a.txId
  }

  // ---- the actions of link `a` ----------------------------------------------

  /** A poll at `now` sends the last frame of a message and returns before it looks at the receive half. */
  predicate LastCfDue(t: Tx, now: u32) {
    CfDue(t, now) && t.off + CF_MAX_DATA >= |t.msg|
  }

  /** No poll meets a timeout; a completed message is collected before the next frame is fed. */
  predicate CanAct(s: Sys, e: Act) {
    match e
    case SendMsg(_, _) => true
    case PollNow(now) =>
      && (s.a.tx.phase == WaitFc ==> Elapsed32(now, s.a.tx.timer) < s.a.cfg.nBs)
      && (s.a.rx.phase == Recv && !LastCfDue(s.a.tx, now) ==> Elapsed32(now, s.a.rx.timer) < s.a.cfg.nCr)
    case TakeFrame(_) => s.ba != [] && !s.a.rx.complete
    case CollectMsg => true
  }

  function Act1(s: Sys, e: Act): Sys
    requires LinkInv(s.a)
    requires CanAct(s, e)
  {
    match e
    case SendMsg(data, now) =>
      var o := Step(s.a, Send(data, now, true));
      if o.sent == [] then s.(a := o.link)
      else s.(a := o.link, fromA := s.fromA.(sent := s.fromA.sent + [data]),
              ab := s.ab + [Data(Parcel(Pos(|s.fromA.sent|, 0), o.sent[0]))])
    case PollNow(now) =>
      var o := Step(s.a, Event.Poll(now, true));
      if o.sent == [] then s.(a := o.link)
      else
        var end := End(s.fromA.last, DataOf(s.ab));
        s.(a := o.link, ab := s.ab + [Data(Parcel(Pos(end.idx, end.p + 1), o.sent[0]))])
    case TakeFrame(now) =>
      var w := s.ba[0];
      var o := Step(s.a, Frame(s.b.txId, WireBytes(w), now, true));
      var h := if w.Fc? then s.fromB
               else s.fromB.(last := w.x.pos, grants := (if w.x.pos.p == 0 then 0 else s.fromB.grants) + |o.sent|);
      s.(a := o.link, ba := s.ba[1..], ab := s.ab + (if o.sent == [] then [] else [Fc(o.sent[0])]), fromB := h)
    case CollectMsg =>
      var r := Receive(s.a.rx, MAX_MSG);
      s.(a := s.a.(rx := r.rx),
         fromB := if r.ret == Ok then s.fromB.(got := s.fromB.got + [Receipt(r.msg, s.fromB.grants)]) else s.fromB)
  }

  function SysStep(s: Sys, e: SysEvent): Sys
    requires LinkInv(s.a) && LinkInv(s.b)
    requires CanAct(if e.side == A then s else Swap(s), e.act)
  {
    if e.side == A then Act1(s, e.act) else Swap(Act1(Swap(s), e.act))
  }

  // ---- queues ---------------------------------------------------------------

  lemma {:induction false} QueuePush(ws: seq<Wire>, w: Wire)
    ensures DataOf(ws + [w]) == DataOf(ws) + if w.Data? then [w.x] else []
    ensures FcsOf(ws + [w]) == FcsOf(ws) + if w.Fc? then [w.f] else []
  {
    if ws == [] {
      assert (ws + [w])[1..] == [];
    } else {
      assert (ws + [w])[1..] == ws[1..] + [w];
      QueuePush(ws[1..], w);
    }
  }

  lemma QueuePop(ws: seq<Wire>)
    requires ws != []
    ensures DataOf(ws[1..]) == if ws[0].Data? then DataOf(ws)[1..] else DataOf(ws)
    ensures FcsOf(ws[1..]) == if ws[0].Fc? then FcsOf(ws)[1..] else FcsOf(ws)
    ensures ws[0].Data? ==> DataOf(ws) != [] && DataOf(ws)[0] == ws[0].x
    ensures ws[0].Fc? ==> FcsOf(ws) != [] && FcsOf(ws)[0] == ws[0].f
  {}

  lemma {:induction false} QueueLength(ws: seq<Wire>)
    ensures |ws| == |DataOf(ws)| + |FcsOf(ws)|
  {
    if ws != [] {
      QueueLength(ws[1..]);
    }
  }

  // ---- every action is a step of one direction ------------------------------

  lemma SendIsStep(s: Sys, data: Bytes, now: u32)
    requires LinkInv(s.a)
    ensures var k := Act1(s, SendMsg(data, now));
            Forward(k) == DSend(Forward(s), data, now) && Backward(k) == Backward(s)
            && k.a.rxId == s.a.rxId && k.a.txId == s.a.txId && k.b == s.b
  {
    var o := SendTx(s.a.cfg, s.a.tx, data, now, true);
    if o.sent != [] {
      QueuePush(s.ab, Data(Parcel(Pos(|s.fromA.sent|, 0), o.sent[0])));
    }
  }

  /** Without a timeout a poll only touches the send half. */
  lemma TimelyPoll(l: Link, now: u32)
    requires LinkInv(l)
    requires l.rx.phase == Recv && !LastCfDue(l.tx, now) ==> Elapsed32(now, l.rx.timer) < l.cfg.nCr
    ensures var t := PollTx(l.cfg, l.tx, now, true);
            Step(l, Event.Poll(now, true)) == LinkOut(l.(tx := t.tx), t.sent) && |t.sent| <= 1
  {
    assert LastCfDue(l.tx, now) ==> PollTx(l.cfg, l.tx, now, true).tx.phase == Idle;
    assert !LastCfDue(l.tx, now) ==> PollRx(l.cfg, l.rx, now) == l.rx;
  }

  lemma PollIsStep(s: Sys, now: u32)
    requires LinkInv(s.a) && CanAct(s, PollNow(now))
    ensures var k := Act1(s, PollNow(now));
            Forward(k) == DPoll(Forward(s), now) && Backward(k) == Backward(s)
            && k.a.rxId == s.a.rxId && k.a.txId == s.a.txId && k.b == s.b
  {
    TimelyPoll(s.a, now);
    hide PollTx, Step, DataOf, FcsOf;
    var o := Step(s.a, Event.Poll(now, true));
    if o.sent != [] {
      var end := End(s.fromA.last, DataOf(s.ab));
      QueuePush(s.ab, Data(Parcel(Pos(end.idx, end.p + 1), o.sent[0])));
    }
  }

  /** A physically addressed flow control only touches the send half. */
  lemma FcFrameStep(l: Link, f: Bytes, now: u32)
    requires LinkInv(l) && 1 <= |f| <= CAN_DL && PciType(f[0]) == PCI_FC
    ensures Step(l, Frame(l.rxId, f, now, true)) == LinkOut(l.(tx := HandleFc(l.cfg, l.tx, f, now)), [])
  {}

  lemma TakeFcIsStep(s: Sys, now: u32)
    requires LinkInv(s.a) && CanAct(s, TakeFrame(now)) && s.a.rxId == s.b.txId
    requires s.ba[0].Fc? && 1 <= |s.ba[0].f| <= CAN_DL && PciType(s.ba[0].f[0]) == PCI_FC
    ensures Forward(s).fcs != [] && Forward(s).fcs[0] == s.ba[0].f
    ensures var k := Act1(s, TakeFrame(now));
            Forward(k) == DGrant(Forward(s), now) && Backward(k) == Backward(s)
            && k.a.rxId == s.a.rxId && k.a.txId == s.a.txId && k.b == s.b
  {
    QueuePop(s.ba);
    FcFrameStep(s.a, s.ba[0].f, now);
    hide HandleFc, Step, DataOf, FcsOf;
    var k := Act1(s, TakeFrame(now));
    assert k.ab == s.ab;
  }

  /** A physically addressed data frame only touches the receive half. */
  lemma DataFrameStep(l: Link, f: Bytes, now: u32)
    requires LinkInv(l) && 1 <= |f| <= CAN_DL && PciType(f[0]) in {PCI_SF, PCI_FF, PCI_CF}
    ensures var o := RxOnData(l.cfg, l.rx, f, now, true);
            Step(l, Frame(l.rxId, f, now, true)) == LinkOut(l.(rx := o.rx), o.sent)
            && (o.sent == [] || o.sent == [o.sent[0]])
  {}

  lemma PushAnswer(ws: seq<Wire>, sent: seq<Bytes>)
    requires sent == [] || sent == [sent[0]]
    ensures var us := ws + (if sent == [] then [] else [Fc(sent[0])]);
            DataOf(us) == DataOf(ws) && FcsOf(us) == FcsOf(ws) + sent
  {
    if sent == [] {
      assert ws + [] == ws;
    } else {
      QueuePush(ws, Fc(sent[0]));
    }
  }

  lemma TakeDataIsStep(s: Sys, now: u32)
    requires LinkInv(s.a) && CanAct(s, TakeFrame(now)) && s.a.rxId == s.b.txId
    requires s.ba[0].Data? && 1 <= |s.ba[0].x.bytes| <= CAN_DL
    requires PciType(s.ba[0].x.bytes[0]) in {PCI_SF, PCI_FF, PCI_CF}
    ensures Backward(s).chan != [] && Backward(s).chan[0] == s.ba[0].x
    ensures var k := Act1(s, TakeFrame(now));
            Backward(k) == DTake(Backward(s), now) && Forward(k) == Forward(s)
            && k.a.rxId == s.a.rxId && k.a.txId == s.a.txId && k.b == s.b
  {
    hide RxOnData, Step, DataOf, FcsOf;
    QueuePop(s.ba);
    var f := s.ba[0].x.bytes;
    DataFrameStep(s.a, f, now);
    var o := RxOnData(s.a.cfg, s.a.rx, f, now, true);
    PushAnswer(s.ab, o.sent);
    var k := Act1(s, TakeFrame(now));
    assert k.ab == s.ab + (if o.sent == [] then [] else [Fc(o.sent[0])]);
    assert k.a == s.a.(rx := o.rx) && k.ba == s.ba[1..] && k.b == s.b && k.fromA == s.fromA;
    hide Act1, LinkInv, RxInv, TxInv;
  }

  lemma CollectIsStep(s: Sys)
    requires LinkInv(s.a)
    ensures var k := Act1(s, CollectMsg);
            Backward(k) == DCollect(Backward(s)) && Forward(k) == Forward(s)
            && k.a.rxId == s.a.rxId && k.a.txId == s.a.txId && k.b == s.b
  {
    hide DataOf, FcsOf;
  }

  lemma LinksOk(s: Sys)
    requires SysInv(s)
    ensures LinkInv(s.a) && LinkInv(s.b)
  {}

  // ---- invariant and progress -----------------------------------------------

  /** An action that moves some message forward. */
  predicate Productive(s: Sys, e: Act) {
    match e
    case SendMsg(_, _) => false
    case PollNow(now) => CfDue(s.a.tx, now)
    case TakeFrame(_) => true
    case CollectMsg => s.a.rx.complete
  }

  function SysWork(s: Sys): nat
    requires TxInv(s.a.tx) && TxInv(s.b.tx)
  {
    Work(Forward(s)) + Work(Backward(s))
  }

  /** One step of the direction `a` sends in; the other direction stands still. */
  lemma ForwardStep(s: Sys, k: Sys, d: Dir)
    requires SysInv(s) && DirInv(d) && Forward(k) == d && Backward(k) == Backward(s)
    requires k.a.rxId == s.a.rxId && k.a.txId == s.a.txId && k.b == s.b
    ensures SysInv(k)
    ensures SysWork(k) - Work(d) == SysWork(s) - Work(Forward(s))
  {
    LinksOk(s);
    LinksOk(k);
    hide DirInv, Forward, Work;
  }

  lemma BackwardStep(s: Sys, k: Sys, d: Dir)
    requires SysInv(s) && DirInv(d) && Backward(k) == d && Forward(k) == Forward(s)
    requires k.a.rxId == s.a.rxId && k.a.txId == s.a.txId && k.b == s.b
    ensures SysInv(k)
    ensures SysWork(k) - Work(d) == SysWork(s) - Work(Backward(s))
  {
    LinksOk(s);
    LinksOk(k);
    hide DirInv, Forward, Work;
  }

  predicate Improves(s: Sys, k: Sys, productive: bool)
    requires SysInv(s)
  {
    SysInv(k) && if productive then SysWork(k) < SysWork(s) else k == s
  }

  lemma SendKeepsSys(s: Sys, data: Bytes, now: u32)
    requires SysInv(s)
    ensures SysInv(Act1(s, SendMsg(data, now)))
  {
    LinksOk(s);
    hide DirInv, DSend;
    SendIsStep(s, data, now);
    SendKeeps(Forward(s), data, now);
    hide Act1;
    ForwardStep(s, Act1(s, SendMsg(data, now)), DSend(Forward(s), data, now));
  }

  lemma PollKeepsSys(s: Sys, now: u32)
    requires SysInv(s) && CanAct(s, PollNow(now))
    ensures Improves(s, Act1(s, PollNow(now)), CfDue(s.a.tx, now))
  {
    LinksOk(s);
    hide DirInv, DPoll;
    PollIsStep(s, now);
    PollKeeps(Forward(s), now);
    if CfDue(s.a.tx, now) {
      PollWorks(Forward(s), now);
      hide Act1;
      ForwardStep(s, Act1(s, PollNow(now)), DPoll(Forward(s), now));
    } else {
      TimelyPoll(s.a, now);
      assert Act1(s, PollNow(now)) == s;
    }
  }

  lemma TakeFcKeepsSys(s: Sys, now: u32)
    requires SysInv(s) && CanAct(s, TakeFrame(now)) && s.ba[0].Fc?
    ensures Improves(s, Act1(s, TakeFrame(now)), true)
  {
    LinksOk(s);
    QueuePop(s.ba);
    hide DirInv, DGrant, Act1, FcsOf, DataOf, HandleFc;
    GrantKeeps(Forward(s), now);
    TakeFcIsStep(s, now);
    ForwardStep(s, Act1(s, TakeFrame(now)), DGrant(Forward(s), now));
  }

  lemma TakeDataKeepsSys(s: Sys, now: u32)
    requires SysInv(s) && CanAct(s, TakeFrame(now)) && s.ba[0].Data?
    ensures Improves(s, Act1(s, TakeFrame(now)), true)
  {
    LinksOk(s);
    QueuePop(s.ba);
    hide DirInv, DTake, Act1, FcsOf, DataOf, RxOnData;
    TakeKeeps(Backward(s), now);
    TakeWorks(Backward(s), now);
    TakeDataIsStep(s, now);
    BackwardStep(s, Act1(s, TakeFrame(now)), DTake(Backward(s), now));
  }

  lemma TakeKeepsSys(s: Sys, now: u32)
    requires SysInv(s) && CanAct(s, TakeFrame(now))
    ensures Improves(s, Act1(s, TakeFrame(now)), true)
  {
    hide DirInv, Act1, Improves;
    if s.ba[0].Fc? {
      TakeFcKeepsSys(s, now);
    } else {
      TakeDataKeepsSys(s, now);
    }
  }

  lemma CollectKeepsSys(s: Sys)
    requires SysInv(s)
    ensures Improves(s, Act1(s, CollectMsg), s.a.rx.complete)
  {
    LinksOk(s);
    hide DirInv, DCollect;
    CollectIsStep(s);
    CollectKeeps(Backward(s));
    if s.a.rx.complete {
      hide Act1;
      BackwardStep(s, Act1(s, CollectMsg), DCollect(Backward(s)));
    } else {
      assert Act1(s, CollectMsg) == s;
    }
  }

  lemma Act1Keeps(s: Sys, e: Act)
    requires SysInv(s) && CanAct(s, e)
    ensures SysInv(Act1(s, e))
    ensures !e.SendMsg? ==> Improves(s, Act1(s, e), Productive(s, e))
  {
    hide DirInv, Act1, SysWork;
    match e
    case SendMsg(data, now) => SendKeepsSys(s, data, now);
    case PollNow(now) => PollKeepsSys(s, now);
    case TakeFrame(now) => TakeKeepsSys(s, now);
    case CollectMsg => CollectKeepsSys(s);
  }

  lemma StepKeeps(s: Sys, e: SysEvent)
    requires SysInv(s) && CanAct(if e.side == A then s else Swap(s), e.act)
    ensures SysInv(SysStep(s, e))
    ensures !e.act.SendMsg? ==>
              if Productive(if e.side == A then s else Swap(s), e.act)
              then SysWork(SysStep(s, e)) < SysWork(s) else SysStep(s, e) == s
  {
    if e.side == A {
      Act1Keeps(s, e.act);
    } else {
      assert Swap(Swap(s)) == s;
      Act1Keeps(Swap(s), e.act);
    }
    hide DirInv;
  }

  /** `s` leads to `k` through the events `es`; `n` of them moved a message forward. */
  ghost predicate Reaches(s: Sys, es: seq<SysEvent>, k: Sys, n: nat)
    decreases |es|
  {
    if es == [] then k == s && n == 0
    else
      var v := if es[0].side == A then s else Swap(s);
      && LinkInv(s.a) && LinkInv(s.b) && CanAct(v, es[0].act)
      && var d := if Productive(v, es[0].act) then 1 else 0;
         n >= d && Reaches(SysStep(s, es[0]), es[1..], k, n - d)
  }

  /** Two idle links, wired to each other, and empty queues. */
  predicate Start(s: Sys) {
    && LinkInv(s.a) && LinkInv(s.b)
    && s.a.tx.phase == Idle && s.b.tx.phase == Idle
    && s.a.rx.phase == Idle && s.b.rx.phase == Idle && !s.a.rx.complete && !s.b.rx.complete
    && s.a.rxId == s.b.txId && s.b.rxId == s.a.txId
    && s.ab == [] && s.ba == []
    && s.fromA == Hist([], Pos(-1, 0), 0, []) && s.fromB == s.fromA
  }

  lemma StartInv(s: Sys)
    requires Start(s)
    ensures SysInv(s)
  {}

  lemma {:induction false} ReachableInv(s: Sys, es: seq<SysEvent>, k: Sys, n: nat)
    requires SysInv(s) && Reaches(s, es, k, n)
    ensures SysInv(k)
    decreases |es|
  {
    hide DirInv, SysStep, CanAct, Productive, SysWork;
    if es != [] {
      StepKeeps(s, es[0]);
      var v := if es[0].side == A then s else Swap(s);
      ReachableInv(SysStep(s, es[0]), es[1..], k, n - if Productive(v, es[0].act) then 1 else 0);
    }
  }

  // ---- main results ---------------------------------------------------------

  /**
   At every moment of every run, in both directions at once: the messages handed
   up are the first messages sent, byte for byte and in order, and each took
   exactly the promised number of flow controls.
   */
  lemma DeliveredInOrder(s: Sys, es: seq<SysEvent>, k: Sys, n: nat)
    requires Start(s) && Reaches(s, es, k, n)
    ensures |k.fromA.got| <= |k.fromA.sent| && |k.fromB.got| <= |k.fromB.sent|
    ensures forall i | 0 <= i < |k.fromA.got| ::
              k.fromA.got[i] == Receipt(k.fromA.sent[i], GrantsFor(k.b.cfg.bs, |k.fromA.sent[i]|))
    ensures forall i | 0 <= i < |k.fromB.got| ::
              k.fromB.got[i] == Receipt(k.fromB.sent[i], GrantsFor(k.a.cfg.bs, |k.fromB.sent[i]|))
  {
    StartInv(s);
    ReachableInv(s, es, k, n);
    DeliveredArePrefix(Forward(k));
    DeliveredArePrefix(Backward(k));
  }

  /**
   In every reachable state: a message of 1 to 4095 bytes handed to an idle sender is the next one
   sent; any other send changes nothing at all.
   */
  lemma SendJoins(s: Sys, m: Bytes, now: u32)
    requires SysInv(s)
    ensures LinkInv(s.a)
    ensures var k := Act1(s, SendMsg(m, now));
            if s.a.tx.phase == Idle && Sendable(m) then
              && k.fromA.sent == s.fromA.sent + [m] && k.fromB == s.fromB && k.b == s.b
              && k.a.tx.phase == (if |m| <= SF_MAX_DATA then Idle else WaitFc)
              && (k.a.tx.phase == WaitFc ==> k.a.tx.msg == m && k.a.tx.timer == now)
            else k == s
  {
    LinksOk(s);
    SendAcceptedIff(s.a.cfg, s.a.tx, m, now, true);
    hide SendTx, DirInv;
  }

  /** Between sends, the events that move a message forward are bounded by the work at hand. */
  lemma {:induction false} ProgressIsBounded(s: Sys, es: seq<SysEvent>, k: Sys, n: nat)
    requires SysInv(s) && Reaches(s, es, k, n)
    requires forall i | 0 <= i < |es| :: !es[i].act.SendMsg?
    ensures SysInv(k) && SysWork(k) + n <= SysWork(s)
    decreases |es|
  {
    hide DirInv, SysStep, CanAct, Productive, SysWork;
    if es != [] {
      StepKeeps(s, es[0]);
      var v := if es[0].side == A then s else Swap(s);
      ProgressIsBounded(SysStep(s, es[0]), es[1..], k, n - if Productive(v, es[0].act) then 1 else 0);
    }
  }

  /** While work is left something is under way: a message to collect, a frame to take, or a message being sent. */
  lemma SomethingUnderWay(s: Sys)
    requires SysInv(s) && SysWork(s) > 0
    ensures || s.a.rx.complete || s.b.rx.complete || s.ab != [] || s.ba != []
            || s.a.tx.phase == Sending || s.b.tx.phase == Sending
  {
    QueueLength(s.ab);
    QueueLength(s.ba);
    if s.ab == [] && s.ba == [] && !s.a.rx.complete && !s.b.rx.complete {
      NeverStuck(Forward(s));
      NeverStuck(Backward(s));
    }
    hide DirInv;
  }

  /** No work left: both senders are idle and everything sent was delivered. */
  lemma AllDelivered(s: Sys)
    requires SysInv(s) && SysWork(s) == 0
    ensures s.a.tx.phase == Idle && s.b.tx.phase == Idle
    ensures |s.fromA.got| == |s.fromA.sent| && |s.fromB.got| == |s.fromB.sent|
  {
    NoWorkMeansDelivered(Forward(s));
    NoWorkMeansDelivered(Backward(s));
  }
}
