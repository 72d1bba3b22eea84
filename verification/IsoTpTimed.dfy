/**
 One direction of module IsoTpDelivery in real time. Frames reach the other side at
 most `w` ms after they were emitted, a completed message is collected and the sender
 polled at least every `w` ms. Times are true milliseconds; the links see them modulo
 2^32. What every step keeps bounds how long either timer can run and when each message
 has been handed up.
 */
module IsoTpTimed {
  import opened Words
  import opened IsoTp
  import opened IsoTpStream
  import opened IsoTpLoss
  import opened IsoTpDelivery

  /**
   `chanAt` and `fcsAt` tell when the frames under way were emitted, `from` when the
   running timer of the sender was started, `heard` when the receiver took its last data
   frame, `polled` when the sender was polled last, `since` when the message waiting to
   be collected was completed, and `born` when each message was sent.
   */
  datatype Timed = Timed(d: Dir, at: nat, chanAt: seq<nat>, fcsAt: seq<nat>,
                         from: nat, heard: nat, polled: nat, since: nat, born: seq<nat>)

  function Clock(at: nat): u32 { at % TWO_32 }

  /** A poll less than the separation time after the last frame does nothing: how late the last such poll can be. */
  function Lag(stmin: byte): nat {
    if StminToMs(stmin) == 0 then 0 else StminToMs(stmin) - 1
  }

  /** The receiver waits long enough for a sender that keeps the separation time it asks for. */
  predicate WaitsEnough(cfg: Cfg, w: nat) { cfg.nCr > Lag(cfg.stmin) + 3 * w }

  // ---- steps at a time ------------------------------------------------------

  function TSend(x: Timed, data: Bytes, at: nat): Timed
    requires TxInv(x.d.tx)
  {
    var k := DSend(x.d, data, Clock(at));
    if |k.sent| == |x.d.sent| then x.(d := k, at := at)
    else x.(d := k, at := at, chanAt := x.chanAt + [at], from := at, born := x.born + [at])
  }

  function TPoll(x: Timed, at: nat): Timed
    requires TxInv(x.d.tx)
  {
    var k := x.(d := DPoll(x.d, Clock(at)), at := at, polled := at);
    if CfDue(x.d.tx, Clock(at)) then k.(chanAt := x.chanAt + [at], from := at) else k
  }

  function TGrant(x: Timed, at: nat): Timed
    requires TxInv(x.d.tx) && x.d.fcs != [] && 1 <= |x.d.fcs[0]| <= CAN_DL && x.fcsAt != []
  {
    x.(d := DGrant(x.d, Clock(at)), at := at, fcsAt := x.fcsAt[1..], from := at)
  }

  function TTake(x: Timed, at: nat): Timed
    requires RxInv(x.d.rx) && x.d.chan != [] && 1 <= |x.d.chan[0].bytes| <= CAN_DL && x.chanAt != []
  {
    var k := DTake(x.d, Clock(at));
    x.(d := k, at := at, chanAt := x.chanAt[1..], fcsAt := if k.fcs == x.d.fcs then x.fcsAt else x.fcsAt + [at],
       heard := at, since := at)
  }

  function TCollect(x: Timed, at: nat): Timed
    requires RxInv(x.d.rx)
  {
    x.(d := DCollect(x.d), at := at)
  }

  predicate Past(q: seq<nat>, at: nat) { forall k :: 0 <= k < |q| ==> q[k] <= at }

  predicate Recent(q: seq<nat>, at: nat, w: nat) { forall k :: 0 <= k < |q| ==> at <= q[k] + w }

  lemma PastStays(q: seq<nat>, before: nat, at: nat)
    requires Past(q, before) && before <= at
    ensures Past(q, at) && Past(q + [at], at)
    ensures q != [] ==> Past(q[1..], at)
    ensures |q| > 1 ==> q[1] <= at
  {}

  lemma RecentEnds(q: seq<nat>, at: nat, w: nat)
    requires Recent(q, at, w) && q != []
    ensures at <= q[0] + w && at <= q[|q| - 1] + w
  {}

  /** Nobody has let anything wait for longer than `w`, and by `at` nobody will have. */
  predicate InTime(x: Timed, at: nat, w: nat) {
    && x.at <= at <= x.polled + w
    && Recent(x.chanAt, at, w) && Recent(x.fcsAt, at, w)
    && (x.d.rx.complete ==> at <= x.since + w)
  }

  // ---- invariant ------------------------------------------------------------

  predicate Clocked(x: Timed) {
    && |x.chanAt| == |x.d.chan| && |x.fcsAt| == |x.d.fcs|
    && x.from <= x.at && x.heard <= x.at && x.polled <= x.at && x.since <= x.at
    && Past(x.chanAt, x.at) && Past(x.fcsAt, x.at)
    && (x.d.tx.phase == WaitFc ==> x.d.tx.timer == Clock(x.from))
    && (x.d.tx.phase == Sending ==> x.d.tx.stTimer == Clock(x.from))
    && (x.d.rx.phase == Recv ==> x.d.rx.timer == Clock(x.heard))
  }

  /** How far apart the two ends of a message under way can be. */
  predicate Paced(x: Timed, w: nat)
    requires Clocked(x)
  {
    var d := x.d;
    && (d.tx.phase == WaitFc ==>
          if d.chan == [] then x.fcsAt != [] && x.fcsAt[0] <= x.from + w else x.chanAt[|d.chan| - 1] == x.from)
    && (d.tx.phase == Sending ==> x.polled <= x.from || x.polled < x.from + StminToMs(d.rcfg.stmin))
    && (d.rx.phase == Recv ==>
          if d.chan != [] then x.chanAt[0] <= x.heard + Lag(d.rcfg.stmin) + 2 * w
          else if d.tx.phase == WaitFc then x.fcsAt != [] && x.fcsAt[0] == x.heard
          else x.from <= x.heard + w)
  }

  /** The longest time one consecutive frame can take, its grant included, `n` times. */
  function Turns(stmin: byte, w: nat, n: nat): nat {
    n * (Lag(stmin) + 3 * w)
  }

  lemma TurnsStep(stmin: byte, w: nat, n: nat)
    requires n > 0
    ensures Turns(stmin, w, n) == Turns(stmin, w, n - 1) + Lag(stmin) + 3 * w
  {
    var turn := Lag(stmin) + 3 * w;
    assert n * turn == (n - 1) * turn + turn;
  }

  /** A message of `n` bytes is handed up at most this long after it was sent. */
  function Allowance(stmin: byte, w: nat, n: nat): nat {
    if n <= SF_MAX_DATA then 2 * w else Turns(stmin, w, NumCf(n)) + 4 * w
  }

  function DueAt(x: Timed, w: nat, i: nat): nat
    requires i < |x.born| == |x.d.sent|
  {
    x.born[i] + Allowance(x.d.rcfg.stmin, w, |x.d.sent[i]|)
  }

  /** Consecutive frames still to be sent. */
  function Left(t: Tx): (n: nat)
    requires TxInv(t) && t.phase != Idle
    ensures n >= 1
  {
    NumCf(|t.msg|) - CfIndex(t.off)
  }

  predicate SenderOnTime(x: Timed, w: nat)
    requires TxInv(x.d.tx) && |x.born| == |x.d.sent|
  {
    x.d.tx.phase != Idle ==>
      && x.d.sent != []
      && x.from + (if x.d.tx.phase == WaitFc then 4 else 2) * w + Turns(x.d.rcfg.stmin, w, Left(x.d.tx))
      <= DueAt(x, w, |x.d.sent| - 1)
  }

  predicate FramesOnTime(x: Timed, w: nat)
    requires |x.born| == |x.d.sent| && |x.d.chan| == |x.chanAt|
  {
    forall k :: 0 <= k < |x.d.chan| ==>
      0 <= x.d.chan[k].pos.idx < |x.born| && x.chanAt[k] + 2 * w <= DueAt(x, w, x.d.chan[k].pos.idx)
  }

  predicate ReceiverOnTime(x: Timed, w: nat)
    requires |x.born| == |x.d.sent|
  {
    x.d.rx.complete ==> 0 <= x.d.last.idx < |x.born| && x.since + w <= DueAt(x, w, x.d.last.idx)
  }

  /** Every message under way will be handed up when it is due. */
  predicate OnTime(x: Timed, w: nat)
    requires TxInv(x.d.tx) && |x.chanAt| == |x.d.chan|
  {
    |x.born| == |x.d.sent| && SenderOnTime(x, w) && FramesOnTime(x, w) && ReceiverOnTime(x, w)
  }

  predicate Pace(x: Timed, w: nat) {
    DirInv(x.d) && Clocked(x) && Paced(x, w)
  }

  predicate TimedInv(x: Timed, w: nat) {
    Pace(x, w) && OnTime(x, w)
  }

  // ---- how far the timers can run -------------------------------------------

  /** What the clocks need to know of the direction. */
  lemma DirFacts(d: Dir)
    requires DirInv(d)
    ensures TxInv(d.tx) && RxInv(d.rx)
    ensures |d.fcs| == if d.tx.phase == WaitFc && d.chan == [] then 1 else 0
    ensures d.tx.phase == Sending ==> d.tx.stmin == d.rcfg.stmin
    ensures d.tx.phase != Idle ==> d.sent != [] && d.tx.msg == d.sent[|d.sent| - 1]
    ensures d.rx.phase == Recv ==> !d.rx.complete && (d.chan == [] ==> d.tx.phase != Idle)
    ensures d.rx.complete ==> 0 <= d.last.idx < |d.sent|
  {
    hide ChanInv, Quiet, Triggers, GotPrefix, Completed, Reassembling;
    if d.rx.phase == Recv && d.chan == [] && d.tx.phase == Idle {
      NeverStuck(d);
    }
  }

  lemma Bounds(x: Timed, at: nat, w: nat)
    requires DirInv(x.d) && Clocked(x) && Paced(x, w) && InTime(x, at, w)
    ensures x.d.tx.phase == WaitFc ==> at <= x.from + 2 * w
    ensures x.d.tx.phase == Sending ==> at <= x.from + Lag(x.d.rcfg.stmin) + w
    ensures x.d.rx.phase == Recv ==> at <= x.heard + Lag(x.d.rcfg.stmin) + 3 * w
  {
    DirFacts(x.d);
    hide DirInv, Past, Recent;
    if x.chanAt != [] {
      RecentEnds(x.chanAt, at, w);
    }
    if x.fcsAt != [] {
      RecentEnds(x.fcsAt, at, w);
    }
  }

  lemma TrueElapsed(at: nat, from: nat)
    requires from <= at < from + TWO_32
    ensures Elapsed32(Clock(at), Clock(from)) == at - from
  {}

  /** No poll of either link meets a timeout. */
  lemma NoTimeout(x: Timed, at: nat, w: nat)
    requires DirInv(x.d) && Clocked(x) && Paced(x, w) && InTime(x, at, w)
    ensures x.d.scfg.nBs > 2 * w ==> NoSendTimeout(x.d, Clock(at))
    ensures WaitsEnough(x.d.rcfg, w) && x.d.rx.phase == Recv ==> Elapsed32(Clock(at), x.d.rx.timer) < x.d.rcfg.nCr
  {
    Bounds(x, at, w);
    hide DirInv, Paced;
    if x.d.tx.phase == WaitFc && x.d.scfg.nBs > 2 * w {
      TrueElapsed(at, x.from);
    }
    if x.d.rx.phase == Recv && WaitsEnough(x.d.rcfg, w) {
      TrueElapsed(at, x.heard);
    }
  }

  /** A frame is due once the separation time is truly over. */
  lemma DueIsTrue(x: Timed, at: nat, w: nat)
    requires DirInv(x.d) && Clocked(x) && Paced(x, w) && InTime(x, at, w)
    requires WaitsEnough(x.d.rcfg, w) && x.d.tx.phase == Sending
    ensures CfDue(x.d.tx, Clock(at)) <==> at >= x.from + StminToMs(x.d.rcfg.stmin)
  {
    Bounds(x, at, w);
    DirFacts(x.d);
    TrueElapsed(at, x.from);
    hide DirInv, Paced;
  }

  // ---- every step keeps the pace --------------------------------------------

  lemma PassKeeps(x: Timed, at: nat, w: nat)
    requires Pace(x, w) && x.at <= at
    ensures Pace(x.(at := at), w)
  {
    PastStays(x.chanAt, x.at, at);
    PastStays(x.fcsAt, x.at, at);
    hide DirInv, Past, Clock;
  }

  /** A send does nothing, or it starts the next message. */
  lemma SendShape(d: Dir, data: Bytes, now: u32)
    requires DirInv(d)
    ensures var k := DSend(d, data, now);
            if |k.sent| == |d.sent| then k == d
            else
              && d.tx.phase == Idle && Sendable(data) && k.sent == d.sent + [data]
              && k == d.(tx := k.tx, sent := k.sent, chan := k.chan)
              && |k.chan| == |d.chan| + 1
              && k.tx.phase == (if |data| <= SF_MAX_DATA then Idle else WaitFc)
              && (k.tx.phase == WaitFc ==> k.tx.timer == now && k.tx.msg == data && k.tx.off == FF_FIRST_DATA)
  {
    hide ChanInv, Quiet, FlowInv, TakenInv;
    SendEmits(d.scfg, d.tx, data, now, true);
  }

  /** A frame has been emitted and the sender's timer restarted. */
  lemma EmitPace(x: Timed, k: Dir, at: nat, polled: nat, born: seq<nat>, w: nat)
    requires Clocked(x) && Paced(x, w) && x.at <= at && polled <= at && DirInv(k)
    requires |k.chan| == |x.d.chan| + 1 && k.rx == x.d.rx && k.fcs == x.d.fcs && k.rcfg == x.d.rcfg
    requires (k.tx.phase == WaitFc ==> k.tx.timer == Clock(at)) && (k.tx.phase == Sending ==> k.tx.stTimer == Clock(at))
    requires x.d.rx.phase == Recv && x.d.chan == [] ==> at <= x.heard + Lag(x.d.rcfg.stmin) + 2 * w
    ensures Pace(x.(d := k, at := at, chanAt := x.chanAt + [at], from := at, polled := polled, born := born), w)
  {
    PastStays(x.chanAt, x.at, at);
    PastStays(x.fcsAt, x.at, at);
    hide DirInv, Past, Clock, Lag;
  }

  lemma SendPace(x: Timed, data: Bytes, at: nat, w: nat)
    requires Pace(x, w) && InTime(x, at, w)
    ensures Pace(TSend(x, data, at), w)
  {
    var k := DSend(x.d, data, Clock(at));
    SendKeeps(x.d, data, Clock(at));
    SendShape(x.d, data, Clock(at));
    DirFacts(x.d);
    hide DirInv, DSend, Clock, Clocked, Paced, Recent;
    if |k.sent| == |x.d.sent| {
      PassKeeps(x, at, w);
    } else {
      EmitPace(x, k, at, x.polled, x.born + [at], w);
    }
  }

  /** A poll does nothing, or it sends the next frame of the message. */
  lemma PollShape(d: Dir, now: u32)
    requires DirInv(d) && NoSendTimeout(d, now)
    ensures var k := DPoll(d, now);
            if !CfDue(d.tx, now) then k == d
            else
              && k == d.(tx := k.tx, chan := k.chan)
              && |k.chan| == |d.chan| + 1
              && TxInv(k.tx) && k.tx.phase != Recv
              && (k.tx.phase == WaitFc ==> k.tx.timer == now) && (k.tx.phase == Sending ==> k.tx.stTimer == now)
              && (k.tx.phase != Idle ==> k.tx.msg == d.tx.msg && Left(k.tx) == Left(d.tx) - 1)
  {
    hide ChanInv, Quiet, FlowInv, TakenInv, CfFrame;
    var o := PollTx(d.scfg, d.tx, now, true);
    assert o.tx.phase != Idle && CfDue(d.tx, now) ==> CfIndex(o.tx.off) == CfIndex(d.tx.off) + 1;
  }

  lemma PollPace(x: Timed, at: nat, w: nat)
    requires Pace(x, w) && InTime(x, at, w) && NoSendTimeout(x.d, Clock(at)) && WaitsEnough(x.d.rcfg, w)
    ensures Pace(TPoll(x, at), w)
  {
    PollKeeps(x.d, Clock(at));
    PollShape(x.d, Clock(at));
    DirFacts(x.d);
    if CfDue(x.d.tx, Clock(at)) {
      EmitBound(x, at, w);
      EmitPace(x, DPoll(x.d, Clock(at)), at, at, x.born, w);
    } else {
      IdlePollPace(x, at, w);
    }
    hide Pace, DPoll;
  }

  /** Between two frames of a message no more time passes than the receiver allows for. */
  lemma EmitBound(x: Timed, at: nat, w: nat)
    requires Pace(x, w) && InTime(x, at, w) && x.d.tx.phase == Sending
    ensures x.d.rx.phase == Recv && x.d.chan == [] ==> at <= x.heard + Lag(x.d.rcfg.stmin) + 2 * w
  {
    Bounds(x, at, w);
    hide DirInv, Past, Recent, Lag;
  }

  lemma IdlePollPace(x: Timed, at: nat, w: nat)
    requires Pace(x, w) && InTime(x, at, w) && WaitsEnough(x.d.rcfg, w) && !CfDue(x.d.tx, Clock(at))
    ensures Pace(x.(at := at, polled := at), w)
  {
    if x.d.tx.phase == Sending {
      DueIsTrue(x, at, w);
    }
    PastStays(x.chanAt, x.at, at);
    PastStays(x.fcsAt, x.at, at);
    hide DirInv, Past, Recent, Lag, Clock;
  }

  lemma GrantPace(x: Timed, at: nat, w: nat)
    requires Pace(x, w) && InTime(x, at, w) && x.d.fcs != []
    ensures 1 <= |x.d.fcs[0]| <= CAN_DL && Pace(TGrant(x, at), w)
  {
    GrantKeeps(x.d, Clock(at));
    GrantShape(x.d, Clock(at));
    DirFacts(x.d);
    RecentEnds(x.fcsAt, at, w);
    PastStays(x.chanAt, x.at, at);
    PastStays(x.fcsAt, x.at, at);
    hide DirInv, DGrant, Past, Recent, Clock;
  }

  lemma GrantShape(d: Dir, now: u32)
    requires DirInv(d) && d.fcs != []
    ensures 1 <= |d.fcs[0]| <= CAN_DL
    ensures d.tx.phase == WaitFc && d.chan == [] && DGrant(d, now) == Resumed(d, now)
  {
    hide ChanInv, Quiet, TakenInv, Triggers;
    GrantTakes(d, now);
  }

  /** The receiver takes a frame and answers it with at most one grant. */
  lemma TakeShape(d: Dir, now: u32)
    requires DirInv(d) && d.chan != [] && !d.rx.complete
    ensures 1 <= |d.chan[0].bytes| <= CAN_DL
    ensures var k := DTake(d, now);
            && k == d.(rx := k.rx, chan := d.chan[1..], fcs := k.fcs, last := d.chan[0].pos, grants := k.grants)
            && (k.fcs == d.fcs || |k.fcs| == |d.fcs| + 1)
            && (k.rx.phase == Recv ==> k.rx.timer == now)
  {
    TakeKeeps(d, now);
    if d.chan[0].pos.p == 0 {
      StartsAfterAll(d);
    } else {
      TakeCfKeeps(d, now);
    }
    assert RxInv(d.rx);
    hide DirInv;
    TimerRestarts(d.rcfg, d.rx, d.chan[0].bytes, now);
    hide RxOnData;
    var o := RxOnData(d.rcfg, d.rx, d.chan[0].bytes, now, true);
    assert o.sent == [] ==> d.fcs + o.sent == d.fcs;
  }

  lemma TimerRestarts(cfg: Cfg, r: Rx, f: Bytes, now: u32)
    requires RxInv(r) && 1 <= |f| <= CAN_DL && (r.phase == Recv ==> PciType(f[0]) == PCI_CF)
    ensures var o := RxOnData(cfg, r, f, now, true);
            |o.sent| <= 1 && (o.rx.phase == Recv ==> o.rx.timer == now)
  {
    hide Blit, FcFrame;
  }

  lemma TakePace(x: Timed, at: nat, w: nat)
    requires Pace(x, w) && InTime(x, at, w) && x.d.chan != [] && !x.d.rx.complete
    ensures 1 <= |x.d.chan[0].bytes| <= CAN_DL && Pace(TTake(x, at), w)
  {
    TakeKeeps(x.d, Clock(at));
    TakeShape(x.d, Clock(at));
    DirFacts(x.d);
    DirFacts(DTake(x.d, Clock(at)));
    RecentEnds(x.chanAt, at, w);
    hide DirInv, Past, Recent, Clock, DTake;
    TakenPace(x, DTake(x.d, Clock(at)), at, w);
  }

  lemma TakenPace(x: Timed, k: Dir, at: nat, w: nat)
    requires Clocked(x) && Paced(x, w) && x.at <= at && x.chanAt != [] && DirInv(k)
    requires |k.chan| == |x.d.chan| - 1 && k.rcfg == x.d.rcfg && k.tx == x.d.tx
    requires at <= x.chanAt[|x.chanAt| - 1] + w
    requires k.fcs == x.d.fcs || |k.fcs| == |x.d.fcs| + 1
    requires |x.d.fcs| == 0 && |k.fcs| == if k.tx.phase == WaitFc && k.chan == [] then 1 else 0
    requires k.rx.phase == Recv ==> k.rx.timer == Clock(at)
    requires k.tx.phase == Idle || k.tx.phase == WaitFc || k.tx.phase == Sending
    ensures Pace(x.(d := k, at := at, chanAt := x.chanAt[1..],
                    fcsAt := if k.fcs == x.d.fcs then x.fcsAt else x.fcsAt + [at], heard := at, since := at), w)
  {
    PastStays(x.chanAt, x.at, at);
    PastStays(x.fcsAt, x.at, at);
    hide DirInv, Past, Clock;
  }

  lemma CollectPace(x: Timed, at: nat, w: nat)
    requires Pace(x, w) && x.at <= at
    ensures Pace(TCollect(x, at), w)
  {
    CollectKeeps(x.d);
    PastStays(x.chanAt, x.at, at);
    PastStays(x.fcsAt, x.at, at);
    hide DirInv, Past, Clock;
  }

  // ---- every step keeps the deadlines ---------------------------------------

  /** One more message leaves the due times of the others alone. */
  lemma DueGrows(x: Timed, w: nat, m: Bytes, at: nat)
    requires |x.born| == |x.d.sent|
    ensures var y := x.(d := x.d.(sent := x.d.sent + [m]), born := x.born + [at]);
            && (forall i :: 0 <= i < |x.born| ==> DueAt(y, w, i) == DueAt(x, w, i))
            && DueAt(y, w, |x.born|) == at + Allowance(x.d.rcfg.stmin, w, |m|)
  {
    hide Allowance;
  }

  /** A frame emitted in time joins the queue. */
  lemma FramesPush(x: Timed, w: nat, p: Parcel, at: nat)
    requires |x.born| == |x.d.sent| && |x.d.chan| == |x.chanAt| && FramesOnTime(x, w)
    requires 0 <= p.pos.idx < |x.born| && at + 2 * w <= DueAt(x, w, p.pos.idx)
    ensures FramesOnTime(x.(d := x.d.(chan := x.d.chan + [p]), chanAt := x.chanAt + [at]), w)
  {
    hide Allowance;
    var y := x.(d := x.d.(chan := x.d.chan + [p]), chanAt := x.chanAt + [at]);
    forall k | 0 <= k < |y.d.chan|
      ensures 0 <= y.d.chan[k].pos.idx < |y.born| && y.chanAt[k] + 2 * w <= DueAt(y, w, y.d.chan[k].pos.idx)
    {
      assert k < |x.d.chan| ==> y.d.chan[k] == x.d.chan[k] && y.chanAt[k] == x.chanAt[k];
    }
  }

  lemma SendParcel(d: Dir, data: Bytes, now: u32) returns (p: Parcel)
    requires DirInv(d) && |DSend(d, data, now).sent| != |d.sent|
    ensures DSend(d, data, now).chan == d.chan + [p] && p.pos.idx == |d.sent|
  {
    var o := SendTx(d.scfg, d.tx, data, now, true);
    p := Parcel(Pos(|d.sent|, 0), o.sent[0]);
  }

  lemma SendOnTime(x: Timed, data: Bytes, at: nat, w: nat)
    requires TimedInv(x, w) && x.at <= at
    ensures TxInv(TSend(x, data, at).d.tx) && |TSend(x, data, at).chanAt| == |TSend(x, data, at).d.chan|
    ensures OnTime(TSend(x, data, at), w)
  {
    hide OnTime, DSend, Paced, Clock, FlowInv, TakenInv, Allowance;
    var k := DSend(x.d, data, Clock(at));
    SendKeeps(x.d, data, Clock(at));
    SendShape(x.d, data, Clock(at));
    DirFacts(x.d);
    DirFacts(k);
    if |k.sent| != |x.d.sent| {
      var p := SendParcel(x.d, data, Clock(at));
      hide DirInv, TxInv;
      StartOnTime(x, k, data, p, at, w);
    } else {
      hide DirInv;
      StaysOnTime(x, at, w);
    }
  }

  lemma StaysOnTime(x: Timed, at: nat, w: nat)
    requires TxInv(x.d.tx) && |x.chanAt| == |x.d.chan| && OnTime(x, w)
    ensures OnTime(x.(at := at), w) && OnTime(x.(at := at, polled := at), w)
  {
    hide Allowance, Turns, Left, TxInv;
  }

  lemma StartOnTime(x: Timed, k: Dir, data: Bytes, p: Parcel, at: nat, w: nat)
    requires |x.chanAt| == |x.d.chan| && TxInv(x.d.tx) && TxInv(k.tx) && OnTime(x, w)
    requires k == x.d.(tx := k.tx, sent := x.d.sent + [data], chan := x.d.chan + [p]) && p.pos.idx == |x.d.sent|
    requires k.tx.phase == (if |data| <= SF_MAX_DATA then Idle else WaitFc)
    requires k.tx.phase == WaitFc ==> k.tx.msg == data && k.tx.off == FF_FIRST_DATA
    ensures OnTime(x.(d := k, at := at, chanAt := x.chanAt + [at], from := at, born := x.born + [at]), w)
  {
    DueGrows(x, w, data, at);
    var y := x.(d := x.d.(sent := k.sent), born := x.born + [at]);
    assert at + Allowance(x.d.rcfg.stmin, w, |data|) == DueAt(y, w, |x.born|);
    assert k.tx.phase == WaitFc ==> Left(k.tx) == NumCf(|data|);
    assert |data| > SF_MAX_DATA ==>
        Allowance(x.d.rcfg.stmin, w, |data|) == Turns(x.d.rcfg.stmin, w, NumCf(|data|)) + 4 * w;
    hide Turns, Left, NumCf, TxInv;
    assert Allowance(x.d.rcfg.stmin, w, |data|) >= 2 * w;
    hide Allowance;
    assert FramesOnTime(y, w) && ReceiverOnTime(y, w);
    FramesPush(y, w, p, at);
  }

  lemma PollParcel(d: Dir, now: u32) returns (p: Parcel)
    requires DirInv(d) && CfDue(d.tx, now)
    ensures DPoll(d, now).chan == d.chan + [p] && p.pos.idx == |d.sent| - 1
  {
    hide ChanInv, FlowInv, TakenInv, Advance, CfFrame;
    var o := PollTx(d.scfg, d.tx, now, true);
    var end := End(d.last, d.chan);
    p := Parcel(Pos(end.idx, end.p + 1), o.sent[0]);
  }

  lemma PollOnTime(x: Timed, at: nat, w: nat)
    requires TimedInv(x, w) && InTime(x, at, w) && NoSendTimeout(x.d, Clock(at)) && WaitsEnough(x.d.rcfg, w)
    ensures TxInv(TPoll(x, at).d.tx) && |TPoll(x, at).chanAt| == |TPoll(x, at).d.chan|
    ensures OnTime(TPoll(x, at), w)
  {
    hide OnTime, DPoll, Clock, FlowInv, TakenInv, Paced, Allowance, InTime;
    var k := DPoll(x.d, Clock(at));
    PollKeeps(x.d, Clock(at));
    PollShape(x.d, Clock(at));
    DirFacts(x.d);
    Bounds(x, at, w);
    if CfDue(x.d.tx, Clock(at)) {
      var p := PollParcel(x.d, Clock(at));
      hide DirInv, TxInv;
      NextOnTime(x, k, p, at, w);
    } else {
      hide DirInv;
      StaysOnTime(x, at, w);
    }
  }

  lemma NextOnTime(x: Timed, k: Dir, p: Parcel, at: nat, w: nat)
    requires |x.chanAt| == |x.d.chan| && TxInv(x.d.tx) && TxInv(k.tx) && OnTime(x, w)
    requires x.d.tx.phase == Sending && k.tx.phase != Recv
    requires k == x.d.(tx := k.tx, chan := x.d.chan + [p]) && p.pos.idx == |x.d.sent| - 1
    requires k.tx.phase != Idle ==> Left(k.tx) == Left(x.d.tx) - 1
    requires at <= x.from + Lag(x.d.rcfg.stmin) + w
    ensures OnTime(x.(d := k, at := at, chanAt := x.chanAt + [at], from := at, polled := at), w)
  {
    var n, stmin := Left(x.d.tx), x.d.rcfg.stmin;
    TurnsStep(stmin, w, n);
    assert Turns(stmin, w, n - 1) >= 0;
    hide Turns, Left, TxInv, Lag;
    var last := |x.d.sent| - 1;
    var y := x.(d := k.(chan := x.d.chan), at := at, from := at, polled := at);
    assert DueAt(y, w, last) == DueAt(x, w, last);
    hide Allowance;
    assert FramesOnTime(y, w);
    FramesPush(y, w, p, at);
  }

  lemma GrantOnTime(x: Timed, at: nat, w: nat)
    requires TimedInv(x, w) && InTime(x, at, w) && x.d.fcs != []
    ensures 1 <= |x.d.fcs[0]| <= CAN_DL && TxInv(TGrant(x, at).d.tx)
    ensures |TGrant(x, at).chanAt| == |TGrant(x, at).d.chan| && OnTime(TGrant(x, at), w)
  {
    GrantShape(x.d, Clock(at));
    Bounds(x, at, w);
    assert Left(Resumed(x.d, Clock(at)).tx) == Left(x.d.tx);
    hide DirInv, DGrant, Clock, Clocked, Paced, Turns, Left, Allowance;
  }

  lemma TakeOnTime(x: Timed, at: nat, w: nat)
    requires TimedInv(x, w) && InTime(x, at, w) && x.d.chan != [] && !x.d.rx.complete
    ensures 1 <= |x.d.chan[0].bytes| <= CAN_DL && TxInv(TTake(x, at).d.tx)
    ensures |TTake(x, at).chanAt| == |TTake(x, at).d.chan| && OnTime(TTake(x, at), w)
  {
    hide DTake, Clock, Paced, FlowInv, TakenInv, Allowance, OnTime;
    DirFacts(x.d);
    TakeShape(x.d, Clock(at));
    RecentEnds(x.chanAt, at, w);
    var k := DTake(x.d, Clock(at));
    hide DirInv, TxInv;
    FrameOutOnTime(x, k, at, w);
    assert |TTake(x, at).chanAt| == |TTake(x, at).d.chan|;
  }

  lemma FrameOutOnTime(x: Timed, k: Dir, at: nat, w: nat)
    requires TxInv(x.d.tx) && |x.chanAt| == |x.d.chan| && OnTime(x, w) && x.d.chan != [] && at <= x.chanAt[0] + w
    requires k == x.d.(rx := k.rx, chan := x.d.chan[1..], fcs := k.fcs, last := x.d.chan[0].pos, grants := k.grants)
    ensures OnTime(x.(d := k, at := at, chanAt := x.chanAt[1..],
                      fcsAt := if k.fcs == x.d.fcs then x.fcsAt else x.fcsAt + [at], heard := at, since := at), w)
  {
    hide Allowance, Turns, Left, TxInv;
    var y := x.(d := k, at := at, chanAt := x.chanAt[1..], heard := at, since := at);
    forall i | 0 <= i < |y.d.chan|
      ensures 0 <= y.d.chan[i].pos.idx < |y.born| && y.chanAt[i] + 2 * w <= DueAt(y, w, y.d.chan[i].pos.idx)
    {
      assert y.d.chan[i] == x.d.chan[i + 1] && y.chanAt[i] == x.chanAt[i + 1];
    }
  }

  lemma CollectOnTime(x: Timed, at: nat, w: nat)
    requires TimedInv(x, w)
    ensures OnTime(TCollect(x, at), w)
  {
    hide DirInv, Clocked, Paced, Turns, Left, Allowance, TxInv;
  }

  // ---- both together --------------------------------------------------------

  lemma PassTimed(x: Timed, at: nat, w: nat)
    requires TimedInv(x, w) && x.at <= at
    ensures TimedInv(x.(at := at), w)
  {
    PassKeeps(x, at, w);
    StaysOnTime(x, at, w);
    hide OnTime, Paced, DirInv;
  }

  lemma SendTimed(x: Timed, data: Bytes, at: nat, w: nat)
    requires TimedInv(x, w) && InTime(x, at, w)
    ensures TimedInv(TSend(x, data, at), w)
  {
    SendPace(x, data, at, w);
    SendOnTime(x, data, at, w);
    hide Pace, OnTime, TSend;
  }

  lemma PollTimed(x: Timed, at: nat, w: nat)
    requires TimedInv(x, w) && InTime(x, at, w) && NoSendTimeout(x.d, Clock(at)) && WaitsEnough(x.d.rcfg, w)
    ensures TimedInv(TPoll(x, at), w)
  {
    PollPace(x, at, w);
    PollOnTime(x, at, w);
    hide Pace, OnTime, TPoll;
  }

  lemma GrantTimed(x: Timed, at: nat, w: nat)
    requires TimedInv(x, w) && InTime(x, at, w) && x.d.fcs != []
    ensures 1 <= |x.d.fcs[0]| <= CAN_DL && TimedInv(TGrant(x, at), w)
  {
    GrantPace(x, at, w);
    GrantOnTime(x, at, w);
    hide Pace, OnTime, TGrant;
  }

  lemma TakeTimed(x: Timed, at: nat, w: nat)
    requires TimedInv(x, w) && InTime(x, at, w) && x.d.chan != [] && !x.d.rx.complete
    ensures 1 <= |x.d.chan[0].bytes| <= CAN_DL && TimedInv(TTake(x, at), w)
  {
    TakePace(x, at, w);
    TakeOnTime(x, at, w);
    hide Pace, OnTime, TTake;
  }

  lemma CollectTimed(x: Timed, at: nat, w: nat)
    requires TimedInv(x, w) && x.at <= at
    ensures TimedInv(TCollect(x, at), w)
  {
    CollectPace(x, at, w);
    CollectOnTime(x, at, w);
    hide Pace, OnTime, TCollect;
  }

  // ---- what the deadlines mean ----------------------------------------------

  /** A message sent and not handed up is being sent, under way, or waiting to be collected. */
  lemma {:induction false} WhereItIs(cfg: Cfg, sent: seq<Bytes>, last: Pos, chan: seq<Parcel>, i: int)
    requires AllSendable(sent) && ChanInv(cfg, sent, last, chan) && last.idx < i <= End(last, chan).idx
    ensures exists k :: 0 <= k < |chan| && chan[k].pos.idx == i
    decreases |chan|
  {
    if chan[0].pos.idx < i {
      WhereItIs(cfg, sent, chan[0].pos, chan[1..], i);
      var k :| 0 <= k < |chan| - 1 && chan[1..][k].pos.idx == i;
      assert chan[k + 1].pos.idx == i;
    }
  }

  lemma StillUnderWay(d: Dir, i: nat)
    requires DirInv(d) && |d.got| <= i < |d.sent|
    ensures || (d.tx.phase != Idle && i == |d.sent| - 1)
            || (exists k :: 0 <= k < |d.chan| && d.chan[k].pos.idx == i)
            || (d.rx.complete && d.last.idx == i)
  {
    hide Quiet, Triggers;
    var end := End(d.last, d.chan);
    if d.last.idx < i {
      WhereItIs(d.scfg, d.sent, d.last, d.chan, i);
    } else if d.rx.phase == Recv {
      if d.chan == [] {
        DirFacts(d);
      } else {
        ReceiverAhead(d);
        assert d.chan[0].pos.idx == i;
      }
    }
  }

  lemma ReceiverAhead(d: Dir)
    requires DirInv(d) && d.rx.phase == Recv && d.chan != []
    ensures d.chan[0].pos.idx == d.last.idx
  {
    if d.chan[0].pos.p == 0 {
      StartsAfterAll(d);
    } else {
      ContinuesInStep(d);
    }
  }

  /** Once a message is overdue it has been handed up. */
  lemma OverdueIsGot(x: Timed, at: nat, w: nat, i: nat)
    requires TimedInv(x, w) && InTime(x, at, w) && i < |x.d.sent|
    ensures at > DueAt(x, w, i) ==> i < |x.d.got|
    ensures at > DueAt(x, w, i) && i == |x.d.sent| - 1 ==> x.d.tx.phase == Idle
  {
    hide FlowInv, TakenInv, ChanInv, SenderInv, Paced, Allowance;
    if |x.d.got| <= i || x.d.tx.phase != Idle {
      if |x.d.got| <= i {
        StillUnderWay(x.d, i);
      }
      DirFacts(x.d);
      Bounds(x, at, w);
      hide DirInv, Clocked;
      if x.d.tx.phase != Idle && i == |x.d.sent| - 1 {
        TurnsStep(x.d.rcfg.stmin, w, Left(x.d.tx));
        hide Turns, Left;
      } else if |x.d.got| <= i && (!x.d.rx.complete || x.d.last.idx != i) {
        var k :| 0 <= k < |x.d.chan| && x.d.chan[k].pos.idx == i;
        assert at <= x.chanAt[k] + w;
      }
    }
  }
}
