/**
 Every multi-frame send ends. Polls are at most `d` ms apart; the peer may send any
 frames at any time. Times are true milliseconds, the link sees them modulo 2^32.
 The bound holds exactly when the WAIT limit is below 255: at 255 the 8-bit WAIT
 counter wraps before it can exceed the limit.
 */
module IsoTpTimeout {
  import opened Words
  import opened IsoTp
  import opened IsoTpStream

  datatype Timed = Timed(at: nat, e: Event)

  /** The clock value the link reads during the event is the true time. */
  predicate ClockOk(x: Timed) {
    match x.e
    case Send(_, now, _) => now == x.at % TWO_32
    case Frame(_, _, now, _) => now == x.at % TWO_32
    case Poll(now, _) => now == x.at % TWO_32
    case Collect(_) => true
  }

  /**
   `es` runs `l`, last polled at `poll` and observed at time `t`, to `k` at time
   `end`; the send half is busy all along.
   */
  ghost predicate Busy(l: Link, t: nat, poll: nat, d: nat, es: seq<Timed>, k: Link, end: nat)
    decreases |es|
  {
    && LinkInv(l) && l.tx.phase != Idle
    && if es == [] then k == l && end == t
       else
         var x := es[0];
         && ClockOk(x) && t <= x.at <= poll + d
         && Busy(Step(l, x.e).link, x.at, if x.e.Poll? then x.at else poll, d, es[1..], k, end)
  }

  // ---- the budget -----------------------------------------------------------

  /** Longest time one block can wait for its grant once `w` WAITs have been seen. */
  function WaitTime(cfg: Cfg, d: nat, w: byte): int {
    (cfg.wftMax - w + 1) * (cfg.nBs + d)
  }

  /** Longest time one consecutive frame can take, its grant included. */
  function FrameTime(cfg: Cfg, d: nat): int {
    WaitTime(cfg, d, 0) + 127 + d
  }

  lemma WaitTimeStep(cfg: Cfg, d: nat, w: byte)
    requires w < cfg.wftMax
    ensures WaitTime(cfg, d, w) == WaitTime(cfg, d, w + 1) + cfg.nBs + d
  {
    assert (cfg.wftMax - w + 1) * (cfg.nBs + d) == (cfg.wftMax - w) * (cfg.nBs + d) + (cfg.nBs + d);
  }

  lemma WaitTimeCovers(cfg: Cfg, d: nat, w: byte)
    requires w <= cfg.wftMax
    ensures WaitTime(cfg, d, w) >= cfg.nBs + d
    ensures FrameTime(cfg, d) >= 0
  {
    assert (cfg.wftMax - w) * (cfg.nBs + d) >= 0;
    assert (cfg.wftMax - w + 1) * (cfg.nBs + d) == (cfg.wftMax - w) * (cfg.nBs + d) + (cfg.nBs + d);
    assert (cfg.wftMax + 1) * (cfg.nBs + d) >= 0;
  }

  /** Consecutive frames still to be sent. */
  function Left(t: Tx): (n: nat)
    requires TxInv(t) && t.phase != Idle
    ensures n >= 1
  {
    NumCf(|t.msg|) - CfIndex(t.off)
  }

  function RestTime(cfg: Cfg, d: nat, left: nat): int {
    (left - 1) * FrameTime(cfg, d)
  }

  lemma RestTimeStep(cfg: Cfg, d: nat, left: nat)
    requires left >= 2
    ensures RestTime(cfg, d, left) == RestTime(cfg, d, left - 1) + FrameTime(cfg, d)
  {
    assert (left - 1) * FrameTime(cfg, d) == (left - 2) * FrameTime(cfg, d) + FrameTime(cfg, d);
  }

  lemma RestTimeNonNegative(cfg: Cfg, d: nat, left: nat)
    requires left >= 1
    ensures RestTime(cfg, d, left) >= 0
  {
    WaitTimeCovers(cfg, d, 0);
    assert (left - 1) * FrameTime(cfg, d) >= 0;
  }

  /** The limits the bound needs: WAITs can be counted, and no timer outruns the clock. */
  predicate Bounded(cfg: Cfg, d: nat) {
    cfg.wftMax <= 254 && cfg.nBs > 0 && cfg.nBs + d < TWO_32 && 127 + d < TWO_32
  }

  /** The running timer was started at `from`; the send ends by `deadline`. */
  predicate OnTime(cfg: Cfg, t: Tx, from: nat, now: nat, poll: nat, d: nat, deadline: int) {
    && TxInv(t) && t.phase != Idle && from <= now <= poll + d && poll <= now
    && if t.phase == WaitFc then
         && from % TWO_32 == t.timer && t.wft <= cfg.wftMax
         && (poll <= from || poll - from < cfg.nBs)
         && from + WaitTime(cfg, d, t.wft) + 127 + d + RestTime(cfg, d, Left(t)) <= deadline
       else
         && from % TWO_32 == t.stTimer && t.wft == 0
         && (poll <= from || poll - from < StminToMs(t.stmin))
         && from + 127 + d + RestTime(cfg, d, Left(t)) <= deadline
  }

  lemma TrueElapsed(now: nat, from: nat)
    requires from <= now && now - from < TWO_32
    ensures Elapsed32(now % TWO_32, from % TWO_32) == now - from
  {}

  lemma NotLate(cfg: Cfg, t: Tx, from: nat, now: nat, poll: nat, d: nat, deadline: int)
    requires Bounded(cfg, d) && OnTime(cfg, t, from, now, poll, d, deadline)
    ensures now <= deadline && now - from < TWO_32
  {
    RestTimeNonNegative(cfg, d, Left(t));
    WaitTimeCovers(cfg, d, t.wft);
    hide WaitTime, RestTime, FrameTime;
  }

  lemma PollOnTime(cfg: Cfg, t: Tx, from: nat, before: nat, now: nat, poll: nat, d: nat, deadline: int, ok: bool)
    returns (f: nat)
    requires Bounded(cfg, d) && OnTime(cfg, t, from, before, poll, d, deadline) && before <= now <= poll + d
    ensures var u := PollTx(cfg, t, now % TWO_32, ok).tx;
            u.phase != Idle ==> OnTime(cfg, u, f, now, now, d, deadline)
  {
    f := from;
    var u := PollTx(cfg, t, now % TWO_32, ok).tx;
    NotLate(cfg, t, from, now, poll, d, deadline);
    TrueElapsed(now, from);
    if u.phase != Idle && CfDue(t, now % TWO_32) {
      f := now;
      assert Left(u) == Left(t) - 1;
      RestTimeStep(cfg, d, Left(t));
      WaitTimeCovers(cfg, d, 0);
      hide RestTime, WaitTime;
    }
  }

  lemma FcOnTime(cfg: Cfg, t: Tx, data: Bytes, from: nat, before: nat, now: nat, poll: nat, d: nat, deadline: int)
    returns (f: nat)
    requires Bounded(cfg, d) && OnTime(cfg, t, from, before, poll, d, deadline) && before <= now <= poll + d
    requires 1 <= |data| <= CAN_DL
    ensures var u := HandleFc(cfg, t, data, now % TWO_32);
            u.phase != Idle ==> OnTime(cfg, u, f, now, poll, d, deadline)
  {
    f := from;
    var u := HandleFc(cfg, t, data, now % TWO_32);
    if t.phase == WaitFc && u.phase != Idle {
      f := now;
      assert Left(u) == Left(t);
      WaitTimeCovers(cfg, d, t.wft);
      if u.phase == WaitFc {
        assert u == t.(wft := t.wft + 1, timer := now % TWO_32);
        WaitTimeStep(cfg, d, t.wft);
      } else {
        assert u == t.(bsLeft := u.bsLeft, stmin := u.stmin, wft := 0, phase := Sending, stTimer := now % TWO_32);
      }
      hide RestTime, WaitTime, Left, HandleFc;
    }
  }

  lemma StepOnTime(l: Link, x: Timed, from: nat, before: nat, poll: nat, d: nat, deadline: int) returns (f: nat)
    requires LinkInv(l) && Bounded(l.cfg, d) && OnTime(l.cfg, l.tx, from, before, poll, d, deadline)
    requires ClockOk(x) && before <= x.at <= poll + d
    ensures var u := Step(l, x.e).link.tx;
            u.phase != Idle ==> OnTime(l.cfg, u, f, x.at, if x.e.Poll? then x.at else poll, d, deadline)
  {
    hide WaitTime, RestTime;
    f := from;
    match x.e
    case Send(data, now, ok) =>
    case Poll(now, ok) =>
      f := PollOnTime(l.cfg, l.tx, from, before, x.at, poll, d, deadline, ok);
    case Frame(id, data, now, ok) =>
      if 1 <= |data| <= CAN_DL && Step(l, x.e).link.tx == HandleFc(l.cfg, l.tx, data, now) {
        f := FcOnTime(l.cfg, l.tx, data, from, before, x.at, poll, d, deadline);
      } else {
        assert Step(l, x.e).link.tx == l.tx;
      }
    case Collect(cap) =>
  }

  lemma {:induction false} BusyUntilDeadline(l: Link, from: nat, t: nat, poll: nat, d: nat, es: seq<Timed>,
                                            k: Link, end: nat, deadline: int)
    requires Busy(l, t, poll, d, es, k, end)
    requires Bounded(l.cfg, d) && OnTime(l.cfg, l.tx, from, t, poll, d, deadline)
    ensures end <= deadline
    decreases |es|
  {
    if es == [] {
      NotLate(l.cfg, l.tx, from, t, poll, d, deadline);
    } else {
      var x := es[0];
      var f := StepOnTime(l, x, from, t, poll, d, deadline);
      BusyUntilDeadline(Step(l, x.e).link, f, x.at, if x.e.Poll? then x.at else poll, d, es[1..], k, end, deadline);
    }
  }

  /**
   A multi-frame send accepted at time `t0` is over at most K * (one frame time)
   later, whatever the peer does.
   */
  lemma EverySendEnds(l: Link, data: Bytes, t0: nat, ok: bool, poll: nat, d: nat, es: seq<Timed>, k: Link, end: nat)
    requires LinkInv(l) && Bounded(l.cfg, d) && poll <= t0 <= poll + d
    requires var o := SendTx(l.cfg, l.tx, data, t0 % TWO_32, ok);
             o.ret == InProgress && Busy(l.(tx := o.tx), t0, poll, d, es, k, end)
    ensures end <= t0 + NumCf(|data|) * FrameTime(l.cfg, d)
  {
    var n, b := NumCf(|data|), FrameTime(l.cfg, d);
    Distribute(n - 1, b);
    hide FrameTime, WaitTime, NumCf;
    BusyUntilDeadline(l.(tx := SendTx(l.cfg, l.tx, data, t0 % TWO_32, ok).tx), t0, t0, poll, d, es, k, end, t0 + n * b);
  }

  lemma Distribute(n: int, b: int)
    ensures (n + 1) * b == n * b + b
  {}

  // ---- the WAIT limit is needed ---------------------------------------------

  /** `n` times: a WAIT arrives at time `t + i`, and the link is polled at once. */
  function Waits(id: u32, t: nat, n: nat): seq<Timed>
    decreases n
  {
    if n == 0 then []
    else
      [Timed(t, Frame(id, [0x31], t % TWO_32, true)), Timed(t, Event.Poll(t % TWO_32, true))]
      + Waits(id, t + 1, n - 1)
  }

  /** One round of waiting: the counter wraps, the timer restarts and the poll finds nothing due. */
  lemma WaitRound(l: Link, now: u32)
    requires LinkInv(l) && l.tx.phase == WaitFc && l.cfg.wftMax == 255 && l.cfg.nBs > 0
    ensures var a := Step(l, Frame(l.rxId, [0x31], now, true)).link;
            var b := Step(a, Event.Poll(now, true)).link;
            a.tx.phase == WaitFc && b.tx.phase == WaitFc && b.cfg == l.cfg && b.rxId == l.rxId
  {
    assert Elapsed32(now, now) == 0;
  }

  /** A frame and a poll at time `t`, ahead of a busy run. */
  lemma TwoEvents(l: Link, t: nat, poll: nat, d: nat, x: Timed, y: Timed, rest: seq<Timed>, k: Link, end: nat)
    requires LinkInv(l) && l.tx.phase != Idle && poll <= t <= poll + d && x.at == t && y.at == t
    requires ClockOk(x) && ClockOk(y) && x.e.Frame? && y.e.Poll?
    requires var a := Step(l, x.e).link; a.tx.phase != Idle && Busy(Step(a, y.e).link, t, t, d, rest, k, end)
    ensures Busy(l, t, poll, d, [x, y] + rest, k, end)
  {
    hide Step;
    var es, a := [x, y] + rest, Step(l, x.e).link;
    assert es[1..] == [y] + rest && es[1..][1..] == rest;
    assert Busy(a, t, poll, d, es[1..], k, end);
  }

  /** A run that starts later than it could. */
  lemma Earlier(l: Link, t: nat, u: nat, poll: nat, d: nat, es: seq<Timed>, k: Link, end: nat)
    requires t <= u && es != [] && Busy(l, u, poll, d, es, k, end)
    ensures Busy(l, t, poll, d, es, k, end)
  {
    hide Step;
  }

  /** With the limit at 255, WAITs keep the sender busy for as long as they come. */
  lemma {:induction false} WaitLimit255NeverEnds(l: Link, t: nat, poll: nat, d: nat, n: nat) returns (k: Link)
    requires LinkInv(l) && l.tx.phase == WaitFc && l.cfg.wftMax == 255 && l.cfg.nBs > 0
    requires d >= 1 && poll <= t <= poll + d
    ensures Busy(l, t, poll, d, Waits(l.rxId, t, n), k, if n == 0 then t else t + n - 1)
    decreases n
  {
    hide Step, LinkInv;
    if n == 0 {
      k := l;
      return;
    }
    var now: u32, rest := t % TWO_32, Waits(l.rxId, t + 1, n - 1);
    var x, y := Timed(t, Frame(l.rxId, [0x31], now, true)), Timed(t, Event.Poll(now, true));
    WaitRound(l, now);
    var b := Step(Step(l, x.e).link, y.e).link;
    assert Waits(l.rxId, t, n) == [x, y] + rest;
    assert n == 1 <==> rest == [];
    hide Waits;
    if n == 1 {
      k := b;
    } else {
      k := WaitLimit255NeverEnds(b, t + 1, t, d, n - 1);
      Earlier(b, t, t + 1, t, d, rest, k, t + n - 1);
    }
    TwoEvents(l, t, poll, d, x, y, rest, k, t + n - 1);
  }

  // ---- the bound holds exactly below that limit -----------------------------

  /** However the peer behaves, `l` is no longer busy `bound` ms after time `t`. */
  ghost predicate EndsWithin(l: Link, t: nat, poll: nat, d: nat, bound: nat) {
    forall es: seq<Timed>, k: Link, end: nat :: Busy(l, t, poll, d, es, k, end) ==> end <= t + bound
  }

  lemma SendsEndIffWaitLimitBelow255(l: Link, data: Bytes, t0: nat, ok: bool, poll: nat, d: nat)
    requires LinkInv(l) && poll <= t0 <= poll + d && d >= 1
    requires l.cfg.nBs > 0 && l.cfg.nBs + d < TWO_32 && 127 + d < TWO_32
    requires SendTx(l.cfg, l.tx, data, t0 % TWO_32, ok).ret == InProgress
    ensures var s := l.(tx := SendTx(l.cfg, l.tx, data, t0 % TWO_32, ok).tx);
            (exists bound: nat :: EndsWithin(s, t0, poll, d, bound)) <==> l.cfg.wftMax <= 254
  {
    var s := l.(tx := SendTx(l.cfg, l.tx, data, t0 % TWO_32, ok).tx);
    if l.cfg.wftMax <= 254 {
      WaitTimeCovers(l.cfg, d, 0);
      var bound: nat := NumCf(|data|) * FrameTime(l.cfg, d);
      forall es: seq<Timed>, k: Link, end: nat | Busy(s, t0, poll, d, es, k, end)
        ensures end <= t0 + bound
      {
        EverySendEnds(l, data, t0, ok, poll, d, es, k, end);
      }
      assert EndsWithin(s, t0, poll, d, bound);
    } else {
      forall bound: nat ensures !EndsWithin(s, t0, poll, d, bound) {
        var k := WaitLimit255NeverEnds(s, t0, poll, d, bound + 2);
      }
    }
  }
}
