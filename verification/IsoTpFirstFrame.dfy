/**
 Whole messages over a lossy bus, exactly: they are safe from every loss but that of
 a first frame. The run that shows it loses one first frame and nothing else.
 */
module IsoTpFirstFrame {
  import opened Words
  import opened IsoTp
  import opened IsoTpStream
  import opened IsoTpLoss

  /** In every run everything handed up is one of the messages sent. */
  ghost predicate WholeOnly(ffLoss: bool) {
    forall n: Net, evs: seq<NetEvent>, k: Net | NetStart(n) && NetReaches(n, evs, k, ffLoss) ::
      forall i | 0 <= i < |k.delivered| :: k.delivered[i].msg in k.sent
  }

  lemma WholeOnlyIff(ffLoss: bool)
    ensures WholeOnly(ffLoss) <==> !ffLoss
  {
    hide NetReaches, NetStart;
    if ffLoss {
      var n, evs, k := MixedRun();
      assert k.delivered[0].msg !in k.sent;
    } else {
      forall n: Net, evs: seq<NetEvent>, k: Net | NetStart(n) && NetReaches(n, evs, k, false)
        ensures forall i | 0 <= i < |k.delivered| :: k.delivered[i].msg in k.sent
      {
        OnlyWholeSentMessagesAreDelivered(n, evs, k);
      }
    }
  }

  // ---- what each link does --------------------------------------------------

  /** A message of a first frame and one consecutive frame. */
  predicate TwoFrames(m: Bytes) { SF_MAX_DATA < |m| <= FF_FIRST_DATA + CF_MAX_DATA }

  /** A send that is given up when no flow control comes in time. */
  lemma SenderGivesUp(a: Link, m: Bytes)
    requires LinkInv(a) && a.tx.phase == Idle && a.tx.bsLeft == 0 && TwoFrames(m)
    ensures var s := Step(a, Send(m, 0, true));
            var t := Step(s.link, Event.Poll(a.cfg.nBs, true));
            && AcceptedBy(a, Send(m, 0, true)) == [m] && s.sent == [FfFrame(a.cfg, m)]
            && t.sent == [] && t.link.tx.phase == Idle && t.link.tx.bsLeft == 0
  {}

  /** A send that a grant lets continue ends with its only consecutive frame. */
  lemma SenderContinues(a: Link, m: Bytes, cb: Cfg, now: u32)
    requires LinkInv(a) && a.tx.phase == Idle && a.tx.bsLeft == 0 && TwoFrames(m) && cb.stmin == 0
    ensures var s := Step(a, Send(m, now, true));
            var t := Step(s.link, Frame(a.rxId, FcFrame(cb, FS_CTS), now, true));
            var u := Step(t.link, Event.Poll(now, true));
            && AcceptedBy(a, Send(m, now, true)) == [m] && s.sent == [FfFrame(a.cfg, m)] && t.sent == []
            && u.sent == [CfFrame(a.cfg, 1, m[FF_FIRST_DATA..])]
  {
    var f := FcFrame(cb, FS_CTS);
    assert f[..3] == [(16 * PCI_FC + FS_CTS) as byte, cb.bs, cb.stmin];
    assert f[0] == f[..3][0] && f[1] == f[..3][1] && f[2] == f[..3][2];
    var s := Step(a, Send(m, now, true));
    var t := Step(s.link, Frame(a.rxId, f, now, true));
    assert t.link.tx.phase == Sending && t.link.tx.off == FF_FIRST_DATA && t.link.tx.sn == 1;
    assert NextChunk(t.link.tx) == m[FF_FIRST_DATA..];
  }

  /** The first frame of one message and the last frame of another make one message. */
  lemma ReceiverMixes(b: Link, ca: Cfg, m1: Bytes, m2: Bytes, now: u32)
    requires LinkInv(b) && b.rx.phase == Idle && !b.rx.complete && TwoFrames(m1) && |m2| == |m1|
    ensures var s := OnFrame(b, b.rxId, FfFrame(ca, m1), 1, true).link;
            var t := OnFrame(s, s.rxId, CfFrame(ca, 1, m2[FF_FIRST_DATA..]), now, true).link;
            && !s.rx.complete && t.rx.complete
            && Receive(t.rx, MAX_MSG).ret == Ok && !Receive(t.rx, MAX_MSG).functional
            && Receive(t.rx, MAX_MSG).msg == m1[..FF_FIRST_DATA] + m2[FF_FIRST_DATA..]
  {
    var ff := FfFrame(ca, m1);
    FfRoundTrip(ca, m1);
    FirstFrameNeverOverflows(ff);
    var s := OnFrame(b, b.rxId, ff, 1, true).link;
    assert s.rx.buf[..0 + FF_FIRST_DATA] == b.rx.buf[..0] + m1[..FF_FIRST_DATA];
    var c := m2[FF_FIRST_DATA..];
    CfRoundTrip(ca, 1, c);
    CfAccepted(b.cfg, s.rx, c, CfFrame(ca, 1, c), now, true);
    hide HandleFf, HandleCf, FfFrame, CfFrame;
  }

  // ---- the run --------------------------------------------------------------

  lemma {:induction false} NetOneMore(n: Net, evs: seq<NetEvent>, s: Net, ev: NetEvent)
    requires NetReaches(n, evs, s, true) && LinkInv(s.a) && LinkInv(s.b) && Possible(s, ev)
    ensures NetReaches(n, evs + [ev], NetStep(s, ev), true)
    decreases |evs|
  {
    hide NetStep, Possible, LinkInv;
    if evs == [] {
      assert ([] + [ev])[1..] == [];
    } else {
      NetOneMore(NetStep(n, evs[0]), evs[1..], s, ev);
      assert (evs + [ev])[1..] == evs[1..] + [ev];
    }
  }

  /** After the first message has been given up: its first frame is with the receiver. */
  lemma FirstHalf(n: Net, m: Bytes) returns (evs: seq<NetEvent>, k: Net)
    requires NetStart(n) && n.a.tx.bsLeft == 0 && TwoFrames(m)
    ensures NetReaches(n, evs, k, true) && LinkInv(k.a) && LinkInv(k.b)
    ensures k.a.cfg == n.a.cfg && k.a.tx.phase == Idle && k.a.tx.bsLeft == 0 && k.chan == [] && k.sent == [m]
    ensures k.delivered == [] && k.b == OnFrame(n.b, n.b.rxId, FfFrame(n.a.cfg, m), 1, true).link
  {
    SenderGivesUp(n.a, m);
    assert NetReaches(n, [], n, true);
    hide NetReaches, Step, OnFrame, FfFrame, SendTx;
    var e := AtA(Send(m, 0, true));
    NetOneMore(n, [], n, e);
    evs, k := [] + [e], NetStep(n, e);
    assert k.chan == [Parcel(Pos(0, 0), FfFrame(n.a.cfg, m))];
    e := Deliver(1, true);
    NetOneMore(n, evs, k, e);
    evs, k := evs + [e], NetStep(k, e);
    e := AtA(Event.Poll(n.a.cfg.nBs, true));
    NetOneMore(n, evs, k, e);
    evs, k := evs + [e], NetStep(k, e);
  }

  /** The second message: its first frame is lost, and the grant for the first one lets it continue. */
  lemma SecondHalf(n: Net, es: seq<NetEvent>, s: Net, m: Bytes, now: u32) returns (evs: seq<NetEvent>, k: Net)
    requires NetReaches(n, es, s, true) && LinkInv(s.a) && LinkInv(s.b) && |s.sent| == 1 && TwoFrames(m)
    requires s.a.tx.phase == Idle && s.a.tx.bsLeft == 0 && s.chan == [] && !s.b.rx.complete && s.b.cfg.stmin == 0
    ensures NetReaches(n, evs, k, true) && LinkInv(k.a) && LinkInv(k.b)
    ensures k.sent == s.sent + [m] && k.delivered == s.delivered
    ensures k.b == OnFrame(s.b, s.b.rxId, CfFrame(s.a.cfg, 1, m[FF_FIRST_DATA..]), now, true).link
  {
    hide NetReaches, Step, OnFrame, FfFrame, FcFrame, CfFrame, SendTx, LinkInv;
    SenderContinues(s.a, m, s.b.cfg, now);
    var e := AtA(Send(m, now, true));
    NetOneMore(n, es, s, e);
    evs, k := es + [e], NetStep(s, e);
    assert k.chan == [Parcel(Pos(1, 0), FfFrame(s.a.cfg, m))];
    NetOneMore(n, evs, k, Lose);
    evs, k := evs + [Lose], NetStep(k, Lose);
    assert k.chan == [];
    e := AtA(Frame(s.a.rxId, FcFrame(s.b.cfg, FS_CTS), now, true));
    NetOneMore(n, evs, k, e);
    evs, k := evs + [e], NetStep(k, e);
    e := AtA(Event.Poll(now, true));
    NetOneMore(n, evs, k, e);
    evs, k := evs + [e], NetStep(k, e);
    assert |k.chan| == 1 && k.chan[0].bytes == CfFrame(s.a.cfg, 1, m[FF_FIRST_DATA..]);
    e := Deliver(now, true);
    NetOneMore(n, evs, k, e);
    evs, k := evs + [e], NetStep(k, e);
  }

  /**
   The first frame of `m1` arrives, the sender gives up on `m1` when no flow control
   comes in time, the first frame of `m2` is lost, and the delayed grant for `m1` lets
   the sender continue with `m2`: the receiver hands up half of each.
   */
  lemma LostFirstFrameMixesMessages(n: Net, m1: Bytes, m2: Bytes) returns (evs: seq<NetEvent>, k: Net)
    requires NetStart(n) && n.a.tx.bsLeft == 0 && n.b.cfg.stmin == 0 && TwoFrames(m1) && |m2| == |m1|
    ensures NetReaches(n, evs, k, true) && k.sent == [m1, m2] && |k.delivered| == 1
    ensures k.delivered[0].msg == m1[..FF_FIRST_DATA] + m2[FF_FIRST_DATA..]
  {
    ReceiverMixes(n.b, n.a.cfg, m1, m2, n.a.cfg.nBs);
    hide NetReaches, OnFrame, FfFrame, CfFrame, Receive;
    evs, k := FirstHalf(n, m1);
    evs, k := SecondHalf(n, evs, k, m2, n.a.cfg.nBs);
    var e := AtB(Collect(MAX_MSG));
    NetOneMore(n, evs, k, e);
    evs, k := evs + [e], NetStep(k, e);
  }

  /** Ten ones, then ten twos: six ones and four twos arrive. */
  lemma MixedRun() returns (n: Net, evs: seq<NetEvent>, k: Net)
    ensures NetStart(n) && NetReaches(n, evs, k, true)
    ensures |k.delivered| == 1 && k.delivered[0].msg !in k.sent
  {
    var cfg := Cfg(1000, 1000, 0, 0, 8, 0xFF);
    n := Net(Link(1, 2, NO_FUNC_ID, cfg, InitTx(), InitRx()), Link(2, 1, NO_FUNC_ID, cfg, InitTx(), InitRx()),
             [], [], Pos(-1, 0), -1, -1, []);
    var m1: Bytes, m2: Bytes := [1, 1, 1, 1, 1, 1, 1, 1, 1, 1], [2, 2, 2, 2, 2, 2, 2, 2, 2, 2];
    hide NetReaches;
    evs, k := LostFirstFrameMixesMessages(n, m1, m2);
    var mix := k.delivered[0].msg;
    assert mix[0] == 1 && mix[9] == 2 && m1[9] == 1 && m2[0] == 2;
  }
}
