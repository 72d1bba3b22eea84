/**
 The bench loop over one link: an optional received frame, a poll, the collection
 of a completed message, then the replies of the server. Two runs that differ
 only by extra frames on other identifiers than the physical one, the functional
 identifier among them, emit the same frames and hand up the same physically
 addressed messages.
 */
module IsoTpFunctional {
  import opened Words
  import opened IsoTp

  datatype Rcvd = Rcvd(id: u32, bytes: Bytes, now: u32, ok: bool)

  datatype Reply = Reply(data: Bytes, now: u32, ok: bool)

  /** One pass of the loop. */
  datatype Pass = Pass(frame: Option<Rcvd>, pollNow: u32, pollOk: bool, replies: seq<Reply>)

  /** A link after some passes, what it emitted and the physically addressed messages it handed up. */
  datatype Outcome = Outcome(link: Link, sent: seq<Bytes>, got: seq<Bytes>)

  function Feed(l: Link, f: Option<Rcvd>): (o: LinkOut)
    requires LinkInv(l)
    ensures LinkInv(o.link)
  {
    if f.None? then LinkOut(l, [])
    else OnFrame(l, f.value.id, f.value.bytes, f.value.now, f.value.ok)
  }

  function Answer(l: Link, rs: seq<Reply>): (o: LinkOut)
    requires LinkInv(l)
    ensures LinkInv(o.link)
    decreases |rs|
  {
    if rs == [] then LinkOut(l, [])
    else
      var s := SendTx(l.cfg, l.tx, rs[0].data, rs[0].now, rs[0].ok);
      var o := Answer(l.(tx := s.tx), rs[1..]);
      LinkOut(o.link, s.sent + o.sent)
  }

  function PassStep(l: Link, p: Pass): (o: Outcome)
    requires LinkInv(l)
    ensures LinkInv(o.link)
  {
    var a := Feed(l, p.frame);
    var b := Poll(a.link, p.pollNow, p.pollOk);
    var r := Receive(b.link.rx, MAX_MSG);
    var c := Answer(b.link.(rx := r.rx), p.replies);
    Outcome(c.link, a.sent + b.sent + c.sent, if r.ret == Ok && !r.functional then [r.msg] else [])
  }

  function Passes(l: Link, ps: seq<Pass>): (o: Outcome)
    requires LinkInv(l)
    ensures LinkInv(o.link)
    decreases |ps|
  {
    if ps == [] then Outcome(l, [], [])
    else
      var o := PassStep(l, ps[0]);
      var r := Passes(o.link, ps[1..]);
      Outcome(r.link, o.sent + r.sent, o.got + r.got)
  }

  /** `q` is `p`, or `p` with a frame that is not physically addressed slipped in. */
  predicate Inserted(l: Link, p: Pass, q: Pass) {
    || q == p
    || (p.frame.None? && q.frame.Some? && q.frame.value.id != l.rxId && q == p.(frame := q.frame))
  }

  /** Receive halves that will act alike: equal while reassembling, of no consequence when idle. */
  predicate AlikeRx(r: Rx, s: Rx) {
    && RxInv(r) && RxInv(s) && r.phase == s.phase
    && (r.phase == Recv ==>
          && r.len == s.len && r.off == s.off && r.sn == s.sn && r.blockCf == s.blockCf && r.timer == s.timer
          && r.buf[..r.off] == s.buf[..s.off])
  }

  predicate Alike(l: Link, k: Link) {
    && k == l.(rx := k.rx) && LinkInv(l) && LinkInv(k)
    && !l.rx.complete && !k.rx.complete && AlikeRx(l.rx, k.rx)
  }

  /** Alike, or both holding the same completed physically addressed message. */
  predicate AlikeMid(l: Link, k: Link) {
    && k == l.(rx := k.rx) && LinkInv(l) && LinkInv(k) && AlikeRx(l.rx, k.rx)
    && ((l.rx.complete && !l.rx.functional) == (k.rx.complete && !k.rx.functional))
    && (l.rx.complete && !l.rx.functional ==> l.rx.len == k.rx.len && l.rx.buf[..l.rx.len] == k.rx.buf[..k.rx.len])
    && (l.rx.complete ==> l.rx.phase == Idle) && (k.rx.complete ==> k.rx.phase == Idle)
  }

  /** The two outcomes of a frame fed to two alike receive halves. */
  predicate AlikeOut(a: RxOut, b: RxOut) {
    && a.sent == b.sent && AlikeRx(a.rx, b.rx)
    && ((a.rx.complete && !a.rx.functional) == (b.rx.complete && !b.rx.functional))
    && (a.rx.complete && !a.rx.functional ==> a.rx.len == b.rx.len && a.rx.buf[..a.rx.len] == b.rx.buf[..b.rx.len])
    && (a.rx.complete ==> a.rx.phase == Idle) && (b.rx.complete ==> b.rx.phase == Idle)
  }

  lemma TakeAlike(cfg: Cfg, r: Rx, s: Rx, c: Bytes, now: u32, ok: bool)
    requires AlikeRx(r, s) && !r.complete && !s.complete && r.phase == Recv && |c| <= r.len - r.off
    ensures AlikeOut(TakeCf(cfg, r, c, now, ok), TakeCf(cfg, s, c, now, ok))
  {
    assert Blit(r.buf, r.off, c)[..r.off + |c|] == Blit(s.buf, s.off, c)[..s.off + |c|];
    hide Blit;
  }

  lemma CfAlike(cfg: Cfg, r: Rx, s: Rx, f: Bytes, now: u32, ok: bool)
    requires AlikeRx(r, s) && !r.complete && !s.complete && 1 <= |f| <= CAN_DL
    ensures AlikeOut(HandleCf(cfg, r, f, now, ok), HandleCf(cfg, s, f, now, ok))
  {
    hide TakeCf;
    if r.phase == Recv && PciLow(f[0]) == r.sn {
      var take := Min(Min(r.len - r.off, CF_MAX_DATA), |f| - 1);
      TakeAlike(cfg, r, s, f[1..1 + take], now, ok);
    }
  }

  lemma SfAlike(r: Rx, s: Rx, f: Bytes, functional: bool)
    requires AlikeRx(r, s) && !r.complete && !s.complete && 1 <= |f| <= CAN_DL
    ensures AlikeOut(RxOut(HandleSf(r, f, functional), []), RxOut(HandleSf(s, f, functional), []))
  {
    var n := PciLow(f[0]);
    if 0 < n <= |f| - 1 && n <= SF_MAX_DATA {
      assert Blit(r.buf, 0, f[1..1 + n])[..0 + n] == Blit(s.buf, 0, f[1..1 + n])[..0 + n];
    }
    hide Blit;
  }

  lemma FfAlike(cfg: Cfg, r: Rx, s: Rx, f: Bytes, now: u32, ok: bool)
    requires AlikeRx(r, s) && !r.complete && !s.complete && 1 <= |f| <= CAN_DL
    ensures AlikeOut(HandleFf(cfg, r, f, now, ok), HandleFf(cfg, s, f, now, ok))
  {
    if |f| == CAN_DL {
      assert Blit(r.buf, 0, f[2..])[..0 + FF_FIRST_DATA] == r.buf[..0] + f[2..];
      assert Blit(s.buf, 0, f[2..])[..0 + FF_FIRST_DATA] == s.buf[..0] + f[2..];
    }
    hide Blit, FcFrame;
  }

  lemma DataAlike(cfg: Cfg, r: Rx, s: Rx, f: Bytes, now: u32, ok: bool)
    requires AlikeRx(r, s) && !r.complete && !s.complete && 1 <= |f| <= CAN_DL
    ensures AlikeOut(RxOnData(cfg, r, f, now, ok), RxOnData(cfg, s, f, now, ok))
  {
    hide HandleCf, HandleSf, HandleFf, AlikeOut;
    if PciType(f[0]) == PCI_SF {
      SfAlike(r, s, f, false);
    } else if PciType(f[0]) == PCI_FF {
      FfAlike(cfg, r, s, f, now, ok);
    } else if PciType(f[0]) == PCI_CF {
      CfAlike(cfg, r, s, f, now, ok);
    } else {
      IdleAlike(r, s);
    }
  }

  lemma IdleAlike(r: Rx, s: Rx)
    requires AlikeRx(r, s) && !r.complete && !s.complete
    ensures AlikeOut(RxOut(r, []), RxOut(s, []))
  {}

  lemma PhysicalData(l: Link, d: Bytes, now: u32, ok: bool)
    requires LinkInv(l) && 1 <= |d| <= CAN_DL && PciType(d[0]) != PCI_FC
    ensures var o := RxOnData(l.cfg, l.rx, d, now, ok);
            OnFrame(l, l.rxId, d, now, ok) == LinkOut(l.(rx := o.rx), o.sent)
  {
    hide HandleCf, HandleSf, HandleFf, HandleFc;
  }

  lemma PhysicalGrant(l: Link, d: Bytes, now: u32, ok: bool)
    requires LinkInv(l) && 1 <= |d| <= CAN_DL && PciType(d[0]) == PCI_FC
    ensures OnFrame(l, l.rxId, d, now, ok) == LinkOut(l.(tx := HandleFc(l.cfg, l.tx, d, now)), [])
  {
    hide HandleCf, HandleSf, HandleFf, HandleFc;
  }

  lemma PhysicalFrameAlike(l: Link, k: Link, d: Bytes, now: u32, ok: bool)
    requires Alike(l, k) && 1 <= |d| <= CAN_DL
    ensures var a, b := OnFrame(l, l.rxId, d, now, ok), OnFrame(k, l.rxId, d, now, ok);
            AlikeMid(a.link, b.link) && a.sent == b.sent
  {
    hide OnFrame, HandleFc, RxOnData, RxInv, TxInv, AlikeRx;
    if PciType(d[0]) == PCI_FC {
      PhysicalGrant(l, d, now, ok);
      PhysicalGrant(k, d, now, ok);
    } else {
      DataAlike(l.cfg, l.rx, k.rx, d, now, ok);
      PhysicalData(l, d, now, ok);
      PhysicalData(k, d, now, ok);
    }
  }

  lemma OtherFrameAlike(l: Link, k: Link, id: u32, d: Bytes, now: u32, ok: bool)
    requires Alike(l, k) && 1 <= |d| <= CAN_DL && id != l.rxId
    ensures var a, b := OnFrame(l, id, d, now, ok), OnFrame(k, id, d, now, ok);
            AlikeMid(a.link, b.link) && a.sent == b.sent
  {
    SfAlike(l.rx, k.rx, d, true);
    hide HandleCf, HandleSf, HandleFf, HandleFc, RxInv, TxInv, AlikeRx;
  }

  lemma SameFrameAlike(l: Link, k: Link, f: Option<Rcvd>)
    requires Alike(l, k)
    ensures AlikeMid(Feed(l, f).link, Feed(k, f).link) && Feed(l, f).sent == Feed(k, f).sent
  {
    if f.Some? && 1 <= |f.value.bytes| <= CAN_DL {
      if f.value.id == l.rxId {
        PhysicalFrameAlike(l, k, f.value.bytes, f.value.now, f.value.ok);
      } else {
        OtherFrameAlike(l, k, f.value.id, f.value.bytes, f.value.now, f.value.ok);
      }
      hide OnFrame, AlikeMid;
    }
  }

  /** A frame on another identifier leaves the link alike: ignored, or a broadcast message. */
  lemma ExtraFrameAlike(l: Link, k: Link, f: Rcvd)
    requires Alike(l, k) && f.id != l.rxId
    ensures AlikeMid(l, Feed(k, Some(f)).link) && Feed(k, Some(f)).sent == []
  {}

  lemma PollAlike(l: Link, k: Link, now: u32, ok: bool)
    requires AlikeMid(l, k)
    ensures AlikeMid(Poll(l, now, ok).link, Poll(k, now, ok).link)
    ensures Poll(l, now, ok).sent == Poll(k, now, ok).sent
  {
    hide PollTx;
  }

  lemma {:induction false} AnswerAlike(l: Link, k: Link, rs: seq<Reply>)
    requires Alike(l, k)
    ensures Alike(Answer(l, rs).link, Answer(k, rs).link) && Answer(l, rs).sent == Answer(k, rs).sent
    decreases |rs|
  {
    if rs != [] {
      var t := SendTx(l.cfg, l.tx, rs[0].data, rs[0].now, rs[0].ok).tx;
      hide SendTx;
      AnswerAlike(l.(tx := t), k.(tx := t), rs[1..]);
    }
  }

  lemma PassAlike(l: Link, k: Link, p: Pass, q: Pass)
    requires Alike(l, k) && Inserted(l, p, q)
    ensures var a, b := PassStep(l, p), PassStep(k, q);
            Alike(a.link, b.link) && a.sent == b.sent && a.got == b.got
    ensures PassStep(l, p).link.rxId == l.rxId
  {
    var a, b := Feed(l, p.frame), Feed(k, q.frame);
    if q == p {
      SameFrameAlike(l, k, p.frame);
    } else {
      ExtraFrameAlike(l, k, q.frame.value);
    }
    FeedKeepsId(l, p.frame);
    hide Feed, AlikeRx, Answer;
    PollAlike(a.link, b.link, p.pollNow, p.pollOk);
    var c, d := Poll(a.link, p.pollNow, p.pollOk).link, Poll(b.link, p.pollNow, p.pollOk).link;
    hide Poll;
    var r, s := Receive(c.rx, MAX_MSG), Receive(d.rx, MAX_MSG);
    ReceiveAlike(c, d);
    AnswerAlike(c.(rx := r.rx), d.(rx := s.rx), p.replies);
    AnswerKeepsId(c.(rx := r.rx), p.replies);
  }

  lemma FeedKeepsId(l: Link, f: Option<Rcvd>)
    requires LinkInv(l)
    ensures Feed(l, f).link.rxId == l.rxId
  {}

  lemma {:induction false} AnswerKeepsId(l: Link, rs: seq<Reply>)
    requires LinkInv(l)
    ensures Answer(l, rs).link.rxId == l.rxId
    decreases |rs|
  {
    if rs != [] {
      AnswerKeepsId(l.(tx := SendTx(l.cfg, l.tx, rs[0].data, rs[0].now, rs[0].ok).tx), rs[1..]);
    }
  }

  lemma ReceiveAlike(l: Link, k: Link)
    requires AlikeMid(l, k)
    ensures var r, s := Receive(l.rx, MAX_MSG), Receive(k.rx, MAX_MSG);
            && Alike(l.(rx := r.rx), k.(rx := s.rx))
            && (r.ret == Ok && !r.functional) == (s.ret == Ok && !s.functional)
            && (r.ret == Ok && !r.functional ==> r.msg == s.msg)
  {}

  ghost predicate AllInserted(l: Link, ps: seq<Pass>, qs: seq<Pass>) {
    |ps| == |qs| && forall i | 0 <= i < |ps| :: Inserted(l, ps[i], qs[i])
  }

  lemma {:induction false} PassesAlike(l: Link, k: Link, ps: seq<Pass>, qs: seq<Pass>)
    requires Alike(l, k) && AllInserted(l, ps, qs)
    ensures var a, b := Passes(l, ps), Passes(k, qs);
            a.link.tx == b.link.tx && a.sent == b.sent && a.got == b.got
    decreases |ps|
  {
    if ps != [] {
      assert Inserted(l, ps[0], qs[0]);
      PassAlike(l, k, ps[0], qs[0]);
      hide PassStep;
      var a, b := PassStep(l, ps[0]).link, PassStep(k, qs[0]).link;
      forall i | 0 <= i < |ps| - 1 ensures Inserted(a, ps[1..][i], qs[1..][i]) {
        assert Inserted(l, ps[i + 1], qs[i + 1]);
      }
      PassesAlike(a, b, ps[1..], qs[1..]);
    }
  }

  /**
   Frames on other identifiers, each in a pass that received nothing else, change
   neither what the link emits, nor the state of its send half, nor the physically
   addressed messages it hands up; the replies handed to it are the same in both runs.
   */
  lemma BroadcastsDoNotInterfere(l: Link, ps: seq<Pass>, qs: seq<Pass>)
    requires LinkInv(l) && !l.rx.complete && AllInserted(l, ps, qs)
    ensures Passes(l, ps).sent == Passes(l, qs).sent
    ensures Passes(l, ps).link.tx == Passes(l, qs).link.tx
    ensures Passes(l, ps).got == Passes(l, qs).got
  {
    PassesAlike(l, l, ps, qs);
  }

  /** The loop itself keeps the collection discipline: no completed message survives a pass. */
  lemma PassCollects(l: Link, p: Pass)
    requires LinkInv(l)
    ensures !PassStep(l, p).link.rx.complete
  {
    var b := Poll(Feed(l, p.frame).link, p.pollNow, p.pollOk).link;
    var c := b.(rx := Receive(b.rx, MAX_MSG).rx);
    hide Feed, Poll;
    AnswerKeepsRx(c, p.replies);
  }

  lemma {:induction false} AnswerKeepsRx(l: Link, rs: seq<Reply>)
    requires LinkInv(l)
    ensures Answer(l, rs).link.rx == l.rx
    decreases |rs|
  {
    if rs != [] {
      AnswerKeepsRx(l.(tx := SendTx(l.cfg, l.tx, rs[0].data, rs[0].now, rs[0].ok).tx), rs[1..]);
    }
  }
}
