/**
 What becomes of an answer: when the server keeps silent, when the device restarts, and where
 each answer ends up between server, link and bus. A request comes in as the message the link
 completed, with the address it was sent to.
 */
module UdsReplies {
  import opened Words
  import opened IsoTp
  import opened IsoTpStream
  import opened IsoTpLoss
  import opened Uds
  import opened UdsRuns

  /** The codes that are not sent when the request was a broadcast (ISO 14229-1, annex A.2). */
  predicate NotOnBroadcast(nrc: byte) { nrc in {0x11, 0x12, 0x31, 0x7E, 0x7F} }

  /** Only four services have a bit that asks for no positive answer. */
  predicate AskedForSilence(req: Bytes) {
    |req| >= 2 && req[0] in {SID_SESSION, SID_RESET, SID_ROUTINE, SID_TESTER} && req[1] >= 0x80
  }

  /** The server is silent exactly when the tester asked for it or the code is not for broadcasts. */
  lemma SilentIff(s: Server, setup: Setup, req: Request, rnd: u32)
    requires req.bytes != []
    ensures var o, disp := Handle(s, setup, req, rnd), Dispatch(s, setup, req.bytes, rnd).disp;
            && o.negative == disp.Negative?
            && (o.answer.None? <==>
                  if disp.Negative? then req.functional && NotOnBroadcast(disp.nrc) else AskedForSilence(req.bytes))
            && (o.answer.Some? ==>
                  o.answer.value == if disp.Negative? then [0x7F, req.bytes[0], disp.nrc] else disp.resp)
  {
    hide Dispatch;
  }

  /**
   The device restarts exactly after a positive hard, key or soft reset whose answer the transport
   took or the tester did not want.
   */
  lemma RestartIff(l: Log, setup: Setup, i: In)
    requires WfIn(i)
    ensures UdsRuns.Step(l, setup, i).restarts == l.restarts + 1
       <==> && i.req.Some? && i.req.value.bytes[0] == SID_RESET && DispOf(l.srv, setup, i).value.Positive?
            && Sub(i.req.value.bytes[1]) in {1, 2, 3} && (i.first || AskedForSilence(i.req.value.bytes))
  {
    if i.req.Some? {
      SilentIff(Before(l.srv, i), setup, i.req.value, i.rnd);
      ResetAsks(Before(l.srv, i), setup, i.req.value.bytes, i.rnd);
    }
    hide Dispatch;
  }

  lemma ResetAsks(s: Server, setup: Setup, req: Bytes, rnd: u32)
    requires req != []
    ensures var h := Dispatch(s, setup, req, rnd);
            && (req[0] == SID_RESET && h.disp.Positive? ==> |req| >= 2)
            && (h.reset <==> req[0] == SID_RESET && h.disp.Positive? && Sub(req[1]) in {1, 2, 3})
  {
    PositiveFormat(s, setup, req, rnd);
    if req[0] == SID_RESET {
      assert Dispatch(s, setup, req, rnd) == EcuReset(s, setup.cap, req);
    }
    hide Dispatch;
  }

  // ---- where an answer ends up ----------------------------------------------

  /**
   Every answer is accounted for. With an idle send half and a bus that takes the frame it goes out.
   A positive one that does not is replaced by busyRepeatRequest, if that goes out. Otherwise
   nothing is sent and exactly one response is counted as dropped. Only in the first case does a
   reset that was to be answered happen.
   */
  lemma AnswerAccounted(h: Outcome, cfg: Cfg, tx: Tx, sid: byte, now: u32, ok1: bool, ok2: bool)
    requires TxInv(tx) && h.answer.Some?
    ensures var a, r := h.answer.value, Respond(h, cfg, tx, sid, now, ok1, ok2);
            var busy: Bytes := [0x7F, sid, 0x21];
            if tx.phase == Idle && Sendable(a) && ok1 then
              r.sent == Prefix(cfg, a, 1) && r.srv == h.srv && r.restart == h.reset
            else if tx.phase == Idle && !h.negative && ok2 then
              r.sent == Prefix(cfg, busy, 1) && r.srv == h.srv && !r.restart
            else r.sent == [] && r.srv == h.srv.(dropped := (h.srv.dropped + 1) % TWO_32) && !r.restart
  {
    SendAcceptedIff(cfg, tx, h.answer.value, now, ok1);
    var b := SendTx(cfg, tx, h.answer.value, now, ok1);
    SendAcceptedIff(cfg, b.tx, Nrc(sid, NRC_BUSY), now, ok2);
    hide SendTx, Prefix;
  }

  // ---- how a request comes in -----------------------------------------------

  lemma SingleFrameArrives(l: Link, cfg: Cfg, m: Bytes, functional: bool)
    requires LinkInv(l) && 1 <= |m| <= SF_MAX_DATA && l.rx.phase == Idle && !l.rx.complete
    ensures var f := SfFrame(cfg, m);
            && 1 <= |f| <= CAN_DL && PciType(f[0]) == PCI_SF
            && var r := HandleSf(l.rx, f, functional);
               r.complete && r.functional == functional && r.len == |m| && r.buf[..|m|] == m
  {
    SfRoundTrip(cfg, m);
    hide SfFrame;
    var r := HandleSf(l.rx, SfFrame(cfg, m), functional);
    assert r.buf[..0 + r.len] == l.rx.buf[..0] + m;
  }

  /**
   A single frame of 1 to 7 bytes to a link that is not reassembling and holds no message becomes
   the request of the next poll, with the address it came to; on any other identifier nothing does.
   */
  lemma RequestArrives(l: Link, cfg: Cfg, m: Bytes, id: u32, now: u32, ok: bool)
    requires LinkInv(l) && 1 <= |m| <= SF_MAX_DATA && l.rx.phase == Idle && !l.rx.complete
    ensures var k := OnFrame(l, id, SfFrame(cfg, m), now, ok).link;
            RequestOf(Receive(k.rx, MAX_MSG)) ==
            if id == l.rxId then Some(Request(m, false))
            else if id == l.funcId && l.funcId != NO_FUNC_ID then Some(Request(m, true))
            else None
  {
    SingleFrameArrives(l, cfg, m, id != l.rxId);
    hide SfFrame, HandleSf;
  }

  /** A broadcast never takes the place of a message under way or not yet collected. */
  lemma BroadcastWaitsItsTurn(l: Link, f: Bytes, now: u32, ok: bool)
    requires LinkInv(l) && l.funcId != l.rxId && (l.rx.phase == Recv || l.rx.complete)
    ensures OnFrame(l, l.funcId, f, now, ok) == LinkOut(l, [])
  {}

  /**
   A completed message is handed up exactly once, as soon as it is asked for with enough room; asking
   with too little room leaves it where it is.
   */
  lemma HandedUpOnce(r: Rx, cap: nat, more: nat)
    requires RxInv(r)
    ensures var a := Receive(r, cap);
            && (a.ret == Ok <==> r.complete && r.len <= cap)
            && (a.ret == Ok ==> a.msg == r.buf[..r.len] && a.functional == r.functional
                                && Receive(a.rx, more).ret == NoData)
            && (a.ret != Ok ==> a.rx == r && a.msg == [] && (a.ret == NoSpace <==> r.complete)
                                && Receive(a.rx, more) == Receive(r, more))
            && a.rx == r.(complete := a.rx.complete)
  {}

  /**
   From the frame to the answer: a request in a single frame to a link at rest is answered at the
   next poll by the first frame of what the server answers, if that is sendable.
   */
  lemma RequestIsAnswered(s: Server, setup: Setup, l: Link, cfg: Cfg, m: Bytes, id: u32, ok: bool,
                          elapsed: u32, rnd: u32, now: u32, ok2: bool)
    requires LinkInv(l) && 1 <= |m| <= SF_MAX_DATA && l.rx.phase == Idle && !l.rx.complete && l.tx.phase == Idle
    requires id == l.rxId || (id == l.funcId && l.funcId != NO_FUNC_ID)
    ensures var k := OnFrame(l, id, SfFrame(cfg, m), now, ok).link;
            var i := In(elapsed, Some(Request(m, id != l.rxId)), rnd, true, true);
            var h := Handle(Before(s, i), setup, i.req.value, rnd);
            var o := Uds.Poll(s, setup, k, elapsed, rnd, now, true, ok2);
            && !o.link.rx.complete
            && (h.answer.None? ==> o.sent == [] && o.srv == h.srv && o.restart == h.reset)
            && (h.answer.Some? && Sendable(h.answer.value) ==>
                  o.sent == Prefix(l.cfg, h.answer.value, 1) && o.srv == h.srv && o.restart == h.reset)
  {
    RequestArrives(l, cfg, m, id, now, ok);
    var k := OnFrame(l, id, SfFrame(cfg, m), now, ok).link;
    var i := In(elapsed, Some(Request(m, id != l.rxId)), rnd, true, true);
    var h := Handle(Before(s, i), setup, i.req.value, rnd);
    QuietSend(l, id, SfFrame(cfg, m), now, ok);
    if h.answer.Some? {
      AnswerAccounted(h, k.cfg, k.tx, m[0], now, true, ok2);
    }
    HandedUpOnce(k.rx, MAX_MSG, MAX_MSG);
    assert Before(s, i) == AgeLock(s, elapsed).(s3 := 0);
    hide Handle, OnFrame, Respond, SfFrame, Receive, RequestOf, AgeLock, Before, Prefix;
    RespondSilently(h, k.cfg, k.tx, m[0], now, true, ok2);
  }

  lemma RespondSilently(h: Outcome, cfg: Cfg, tx: Tx, sid: byte, now: u32, ok1: bool, ok2: bool)
    requires TxInv(tx)
    ensures h.answer.None? ==> Respond(h, cfg, tx, sid, now, ok1, ok2) == Response(h.srv, tx, [], h.reset)
  {
    hide SendTx;
  }

  /** A frame that is not a flow control leaves the send half alone. */
  lemma QuietSend(l: Link, id: u32, f: Bytes, now: u32, ok: bool)
    requires LinkInv(l) && l.tx.phase == Idle
    ensures OnFrame(l, id, f, now, ok).link.tx == l.tx
  {
    hide HandleSf, HandleFf, HandleCf;
  }
}
