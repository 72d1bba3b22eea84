/**
 The server of main/uds.c as an object: the file-static security and transfer
 state and the server fields, updated in place. Each method is proved to be the
 corresponding function of module Uds.
 */
module UdsServer {
  import opened Words
  import opened IsoTp
  import opened Uds
  import opened IsoTpLink

  class ServerObject {
    const link: LinkObject
    const setup: Setup
    var session: byte
    var s3: u32
    var secLevel: byte
    var secPending: byte
    var secSeed: u32
    var secAttempts: byte
    var secLockMs: u32
    var xferActive: bool
    var xferSize: u32
    var xferReceived: u32
    var xferBsc: byte
    var pendingReset: bool
    var dropped: u32
    var obsLevel: byte
    var obsSeed: u32

    constructor (link: LinkObject, setup: Setup)
      ensures this.link == link && this.setup == setup && !pendingReset
      ensures State() == InitServer()
    {
      this.link, this.setup := link, setup;
      session, s3 := SESSION_DEFAULT, 0;
      secLevel, secPending, secSeed, secAttempts, secLockMs := 0, 0, 0, 0, 0;
      xferActive, xferSize, xferReceived, xferBsc := false, 0, 0, 0;
      pendingReset, dropped, obsLevel, obsSeed := false, 0, 0, 0;
    }

    ghost function State(): Server
      reads this
    {
      Server(session, s3, secLevel, secPending, secSeed, secAttempts, secLockMs,
             Xfer(xferActive, xferSize, xferReceived, xferBsc), dropped, obsLevel, obsSeed)
    }

    method CloseTransfer()
      modifies this`xferActive, this`xferSize, this`xferReceived, this`xferBsc
      ensures State() == old(State()).(xfer := NO_XFER)
    {
      xferActive, xferSize, xferReceived, xferBsc := false, 0, 0, 0;
    }

    method RelockServer()
      modifies this`secLevel, this`secPending, this`xferActive, this`xferSize, this`xferReceived,
        this`xferBsc, this`obsLevel
      ensures State() == Relock(old(State()))
    {
      secLevel, secPending := 0, 0;
      CloseTransfer();
      obsLevel := 0;
    }

    // ---- handlers -----------------------------------------------------------

    method OnEcuReset(req: Bytes) returns (wanted: byte, disp: Disp)
      requires !pendingReset
      modifies this`pendingReset
      ensures Handled(State(), wanted, disp, pendingReset) == EcuReset(old(State()), setup.cap, req)
    {
      wanted := session;
      if |req| < 2 {
        return wanted, Negative(NRC_LENGTH);
      }
      var sub := Sub(req[1]);
      if sub < 1 || sub > 5 {
        return wanted, Negative(NRC_SFNS);
      }
      if setup.cap < 2 {
        return wanted, Negative(NRC_GENERAL);
      }
      if sub <= 3 {
        pendingReset := true;
        wanted := SESSION_DEFAULT;
      }
      disp := Positive([0x51, sub]);
    }

    method OnReadDid(req: Bytes) returns (disp: Disp)
      ensures Handled(State(), session, disp, false) == ReadDid(State(), setup, req)
    {
      if |req| < 3 || (|req| - 1) % 2 != 0 {
        return Negative(NRC_LENGTH);
      }
      if setup.cap < 1 {
        return Negative(NRC_GENERAL);
      }
      var resp: Bytes := [0x62];
      var i := 1;
      while i + 1 < |req|
        invariant 1 <= i <= |req| && 1 <= |resp| <= setup.cap
        invariant i > 1 || resp == [0x62]
        invariant DidRecords(setup.dids, setup.cap, req, 1, [0x62]) == DidRecords(setup.dids, setup.cap, req, i, resp)
        decreases |req| - i
      {
        var rec := FindDid(setup.dids, (req[i] as int) * 256 + req[i + 1]);
        if rec.Some? {
          if |resp| + 2 + |rec.value| > setup.cap {
            return Negative(NRC_RANGE);
          }
          resp := resp + [req[i], req[i + 1]] + rec.value;
        }
        i := i + 2;
      }
      disp := if resp == [0x62] then Negative(NRC_RANGE) else Positive(resp);
    }

    method OnSecurity(req: Bytes, rnd: u32) returns (disp: Disp)
      modifies this`secLevel, this`secPending, this`secSeed, this`secAttempts, this`secLockMs
      ensures Handled(State(), session, disp, false) == Security(old(State()), setup.cap, req, rnd)
    {
      if |req| < 2 {
        return Negative(NRC_LENGTH);
      }
      if secLockMs > 0 {
        return Negative(NRC_DELAY);
      }
      var sub := req[1];
      if LevelOf(sub) != 1 {
        return Negative(NRC_SFNS);
      }
      if sub % 2 == 1 {
        disp := OnRequestSeed(sub, rnd);
      } else {
        disp := OnSendKey(req);
      }
    }

    method OnRequestSeed(sub: byte, rnd: u32) returns (disp: Disp)
      modifies this`secPending, this`secSeed
      ensures Handled(State(), session, disp, false) == RequestSeed(old(State()), setup.cap, sub, rnd)
    {
      if setup.cap < 6 {
        return Negative(NRC_GENERAL);
      }
      var seed := 0;
      if secLevel != sub {
        seed := FreshSeed(rnd);
        secSeed, secPending := seed, sub;
      }
      disp := Positive(SeedAnswer(sub, seed));
    }

    method OnSendKey(req: Bytes) returns (disp: Disp)
      requires |req| >= 2
      modifies this`secLevel, this`secPending, this`secAttempts, this`secLockMs
      ensures Handled(State(), session, disp, false) == SendKey(old(State()), setup.cap, req)
    {
      var level := LevelOf(req[1]);
      if |req| < 6 {
        return Negative(NRC_LENGTH);
      }
      if secPending == 0 || secPending != level {
        return Negative(NRC_SEQUENCE);
      }
      if setup.cap < 2 {
        return Negative(NRC_GENERAL);
      }
      if KeyOf(req) != KeyFor(secSeed) {
        secPending := 0;
        secAttempts := (secAttempts + 1) % 256;
        if secAttempts >= MAX_ATTEMPTS {
          secAttempts, secLockMs := 0, LOCK_MS;
          return Negative(NRC_ATTEMPTS);
        }
        return Negative(NRC_KEY);
      }
      secLevel, secPending, secAttempts := level, 0, 0;
      disp := Positive([0x67, req[1]]);
    }

    /** The declared size, most significant byte first. */
    method ParseSize(bs: Bytes) returns (size: u32)
      requires |bs| <= 4
      ensures size == BigEndian(bs)
    {
      size := 0;
      var i := 0;
      while i < |bs|
        invariant 0 <= i <= |bs|
        invariant size == BigEndian(bs[..i])
      {
        assert bs[..i + 1][..i] == bs[..i];
        ghost var next := BigEndian(bs[..i + 1]);
        size := size * 256 + bs[i];
        i := i + 1;
      }
      assert bs[..|bs|] == bs;
    }

    method OnRequestDownload(req: Bytes) returns (disp: Disp)
      modifies this`xferActive, this`xferSize, this`xferReceived, this`xferBsc
      ensures Handled(State(), session, disp, false) == RequestDownload(old(State()), setup.cap, req)
    {
      if |req| < 4 {
        return Negative(NRC_LENGTH);
      }
      if secLevel != 1 {
        return Negative(NRC_DENIED);
      }
      if xferActive {
        return Negative(NRC_CONDITIONS);
      }
      var sizeLen, addrLen := req[2] % 16, req[2] / 16;
      if sizeLen == 0 || sizeLen > 4 || addrLen == 0 || addrLen > 4 {
        return Negative(NRC_RANGE);
      }
      if |req| < 3 + addrLen + sizeLen {
        return Negative(NRC_LENGTH);
      }
      if setup.cap < 4 {
        return Negative(NRC_GENERAL);
      }
      var size := ParseSize(req[3 + addrLen..3 + addrLen + sizeLen]);
      if size == 0 {
        return Negative(NRC_RANGE);
      }
      xferActive, xferSize, xferReceived, xferBsc := true, size, 0, 1;
      disp := Positive([0x74, 0x20, MAX_BLOCK_LEN / 256, MAX_BLOCK_LEN % 256]);
    }

    method OnTransferData(req: Bytes) returns (disp: Disp)
      modifies this`xferReceived, this`xferBsc
      ensures Handled(State(), session, disp, false) == TransferData(old(State()), setup.cap, req)
    {
      if |req| < 2 {
        return Negative(NRC_LENGTH);
      }
      if !xferActive {
        return Negative(NRC_SEQUENCE);
      }
      if secLevel != 1 {
        return Negative(NRC_DENIED);
      }
      if setup.cap < 2 {
        return Negative(NRC_GENERAL);
      }
      var bsc, n := req[1], |req| - 2;
      if bsc == xferBsc {
        if |req| > MAX_BLOCK_LEN {
          return Negative(NRC_RANGE);
        }
        if (xferReceived + n) % TWO_32 > xferSize {
          return Negative(NRC_RANGE);
        }
        xferReceived := (xferReceived + n) % TWO_32;
        xferBsc := (xferBsc + 1) % 256;
      } else if !(xferReceived > 0 && bsc == (xferBsc - 1) % 256) {
        return Negative(NRC_BLOCK);
      }
      disp := Positive([0x76, bsc]);
    }

    method OnTransferExit() returns (disp: Disp)
      modifies this`xferActive, this`xferSize, this`xferReceived, this`xferBsc
      ensures Handled(State(), session, disp, false) == TransferExit(old(State()), setup.cap, [SID_EXIT])
    {
      if !xferActive {
        return Negative(NRC_SEQUENCE);
      }
      if secLevel != 1 {
        return Negative(NRC_DENIED);
      }
      if setup.cap < 1 {
        return Negative(NRC_GENERAL);
      }
      CloseTransfer();
      disp := Positive([0x77]);
    }

    /** The handlers that write nothing but the response are their own functions. */
    method Serve(req: Bytes, rnd: u32) returns (wanted: byte, disp: Disp)
      requires req != [] && !pendingReset
      modifies this`pendingReset, this`secLevel, this`secPending, this`secSeed, this`secAttempts,
        this`secLockMs, this`xferActive, this`xferSize, this`xferReceived, this`xferBsc
      ensures Handled(State(), wanted, disp, pendingReset) == Dispatch(old(State()), setup, req, rnd)
    {
      wanted := session;
      var s := Server(session, s3, secLevel, secPending, secSeed, secAttempts, secLockMs,
                      Xfer(xferActive, xferSize, xferReceived, xferBsc), dropped, obsLevel, obsSeed);
      match req[0]
      case 0x10 =>
        var h := DiagSession(s, setup.cap, req);
        wanted, disp := h.session, h.disp;
      case 0x11 => wanted, disp := OnEcuReset(req);
      case 0x22 => disp := OnReadDid(req);
      case 0x27 => disp := OnSecurity(req, rnd);
      case 0x31 => disp := Routine(s, setup.cap, req).disp;
      case 0x3E => disp := TesterPresent(s, setup.cap, req).disp;
      case 0x34 => disp := OnRequestDownload(req);
      case 0x36 => disp := OnTransferData(req);
      case 0x37 => disp := OnTransferExit();
      case _ => disp := Negative(NRC_SNS);
    }

    // ---- the poll -----------------------------------------------------------

    method Age(elapsed: u32)
      modifies this`secLockMs
      ensures State() == AgeLock(old(State()), elapsed)
    {
      if secLockMs > 0 {
        secLockMs := if secLockMs > elapsed then secLockMs - elapsed else 0;
      }
    }

    method Idle(elapsed: u32)
      modifies this`s3, this`session, this`secLevel, this`secPending, this`xferActive, this`xferSize,
        this`xferReceived, this`xferBsc, this`obsLevel
      ensures State() == AgeSession(old(State()), elapsed)
    {
      s3 := (s3 + elapsed) % TWO_32;
      if s3 >= S3_MS {
        s3, session := 0, SESSION_DEFAULT;
        RelockServer();
      }
    }

    /** Runs the handler and commits what it decided; `answer` is what is to be sent. */
    method Decide(req: Request, rnd: u32) returns (answer: Option<Bytes>, negative: bool)
      requires req.bytes != [] && !pendingReset
      modifies this
      ensures Outcome(State(), answer, negative, pendingReset) == Handle(old(State()), setup, req, rnd)
    {
      var sid := req.bytes[0];
      var before := session;
      var wanted, disp := Serve(req.bytes, rnd);
      match disp
      case Negative(nrc) =>
        NegativeNeverRestarts(old(State()), setup, req.bytes, rnd);
        if Known(sid) {
          obsLevel, obsSeed := secLevel, secSeed;
        }
        answer := if req.functional && SilentOnBroadcast(nrc) then None else Some(Nrc(sid, nrc));
        negative := true;
      case Positive(resp) =>
        if wanted != before || (sid == SID_SESSION && wanted == SESSION_DEFAULT) {
          session := wanted;
          RelockServer();
        }
        obsLevel, obsSeed := secLevel, secSeed;
        answer := if Suppressed(req.bytes) then None else Some(resp);
        negative := false;
    }

    /** One poll; `restart` tells that the device reboots at its end. */
    method PollServer(elapsed: u32, rnd: u32, now: u32, ok1: bool, ok2: bool) returns (sent: seq<Bytes>, restart: bool)
      requires link.Valid() && !pendingReset
      modifies this, link, link.txBuf, link.rxBuf
      ensures link.Valid() && !pendingReset
      ensures PollOut(State(), link.State(), sent, restart)
           == Uds.Poll(old(State()), setup, old(link.State()), elapsed, rnd, now, ok1, ok2)
    {
      sent, restart := [], false;
      Age(elapsed);
      var req := Collect();
      if req.None? {
        Idle(elapsed);
        return;
      }
      s3 := 0;
      sent, restart := Answer(req.value, rnd, now, ok1, ok2);
      hide Handle, Respond, Receive, RequestOf, AgeLock;
    }

    /** Decides on a request and hands the answer to the transport. */
    method Answer(req: Request, rnd: u32, now: u32, ok1: bool, ok2: bool) returns (sent: seq<Bytes>, restart: bool)
      requires link.Valid() && !pendingReset && req.bytes != []
      modifies this, link`txPhase, link`txLen, link`txOff, link`txSn, link`txBsLeft,
        link`txStmin, link`txWft, link`txTimer, link.txBuf
      ensures link.Valid() && !pendingReset && link.RxState() == old(link.RxState())
      ensures Response(State(), link.TxState(), sent, restart)
           == Respond(Handle(old(State()), setup, req, rnd), link.cfg, old(link.TxState()), req.bytes[0], now, ok1, ok2)
    {
      hide Handle, Respond;
      var answer, negative := Decide(req, rnd);
      sent := Reply(answer, negative, req.bytes[0], now, ok1, ok2);
      restart := pendingReset;
      pendingReset := false;
    }

    method Collect() returns (req: Option<Request>)
      requires link.Valid()
      modifies link`rxComplete
      ensures link.Valid()
      ensures var r := Receive(old(link.RxState()), MAX_MSG);
              link.State() == old(link.State()).(rx := r.rx) && req == RequestOf(r)
    {
      ghost var r := Receive(link.RxState(), MAX_MSG);
      var ret, msg, functional := link.ReceiveMessage(MAX_MSG);
      assert ReceiveOut(link.RxState(), ret, msg, functional) == r;
      req := if ret == Ok && msg != [] then Some(Request(msg, functional)) else None;
    }

    method Reply(answer: Option<Bytes>, negative: bool, sid: byte, now: u32, ok1: bool, ok2: bool)
      returns (sent: seq<Bytes>)
      requires link.Valid()
      modifies this`pendingReset, this`dropped, link`txPhase, link`txLen, link`txOff, link`txSn, link`txBsLeft,
        link`txStmin, link`txWft, link`txTimer, link.txBuf
      ensures link.Valid() && link.RxState() == old(link.RxState())
      ensures Response(State(), link.TxState(), sent, pendingReset)
           == Respond(Outcome(old(State()), answer, negative, old(pendingReset)), link.cfg, old(link.TxState()),
                      sid, now, ok1, ok2)
    {
      hide SendTx, TxInv, RxInv, LinkObject.TxState, LinkObject.RxState, LinkObject.Valid, Nrc, Took;
      sent := [];
      if answer.None? {
        return;
      }
      var took;
      sent, took := Deliver(answer.value, now, ok1);
      if !took {
        pendingReset := false;
        var more := [];
        if !negative {
          more, took := Deliver(Nrc(sid, NRC_BUSY), now, ok2);
        }
        sent := sent + more;
        CountDropped(took);
      }
    }

    method CountDropped(took: bool)
      modifies this`dropped
      ensures State() == if took then old(State()) else old(State()).(dropped := (old(State()).dropped + 1) % TWO_32)
    {
      if !took {
        dropped := (dropped + 1) % TWO_32;
      }
    }

    method Deliver(data: Bytes, now: u32, ok: bool) returns (sent: seq<Bytes>, took: bool)
      requires link.Valid()
      modifies link`txPhase, link`txLen, link`txOff, link`txSn, link`txBsLeft,
        link`txStmin, link`txWft, link`txTimer, link.txBuf
      ensures link.Valid() && link.RxState() == old(link.RxState())
      ensures var o := SendTx(link.cfg, old(link.TxState()), data, now, ok);
              link.TxState() == o.tx && sent == o.sent && took == Took(o.ret)
    {
      ghost var o := SendTx(link.cfg, link.TxState(), data, now, ok);
      var ret;
      sent, ret := link.Send(data, now, ok);
      assert SendOut(link.TxState(), sent, ret) == o;
      took := ret == Ok || ret == InProgress;
    }
  }

  lemma NegativeNeverRestarts(s: Server, setup: Setup, req: Bytes, rnd: u32)
    requires req != []
    ensures Dispatch(s, setup, req, rnd).disp.Negative? ==> !Dispatch(s, setup, req, rnd).reset
  {}
}
