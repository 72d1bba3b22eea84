/**
 The UDS server of main/uds.c with its built-in service table, as functions on
 values. `Handle` is what a request does to the server, `Finish` accounts for a
 transport that refuses an answer, and `Poll` runs both over an ISO-TP link.
 */
module Uds {
  import opened Words
  import opened IsoTp

  const SID_SESSION: byte := 0x10
  const SID_RESET: byte := 0x11
  const SID_READ_DID: byte := 0x22
  const SID_SECURITY: byte := 0x27
  const SID_ROUTINE: byte := 0x31
  const SID_DOWNLOAD: byte := 0x34
  const SID_TRANSFER: byte := 0x36
  const SID_EXIT: byte := 0x37
  const SID_TESTER: byte := 0x3E

  const SESSION_DEFAULT: byte := 1

  const NRC_GENERAL: byte := 0x10
  const NRC_SNS: byte := 0x11
  const NRC_SFNS: byte := 0x12
  const NRC_LENGTH: byte := 0x13
  const NRC_BUSY: byte := 0x21
  const NRC_CONDITIONS: byte := 0x22
  const NRC_SEQUENCE: byte := 0x24
  const NRC_RANGE: byte := 0x31
  const NRC_DENIED: byte := 0x33
  const NRC_KEY: byte := 0x35
  const NRC_ATTEMPTS: byte := 0x36
  const NRC_DELAY: byte := 0x37
  const NRC_BLOCK: byte := 0x73

  const S3_MS: int := 5000
  const LOCK_MS: int := 10000
  const MAX_ATTEMPTS: int := 3
  const MAX_BLOCK_LEN: int := 0x402

  /** An open download, or all zero. */
  datatype Xfer = Xfer(active: bool, size: u32, received: u32, bsc: byte)

  const NO_XFER: Xfer := Xfer(false, 0, 0, 0)

  /** `obsLevel` and `obsSeed` are the copies of the security state that callers can read. */
  datatype Server = Server(session: byte, s3: u32, level: byte, pending: byte, seed: u32,
                           attempts: byte, lockMs: u32, xfer: Xfer, dropped: u32,
                           obsLevel: byte, obsSeed: u32)

  datatype Request = Request(bytes: Bytes, functional: bool)

  /** The DID table and the capacity of the response buffer. */
  datatype Setup = Setup(dids: seq<(int, Bytes)>, cap: nat)

  datatype Disp = Positive(resp: Bytes) | Negative(nrc: byte)

  /** `session` is the session a handler asks for; it is committed on a positive result only. */
  datatype Handled = Handled(srv: Server, session: byte, disp: Disp, reset: bool)

  function InitServer(): Server {
    Server(SESSION_DEFAULT, 0, 0, 0, 0, 0, 0, NO_XFER, 0, 0, 0)
  }

  function Relock(s: Server): Server {
    s.(level := 0, pending := 0, xfer := NO_XFER, obsLevel := 0)
  }

  function Reject(s: Server, nrc: byte): Handled {
    Handled(s, s.session, Negative(nrc), false)
  }

  function Accept(s: Server, resp: Bytes): Handled {
    Handled(s, s.session, Positive(resp), false)
  }

  /** A sub-function byte without its suppress bit. */
  function Sub(b: byte): byte { b % 128 }

  // ---- handlers -------------------------------------------------------------

  function DiagSession(s: Server, cap: nat, req: Bytes): Handled {
    if |req| < 2 then Reject(s, NRC_LENGTH)
    else if Sub(req[1]) !in {1, 2, 3} then Reject(s, NRC_SFNS)
    else if cap < 6 then Reject(s, NRC_GENERAL)
    else Accept(s, [0x50, Sub(req[1]), 0, 50, 1, 0xF4]).(session := Sub(req[1]))
  }

  function EcuReset(s: Server, cap: nat, req: Bytes): Handled {
    if |req| < 2 then Reject(s, NRC_LENGTH)
    else if Sub(req[1]) < 1 || Sub(req[1]) > 5 then Reject(s, NRC_SFNS)
    else if cap < 2 then Reject(s, NRC_GENERAL)
    else
      var h := Accept(s, [0x51, Sub(req[1])]);
      if Sub(req[1]) <= 3 then h.(reset := true, session := SESSION_DEFAULT) else h
  }

  function FindDid(dids: seq<(int, Bytes)>, did: int): Option<Bytes> {
    if dids == [] then None
    else if dids[0].0 == did then Some(dids[0].1)
    else FindDid(dids[1..], did)
  }

  /** The answer built from the identifiers at `i` and after, or None when it does not fit. */
  function DidRecords(dids: seq<(int, Bytes)>, cap: nat, req: Bytes, i: nat, acc: Bytes): (r: Option<Bytes>)
    requires |acc| <= cap
    ensures r.Some? ==> acc <= r.value && |r.value| <= cap
    decreases |req| - i
  {
    if i + 1 >= |req| then Some(acc)
    else
      var rec := FindDid(dids, (req[i] as int) * 256 + req[i + 1]);
      if rec.None? then DidRecords(dids, cap, req, i + 2, acc)
      else if |acc| + 2 + |rec.value| > cap then None
      else DidRecords(dids, cap, req, i + 2, acc + [req[i], req[i + 1]] + rec.value)
  }

  function ReadDid(s: Server, setup: Setup, req: Bytes): Handled {
    if |req| < 3 || (|req| - 1) % 2 != 0 then Reject(s, NRC_LENGTH)
    else if setup.cap < 1 then Reject(s, NRC_GENERAL)
    else
      var r := DidRecords(setup.dids, setup.cap, req, 1, [0x62]);
      if r.None? || r.value == [0x62] then Reject(s, NRC_RANGE) else Accept(s, r.value)
  }

  /** The key that answers a seed. */
  function KeyFor(seed: u32): u32 {
    ((seed as bv32) ^ 0x5A5A_5A5A) as u32
  }

  function KeyOf(req: Bytes): u32
    requires |req| >= 6
  {
    BigEndian(req[2..6])
  }

  /** The level a sub-function belongs to: odd asks for a seed, even sends the key. */
  function LevelOf(sub: byte): byte {
    if sub % 2 == 1 then sub else (sub - 1) % 256
  }

  function FreshSeed(rnd: u32): (seed: u32)
    ensures seed != 0
  {
    if rnd == 0 then 0xA5A5_A5A5 else rnd
  }

  function SeedAnswer(sub: byte, seed: u32): Bytes {
    [0x67, sub] + Be4(seed)
  }

  function RequestSeed(s: Server, cap: nat, sub: byte, rnd: u32): Handled {
    if cap < 6 then Reject(s, NRC_GENERAL)
    else if s.level == sub then Accept(s, SeedAnswer(sub, 0))
    else Accept(s.(seed := FreshSeed(rnd), pending := sub), SeedAnswer(sub, FreshSeed(rnd)))
  }

  function SendKey(s: Server, cap: nat, req: Bytes): Handled
    requires |req| >= 2
  {
    if |req| < 6 then Reject(s, NRC_LENGTH)
    else if s.pending == 0 || s.pending != LevelOf(req[1]) then Reject(s, NRC_SEQUENCE)
    else if cap < 2 then Reject(s, NRC_GENERAL)
    else if KeyOf(req) != KeyFor(s.seed) then
      var n := (s.attempts + 1) % 256;
      if n >= MAX_ATTEMPTS then Reject(s.(pending := 0, attempts := 0, lockMs := LOCK_MS), NRC_ATTEMPTS)
      else Reject(s.(pending := 0, attempts := n), NRC_KEY)
    else Accept(s.(level := LevelOf(req[1]), pending := 0, attempts := 0), [0x67, req[1]])
  }

  function Security(s: Server, cap: nat, req: Bytes, rnd: u32): Handled {
    if |req| < 2 then Reject(s, NRC_LENGTH)
    else if s.lockMs > 0 then Reject(s, NRC_DELAY)
    else if LevelOf(req[1]) != 1 then Reject(s, NRC_SFNS)
    else if req[1] % 2 == 1 then RequestSeed(s, cap, req[1], rnd)
    else SendKey(s, cap, req)
  }

  function Routine(s: Server, cap: nat, req: Bytes): Handled {
    if |req| < 4 then Reject(s, NRC_LENGTH)
    else if Sub(req[1]) < 1 || Sub(req[1]) > 3 then Reject(s, NRC_SFNS)
    else if cap < 5 then Reject(s, NRC_GENERAL)
    else Accept(s, [0x71, Sub(req[1]), req[2], req[3], 0])
  }

  function TesterPresent(s: Server, cap: nat, req: Bytes): Handled {
    if |req| < 2 then Reject(s, NRC_LENGTH)
    else if Sub(req[1]) != 0 then Reject(s, NRC_SFNS)
    else if cap < 2 then Reject(s, NRC_GENERAL)
    else Accept(s, [0x7E, 0])
  }

  /** Big-endian value of at most four bytes. */
  function BigEndian(bs: Bytes): (v: u32)
    requires |bs| <= 4
    ensures |bs| == 1 ==> v < 0x100
    ensures |bs| == 2 ==> v < 0x1_0000
    ensures |bs| == 3 ==> v < 0x100_0000
    ensures |bs| == 0 ==> v == 0
    decreases |bs|
  {
    if bs == [] then 0 else BigEndian(bs[..|bs| - 1]) * 256 + bs[|bs| - 1]
  }

  /** Four bytes, most significant first. */
  function Be4(v: u32): (b: Bytes)
    ensures |b| == 4
  {
    [v / 0x100_0000, v / 0x1_0000 % 256, v / 0x100 % 256, v % 256]
  }

  lemma OneMoreByte(bs: Bytes, x: byte)
    requires |bs| <= 3
    ensures BigEndian(bs + [x]) == BigEndian(bs) * 256 + x
  {
    assert (bs + [x])[..|bs|] == bs;
  }

  lemma NoBytes()
    ensures BigEndian([]) == 0
  {}

  lemma FourBytes(a: byte, b: byte, c: byte, d: byte)
    ensures BigEndian([a, b, c, d]) == ((a * 256 + b) * 256 + c) * 256 + d
  {
    hide BigEndian;
    assert [] + [a] == [a] && [a] + [b] == [a, b] && [a, b] + [c] == [a, b, c] && [a, b, c] + [d] == [a, b, c, d];
    NoBytes();
    OneMoreByte([], a);
    OneMoreByte([a], b);
    OneMoreByte([a, b], c);
    OneMoreByte([a, b, c], d);
  }

  lemma Be4Value(v: u32)
    ensures BigEndian(Be4(v)) == v
  {
    FourBytes(v / 0x100_0000, v / 0x1_0000 % 256, v / 0x100 % 256, v % 256);
    Digits(v);
    hide BigEndian;
  }

  lemma Digits(v: nat)
    ensures v / 0x100_0000 * 256 + v / 0x1_0000 % 256 == v / 0x1_0000
    ensures v / 0x1_0000 * 256 + v / 0x100 % 256 == v / 0x100
  {
    assert v / 0x1_0000 == v / 0x100 / 256 && v / 0x100_0000 == v / 0x1_0000 / 256;
  }

  function RequestDownload(s: Server, cap: nat, req: Bytes): Handled {
    if |req| < 4 then Reject(s, NRC_LENGTH)
    else if s.level != 1 then Reject(s, NRC_DENIED)
    else if s.xfer.active then Reject(s, NRC_CONDITIONS)
    else
      var sizeLen, addrLen := req[2] % 16, req[2] / 16;
      if sizeLen == 0 || sizeLen > 4 || addrLen == 0 || addrLen > 4 then Reject(s, NRC_RANGE)
      else if |req| < 3 + addrLen + sizeLen then Reject(s, NRC_LENGTH)
      else if cap < 4 then Reject(s, NRC_GENERAL)
      else
        var size := BigEndian(req[3 + addrLen..3 + addrLen + sizeLen]);
        if size == 0 then Reject(s, NRC_RANGE)
        else Accept(s.(xfer := Xfer(true, size, 0, 1)), [0x74, 0x20, MAX_BLOCK_LEN / 256, MAX_BLOCK_LEN % 256])
  }

  /** Room for `n` more bytes, as the 32-bit sum sees it. */
  predicate Fits(x: Xfer, n: nat) {
    (x.received + n) % TWO_32 <= x.size
  }

  function TakeBlock(x: Xfer, n: nat): Xfer {
    x.(received := (x.received + n) % TWO_32, bsc := (x.bsc + 1) % 256)
  }

  function TransferData(s: Server, cap: nat, req: Bytes): Handled {
    if |req| < 2 then Reject(s, NRC_LENGTH)
    else if !s.xfer.active then Reject(s, NRC_SEQUENCE)
    else if s.level != 1 then Reject(s, NRC_DENIED)
    else if cap < 2 then Reject(s, NRC_GENERAL)
    else
      var n := |req| - 2;
      if req[1] == s.xfer.bsc then
        if |req| > MAX_BLOCK_LEN || !Fits(s.xfer, n) then Reject(s, NRC_RANGE)
        else Accept(s.(xfer := TakeBlock(s.xfer, n)), [0x76, req[1]])
      else if s.xfer.received > 0 && req[1] == (s.xfer.bsc - 1) % 256 then Accept(s, [0x76, req[1]])
      else Reject(s, NRC_BLOCK)
  }

  function TransferExit(s: Server, cap: nat, req: Bytes): Handled {
    if !s.xfer.active then Reject(s, NRC_SEQUENCE)
    else if s.level != 1 then Reject(s, NRC_DENIED)
    else if cap < 1 then Reject(s, NRC_GENERAL)
    else Accept(s.(xfer := NO_XFER), [0x77])
  }

  /** The built-in table; no service is gated by session. */
  function Dispatch(s: Server, setup: Setup, req: Bytes, rnd: u32): Handled
    requires req != []
  {
    var sid := req[0];
    if sid == SID_SESSION then DiagSession(s, setup.cap, req)
    else if sid == SID_RESET then EcuReset(s, setup.cap, req)
    else if sid == SID_READ_DID then ReadDid(s, setup, req)
    else if sid == SID_SECURITY then Security(s, setup.cap, req, rnd)
    else if sid == SID_ROUTINE then Routine(s, setup.cap, req)
    else if sid == SID_TESTER then TesterPresent(s, setup.cap, req)
    else if sid == SID_DOWNLOAD then RequestDownload(s, setup.cap, req)
    else if sid == SID_TRANSFER then TransferData(s, setup.cap, req)
    else if sid == SID_EXIT then TransferExit(s, setup.cap, req)
    else Reject(s, NRC_SNS)
  }

  predicate Known(sid: byte) {
    sid in {SID_SESSION, SID_RESET, SID_READ_DID, SID_SECURITY, SID_ROUTINE, SID_TESTER, SID_DOWNLOAD,
            SID_TRANSFER, SID_EXIT}
  }

  // ---- one request ----------------------------------------------------------

  predicate SilentOnBroadcast(nrc: byte) {
    nrc in {0x11, 0x12, 0x31, 0x7E, 0x7F}
  }

  predicate Suppressed(req: Bytes)
    requires req != []
  {
    req[0] in {SID_SESSION, SID_RESET, SID_ROUTINE, SID_TESTER} && |req| >= 2 && req[1] >= 0x80
  }

  function Nrc(sid: byte, nrc: byte): Bytes { [0x7F, sid, nrc] }

  /** What a request does, and the answer to hand to the transport, if any. */
  datatype Outcome = Outcome(srv: Server, answer: Option<Bytes>, negative: bool, reset: bool)

  function Handle(s: Server, setup: Setup, req: Request, rnd: u32): Outcome
    requires req.bytes != []
  {
    var sid := req.bytes[0];
    var h := Dispatch(s, setup, req.bytes, rnd);
    match h.disp
    case Negative(nrc) =>
      var silent := req.functional && SilentOnBroadcast(nrc);
      var t := if Known(sid) then h.srv.(obsLevel := h.srv.level, obsSeed := h.srv.seed) else h.srv;
      Outcome(t, if silent then None else Some(Nrc(sid, nrc)), true, false)
    case Positive(resp) =>
      var t := if h.session != s.session || (sid == SID_SESSION && h.session == SESSION_DEFAULT)
               then Relock(h.srv.(session := h.session)) else h.srv;
      Outcome(t.(obsLevel := t.level, obsSeed := t.seed),
              if Suppressed(req.bytes) then None else Some(resp), false, h.reset)
  }

  datatype Done = Done(srv: Server, restart: bool)

  /** `first` and `second` tell whether the transport takes the answer and its replacement. */
  function Finish(o: Outcome, first: bool, second: bool): Done {
    if o.answer.None? || first then Done(o.srv, o.reset)
    else if o.negative || !second then Done(o.srv.(dropped := (o.srv.dropped + 1) % TWO_32), false)
    else Done(o.srv, false)
  }

  // ---- one poll -------------------------------------------------------------

  function AgeLock(s: Server, elapsed: u32): Server {
    s.(lockMs := if s.lockMs > elapsed then s.lockMs - elapsed else 0)
  }

  function AgeSession(s: Server, elapsed: u32): Server {
    var s3 := (s.s3 + elapsed) % TWO_32;
    if s3 >= S3_MS then Relock(s.(s3 := 0, session := SESSION_DEFAULT)) else s.(s3 := s3)
  }

  /** One poll of the server, with the answers of the transport given. */
  function Tick(s: Server, setup: Setup, elapsed: u32, req: Option<Request>, rnd: u32,
                first: bool, second: bool): Done
    requires req.Some? ==> req.value.bytes != []
  {
    var t := AgeLock(s, elapsed);
    match req
    case None => Done(AgeSession(t, elapsed), false)
    case Some(r) => Finish(Handle(t.(s3 := 0), setup, r, rnd), first, second)
  }

  datatype PollOut = PollOut(srv: Server, link: Link, sent: seq<Bytes>, restart: bool)

  predicate Took(ret: Ret) { ret == Ok || ret == InProgress }

  /** The completed message as a request; an empty one counts as none. */
  function RequestOf(r: ReceiveOut): (req: Option<Request>)
    ensures req.Some? ==> req.value.bytes != []
  {
    if r.ret == Ok && r.msg != [] then Some(Request(r.msg, r.functional)) else None
  }

  datatype Response = Response(srv: Server, tx: Tx, sent: seq<Bytes>, restart: bool)

  /** Hands the answer of a request to the transport, and `busyRepeatRequest` when a positive one is refused. */
  function Respond(h: Outcome, cfg: Cfg, tx: Tx, sid: byte, now: u32, ok1: bool, ok2: bool): (r: Response)
    requires TxInv(tx)
    ensures TxInv(r.tx)
  {
    if h.answer.None? then
      var d := Finish(h, true, true);
      Response(d.srv, tx, [], d.restart)
    else
      var a := SendTx(cfg, tx, h.answer.value, now, ok1);
      if Took(a.ret) || h.negative then
        var d := Finish(h, Took(a.ret), false);
        Response(d.srv, a.tx, a.sent, d.restart)
      else
        var b := SendTx(cfg, a.tx, Nrc(sid, NRC_BUSY), now, ok2);
        var d := Finish(h, false, Took(b.ret));
        Response(d.srv, b.tx, a.sent + b.sent, d.restart)
  }

  function Poll(s: Server, setup: Setup, l: Link, elapsed: u32, rnd: u32, now: u32, ok1: bool, ok2: bool): (o: PollOut)
    requires LinkInv(l)
    ensures LinkInv(o.link)
  {
    var r := Receive(l.rx, MAX_MSG);
    var req := RequestOf(r);
    if req.None? then PollOut(Tick(s, setup, elapsed, None, rnd, true, true).srv, l.(rx := r.rx), [], false)
    else
      var h := Handle(AgeLock(s, elapsed).(s3 := 0), setup, req.value, rnd);
      var a := Respond(h, l.cfg, l.tx, req.value.bytes[0], now, ok1, ok2);
      PollOut(a.srv, l.(rx := r.rx, tx := a.tx), a.sent, a.restart)
  }

  // ---- answers and the transport --------------------------------------------

  /** A poll is a tick whose transport answers are those of the link. */
  lemma PollIsTick(s: Server, setup: Setup, l: Link, elapsed: u32, rnd: u32, now: u32, ok1: bool, ok2: bool)
    returns (first: bool, second: bool)
    requires LinkInv(l)
    ensures var o := Poll(s, setup, l, elapsed, rnd, now, ok1, ok2);
            Done(o.srv, o.restart) == Tick(s, setup, elapsed, RequestOf(Receive(l.rx, MAX_MSG)), rnd, first, second)
  {
    var req := RequestOf(Receive(l.rx, MAX_MSG));
    first, second := true, true;
    if req.Some? {
      var h := Handle(AgeLock(s, elapsed).(s3 := 0), setup, req.value, rnd);
      if h.answer.Some? {
        var a := SendTx(l.cfg, l.tx, h.answer.value, now, ok1);
        first := Took(a.ret);
        second := Took(SendTx(l.cfg, a.tx, Nrc(req.value.bytes[0], NRC_BUSY), now, ok2).ret);
      }
    }
    hide Handle, SendTx;
  }

  /**
   While a multi-frame reply drains, a poll neither touches the send half nor puts
   anything on the bus, never restarts the device over an answer it could not
   send, and counts one dropped response exactly when there was an answer to give.
   */
  lemma DrainingReplyUntouched(s: Server, setup: Setup, l: Link, elapsed: u32, rnd: u32, now: u32, ok1: bool, ok2: bool)
    requires LinkInv(l) && l.tx.phase != Idle
    ensures var o := Poll(s, setup, l, elapsed, rnd, now, ok1, ok2);
            var req := RequestOf(Receive(l.rx, MAX_MSG));
            && o.link.tx == l.tx && o.sent == []
            && (req.None? ==> o.srv.dropped == s.dropped && !o.restart)
            && (req.Some? ==>
                  var h := Handle(AgeLock(s, elapsed).(s3 := 0), setup, req.value, rnd);
                  && o.srv.dropped == (if h.answer.Some? then (s.dropped + 1) % TWO_32 else s.dropped)
                  && (o.restart ==> h.answer.None?))
  {
    var req := RequestOf(Receive(l.rx, MAX_MSG));
    if req.Some? {
      var t := AgeLock(s, elapsed).(s3 := 0);
      HandleKeepsDropped(t, setup, req.value, rnd);
      RespondWhileDraining(Handle(t, setup, req.value, rnd), l.cfg, l.tx, req.value.bytes[0], now, ok1, ok2);
    }
    hide Handle, Respond;
  }

  lemma RespondWhileDraining(h: Outcome, cfg: Cfg, tx: Tx, sid: byte, now: u32, ok1: bool, ok2: bool)
    requires TxInv(tx) && tx.phase != Idle
    ensures var r := Respond(h, cfg, tx, sid, now, ok1, ok2);
            && r.tx == tx && r.sent == []
            && r.srv.dropped == (if h.answer.Some? then (h.srv.dropped + 1) % TWO_32 else h.srv.dropped)
            && (r.restart ==> h.answer.None?)
  {}

  /**
   Every answer is either 7F, the service and a code, or the service plus 0x40 and a
   payload that fits the response buffer; on the functional address the codes of
   ISO 14229-1 annex A.2 are not sent; a positive result stays silent only when the
   request asked for that, and only an answered or silenced reset restarts.
   */
  lemma AnswersAreWellFormed(s: Server, setup: Setup, req: Request, rnd: u32)
    requires req.bytes != []
    ensures var o := Handle(s, setup, req, rnd);
            && (o.answer.Some? && o.negative ==>
                  |o.answer.value| == 3 && o.answer.value[..2] == [0x7F, req.bytes[0]]
                  && !(req.functional && o.answer.value[2] in {0x11, 0x12, 0x31, 0x7E, 0x7F}))
            && (o.answer.Some? && !o.negative ==>
                  0 < |o.answer.value| <= setup.cap && o.answer.value[0] == req.bytes[0] + 0x40)
            && (o.answer.None? && !o.negative ==>
                  |req.bytes| >= 2 && req.bytes[1] >= 0x80 && req.bytes[0] != SID_SECURITY)
            && (o.reset ==> !o.negative && req.bytes[0] == SID_RESET && o.srv.session == SESSION_DEFAULT)
  {
    PositiveFormat(s, setup, req.bytes, rnd);
    hide Dispatch;
  }

  lemma PositiveFormat(s: Server, setup: Setup, req: Bytes, rnd: u32)
    requires req != []
    ensures var h := Dispatch(s, setup, req, rnd);
            && (h.disp.Positive? ==> 0 < |h.disp.resp| <= setup.cap && h.disp.resp[0] == req[0] + 0x40)
            && (h.reset ==> h.disp.Positive? && req[0] == SID_RESET && h.session == SESSION_DEFAULT)
            && h.srv.session == s.session
  {
    hide KeyOf, KeyFor, BigEndian, FindDid, DidRecords, FreshSeed;
  }

  lemma HandleKeepsDropped(s: Server, setup: Setup, req: Request, rnd: u32)
    requires req.bytes != []
    ensures Handle(s, setup, req, rnd).srv.dropped == s.dropped
  {}
}
