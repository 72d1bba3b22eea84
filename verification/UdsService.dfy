/**
 The server as a tester knows it. A `Tester` keeps what can be told from the requests, their
 answers, elapsed time and restarts alone. Over every run it is what the server holds, and it
 decides exactly which request is served, with what answer, and what a refusal means.
 */
module UdsService {
  import opened Words
  import opened Uds
  import opened UdsRuns

  /** A download under way: its declared size, the blocks accepted and their bytes. */
  datatype Open = Open(size: u32, blocks: nat, bytes: nat)

  /** `idle` is the age of the last request, `wait` what is left of a security delay. */
  datatype Tester = Tester(session: byte, unlocked: bool, seed: Option<u32>, download: Option<Open>,
                           idle: nat, wait: nat, wrong: nat)

  const FRESH: Tester := Tester(SESSION_DEFAULT, false, None, None, 0, 0, 0)

  function Locked(t: Tester): Tester { t.(unlocked := false, seed := None, download := None) }

  /** The size a download request declares. */
  function Declared(req: Bytes): (size: u32)
    requires WellFormedDownload(req)
  {
    var n := req[2] % 16;
    BigEndian(req[3 + req[2] / 16..3 + req[2] / 16 + n])
  }

  predicate WellFormedDownload(req: Bytes) {
    && |req| >= 4 && 1 <= req[2] % 16 <= 4 && 1 <= req[2] / 16 <= 4 && |req| >= 3 + req[2] / 16 + req[2] % 16
  }

  // ---- what an answer tells -------------------------------------------------

  function AfterSession(t: Tester, session: byte, asked: bool): Tester {
    if session != t.session || (asked && session == SESSION_DEFAULT) then Locked(t).(session := session) else t
  }

  function AfterKey(t: Tester, right: bool): Tester {
    if right then t.(unlocked := true, seed := None, wrong := 0)
    else if t.wrong == 2 then t.(seed := None, wrong := 0, wait := LOCK_MS)
    else t.(seed := None, wrong := t.wrong + 1)
  }

  function AfterBlock(o: Open, req: Bytes): Open
    requires |req| >= 2
  {
    if req[1] == (1 + o.blocks) % 256 then o.(blocks := o.blocks + 1, bytes := o.bytes + |req| - 2) else o
  }

  /** What a positive answer to `req` tells. */
  function Learn(t: Tester, req: Bytes, resp: Bytes): Tester
    requires req != []
  {
    var sid, sub := req[0], if |req| >= 2 then req[1] else 0;
    if sid == SID_SESSION then AfterSession(t, Sub(sub), true)
    else if sid == SID_RESET && Sub(sub) <= 3 then AfterSession(t, SESSION_DEFAULT, false)
    else if sid == SID_SECURITY && sub == 1 && |resp| == 6 && resp[2..] != [0, 0, 0, 0] then
      t.(seed := Some(BigEndian(resp[2..])))
    else if sid == SID_SECURITY && sub == 2 then AfterKey(t, true)
    else if sid == SID_DOWNLOAD && WellFormedDownload(req) then t.(download := Some(Open(Declared(req), 0, 0)))
    else if sid == SID_TRANSFER && |req| >= 2 && t.download.Some? then
      t.(download := Some(AfterBlock(t.download.value, req)))
    else if sid == SID_EXIT then t.(download := None)
    else t
  }

  /** The tester when the poll of `i` dispatches its request. */
  function Aged(t: Tester, elapsed: u32): Tester {
    t.(wait := if t.wait > elapsed then t.wait - elapsed else 0)
  }

  function Track(t: Tester, i: In, disp: Option<Disp>, restart: bool): Tester
    requires WfIn(i)
  {
    var a := Aged(t, i.elapsed);
    if restart then FRESH
    else if i.req.None? || disp.None? then
      var idle := (t.idle + i.elapsed) % TWO_32;
      if idle >= S3_MS then Locked(a).(session := SESSION_DEFAULT, idle := 0) else a.(idle := idle)
    else
      var req := i.req.value;
      if IsRejectedKey(req, disp.value) then AfterKey(a, false).(idle := 0)
      else if disp.value.Negative? then a.(idle := 0)
      else Learn(a, req.bytes, disp.value.resp).(idle := 0)
  }

  /** The tester after a run. */
  function Seen(setup: Setup, ins: seq<In>): Tester
    requires Wf(ins)
  {
    if ins == [] then FRESH
    else
      var n := |ins| - 1;
      var l := Run(START, setup, ins[..n]);
      Track(Seen(setup, ins[..n]), ins[n], DispOf(l.srv, setup, ins[n]), TickOf(l.srv, setup, ins[n]).restart)
  }

  // ---- the tester's view is true --------------------------------------------

  predicate SameDownload(x: Xfer, o: Option<Open>) {
    if o.None? then x == NO_XFER
    else x == Xfer(true, o.value.size, o.value.bytes % TWO_32, (1 + o.value.blocks) % 256)
  }

  predicate Same(s: Server, t: Tester) {
    && s.session == t.session && s.level == (if t.unlocked then 1 else 0)
    && (if t.seed.None? then s.pending == 0 else s.pending == 1 && s.seed == t.seed.value)
    && SameDownload(s.xfer, t.download) && (t.download.Some? ==> t.unlocked)
    && s.s3 == t.idle && s.lockMs == t.wait && s.attempts == t.wrong < MAX_ATTEMPTS
  }

  // ---- which requests are served --------------------------------------------

  /** Room for the next block, as the 32-bit sum of the server sees it. */
  predicate HasRoom(o: Open, n: nat) { (o.bytes % TWO_32 + n) % TWO_32 <= o.size }

  predicate BlockServed(o: Open, req: Bytes)
    requires |req| >= 2
  {
    || (req[1] == (1 + o.blocks) % 256 && |req| <= MAX_BLOCK_LEN && HasRoom(o, |req| - 2))
    || (req[1] == o.blocks % 256 && o.bytes % TWO_32 > 0)
  }

  predicate SecurityServed(t: Tester, cap: nat, req: Bytes) {
    && |req| >= 2 && t.wait == 0
    && (|| (req[1] == 1 && cap >= 6)
        || (req[1] == 2 && cap >= 2 && |req| >= 6 && t.seed.Some? && KeyOf(req) == KeyFor(t.seed.value)))
  }

  /** The requests a tester may expect a positive answer to. */
  predicate Served(t: Tester, setup: Setup, req: Bytes)
    requires req != []
  {
    var cap, sub := setup.cap, if |req| >= 2 then Sub(req[1]) else 0;
    || (req[0] == SID_SESSION && |req| >= 2 && 1 <= sub <= 3 && cap >= 6)
    || (req[0] == SID_RESET && |req| >= 2 && 1 <= sub <= 5 && cap >= 2)
    || (req[0] == SID_READ_DID && ReadServed(setup, req))
    || (req[0] == SID_SECURITY && SecurityServed(t, cap, req))
    || (req[0] == SID_ROUTINE && |req| >= 4 && 1 <= sub <= 3 && cap >= 5)
    || (req[0] == SID_TESTER && |req| >= 2 && sub == 0 && cap >= 2)
    || (req[0] == SID_DOWNLOAD && t.unlocked && t.download.None? && WellFormedDownload(req) && Declared(req) > 0
        && cap >= 4)
    || (req[0] == SID_TRANSFER && |req| >= 2 && t.download.Some? && cap >= 2 && BlockServed(t.download.value, req))
    || (req[0] == SID_EXIT && t.download.Some? && cap >= 1)
  }

  /** The positive answer. */
  function Reply(t: Tester, setup: Setup, req: Bytes, rnd: u32): Bytes
    requires req != [] && Served(t, setup, req)
  {
    var sid := req[0];
    if sid == SID_SESSION then [0x50, Sub(req[1]), 0x00, 0x32, 0x01, 0xF4]
    else if sid == SID_READ_DID then [0x62] + Records(Wanted(setup.dids, req, 1))
    else if sid == SID_SECURITY && req[1] == 1 then [0x67, 1] + Be4(if t.unlocked then 0 else FreshSeed(rnd))
    else if sid == SID_ROUTINE then [0x71, Sub(req[1]), req[2], req[3], 0]
    else if sid == SID_DOWNLOAD then [0x74, 0x20, 0x04, 0x02]
    else if sid == SID_EXIT then [0x77]
    else [sid + 0x40, if sid in {SID_RESET, SID_TESTER} then Sub(req[1]) else req[1]]
  }

  // ---- ReadDataByIdentifier -------------------------------------------------

  /** An identifier and what the table holds under it. */
  datatype Record = Record(hi: byte, lo: byte, data: Bytes)

  /** The records of the identifiers asked for from position `i` on, those the table does not know left out. */
  function Wanted(dids: seq<(int, Bytes)>, req: Bytes, i: nat): seq<Record>
    decreases |req| - i
  {
    if i + 1 >= |req| then []
    else
      var rec := FindDid(dids, (req[i] as int) * 256 + req[i + 1]);
      (if rec.None? then [] else [Record(req[i], req[i + 1], rec.value)]) + Wanted(dids, req, i + 2)
  }

  function Records(rs: seq<Record>): Bytes {
    if rs == [] then [] else [rs[0].hi, rs[0].lo] + rs[0].data + Records(rs[1..])
  }

  predicate ReadServed(setup: Setup, req: Bytes) {
    var rs := Wanted(setup.dids, req, 1);
    |req| >= 3 && |req| % 2 == 1 && rs != [] && 1 + |Records(rs)| <= setup.cap
  }

  /** The loop that gives up at the first record that does not fit is a test of the whole length. */
  lemma {:induction false} DidsAre(dids: seq<(int, Bytes)>, cap: nat, req: Bytes, i: nat, acc: Bytes)
    requires |acc| <= cap
    ensures var rs := Wanted(dids, req, i);
            DidRecords(dids, cap, req, i, acc) ==
            if |acc| + |Records(rs)| <= cap then Some(acc + Records(rs)) else None
    decreases |req| - i
  {
    if i + 1 >= |req| {
      assert acc + [] == acc;
      return;
    }
    var rec := FindDid(dids, (req[i] as int) * 256 + req[i + 1]);
    var rest := Wanted(dids, req, i + 2);
    if rec.None? {
      assert [] + rest == rest;
      DidsAre(dids, cap, req, i + 2, acc);
    } else {
      var r := Record(req[i], req[i + 1], rec.value);
      var head := [r.hi, r.lo] + r.data;
      assert ([r] + rest)[1..] == rest;
      assert Records([r] + rest) == head + Records(rest);
      if |acc| + |head| <= cap {
        DidsAre(dids, cap, req, i + 2, acc + [r.hi, r.lo] + r.data);
        assert acc + [r.hi, r.lo] + r.data == acc + head;
        Joined(acc, head, Records(rest));
      }
    }
    hide FindDid;
  }

  /** A tester that knows the length of each record reads the records back. */
  function ReadBack(dids: seq<(int, Bytes)>, resp: Bytes): Option<seq<Record>>
    decreases |resp|
  {
    if resp == [] then Some([])
    else if |resp| < 2 then None
    else
      var rec := FindDid(dids, (resp[0] as int) * 256 + resp[1]);
      if rec.None? || |resp| < 2 + |rec.value| then None
      else
        var n := 2 + |rec.value|;
        var rest := ReadBack(dids, resp[n..]);
        if rest.None? then None else Some([Record(resp[0], resp[1], resp[2..n])] + rest.value)
  }

  lemma ReadOne(dids: seq<(int, Bytes)>, r: Record, rest: Bytes)
    requires FindDid(dids, (r.hi as int) * 256 + r.lo) == Some(r.data)
    ensures var more := ReadBack(dids, rest);
            ReadBack(dids, [r.hi, r.lo] + r.data + rest) == if more.None? then None else Some([r] + more.value)
  {
    var resp, n := [r.hi, r.lo] + r.data + rest, 2 + |r.data|;
    assert resp[0] == r.hi && resp[1] == r.lo && resp[2..n] == r.data && resp[n..] == rest;
    hide FindDid;
  }

  /** What is read back are the records asked for. */
  lemma {:induction false} RecordsReadBack(dids: seq<(int, Bytes)>, req: Bytes, i: nat)
    ensures ReadBack(dids, Records(Wanted(dids, req, i))) == Some(Wanted(dids, req, i))
    decreases |req| - i
  {
    hide FindDid, ReadBack;
    if i + 1 >= |req| {
      ReadNothing(dids);
      return;
    }
    RecordsReadBack(dids, req, i + 2);
    var rec, rest := FindDid(dids, (req[i] as int) * 256 + req[i + 1]), Wanted(dids, req, i + 2);
    if rec.None? {
      assert [] + rest == rest;
    } else {
      var r := Record(req[i], req[i + 1], rec.value);
      assert Wanted(dids, req, i) == [r] + rest && ([r] + rest)[1..] == rest;
      assert Records([r] + rest) == [r.hi, r.lo] + r.data + Records(rest);
      ReadOne(dids, r, Records(rest));
    }
  }

  lemma ReadNothing(dids: seq<(int, Bytes)>)
    ensures ReadBack(dids, []) == Some([])
  {}

  lemma ReadIff(s: Server, t: Tester, setup: Setup, req: Bytes, rnd: u32)
    requires req != [] && req[0] == SID_READ_DID
    ensures var h := ReadDid(s, setup, req);
            && h.srv == s && h.session == s.session && !h.reset
            && (h.disp.Positive? <==> Served(t, setup, req))
            && (h.disp.Positive? ==> h.disp.resp == Reply(t, setup, req, rnd))
  {
    if setup.cap >= 1 {
      DidsAre(setup.dids, setup.cap, req, 1, [0x62]);
      var rs := Wanted(setup.dids, req, 1);
      assert rs == [] ==> [0x62] + Records(rs) == [0x62];
      assert rs != [] ==> |Records(rs)| >= 2;
    }
    hide DidRecords, Wanted;
  }

  // ---- the other services ---------------------------------------------------

  /** A service that was dispatched is served exactly when the tester expects it, with the reply expected. */
  predicate AsExpected(h: Handled, s: Server, t: Tester, setup: Setup, req: Bytes, rnd: u32)
    requires req != []
  {
    && (h.disp.Positive? <==> Served(t, setup, req))
    && (h.disp.Positive? ==> h.disp.resp == Reply(t, setup, req, rnd))
  }

  lemma PlainExpected(s: Server, t: Tester, setup: Setup, req: Bytes, rnd: u32)
    requires req != [] && req[0] in {SID_SESSION, SID_RESET, SID_ROUTINE, SID_TESTER}
    ensures AsExpected(Dispatch(s, setup, req, rnd), s, t, setup, req, rnd)
  {
    hide ReadServed, SecurityServed, WellFormedDownload, Declared, BlockServed, DidRecords;
  }

  lemma SecurityExpected(s: Server, t: Tester, setup: Setup, req: Bytes, rnd: u32)
    requires Same(s, t) && req != [] && req[0] == SID_SECURITY
    ensures AsExpected(Security(s, setup.cap, req, rnd), s, t, setup, req, rnd)
  {
    hide KeyOf, KeyFor, BigEndian, FreshSeed, Be4, ReadServed, WellFormedDownload, Declared, BlockServed;
  }

  lemma DownloadExpected(s: Server, t: Tester, setup: Setup, req: Bytes, rnd: u32)
    requires Same(s, t) && req != [] && req[0] == SID_DOWNLOAD
    ensures AsExpected(RequestDownload(s, setup.cap, req), s, t, setup, req, rnd)
  {
    hide BigEndian, ReadServed, SecurityServed, BlockServed;
  }

  lemma TransferExpected(s: Server, t: Tester, setup: Setup, req: Bytes, rnd: u32)
    requires Same(s, t) && req != [] && req[0] == SID_TRANSFER
    ensures AsExpected(TransferData(s, setup.cap, req), s, t, setup, req, rnd)
  {
    hide ReadServed, SecurityServed, WellFormedDownload, Declared;
    if t.download.Some? {
      Before256(t.download.value.blocks);
    }
  }

  lemma Before256(n: nat)
    ensures ((1 + n) % 256 - 1) % 256 == n % 256 && (1 + n) % 256 != n % 256
  {}

  lemma ExitExpected(s: Server, t: Tester, setup: Setup, req: Bytes, rnd: u32)
    requires Same(s, t) && req != [] && req[0] == SID_EXIT
    ensures AsExpected(TransferExit(s, setup.cap, req), s, t, setup, req, rnd)
  {
    hide ReadServed, SecurityServed, WellFormedDownload, Declared, BlockServed;
  }

  lemma DispatchExpected(s: Server, t: Tester, setup: Setup, req: Bytes, rnd: u32)
    requires Same(s, t) && req != []
    ensures AsExpected(Dispatch(s, setup, req, rnd), s, t, setup, req, rnd)
  {
    var sid := req[0];
    if sid in {SID_SESSION, SID_RESET, SID_ROUTINE, SID_TESTER} {
      PlainExpected(s, t, setup, req, rnd);
    } else if sid == SID_READ_DID {
      assert Dispatch(s, setup, req, rnd) == ReadDid(s, setup, req);
      ReadIff(s, t, setup, req, rnd);
    } else if sid == SID_SECURITY {
      assert Dispatch(s, setup, req, rnd) == Security(s, setup.cap, req, rnd);
      SecurityExpected(s, t, setup, req, rnd);
    } else if sid == SID_DOWNLOAD {
      assert Dispatch(s, setup, req, rnd) == RequestDownload(s, setup.cap, req);
      DownloadExpected(s, t, setup, req, rnd);
    } else if sid == SID_TRANSFER {
      assert Dispatch(s, setup, req, rnd) == TransferData(s, setup.cap, req);
      TransferExpected(s, t, setup, req, rnd);
    } else if sid == SID_EXIT {
      assert Dispatch(s, setup, req, rnd) == TransferExit(s, setup.cap, req);
      ExitExpected(s, t, setup, req, rnd);
    } else {
      assert Dispatch(s, setup, req, rnd) == Reject(s, NRC_SNS);
      assert !Served(t, setup, req);
    }
    hide Dispatch, Same, Served, Reply, ReadDid, Security, RequestDownload, TransferData, TransferExit;
  }

  // ---- following the state --------------------------------------------------

  predicate Followed(h: Handled, s: Server, t: Tester, req: Request)
    requires req.bytes != []
  {
    var u := if IsRejectedKey(req, h.disp) then AfterKey(t, false)
             else if h.disp.Negative? then t else Learn(t, req.bytes, h.disp.resp);
    var again := req.bytes[0] == SID_SESSION && h.session == SESSION_DEFAULT;
    var k := if h.disp.Positive? && (h.session != s.session || again)
             then Relock(h.srv.(session := h.session)) else h.srv;
    Same(k, u)
  }

  lemma PlainFollowed(s: Server, t: Tester, setup: Setup, req: Request, rnd: u32)
    requires Same(s, t) && req.bytes != []
    requires req.bytes[0] !in {SID_SECURITY, SID_DOWNLOAD, SID_TRANSFER, SID_EXIT}
    ensures Followed(Dispatch(s, setup, req.bytes, rnd), s, t, req)
  {
    assert SameDownload(NO_XFER, None);
    hide DidRecords, SameDownload;
    if req.bytes[0] == SID_READ_DID {
      assert Dispatch(s, setup, req.bytes, rnd) == ReadDid(s, setup, req.bytes);
    }
  }

  lemma SecurityFollowed(s: Server, t: Tester, cap: nat, req: Request, rnd: u32)
    requires Same(s, t) && req.bytes != [] && req.bytes[0] == SID_SECURITY
    ensures Followed(Security(s, cap, req.bytes, rnd), s, t, req)
  {
    hide KeyOf, KeyFor, BigEndian, SeedAnswer, SameDownload, FreshSeed;
    if |req.bytes| >= 2 {
      SeedBytes(req.bytes[1], 0);
      SeedBytes(req.bytes[1], FreshSeed(rnd));
    }
  }

  lemma DownloadFollowed(s: Server, t: Tester, cap: nat, req: Request)
    requires Same(s, t) && req.bytes != [] && req.bytes[0] == SID_DOWNLOAD
    ensures Followed(RequestDownload(s, cap, req.bytes), s, t, req)
  {
    hide BigEndian;
  }

  lemma TransferFollowed(s: Server, t: Tester, cap: nat, req: Request)
    requires Same(s, t) && req.bytes != [] && req.bytes[0] == SID_TRANSFER
    ensures Followed(TransferData(s, cap, req.bytes), s, t, req)
  {
    var h := TransferData(s, cap, req.bytes);
    if h.disp.Positive? {
      var o, n := t.download.value, |req.bytes| - 2;
      Before256(o.blocks);
      SumsAgree(o.bytes, n);
      assert (1 + (o.blocks + 1)) % 256 == ((1 + o.blocks) % 256 + 1) % 256;
    }
  }

  lemma SumsAgree(a: nat, n: nat)
    ensures (a % TWO_32 + n) % TWO_32 == (a + n) % TWO_32
  {}

  lemma ExitFollowed(s: Server, t: Tester, cap: nat, req: Request)
    requires Same(s, t) && req.bytes != [] && req.bytes[0] == SID_EXIT
    ensures Followed(TransferExit(s, cap, req.bytes), s, t, req)
  {}

  lemma DispatchFollowed(s: Server, t: Tester, setup: Setup, req: Request, rnd: u32)
    requires Same(s, t) && req.bytes != []
    ensures Followed(Dispatch(s, setup, req.bytes, rnd), s, t, req)
  {
    var sid := req.bytes[0];
    if sid == SID_SECURITY {
      assert Dispatch(s, setup, req.bytes, rnd) == Security(s, setup.cap, req.bytes, rnd);
      SecurityFollowed(s, t, setup.cap, req, rnd);
    } else if sid == SID_DOWNLOAD {
      assert Dispatch(s, setup, req.bytes, rnd) == RequestDownload(s, setup.cap, req.bytes);
      DownloadFollowed(s, t, setup.cap, req);
    } else if sid == SID_TRANSFER {
      assert Dispatch(s, setup, req.bytes, rnd) == TransferData(s, setup.cap, req.bytes);
      TransferFollowed(s, t, setup.cap, req);
    } else if sid == SID_EXIT {
      assert Dispatch(s, setup, req.bytes, rnd) == TransferExit(s, setup.cap, req.bytes);
      ExitFollowed(s, t, setup.cap, req);
    } else {
      PlainFollowed(s, t, setup, req, rnd);
    }
    hide Dispatch, Same, Followed, Security, RequestDownload, TransferData, TransferExit;
  }

  lemma TrackStep(l: Log, setup: Setup, i: In, t: Tester)
    requires WfIn(i) && Same(l.srv, t)
    ensures Same(Step(l, setup, i).srv, Track(t, i, DispOf(l.srv, setup, i), TickOf(l.srv, setup, i).restart))
  {
    if i.req.Some? {
      AskedStep(l, setup, i, t);
    } else {
      hide Dispatch, Learn, IsRejectedKey;
    }
    hide Same, Step, Track;
  }

  lemma AskedStep(l: Log, setup: Setup, i: In, t: Tester)
    requires WfIn(i) && i.req.Some? && Same(l.srv, t)
    ensures Same(Step(l, setup, i).srv, Track(t, i, DispOf(l.srv, setup, i), TickOf(l.srv, setup, i).restart))
  {
    hide Dispatch, Learn, IsRejectedKey;
    var a := Aged(t, i.elapsed).(idle := 0);
    assert Same(Before(l.srv, i), a);
    DispatchFollowed(Before(l.srv, i), a, setup, i.req.value, i.rnd);
    IdleApart(t, i, DispOf(l.srv, setup, i).value);
    hide SameDownload, AfterKey;
  }

  /** The age of the last request has no part in what an answer tells. */
  lemma IdleApart(t: Tester, i: In, disp: Disp)
    requires WfIn(i) && i.req.Some?
    ensures var a := Aged(t, i.elapsed);
            && AfterKey(a.(idle := 0), false) == AfterKey(a, false).(idle := 0)
            && (disp.Positive? ==>
                  Learn(a.(idle := 0), i.req.value.bytes, disp.resp)
                  == Learn(a, i.req.value.bytes, disp.resp).(idle := 0))
  {
    hide BigEndian, AfterBlock;
  }

  /** Over every run: what the tester has concluded from the answers is what the server holds. */
  lemma {:induction false} TesterKnows(setup: Setup, ins: seq<In>)
    requires Wf(ins)
    ensures Same(Run(START, setup, ins).srv, Seen(setup, ins))
    decreases |ins|
  {
    hide Run, Step, Track, Same;
    RunUnfold(START, setup, ins);
    if ins == [] {
      FreshIsSame();
    } else {
      var n := |ins| - 1;
      TesterKnows(setup, ins[..n]);
      TrackStep(Run(START, setup, ins[..n]), setup, ins[n], Seen(setup, ins[..n]));
    }
  }

  lemma FreshIsSame()
    ensures Same(START.srv, FRESH)
  {}

  /**
   In every run the next request is answered positively if and only if the tester may expect it
   from the answers so far, and then with exactly the bytes it may expect.
   */
  lemma ServedIff(setup: Setup, ins: seq<In>, i: In)
    requires Wf(ins) && WfIn(i) && i.req.Some?
    ensures var disp := DispOf(Run(START, setup, ins).srv, setup, i).value;
            var t, req := Aged(Seen(setup, ins), i.elapsed), i.req.value.bytes;
            && (disp.Positive? <==> Served(t, setup, req))
            && (disp.Positive? ==> disp.resp == Reply(t, setup, req, i.rnd))
  {
    TesterKnows(setup, ins);
    var s, t := Run(START, setup, ins).srv, Seen(setup, ins);
    assert Same(Before(s, i), Aged(t, i.elapsed).(idle := 0));
    DispatchExpected(Before(s, i), Aged(t, i.elapsed).(idle := 0), setup, i.req.value.bytes, i.rnd);
    ServedAnyAge(Aged(t, i.elapsed), setup, i.req.value.bytes, i.rnd);
    hide Run, Seen, Dispatch, Served, Reply, Same;
  }

  lemma ServedAnyAge(t: Tester, setup: Setup, req: Bytes, rnd: u32)
    requires req != []
    ensures Served(t.(idle := 0), setup, req) == Served(t, setup, req)
    ensures Served(t, setup, req) ==> Reply(t.(idle := 0), setup, req, rnd) == Reply(t, setup, req, rnd)
  {
    hide ReadServed, WellFormedDownload, Declared, BlockServed;
  }

  // ---- what a refusal means -------------------------------------------------

  predicate HasSubFunction(sid: byte) { sid in {SID_SESSION, SID_RESET, SID_ROUTINE, SID_TESTER} }

  /** The reason each code gives. */
  predicate Reason(t: Tester, setup: Setup, req: Bytes, nrc: byte)
    requires req != []
  {
    var sid := req[0];
    match nrc
    case 0x10 => setup.cap < 6
    case 0x11 => !Known(sid)
    case 0x12 => |req| >= 2 && (if sid == SID_SECURITY then req[1] !in {1, 2} else HasSubFunction(sid))
    case 0x13 =>
      || (sid == SID_READ_DID && (|req| < 3 || |req| % 2 == 0))
      || (sid == SID_ROUTINE && |req| < 4)
      || (sid == SID_SECURITY && |req| < 6)
      || (sid == SID_DOWNLOAD && !WellFormedDownload(req))
      || |req| < 2
    case 0x22 => sid == SID_DOWNLOAD && t.download.Some?
    case 0x24 => (sid in {SID_TRANSFER, SID_EXIT} && t.download.None?) || (sid == SID_SECURITY && t.seed.None?)
    case 0x31 =>
      || (sid == SID_READ_DID && !ReadServed(setup, req))
      || (sid == SID_DOWNLOAD && (WellFormedDownload(req) ==> Declared(req) == 0))
      || (sid == SID_TRANSFER && t.download.Some? && |req| >= 2
          && (|req| > MAX_BLOCK_LEN || !HasRoom(t.download.value, |req| - 2)))
    case 0x33 => sid == SID_DOWNLOAD && !t.unlocked
    case 0x35 => sid == SID_SECURITY && WrongKey(t, req) && t.wrong < 2
    case 0x36 => sid == SID_SECURITY && WrongKey(t, req) && t.wrong == 2
    case 0x37 => sid == SID_SECURITY && t.wait > 0
    case 0x73 => sid == SID_TRANSFER && t.download.Some? && |req| >= 2 && req[1] != (1 + t.download.value.blocks) % 256
    case _ => false
  }

  predicate WrongKey(t: Tester, req: Bytes) {
    |req| >= 6 && req[1] == 2 && t.seed.Some? && KeyOf(req) != KeyFor(t.seed.value)
  }

  predicate Justified(h: Handled, t: Tester, setup: Setup, req: Bytes)
    requires req != []
  {
    h.disp.Negative? ==> Reason(t, setup, req, h.disp.nrc)
  }

  lemma SecurityJustified(s: Server, t: Tester, setup: Setup, req: Bytes, rnd: u32)
    requires Same(s, t) && req != [] && req[0] == SID_SECURITY
    ensures Justified(Security(s, setup.cap, req, rnd), t, setup, req)
  {
    hide KeyOf, KeyFor, SeedAnswer, FreshSeed, SameDownload, WellFormedDownload, Declared, ReadServed;
  }

  lemma DownloadJustified(s: Server, t: Tester, setup: Setup, req: Bytes)
    requires Same(s, t) && req != [] && req[0] == SID_DOWNLOAD
    ensures Justified(RequestDownload(s, setup.cap, req), t, setup, req)
  {
    hide BigEndian, ReadServed;
  }

  lemma TransferJustified(s: Server, t: Tester, setup: Setup, req: Bytes)
    requires Same(s, t) && req != []
    ensures req[0] == SID_TRANSFER ==> Justified(TransferData(s, setup.cap, req), t, setup, req)
    ensures req[0] == SID_EXIT ==> Justified(TransferExit(s, setup.cap, req), t, setup, req)
  {
    hide WellFormedDownload, Declared, ReadServed, WrongKey;
  }

  lemma ReadJustified(s: Server, t: Tester, setup: Setup, req: Bytes, rnd: u32)
    requires req != [] && req[0] == SID_READ_DID
    ensures Justified(ReadDid(s, setup, req), t, setup, req)
  {
    ReadIff(s, t, setup, req, rnd);
    hide DidRecords, ReadServed;
  }

  lemma PlainJustified(s: Server, t: Tester, setup: Setup, req: Bytes, rnd: u32)
    requires req != [] && req[0] !in {SID_SECURITY, SID_DOWNLOAD, SID_TRANSFER, SID_EXIT, SID_READ_DID}
    ensures Justified(Dispatch(s, setup, req, rnd), t, setup, req)
  {
    hide WellFormedDownload, Declared, ReadServed, WrongKey, HasRoom;
  }

  /** In every run a refusal names a reason that really holds, as the tester itself can tell. */
  lemma RefusalsAreJustified(setup: Setup, ins: seq<In>, i: In)
    requires Wf(ins) && WfIn(i) && i.req.Some?
    ensures var disp := DispOf(Run(START, setup, ins).srv, setup, i).value;
            disp.Negative? ==> Reason(Aged(Seen(setup, ins), i.elapsed), setup, i.req.value.bytes, disp.nrc)
  {
    TesterKnows(setup, ins);
    var t := Aged(Seen(setup, ins), i.elapsed).(idle := 0);
    assert Same(Before(Run(START, setup, ins).srv, i), t);
    hide Run, Seen, Dispatch, Same, Reason;
    DispatchJustified(Before(Run(START, setup, ins).srv, i), t, setup, i.req.value.bytes, i.rnd);
    ReasonAnyAge(Aged(Seen(setup, ins), i.elapsed), setup, i.req.value.bytes);
  }

  lemma ReasonAnyAge(t: Tester, setup: Setup, req: Bytes)
    requires req != []
    ensures forall nrc: byte :: Reason(t.(idle := 0), setup, req, nrc) == Reason(t, setup, req, nrc)
  {
    hide ReadServed, WellFormedDownload, Declared, KeyOf, KeyFor;
  }

  lemma DispatchJustified(s: Server, t: Tester, setup: Setup, req: Bytes, rnd: u32)
    requires Same(s, t) && req != []
    ensures Justified(Dispatch(s, setup, req, rnd), t, setup, req)
  {
    var sid := req[0];
    if sid == SID_SECURITY {
      assert Dispatch(s, setup, req, rnd) == Security(s, setup.cap, req, rnd);
      SecurityJustified(s, t, setup, req, rnd);
    } else if sid == SID_READ_DID {
      assert Dispatch(s, setup, req, rnd) == ReadDid(s, setup, req);
      ReadJustified(s, t, setup, req, rnd);
    } else if sid == SID_DOWNLOAD {
      assert Dispatch(s, setup, req, rnd) == RequestDownload(s, setup.cap, req);
      DownloadJustified(s, t, setup, req);
    } else if sid in {SID_TRANSFER, SID_EXIT} {
      assert sid == SID_TRANSFER ==> Dispatch(s, setup, req, rnd) == TransferData(s, setup.cap, req);
      assert sid == SID_EXIT ==> Dispatch(s, setup, req, rnd) == TransferExit(s, setup.cap, req);
      TransferJustified(s, t, setup, req);
    } else {
      PlainJustified(s, t, setup, req, rnd);
    }
    hide Dispatch, Same, Justified, Security, RequestDownload, TransferData, TransferExit, ReadDid;
  }
}
