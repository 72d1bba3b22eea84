/**
 Whole runs of the UDS server: every sequence of polls, with and without
 requests, whatever the transport does with the answers. A restart puts the
 server back in its initial state.

 Beside the server a `Log` keeps what a tester can count for itself: the blocks
 and bytes of the open download, elapsed time, rejected keys, unlocks, restarts.
 */
module UdsRuns {
  import opened Words
  import opened Uds

  datatype In = In(elapsed: u32, req: Option<Request>, rnd: u32, first: bool, second: bool)

  predicate WfIn(i: In) { i.req.Some? ==> i.req.value.bytes != [] }

  predicate Wf(ins: seq<In>) { forall k :: 0 <= k < |ins| ==> WfIn(ins[k]) }

  /** Blocks and bytes accepted since the last download was opened, by the tester's own count. */
  datatype Tally = Tally(blocks: nat, bytes: nat)

  datatype Log = Log(srv: Server, tally: Tally, time: nat, rejected: nat, unlocks: nat, restarts: nat)

  const START: Log := Log(InitServer(), Tally(0, 0), 0, 0, 0, 0)

  /** The state a request of this poll is dispatched in. */
  function Before(s: Server, i: In): Server {
    AgeLock(s, i.elapsed).(s3 := 0)
  }

  function DispOf(s: Server, setup: Setup, i: In): Option<Disp>
    requires WfIn(i)
  {
    if i.req.None? then None else Some(Dispatch(Before(s, i), setup, i.req.value.bytes, i.rnd).disp)
  }

  /** A positive answer to a block that carries the counter after the last one is a new block. */
  function Observe(t: Tally, req: Request, disp: Disp): Tally
    requires req.bytes != []
  {
    if disp.Negative? then t
    else if req.bytes[0] == SID_DOWNLOAD then Tally(0, 0)
    else if req.bytes[0] == SID_TRANSFER && |req.bytes| >= 2 && req.bytes[1] == (1 + t.blocks) % 256 then
      Tally(t.blocks + 1, t.bytes + |req.bytes| - 2)
    else t
  }

  predicate IsRejectedKey(req: Request, disp: Disp)
    requires req.bytes != []
  {
    req.bytes[0] == SID_SECURITY && disp in {Negative(NRC_KEY), Negative(NRC_ATTEMPTS)}
  }

  predicate IsUnlock(req: Request, disp: Disp)
    requires req.bytes != []
  {
    req.bytes[0] == SID_SECURITY && disp.Positive? && |req.bytes| >= 2 && req.bytes[1] % 2 == 0
  }

  function Count(b: bool): nat { if b then 1 else 0 }

  function TickOf(s: Server, setup: Setup, i: In): Done
    requires WfIn(i)
  {
    Tick(s, setup, i.elapsed, i.req, i.rnd, i.first, i.second)
  }

  function Step(l: Log, setup: Setup, i: In): Log
    requires WfIn(i)
  {
    var d := TickOf(l.srv, setup, i);
    var disp := DispOf(l.srv, setup, i);
    Log(if d.restart then InitServer() else d.srv,
        if disp.None? then l.tally else Observe(l.tally, i.req.value, disp.value),
        l.time + i.elapsed,
        l.rejected + Count(disp.Some? && IsRejectedKey(i.req.value, disp.value)),
        l.unlocks + Count(disp.Some? && IsUnlock(i.req.value, disp.value)),
        l.restarts + Count(d.restart))
  }

  function Run(l: Log, setup: Setup, ins: seq<In>): Log
    requires Wf(ins)
    decreases |ins|
  {
    if ins == [] then l else Step(Run(l, setup, ins[..|ins| - 1]), setup, ins[|ins| - 1])
  }

  lemma {:induction false} RunAppend(l: Log, setup: Setup, a: seq<In>, b: seq<In>)
    requires Wf(a) && Wf(b)
    ensures Wf(a + b) && Run(l, setup, a + b) == Run(Run(l, setup, a), setup, b)
    decreases |b|
  {
    if b == [] {
      assert a + b == a;
    } else {
      var n := |b| - 1;
      assert (a + b)[..|a| + n] == a + b[..n];
      RunAppend(l, setup, a, b[..n]);
    }
  }

  lemma RunUnfold(l: Log, setup: Setup, ins: seq<In>)
    requires Wf(ins)
    ensures ins == [] ==> Run(l, setup, ins) == l
    ensures ins != [] ==>
              var n := |ins| - 1;
              Wf(ins[..n]) && WfIn(ins[n]) && Run(l, setup, ins) == Step(Run(l, setup, ins[..n]), setup, ins[n])
  {
    hide Step;
  }

  lemma RunOne(l: Log, setup: Setup, i: In)
    requires WfIn(i)
    ensures Run(l, setup, [i]) == Step(l, setup, i)
  {
    assert [i][..0] == [];
    hide Step;
  }

  lemma StepIdle(l: Log, setup: Setup, e: u32)
    ensures Step(l, setup, In(e, None, 0, true, true))
         == l.(srv := AgeSession(AgeLock(l.srv, e), e), time := l.time + e)
  {}

  /** A poll whose handler answers without asking for another session or a restart. */
  lemma StepStays(l: Log, setup: Setup, i: In, t: Server, disp: Disp)
    requires WfIn(i) && i.req.Some? && i.first && i.req.value.bytes[0] != SID_SESSION && Known(i.req.value.bytes[0])
    requires Dispatch(Before(l.srv, i), setup, i.req.value.bytes, i.rnd) == Handled(t, l.srv.session, disp, false)
    ensures Step(l, setup, i)
         == Log(t.(obsLevel := t.level, obsSeed := t.seed), Observe(l.tally, i.req.value, disp), l.time + i.elapsed,
                l.rejected + Count(IsRejectedKey(i.req.value, disp)), l.unlocks + Count(IsUnlock(i.req.value, disp)),
                l.restarts)
  {
    hide Dispatch, Observe, IsRejectedKey, IsUnlock, Known;
  }

  // ---- what every poll keeps ------------------------------------------------

  /** An open download implies the unlock; a running delay implies a cleared attempt count. */
  predicate Inv(s: Server) {
    && s.session in {1, 2, 3} && s.s3 < S3_MS
    && s.level in {0, 1} && s.pending in {0, 1}
    && s.attempts < MAX_ATTEMPTS && s.lockMs <= LOCK_MS && (s.lockMs > 0 ==> s.attempts == 0)
    && (if s.xfer.active then s.level == 1 && s.xfer.received <= s.xfer.size && s.xfer.size > 0 else s.xfer == NO_XFER)
    && s.obsLevel == s.level && s.obsSeed == s.seed
  }

  predicate XferMatches(x: Xfer, t: Tally) {
    x.active ==> x.bsc == (1 + t.blocks) % 256 && x.received == t.bytes % TWO_32 && x.received <= x.size
                 && (x.size <= 0xFFFF_FBFF ==> t.bytes == x.received)
  }

  /** Only four services write the server's state, and each asks for a legal session. */
  lemma OtherServicesKeep(s: Server, setup: Setup, req: Bytes, rnd: u32)
    requires req != [] && req[0] !in {SID_SECURITY, SID_DOWNLOAD, SID_TRANSFER, SID_EXIT}
    ensures var h := Dispatch(s, setup, req, rnd);
            h.srv == s && (h.session == s.session || h.session in {1, 2, 3})
  {}

  /** The state a service leaves, once the observable copies have followed. */
  function Mirrored(s: Server): Server { s.(obsLevel := s.level, obsSeed := s.seed) }

  lemma SecurityKeeps(s: Server, cap: nat, req: Bytes, rnd: u32)
    requires Inv(s)
    ensures var h := Security(s, cap, req, rnd); Inv(Mirrored(h.srv)) && h.session == s.session
  {
    hide KeyOf, KeyFor, SeedAnswer, FreshSeed;
  }

  lemma DownloadKeeps(s: Server, cap: nat, req: Bytes)
    requires Inv(s)
    ensures var h := RequestDownload(s, cap, req); Inv(Mirrored(h.srv)) && h.session == s.session
  {
    hide BigEndian;
  }

  lemma TransferKeeps(s: Server, cap: nat, req: Bytes)
    requires Inv(s)
    ensures var h := TransferData(s, cap, req); Inv(Mirrored(h.srv)) && h.session == s.session
    ensures var h := TransferExit(s, cap, req); Inv(Mirrored(h.srv)) && h.session == s.session
  {}

  lemma DispatchKeeps(s: Server, setup: Setup, req: Bytes, rnd: u32)
    requires Inv(s) && req != []
    ensures var h := Dispatch(s, setup, req, rnd); Inv(Mirrored(h.srv)) && h.session in {1, 2, 3}
  {
    hide Security, RequestDownload, TransferData, TransferExit;
    SecurityKeeps(s, setup.cap, req, rnd);
    DownloadKeeps(s, setup.cap, req);
    TransferKeeps(s, setup.cap, req);
    if req[0] !in {SID_SECURITY, SID_DOWNLOAD, SID_TRANSFER, SID_EXIT} {
      OtherServicesKeep(s, setup, req, rnd);
    }
    hide DiagSession, EcuReset, ReadDid, Routine, TesterPresent;
  }

  lemma HandleKeeps(s: Server, setup: Setup, req: Request, rnd: u32)
    requires Inv(s) && req.bytes != []
    ensures Inv(Handle(s, setup, req, rnd).srv)
  {
    DispatchKeeps(s, setup, req.bytes, rnd);
    var h := Dispatch(s, setup, req.bytes, rnd);
    assert !Known(req.bytes[0]) ==> h == Reject(s, NRC_SNS);
    hide Dispatch;
  }

  lemma TickKeeps(s: Server, setup: Setup, i: In)
    requires Inv(s) && WfIn(i)
    ensures Inv(TickOf(s, setup, i).srv)
  {
    if i.req.Some? {
      HandleKeeps(Before(s, i), setup, i.req.value, i.rnd);
    }
    hide Handle;
  }

  /** Observing what `Dispatch` answered keeps the tester's count in step with the transfer. */
  lemma DispatchCounts(s: Server, setup: Setup, req: Request, rnd: u32, t: Tally)
    requires req.bytes != [] && XferMatches(s.xfer, t)
    ensures var h := Dispatch(s, setup, req.bytes, rnd);
            XferMatches(h.srv.xfer, Observe(t, req, h.disp))
  {
    if req.bytes[0] == SID_SECURITY {
      assert Dispatch(s, setup, req.bytes, rnd) == Security(s, setup.cap, req.bytes, rnd);
      assert Security(s, setup.cap, req.bytes, rnd).srv.xfer == s.xfer;
    } else if req.bytes[0] == SID_DOWNLOAD {
      assert Dispatch(s, setup, req.bytes, rnd) == RequestDownload(s, setup.cap, req.bytes);
    } else if req.bytes[0] == SID_TRANSFER {
      assert Dispatch(s, setup, req.bytes, rnd) == TransferData(s, setup.cap, req.bytes);
      TransferCounts(s, setup.cap, req, t);
    } else if req.bytes[0] == SID_EXIT {
      assert Dispatch(s, setup, req.bytes, rnd) == TransferExit(s, setup.cap, req.bytes);
    } else {
      OtherServicesKeep(s, setup, req.bytes, rnd);
    }
    hide Dispatch, Security, TransferData;
  }

  lemma TransferCounts(s: Server, cap: nat, req: Request, t: Tally)
    requires req.bytes != [] && req.bytes[0] == SID_TRANSFER && XferMatches(s.xfer, t)
    ensures var h := TransferData(s, cap, req.bytes);
            XferMatches(h.srv.xfer, Observe(t, req, h.disp))
  {
    var h := TransferData(s, cap, req.bytes);
    if h.disp.Positive? && req.bytes[1] == s.xfer.bsc {
      var n := |req.bytes| - 2;
      assert h.srv.xfer == TakeBlock(s.xfer, n) && Fits(s.xfer, n) && n <= 0x400 && s.xfer.active;
      assert Observe(t, req, h.disp) == Tally(t.blocks + 1, t.bytes + n);
      hide TransferData, Observe;
      BlockCounts(s.xfer, t, n);
    }
  }

  lemma BlockCounts(x: Xfer, t: Tally, n: nat)
    requires x.active && XferMatches(x, t) && Fits(x, n) && n <= 0x400
    ensures XferMatches(TakeBlock(x, n), Tally(t.blocks + 1, t.bytes + n))
  {
    assert (x.received + n) % TWO_32 == (t.bytes + n) % TWO_32;
  }

  lemma StepKeeps(l: Log, setup: Setup, i: In)
    requires Inv(l.srv) && XferMatches(l.srv.xfer, l.tally) && WfIn(i)
    ensures Inv(Step(l, setup, i).srv) && XferMatches(Step(l, setup, i).srv.xfer, Step(l, setup, i).tally)
  {
    TickKeeps(l.srv, setup, i);
    if i.req.Some? {
      DispatchCounts(Before(l.srv, i), setup, i.req.value, i.rnd, l.tally);
    }
    hide Dispatch, Observe, Inv;
  }

  /** Every run: the state invariant holds and the open download agrees with the tester's count. */
  lemma {:induction false} ReachableInv(setup: Setup, ins: seq<In>)
    requires Wf(ins)
    ensures Inv(Run(START, setup, ins).srv)
    ensures XferMatches(Run(START, setup, ins).srv.xfer, Run(START, setup, ins).tally)
    decreases |ins|
  {
    hide Run, Step, Inv, XferMatches;
    RunUnfold(START, setup, ins);
    if ins == [] {
      StartInv();
    } else {
      ReachableInv(setup, ins[..|ins| - 1]);
      StepKeeps(Run(START, setup, ins[..|ins| - 1]), setup, ins[|ins| - 1]);
    }
  }

  lemma StartInv()
    ensures Inv(START.srv) && XferMatches(START.srv.xfer, START.tally)
  {}

  /** What an open download means to the tester, for every run. */
  lemma OpenDownload(setup: Setup, ins: seq<In>)
    requires Wf(ins)
    ensures var l := Run(START, setup, ins);
            && (l.srv.xfer.active ==>
                  && l.srv.level == 1
                  && l.srv.xfer.bsc == (1 + l.tally.blocks) % 256
                  && (l.srv.xfer.size <= 0xFFFF_FBFF ==> l.srv.xfer.received == l.tally.bytes <= l.srv.xfer.size))
            && (!l.srv.xfer.active ==> l.srv.xfer == NO_XFER)
  {
    ReachableInv(setup, ins);
    hide Run;
  }

  lemma HandleTransfer(s: Server, setup: Setup, req: Request, rnd: u32)
    requires Inv(s) && |req.bytes| >= 2 && req.bytes[0] == SID_TRANSFER && setup.cap >= 2
    requires s.xfer.active && req.bytes[1] == (s.xfer.bsc - 1) % 256
    ensures Dispatch(s, setup, req.bytes, rnd)
         == if s.xfer.received == 0 then Reject(s, NRC_BLOCK) else Accept(s, [0x76, req.bytes[1]])
    ensures Handle(s, setup, req, rnd)
         == if s.xfer.received == 0 then Outcome(s, Some([0x7F, SID_TRANSFER, NRC_BLOCK]), true, false)
            else Outcome(s, Some([0x76, req.bytes[1]]), false, false)
  {
    assert Dispatch(s, setup, req.bytes, rnd) == TransferData(s, setup.cap, req.bytes);
    assert s.(obsLevel := s.level, obsSeed := s.seed) == s;
    hide Dispatch;
  }

  /**
   Once a byte has been accepted, the last accepted block sent again is answered
   positively, whatever its payload, and changes nothing; before that, the counter
   before the first block's is refused, and changes nothing either.
   */
  lemma RetransmissionChangesNothing(setup: Setup, ins: seq<In>, i: In)
    requires Wf(ins) && WfIn(i) && i.req.Some? && setup.cap >= 2
    requires |i.req.value.bytes| >= 2 && i.req.value.bytes[0] == SID_TRANSFER
    requires var l := Run(START, setup, ins);
             l.srv.xfer.active && i.req.value.bytes[1] == l.tally.blocks % 256
    ensures var l := Run(START, setup, ins);
            && Handle(Before(l.srv, i), setup, i.req.value, i.rnd)
            == (if l.srv.xfer.received == 0
                then Outcome(Before(l.srv, i), Some([0x7F, SID_TRANSFER, NRC_BLOCK]), true, false)
                else Outcome(Before(l.srv, i), Some([0x76, i.req.value.bytes[1]]), false, false))
            && Step(l, setup, i).tally == l.tally
  {
    ReachableInv(setup, ins);
    Retransmission(Run(START, setup, ins), setup, i);
    hide Run, Step, Handle;
  }

  lemma Retransmission(l: Log, setup: Setup, i: In)
    requires Inv(l.srv) && XferMatches(l.srv.xfer, l.tally) && WfIn(i) && i.req.Some? && setup.cap >= 2
    requires |i.req.value.bytes| >= 2 && i.req.value.bytes[0] == SID_TRANSFER
    requires l.srv.xfer.active && i.req.value.bytes[1] == l.tally.blocks % 256
    ensures Handle(Before(l.srv, i), setup, i.req.value, i.rnd)
            == (if l.srv.xfer.received == 0
                then Outcome(Before(l.srv, i), Some([0x7F, SID_TRANSFER, NRC_BLOCK]), true, false)
                else Outcome(Before(l.srv, i), Some([0x76, i.req.value.bytes[1]]), false, false))
    ensures Step(l, setup, i).tally == l.tally
  {
    HandleTransfer(Before(l.srv, i), setup, i.req.value, i.rnd);
    assert l.tally.blocks % 256 != (1 + l.tally.blocks) % 256;
    hide Dispatch, Handle;
  }

  // ---- seeds and keys -------------------------------------------------------

  /** The last seed handed out, until a key has been tried against it. */
  function Offer(o: Option<u32>, req: Request, disp: Disp): Option<u32>
    requires req.bytes != []
  {
    if req.bytes[0] != SID_SECURITY || |req.bytes| < 2 then o
    else if req.bytes[1] % 2 == 1 then
      if disp.Positive? && |disp.resp| == 6 && disp.resp[2..] != [0, 0, 0, 0]
      then Some(BigEndian(disp.resp[2..])) else o
    else if disp.Positive? || IsRejectedKey(req, disp) then None
    else o
  }

  function Offered(setup: Setup, ins: seq<In>): Option<u32>
    requires Wf(ins)
  {
    if ins == [] then None
    else
      var n := |ins| - 1;
      var disp := DispOf(Run(START, setup, ins[..n]).srv, setup, ins[n]);
      if disp.None? then Offered(setup, ins[..n]) else Offer(Offered(setup, ins[..n]), ins[n].req.value, disp.value)
  }

  lemma SeedBytes(sub: byte, v: u32)
    ensures |SeedAnswer(sub, v)| == 6 && BigEndian(SeedAnswer(sub, v)[2..]) == v
    ensures SeedAnswer(sub, v)[2..] == [0, 0, 0, 0] <==> v == 0
  {
    assert SeedAnswer(sub, v)[2..] == Be4(v);
    Be4Value(v);
    Be4Value(0);
    assert Be4(0) == [0, 0, 0, 0];
    hide Be4, BigEndian;
  }

  /** A pending challenge is the seed last handed out. */
  predicate Challenged(s: Server, o: Option<u32>) {
    s.pending != 0 ==> o == Some(s.seed)
  }

  lemma SecurityOffers(s: Server, cap: nat, req: Request, rnd: u32, o: Option<u32>)
    requires Inv(s) && Challenged(s, o) && req.bytes != [] && req.bytes[0] == SID_SECURITY
    ensures var h := Security(s, cap, req.bytes, rnd);
            && Challenged(h.srv, Offer(o, req, h.disp))
            && (IsUnlock(req, h.disp) || IsRejectedKey(req, h.disp) ==>
                  && s.lockMs == 0 && o.Some? && |req.bytes| >= 6 && Offer(o, req, h.disp).None?
                  && (IsUnlock(req, h.disp) <==> KeyOf(req.bytes) == KeyFor(o.value)))
  {
    hide KeyOf, KeyFor, BigEndian, SeedAnswer;
    if |req.bytes| >= 2 && req.bytes[1] % 2 == 1 {
      SeedBytes(req.bytes[1], 0);
      SeedBytes(req.bytes[1], FreshSeed(rnd));
    }
  }

  lemma DispatchOffers(s: Server, setup: Setup, req: Request, rnd: u32, o: Option<u32>)
    requires Inv(s) && Challenged(s, o) && req.bytes != []
    ensures var h := Dispatch(s, setup, req.bytes, rnd); Challenged(h.srv, Offer(o, req, h.disp))
    ensures var h := Dispatch(s, setup, req.bytes, rnd);
            IsUnlock(req, h.disp) || IsRejectedKey(req, h.disp) ==>
              && s.lockMs == 0 && o.Some? && |req.bytes| >= 6 && Offer(o, req, h.disp).None?
              && (IsUnlock(req, h.disp) <==> KeyOf(req.bytes) == KeyFor(o.value))
  {
    if req.bytes[0] == SID_SECURITY {
      assert Dispatch(s, setup, req.bytes, rnd) == Security(s, setup.cap, req.bytes, rnd);
      SecurityOffers(s, setup.cap, req, rnd, o);
    } else if req.bytes[0] == SID_DOWNLOAD {
      assert Dispatch(s, setup, req.bytes, rnd) == RequestDownload(s, setup.cap, req.bytes);
    } else if req.bytes[0] == SID_TRANSFER {
      assert Dispatch(s, setup, req.bytes, rnd) == TransferData(s, setup.cap, req.bytes);
    } else if req.bytes[0] == SID_EXIT {
      assert Dispatch(s, setup, req.bytes, rnd) == TransferExit(s, setup.cap, req.bytes);
    } else {
      OtherServicesKeep(s, setup, req.bytes, rnd);
    }
    hide Dispatch, Security, BigEndian, Fits;
  }

  lemma {:induction false} ChallengeKept(setup: Setup, ins: seq<In>)
    requires Wf(ins)
    ensures Challenged(Run(START, setup, ins).srv, Offered(setup, ins))
    decreases |ins|
  {
    hide Run, Step;
    RunUnfold(START, setup, ins);
    if ins != [] {
      var n := |ins| - 1;
      ChallengeKept(setup, ins[..n]);
      ReachableInv(setup, ins[..n]);
      ChallengeStep(Run(START, setup, ins[..n]), setup, ins[n], Offered(setup, ins[..n]));
    }
  }

  lemma ChallengeStep(l: Log, setup: Setup, i: In, o: Option<u32>)
    requires Inv(l.srv) && WfIn(i) && Challenged(l.srv, o)
    ensures var disp := DispOf(l.srv, setup, i);
            Challenged(Step(l, setup, i).srv, if disp.None? then o else Offer(o, i.req.value, disp.value))
  {
    if i.req.Some? {
      DispatchOffers(Before(l.srv, i), setup, i.req.value, i.rnd, o);
    }
    hide Dispatch, Offer;
  }

  /**
   In every run a key is judged against the last seed handed out and no key tried
   since: it unlocks if and only if it matches, and either way that seed is spent.
   */
  lemma KeysAnswerTheLastSeed(setup: Setup, ins: seq<In>, i: In)
    requires Wf(ins) && WfIn(i) && i.req.Some?
    ensures var disp := DispOf(Run(START, setup, ins).srv, setup, i).value;
            var o, req := Offered(setup, ins), i.req.value;
            IsUnlock(req, disp) || IsRejectedKey(req, disp) ==>
              && o.Some? && |req.bytes| >= 6 && Offer(o, req, disp).None?
              && (IsUnlock(req, disp) <==> KeyOf(req.bytes) == KeyFor(o.value))
  {
    ReachableInv(setup, ins);
    ChallengeKept(setup, ins);
    DispatchOffers(Before(Run(START, setup, ins).srv, i), setup, i.req.value, i.rnd, Offered(setup, ins));
    hide Run, Offered, Dispatch;
  }
}
