/**
 Three limits of the UDS server and exactly when the code keeps them: the
 declared size of a download, the fall back to the locked default session, and
 the number of keys a tester may get wrong.
 */
module UdsLimits {
  import opened Words
  import opened Uds
  import opened UdsRuns

  function RequestIn(bytes: Bytes): In {
    In(0, Some(Request(bytes, false)), 1, true, true)
  }

  const BENCH: Setup := Setup([], 6)

  // ---- the declared size ----------------------------------------------------

  /** In no run does an open download of this declared size hold more bytes than declared. */
  ghost predicate SizeKept(size: u32) {
    forall setup, ins :: Wf(ins) ==>
      var l := Run(START, setup, ins);
      l.srv.xfer.active && l.srv.xfer.size == size ==> l.tally.bytes <= size
  }

  /** The guard of main/uds.c:745 is a 32-bit sum of at most 0x400 more bytes. */
  lemma SizeKeptIff(size: u32)
    requires size > 0
    ensures SizeKept(size) <==> size <= 0xFFFF_FBFF
  {
    if size <= 0xFFFF_FBFF {
      forall setup, ins | Wf(ins)
        ensures var l := Run(START, setup, ins);
                l.srv.xfer.active && l.srv.xfer.size == size ==> l.tally.bytes <= size
      {
        OpenDownload(setup, ins);
      }
    } else {
      var ins := Overfill(size);
      assert Run(START, BENCH, ins).tally.bytes == size + 0x400;
    }
  }

  predicate Unlocked(l: Log) { l.srv.level == 1 && l.srv.lockMs == 0 }

  /** A key request for this key value. */
  function KeyIn(key: u32): In {
    RequestIn([0x27, 2] + Be4(key))
  }

  lemma SeedStep(l: Log)
    requires l.srv.level == 0 && l.srv.lockMs == 0
    ensures var i := RequestIn([0x27, 1]);
            var t := l.srv.(s3 := 0, seed := 1, pending := 1);
            Step(l, BENCH, i) == l.(srv := t.(obsLevel := 0, obsSeed := 1))
  {
    var i := RequestIn([0x27, 1]);
    var t := Before(l.srv, i).(seed := 1, pending := 1);
    assert Security(Before(l.srv, i), 6, [0x27, 1], 1) == Accept(t, SeedAnswer(1, 1));
    StepStays(l, BENCH, i, t, Positive(SeedAnswer(1, 1)));
    hide Step, Security;
  }

  lemma KeyStep(l: Log, key: u32)
    requires l.srv.pending == 1 && l.srv.lockMs == 0 && l.srv.attempts < 3
    ensures var right := key == KeyFor(l.srv.seed);
            var t := l.srv.(s3 := 0, pending := 0);
            Step(l, BENCH, KeyIn(key)) ==
            if right
            then l.(srv := t.(level := 1, attempts := 0, obsLevel := 1, obsSeed := t.seed), unlocks := l.unlocks + 1)
            else l.(srv := (if t.attempts == 2 then t.(attempts := 0, lockMs := LOCK_MS)
                            else t.(attempts := t.attempts + 1)).(obsLevel := t.level, obsSeed := t.seed),
                     rejected := l.rejected + 1)
  {
    hide KeyFor, Be4, BigEndian, Step;
    var i := KeyIn(key);
    var req, s := i.req.value.bytes, Before(l.srv, i);
    assert req[2..6] == Be4(key);
    Be4Value(key);
    KeyDispatch(s, req, key);
    var h := SendKey(s, 6, req);
    StepStays(l, BENCH, i, h.srv, h.disp);
    hide Dispatch;
  }

  lemma KeyDispatch(s: Server, req: Bytes, key: u32)
    requires |req| == 6 && req[..2] == [0x27, 2] && KeyOf(req) == key && s.lockMs == 0
    ensures Dispatch(s, BENCH, req, 1) == SendKey(s, 6, req)
    ensures SendKey(s, 6, req).session == s.session && !SendKey(s, 6, req).reset
  {
    hide KeyOf, KeyFor;
    assert req[0] == 0x27 && req[1] == 2;
    assert Dispatch(s, BENCH, req, 1) == Security(s, 6, req, 1);
    hide Dispatch;
  }

  lemma Unlock() returns (ins: seq<In>)
    ensures Wf(ins) && Unlocked(Run(START, BENCH, ins)) && !Run(START, BENCH, ins).srv.xfer.active
  {
    hide Run, Step, KeyFor;
    var seed, key := RequestIn([0x27, 1]), KeyIn(KeyFor(1));
    SeedStep(START);
    var l := Step(START, BENCH, seed);
    KeyStep(l, KeyFor(1));
    RunOne(START, BENCH, seed);
    RunOne(l, BENCH, key);
    RunAppend(START, BENCH, [seed], [key]);
    ins := [seed] + [key];
  }

  /** An open download that has neither wrapped nor lost its unlock. */
  predicate Filling(l: Log, size: u32) {
    && Unlocked(l) && l.srv.xfer.active && l.srv.xfer.size == size
    && l.srv.xfer.received == l.tally.bytes <= size
    && l.srv.xfer.bsc == (1 + l.tally.blocks) % 256
  }

  lemma Open(l: Log, size: u32) returns (i: In)
    requires Unlocked(l) && !l.srv.xfer.active && size > 0
    ensures WfIn(i) && Filling(Step(l, BENCH, i), size)
    ensures Step(l, BENCH, i).tally.bytes == 0
  {
    i := RequestIn([0x34, 0, 0x14, 0] + Be4(size));
    var req, s := i.req.value.bytes, Before(l.srv, i);
    assert req[4..8] == Be4(size);
    Be4Value(size);
    var t := s.(xfer := Xfer(true, size, 0, 1));
    var resp := [0x74, 0x20, MAX_BLOCK_LEN / 256, MAX_BLOCK_LEN % 256];
    assert RequestDownload(s, 6, req) == Accept(t, resp);
    StepStays(l, BENCH, i, t, Positive(resp));
    hide Dispatch, Be4, BigEndian, Step;
  }

  function Block(l: Log, n: nat): (i: In)
    ensures WfIn(i)
  {
    RequestIn([0x36, l.srv.xfer.bsc] + seq(n, _ => 0))
  }

  /** One in-sequence block that the 32-bit sum lets through. */
  lemma Feed(l: Log, size: u32, n: nat)
    requires Filling(l, size) && n <= 0x400 && Fits(l.srv.xfer, n)
    ensures var m := Step(l, BENCH, Block(l, n));
            && m.tally.bytes == l.tally.bytes + n && m.srv.xfer.active && m.srv.xfer.size == size
            && (l.tally.bytes + n <= size ==> Filling(m, size))
  {
    hide Step;
    var i := Block(l, n);
    var req, s := i.req.value.bytes, Before(l.srv, i);
    assert |req| == n + 2 && req[0] == SID_TRANSFER && req[1] == s.xfer.bsc;
    var t := s.(xfer := TakeBlock(s.xfer, n));
    FeedDispatch(s, req);
    StepStays(l, BENCH, i, t, Positive([0x76, req[1]]));
    hide Dispatch;
    assert Observe(l.tally, i.req.value, Positive([0x76, req[1]])) == Tally(l.tally.blocks + 1, l.tally.bytes + n);
    assert TakeBlock(s.xfer, n).bsc == (1 + l.tally.blocks + 1) % 256;
  }

  lemma FeedDispatch(s: Server, req: Bytes)
    requires 2 <= |req| <= MAX_BLOCK_LEN && req[0] == SID_TRANSFER && req[1] == s.xfer.bsc
    requires s.level == 1 && s.xfer.active && Fits(s.xfer, |req| - 2)
    ensures Dispatch(s, BENCH, req, 1) == Accept(s.(xfer := TakeBlock(s.xfer, |req| - 2)), [0x76, req[1]])
  {
    assert Dispatch(s, BENCH, req, 1) == TransferData(s, 6, req);
    hide Dispatch;
  }

  lemma {:induction false} Fill(l: Log, size: u32) returns (ins: seq<In>)
    requires Filling(l, size)
    ensures Wf(ins) && Filling(Run(l, BENCH, ins), size) && Run(l, BENCH, ins).tally.bytes == size
    decreases size - l.tally.bytes
  {
    ins := [];
    if l.tally.bytes < size {
      var n := Min(0x400, size - l.tally.bytes);
      Feed(l, size, n);
      var b := Block(l, n);
      var rest := Fill(Step(l, BENCH, b), size);
      RunOne(l, BENCH, b);
      RunAppend(l, BENCH, [b], rest);
      ins := [b] + rest;
    }
  }

  /** Fill the download to its size; one more block then wraps the sum and is accepted. */
  lemma Overfill(size: u32) returns (ins: seq<In>)
    requires size > 0xFFFF_FBFF
    ensures Wf(ins)
    ensures var l := Run(START, BENCH, ins);
            l.srv.xfer.active && l.srv.xfer.size == size && l.tally.bytes == size + 0x400
  {
    hide Run, Step;
    var a := Unlock();
    var l := Run(START, BENCH, a);
    var o := Open(l, size);
    var m := Step(l, BENCH, o);
    var f := Fill(m, size);
    var e := Run(m, BENCH, f);
    var last := Block(e, 0x400);
    Feed(e, size, 0x400);
    RunOne(e, BENCH, last);
    RunOne(l, BENCH, o);
    RunAppend(START, BENCH, a, [o]);
    RunAppend(START, BENCH, a + [o], f);
    RunAppend(START, BENCH, a + [o] + f, [last]);
    ins := a + [o] + f + [last];
  }

  // ---- the S3 timer ---------------------------------------------------------

  function Quiet(es: seq<u32>): (ins: seq<In>)
    ensures |ins| == |es| && Wf(ins)
  {
    seq(|es|, k requires 0 <= k < |es| => In(es[k], None, 0, true, true))
  }

  function Sum(es: seq<u32>): nat {
    if es == [] then 0 else Sum(es[..|es| - 1]) + es[|es| - 1]
  }

  predicate Locked(s: Server) {
    s.session == SESSION_DEFAULT && s.level == 0 && s.pending == 0 && s.xfer == NO_XFER
  }

  predicate AtMost(es: seq<u32>, max: u32) { forall k :: 0 <= k < |es| ==> es[k] <= max }

  /** After any run, request-free polls of at most `max` ms totalling 5 s leave the server locked. */
  ghost predicate IdlingLocks(max: u32) {
    forall setup, pre, es :: Wf(pre) && AtMost(es, max) && Sum(es) >= S3_MS ==>
      Locked(Run(Run(START, setup, pre), setup, Quiet(es)).srv)
  }

  lemma {:induction false} QuietRun(l: Log, setup: Setup, es: seq<u32>)
    requires Inv(l.srv) && AtMost(es, TWO_32 - S3_MS)
    ensures var m := Run(l, setup, Quiet(es)); Inv(m.srv) && (Locked(m.srv) || m.srv.s3 == l.srv.s3 + Sum(es))
    decreases |es|
  {
    hide Run, Step;
    RunUnfold(l, setup, Quiet(es));
    if es != [] {
      var n := |es| - 1;
      QuietRun(l, setup, es[..n]);
      assert Quiet(es)[..n] == Quiet(es[..n]);
      var m := Run(l, setup, Quiet(es[..n]));
      StepIdle(m, setup, es[n]);
      AgeKeeps(m.srv, es[n], l.srv.s3 + Sum(es[..n]));
      hide Inv, Locked, AgeSession, AgeLock;
    }
  }

  lemma AgeKeeps(s: Server, e: u32, age: int)
    requires Inv(s) && (Locked(s) || s.s3 == age) && e <= TWO_32 - S3_MS
    ensures var t := AgeSession(AgeLock(s, e), e); Inv(t) && (Locked(t) || t.s3 == age + e)
  {}

  lemma SessionStep(l: Log, i: In)
    requires l.srv.session == SESSION_DEFAULT && i == RequestIn([0x10, 3])
    ensures Step(l, BENCH, i).srv == Relock(Before(l.srv, i).(session := 3)).(obsSeed := l.srv.seed)
  {
    var req: Bytes := [0x10, 3];
    var h := Handle(Before(l.srv, i), BENCH, Request(req, false), 1);
    assert Dispatch(Before(l.srv, i), BENCH, req, 1) == DiagSession(Before(l.srv, i), 6, req);
    hide Dispatch;
    assert h.srv == Relock(Before(l.srv, i).(session := 3)).(obsSeed := l.srv.seed);
    assert !h.reset;
    hide Handle;
  }

  lemma Session3() returns (i: In)
    ensures WfIn(i) && Step(START, BENCH, i).srv == InitServer().(session := 3)
  {
    hide Step;
    i := RequestIn([0x10, 3]);
    SessionStep(START, i);
  }

  /** The age is a 32-bit sum, so one poll long enough to wrap it is forgotten. */
  lemma IdlingLocksIff(max: u32)
    ensures IdlingLocks(max) <==> max <= TWO_32 - S3_MS
  {
    if max <= TWO_32 - S3_MS {
      forall setup, pre, es | Wf(pre) && AtMost(es, max) && Sum(es) >= S3_MS
        ensures Locked(Run(Run(START, setup, pre), setup, Quiet(es)).srv)
      {
        ReachableInv(setup, pre);
        QuietRun(Run(START, setup, pre), setup, es);
      }
    } else {
      var i := Session3();
      RunOne(START, BENCH, i);
      Wraps(Run(START, BENCH, [i]));
    }
    hide Run;
  }

  lemma Wraps(l: Log)
    requires l.srv == InitServer().(session := 3)
    ensures AtMost([4999, TWO_32 - 4999], TWO_32 - 4999) && Sum([4999, TWO_32 - 4999]) == TWO_32
    ensures Run(l, BENCH, Quiet([4999, TWO_32 - 4999])).srv == l.srv
  {
    hide Run, Step;
    var a: u32, b: u32 := 4999, TWO_32 - 4999;
    SumTwo(a, b);
    var i, j := In(a, None, 0, true, true), In(b, None, 0, true, true);
    assert Quiet([a, b]) == [i] + [j];
    RunAppend(l, BENCH, [i], [j]);
    RunOne(l, BENCH, i);
    StepIdle(l, BENCH, a);
    var m := Step(l, BENCH, i);
    RunOne(m, BENCH, j);
    StepIdle(m, BENCH, b);
  }

  lemma SumTwo(a: u32, b: u32)
    ensures Sum([a, b]) == a + b
  {
    assert [a, b][..1] == [a] && [a][..0] == [];
    assert Sum([a]) == a;
  }

  // ---- rejected keys --------------------------------------------------------

  /** Delays started, and restarts that cleared an attempt count or a running delay. */
  datatype Ledger = Ledger(delays: nat, clearedCount: nat, clearedDelay: nat)

  predicate Accounts(l: Log, g: Ledger) {
    && l.rejected <= 3 * g.delays + l.srv.attempts + 2 * l.unlocks + 2 * g.clearedCount
    && LOCK_MS * g.delays <= l.time + l.srv.lockMs + LOCK_MS * g.clearedDelay
    && l.restarts == g.clearedCount + g.clearedDelay
  }

  /** A wrong key costs an attempt, the third one starts the delay; nothing else touches either. */
  predicate Charged(s: Server, t: Server, wrong: bool, right: bool) {
    && (wrong ==> s.lockMs == 0 && !right
                  && (t.attempts, t.lockMs) == (if s.attempts == 2 then (0, LOCK_MS) else (s.attempts + 1, 0)))
    && (right ==> t.attempts == 0 && t.lockMs == s.lockMs)
    && (!wrong && !right ==> (t.attempts, t.lockMs) == (s.attempts, s.lockMs))
  }

  lemma SecurityAttempts(s: Server, cap: nat, req: Request, rnd: u32)
    requires s.attempts < 3 && req.bytes != [] && req.bytes[0] == SID_SECURITY
    ensures var h := Security(s, cap, req.bytes, rnd);
            Charged(s, h.srv, IsRejectedKey(req, h.disp), IsUnlock(req, h.disp)) && !h.reset
  {
    hide KeyOf, KeyFor, SeedAnswer, FreshSeed;
  }

  lemma DispatchAttempts(s: Server, setup: Setup, req: Request, rnd: u32)
    requires s.attempts < 3 && req.bytes != []
    ensures var h := Dispatch(s, setup, req.bytes, rnd);
            var wrong, right := IsRejectedKey(req, h.disp), IsUnlock(req, h.disp);
            Charged(s, h.srv, wrong, right) && (h.reset ==> !wrong && !right)
  {
    if req.bytes[0] == SID_SECURITY {
      assert Dispatch(s, setup, req.bytes, rnd) == Security(s, setup.cap, req.bytes, rnd);
      SecurityAttempts(s, setup.cap, req, rnd);
    } else if req.bytes[0] == SID_DOWNLOAD {
      assert Dispatch(s, setup, req.bytes, rnd) == RequestDownload(s, setup.cap, req.bytes);
    } else if req.bytes[0] == SID_TRANSFER {
      assert Dispatch(s, setup, req.bytes, rnd) == TransferData(s, setup.cap, req.bytes);
    } else if req.bytes[0] == SID_EXIT {
      assert Dispatch(s, setup, req.bytes, rnd) == TransferExit(s, setup.cap, req.bytes);
    } else {
      OtherServicesKeep(s, setup, req.bytes, rnd);
    }
    hide Dispatch, Security, BigEndian, Fits;
  }

  lemma StepAccounts(l: Log, setup: Setup, i: In, g: Ledger) returns (h: Ledger)
    requires Inv(l.srv) && WfIn(i) && Accounts(l, g)
    ensures Accounts(Step(l, setup, i), h)
  {
    h := g;
    if i.req.Some? {
      var s := Before(l.srv, i);
      DispatchAttempts(s, setup, i.req.value, i.rnd);
      TickKeeps(l.srv, setup, i);
      var d := TickOf(l.srv, setup, i);
      var m := Step(l, setup, i);
      if m.rejected > l.rejected && s.attempts == 2 {
        h := h.(delays := h.delays + 1);
      }
      if d.restart {
        h := if d.srv.lockMs > 0 then h.(clearedDelay := h.clearedDelay + 1)
             else h.(clearedCount := h.clearedCount + 1);
      }
    }
    hide Dispatch, IsRejectedKey, IsUnlock;
  }

  lemma {:induction false} RunAccounts(setup: Setup, ins: seq<In>) returns (g: Ledger)
    requires Wf(ins)
    ensures Accounts(Run(START, setup, ins), g)
    decreases |ins|
  {
    hide Run, Step;
    RunUnfold(START, setup, ins);
    g := Ledger(0, 0, 0);
    if ins != [] {
      g := RunAccounts(setup, ins[..|ins| - 1]);
      ReachableInv(setup, ins[..|ins| - 1]);
      g := StepAccounts(Run(START, setup, ins[..|ins| - 1]), setup, ins[|ins| - 1], g);
    }
  }

  /** Three wrong keys at once, then three more every ten seconds, unless an unlock or a restart intervenes. */
  lemma RejectedKeysBounded(setup: Setup, ins: seq<In>)
    requires Wf(ins)
    ensures var l := Run(START, setup, ins);
            l.rejected <= 3 * (l.time / LOCK_MS + 1) + 2 * l.unlocks + 3 * l.restarts
  {
    var l := Run(START, setup, ins);
    var g := RunAccounts(setup, ins);
    ReachableInv(setup, ins);
    hide Run;
    var d := g.delays - g.clearedDelay;
    if l.srv.lockMs == 0 {
      assert LOCK_MS * d <= l.time;
      assert d <= l.time / LOCK_MS;
    } else {
      assert LOCK_MS * d <= l.time + LOCK_MS;
      assert d <= l.time / LOCK_MS + 1;
    }
  }

  /** The bound without its restart term, over runs without an unlock and with at most `b` restarts. */
  ghost predicate DelayHolds(b: nat) {
    forall setup, ins :: Wf(ins) ==>
      var l := Run(START, setup, ins);
      l.unlocks == 0 && l.restarts <= b ==> l.rejected <= 3 * (l.time / LOCK_MS + 1)
  }

  /** A seed request and a wrong key. */
  function Guess(): (ins: seq<In>)
    ensures Wf(ins)
  {
    [RequestIn([0x27, 1]), KeyIn(0)]
  }

  lemma WrongKey(l: Log)
    requires l.srv.level == 0 && l.srv.lockMs == 0 && l.srv.attempts < 3
    ensures var m := Run(l, BENCH, Guess());
            && m.rejected == l.rejected + 1 && m.restarts == l.restarts && m.unlocks == l.unlocks && m.time == l.time
            && m.srv.level == 0 && m.srv.session == l.srv.session
            && (m.srv.attempts, m.srv.lockMs) == (if l.srv.attempts == 2 then (0, LOCK_MS) else (l.srv.attempts + 1, 0))
  {
    var seed := RequestIn([0x27, 1]);
    SeedStep(l);
    var a := Step(l, BENCH, seed);
    assert KeyFor(1) != 0;
    KeyStep(a, 0);
    RunOne(l, BENCH, seed);
    RunOne(a, BENCH, KeyIn(0));
    RunAppend(l, BENCH, [seed], [KeyIn(0)]);
    assert Guess() == [seed] + [KeyIn(0)];
    hide Run, Step, KeyFor;
  }

  /** ECUReset puts the attempt count and the delay back to zero, so one restart already breaks the bound. */
  lemma DelayHoldsIff(b: nat)
    ensures DelayHolds(b) <==> b == 0
  {
    if b == 0 {
      forall setup, ins | Wf(ins)
        ensures var l := Run(START, setup, ins);
                l.unlocks == 0 && l.restarts <= b ==> l.rejected <= 3 * (l.time / LOCK_MS + 1)
      {
        RejectedKeysBounded(setup, ins);
      }
    } else {
      var ins := GuessResetGuess();
    }
  }

  lemma ThreeGuesses(l: Log) returns (ins: seq<In>)
    requires l.srv.level == 0 && l.srv.lockMs == 0 && l.srv.attempts == 0
    ensures Wf(ins)
    ensures var m := Run(l, BENCH, ins);
            && m.rejected == l.rejected + 3 && m.restarts == l.restarts && m.unlocks == l.unlocks && m.time == l.time
            && m.srv.session == l.srv.session
  {
    var g := Guess();
    var a := Run(l, BENCH, g);
    WrongKey(l);
    var b := Run(a, BENCH, g);
    WrongKey(a);
    WrongKey(b);
    RunAppend(l, BENCH, g, g);
    RunAppend(l, BENCH, g + g, g);
    ins := g + g + g;
    hide Run, Guess;
  }

  lemma ResetStep(l: Log) returns (i: In)
    ensures WfIn(i) && Step(l, BENCH, i) == l.(srv := InitServer(), restarts := l.restarts + 1)
  {
    i := RequestIn([0x11, 1]);
    assert Dispatch(Before(l.srv, i), BENCH, [0x11, 1], 1) == EcuReset(Before(l.srv, i), 6, [0x11, 1]);
    hide Dispatch;
  }

  lemma GuessResetGuess() returns (ins: seq<In>)
    ensures Wf(ins)
    ensures var l := Run(START, BENCH, ins); l.unlocks == 0 && l.restarts == 1 && l.time == 0 && l.rejected == 6
  {
    hide Run, Step;
    var g := ThreeGuesses(START);
    var a := Run(START, BENCH, g);
    var reset := ResetStep(a);
    RunOne(a, BENCH, reset);
    var b := Step(a, BENCH, reset);
    var h := ThreeGuesses(b);
    RunAppend(START, BENCH, g, [reset]);
    RunAppend(START, BENCH, g + [reset], h);
    ins := g + [reset] + h;
  }
}
