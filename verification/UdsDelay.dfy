/**
 The security delay over whole runs: when it holds, to the millisecond, and that it ends.
 Everything is said of the bytes answered, of the time fed to the polls and of restarts.
 */
module UdsDelay {
  import opened Words
  import opened Uds
  import opened UdsRuns
  import opened UdsLimits

  /** What the server wants to answer to the request of this poll. */
  function AnswerOf(l: Log, setup: Setup, i: In): Option<Bytes>
    requires WfIn(i)
  {
    if i.req.None? then None else Handle(Before(l.srv, i), setup, i.req.value, i.rnd).answer
  }

  predicate AsksSecurity(i: In) {
    i.req.Some? && |i.req.value.bytes| >= 2 && i.req.value.bytes[0] == SID_SECURITY
  }

  /** The third wrong key: exceededNumberOfAttempts. */
  predicate StartsDelay(l: Log, setup: Setup, i: In)
    requires WfIn(i)
  {
    AnswerOf(l, setup, i) == Some([0x7F, SID_SECURITY, 0x36])
  }

  /** No poll of this run starts a delay. */
  ghost predicate NoNewDelay(l: Log, setup: Setup, ins: seq<In>)
    requires Wf(ins)
  {
    forall k :: 0 <= k < |ins| ==> !StartsDelay(Run(l, setup, ins[..k]), setup, ins[k])
  }

  /** What is left of a delay that began at `time`, unless a restart has come since. */
  function DelayLeft(l: Log, time: nat, restarts: nat): int
    requires l.time >= time
  {
    if l.restarts > restarts || l.time - time >= LOCK_MS then 0 else LOCK_MS - (l.time - time)
  }

  predicate Delayed(l: Log, time: nat, restarts: nat) {
    l.time >= time && l.restarts >= restarts && l.srv.lockMs == DelayLeft(l, time, restarts)
  }

  // ---- which requests touch the delay ---------------------------------------

  lemma SecurityDelay(s: Server, cap: nat, req: Bytes, rnd: u32)
    ensures var h := Security(s, cap, req, rnd);
            && !h.reset && h.session == s.session
            && h.srv.lockMs == (if h.disp == Negative(NRC_ATTEMPTS) then LOCK_MS else s.lockMs)
            && (|req| >= 2 ==> (h.disp == Negative(NRC_DELAY) <==> s.lockMs > 0))
  {
    hide KeyOf, KeyFor, SeedAnswer, FreshSeed;
  }

  lemma DispatchDelay(s: Server, setup: Setup, req: Bytes, rnd: u32)
    requires req != []
    ensures var h := Dispatch(s, setup, req, rnd);
            && h.srv.lockMs == (if h.disp == Negative(NRC_ATTEMPTS) then LOCK_MS else s.lockMs)
            && (h.disp == Negative(NRC_ATTEMPTS) ==> req[0] == SID_SECURITY)
            && (h.disp.Negative? ==> !h.reset)
  {
    if req[0] == SID_SECURITY {
      assert Dispatch(s, setup, req, rnd) == Security(s, setup.cap, req, rnd);
      SecurityDelay(s, setup.cap, req, rnd);
    } else if req[0] == SID_DOWNLOAD {
      assert Dispatch(s, setup, req, rnd) == RequestDownload(s, setup.cap, req);
    } else if req[0] == SID_TRANSFER {
      assert Dispatch(s, setup, req, rnd) == TransferData(s, setup.cap, req);
    } else if req[0] == SID_EXIT {
      assert Dispatch(s, setup, req, rnd) == TransferExit(s, setup.cap, req);
    } else {
      OtherServicesKeep(s, setup, req, rnd);
      PositiveFormat(s, setup, req, rnd);
      OthersNeverExceed(s, setup, req, rnd);
    }
    hide Dispatch, Security, BigEndian, Fits;
  }

  lemma OthersNeverExceed(s: Server, setup: Setup, req: Bytes, rnd: u32)
    requires req != [] && req[0] !in {SID_SECURITY, SID_DOWNLOAD, SID_TRANSFER, SID_EXIT}
    ensures Dispatch(s, setup, req, rnd).disp != Negative(NRC_ATTEMPTS)
  {
    hide DidRecords;
  }

  /** The code of a SecurityAccess request is answered as it is: neither is silent on a broadcast. */
  lemma CodeAnswered(s: Server, setup: Setup, req: Request, rnd: u32, nrc: byte)
    requires req.bytes != [] && nrc in {0x36, 0x37}
    ensures Handle(s, setup, req, rnd).answer == Some([0x7F, SID_SECURITY, nrc])
       <==> req.bytes[0] == SID_SECURITY && Dispatch(s, setup, req.bytes, rnd).disp == Negative(nrc)
  {
    PositiveFormat(s, setup, req.bytes, rnd);
    hide Dispatch;
  }

  lemma HandleDelay(s: Server, setup: Setup, req: Request, rnd: u32)
    requires req.bytes != []
    ensures var o := Handle(s, setup, req, rnd);
            && o.srv.lockMs == (if o.answer == Some([0x7F, SID_SECURITY, 0x36]) then LOCK_MS else s.lockMs)
            && (o.answer == Some([0x7F, SID_SECURITY, 0x36]) ==> o.negative && !o.reset)
            && (req.bytes[0] == SID_SECURITY && |req.bytes| >= 2 ==>
                  (o.answer == Some([0x7F, SID_SECURITY, 0x37]) <==> s.lockMs > 0))
  {
    DispatchDelay(s, setup, req.bytes, rnd);
    CodeAnswered(s, setup, req, rnd, 0x36);
    CodeAnswered(s, setup, req, rnd, 0x37);
    if req.bytes[0] == SID_SECURITY {
      SecurityDelay(s, setup.cap, req.bytes, rnd);
      assert Dispatch(s, setup, req.bytes, rnd) == Security(s, setup.cap, req.bytes, rnd);
    }
    hide Dispatch, Security;
  }

  lemma DelayStep(l: Log, setup: Setup, i: In, time: nat, restarts: nat)
    requires WfIn(i) && Delayed(l, time, restarts) && !StartsDelay(l, setup, i)
    ensures Delayed(Step(l, setup, i), time, restarts)
  {
    if i.req.Some? {
      HandleDelay(Before(l.srv, i), setup, i.req.value, i.rnd);
    }
    hide Handle, Dispatch;
  }

  lemma {:induction false} DelayRun(l: Log, setup: Setup, ins: seq<In>, time: nat, restarts: nat)
    requires Wf(ins) && Delayed(l, time, restarts) && NoNewDelay(l, setup, ins)
    ensures Delayed(Run(l, setup, ins), time, restarts)
    decreases |ins|
  {
    hide Run, Step, Delayed, StartsDelay;
    RunUnfold(l, setup, ins);
    if ins != [] {
      var n := |ins| - 1;
      assert forall k :: 0 <= k < n ==> ins[..n][..k] == ins[..k];
      DelayRun(l, setup, ins[..n], time, restarts);
      assert !StartsDelay(Run(l, setup, ins[..n]), setup, ins[n]);
      DelayStep(Run(l, setup, ins[..n]), setup, ins[n], time, restarts);
    }
  }

  lemma DelayStarts(l: Log, setup: Setup, i: In)
    requires WfIn(i) && StartsDelay(l, setup, i)
    ensures var m := Step(l, setup, i); Delayed(m, m.time, m.restarts)
  {
    HandleDelay(Before(l.srv, i), setup, i.req.value, i.rnd);
    hide Handle, Dispatch;
  }

  /** The request's own poll counts the delay down first. */
  lemma RefusedWhileLeft(l: Log, setup: Setup, i: In, time: nat, restarts: nat)
    requires WfIn(i) && AsksSecurity(i) && Delayed(l, time, restarts)
    ensures AnswerOf(l, setup, i) == Some([0x7F, SID_SECURITY, 0x37])
       <==> l.restarts == restarts && l.time + i.elapsed < time + LOCK_MS
  {
    HandleDelay(Before(l.srv, i), setup, i.req.value, i.rnd);
    hide Handle;
  }

  /**
   The delay to the millisecond. Poll `i` starts it, no poll of `ins` starts another one; a
   SecurityAccess request of two or more bytes in the poll after `ins` is then answered 7F 27 37
   if and only if less than ten seconds were fed to the polls since, its own included, and no
   restart came between.
   */
  lemma DelayExact(setup: Setup, pre: seq<In>, i: In, ins: seq<In>, j: In)
    requires Wf(pre) && WfIn(i) && Wf(ins) && WfIn(j) && AsksSecurity(j)
    requires StartsDelay(Run(START, setup, pre), setup, i)
    requires NoNewDelay(Step(Run(START, setup, pre), setup, i), setup, ins)
    ensures var l := Step(Run(START, setup, pre), setup, i);
            var m := Run(l, setup, ins);
            AnswerOf(m, setup, j) == Some([0x7F, SID_SECURITY, 0x37])
            <==> m.restarts == l.restarts && m.time - l.time + j.elapsed < LOCK_MS
  {
    var l := Step(Run(START, setup, pre), setup, i);
    DelayStarts(Run(START, setup, pre), setup, i);
    hide Run, Step, AnswerOf, StartsDelay;
    DelayRun(l, setup, ins, l.time, l.restarts);
    RefusedWhileLeft(Run(l, setup, ins), setup, j, l.time, l.restarts);
  }

  // ---- after the delay ------------------------------------------------------

  predicate SeedRequest(i: In) { AsksSecurity(i) && i.req.value.bytes[1] == 1 }

  predicate KeyRequest(i: In, key: u32) {
    AsksSecurity(i) && |i.req.value.bytes| >= 6 && i.req.value.bytes[1] == 2 && i.req.value.bytes[2..6] == Be4(key)
  }

  lemma SeedAnswered(l: Log, setup: Setup, i: In)
    requires WfIn(i) && SeedRequest(i) && setup.cap >= 6 && l.srv.level == 0
    requires AnswerOf(l, setup, i) != Some([0x7F, SID_SECURITY, 0x37])
    ensures var v, k := FreshSeed(i.rnd), Step(l, setup, i);
            && AnswerOf(l, setup, i) == Some([0x67, 1] + Be4(v))
            && k.srv.pending == 1 && k.srv.seed == v && k.srv.lockMs == 0 && k.srv.level == 0
  {
    var s, req := Before(l.srv, i), i.req.value.bytes;
    HandleDelay(s, setup, i.req.value, i.rnd);
    assert s.lockMs == 0;
    var t := s.(seed := FreshSeed(i.rnd), pending := 1);
    assert Security(s, setup.cap, req, i.rnd) == Accept(t, SeedAnswer(1, FreshSeed(i.rnd)));
    assert Dispatch(s, setup, req, i.rnd) == Security(s, setup.cap, req, i.rnd);
    hide Dispatch, Security, Be4, FreshSeed;
  }

  lemma KeyAnswered(l: Log, setup: Setup, i: In)
    requires WfIn(i) && l.srv.pending == 1 && l.srv.lockMs == 0 && KeyRequest(i, KeyFor(l.srv.seed)) && setup.cap >= 2
    ensures AnswerOf(l, setup, i) == Some([0x67, 2]) && Step(l, setup, i).srv.level == 1
  {
    hide KeyFor, Be4, BigEndian;
    var s, req := Before(l.srv, i), i.req.value.bytes;
    Be4Value(KeyFor(s.seed));
    var t := s.(level := 1, pending := 0, attempts := 0);
    assert SendKey(s, setup.cap, req) == Accept(t, [0x67, 2]);
    assert Security(s, setup.cap, req, i.rnd) == SendKey(s, setup.cap, req);
    assert Dispatch(s, setup, req, i.rnd) == Security(s, setup.cap, req, i.rnd);
    hide Dispatch, Security, SendKey;
  }

  /**
   Once the delay is over, or was never begun, a locked server with room for the answer hands out
   a seed that is not zero, and the key that matches it unlocks.
   */
  lemma UnlocksAfterDelay(setup: Setup, ins: seq<In>, i: In, j: In)
    requires Wf(ins) && WfIn(i) && WfIn(j) && SeedRequest(i) && setup.cap >= 6
    requires var l := Run(START, setup, ins);
             l.srv.level == 0 && AnswerOf(l, setup, i) != Some([0x7F, SID_SECURITY, 0x37])
    requires KeyRequest(j, KeyFor(FreshSeed(i.rnd)))
    ensures var l := Run(START, setup, ins);
            var m := Step(l, setup, i);
            && FreshSeed(i.rnd) != 0
            && AnswerOf(l, setup, i) == Some([0x67, 1] + Be4(FreshSeed(i.rnd)))
            && AnswerOf(m, setup, j) == Some([0x67, 2]) && Step(m, setup, j).srv.level == 1
  {
    var l := Run(START, setup, ins);
    hide Run, Step, AnswerOf, KeyFor, Be4;
    SeedAnswered(l, setup, i);
    KeyAnswered(Step(l, setup, i), setup, j);
  }

  /**
   No lock is for ever: ten seconds of polls after the third wrong key, with or without requests
   among them, the server answers the seed request of a locked server with a seed again.
   */
  lemma SeedsComeBack(setup: Setup, pre: seq<In>, i: In, ins: seq<In>, j: In)
    requires Wf(pre) && WfIn(i) && Wf(ins) && WfIn(j) && SeedRequest(j) && setup.cap >= 6
    requires StartsDelay(Run(START, setup, pre), setup, i)
    requires NoNewDelay(Step(Run(START, setup, pre), setup, i), setup, ins)
    requires var l := Step(Run(START, setup, pre), setup, i);
             var m := Run(l, setup, ins); m.srv.level == 0 && m.time - l.time + j.elapsed >= LOCK_MS
    ensures var m := Run(Step(Run(START, setup, pre), setup, i), setup, ins);
            AnswerOf(m, setup, j) == Some([0x67, 1] + Be4(FreshSeed(j.rnd))) && FreshSeed(j.rnd) != 0
  {
    DelayExact(setup, pre, i, ins, j);
    hide Run, Step, AnswerOf, Be4;
    SeedAnswered(Run(Step(Run(START, setup, pre), setup, i), setup, ins), setup, j);
  }
}
