/**
 One direction of a conversation over lossless in-order queues, with no timeout
 and no transmit failure: the send half of one link, the data frames under way,
 the receive half of the other link and the flow controls under way. The coupling
 invariant relates offsets, sequence numbers, the block counters of both halves
 and the grants; module IsoTpDuplex runs two such directions at once.
 */
module IsoTpDelivery {
  import opened Words
  import opened IsoTp
  import opened IsoTpStream
  import opened IsoTpLoss

  /** A message handed up and the number of flow controls it took. */
  datatype Receipt = Receipt(msg: Bytes, grants: nat)

  /** `sent`, `last`, `grants` and `got` only record history. */
  datatype Dir = Dir(scfg: Cfg, tx: Tx, chan: seq<Parcel>, rcfg: Cfg, rx: Rx, fcs: seq<Bytes>,
                     sent: seq<Bytes>, last: Pos, grants: nat, got: seq<Receipt>)

  function DSend(d: Dir, data: Bytes, now: u32): Dir
    requires TxInv(d.tx)
  {
    var o := SendTx(d.scfg, d.tx, data, now, true);
    if o.sent == [] then d.(tx := o.tx)
    else d.(tx := o.tx, sent := d.sent + [data], chan := d.chan + [Parcel(Pos(|d.sent|, 0), o.sent[0])])
  }

  function DPoll(d: Dir, now: u32): Dir
    requires TxInv(d.tx)
  {
    var o := PollTx(d.scfg, d.tx, now, true);
    if o.sent == [] then d.(tx := o.tx)
    else
      var end := End(d.last, d.chan);
      d.(tx := o.tx, chan := d.chan + [Parcel(Pos(end.idx, end.p + 1), o.sent[0])])
  }

  /** The sender takes the next flow control. */
  function DGrant(d: Dir, now: u32): Dir
    requires TxInv(d.tx) && d.fcs != [] && 1 <= |d.fcs[0]| <= CAN_DL
  {
    d.(tx := HandleFc(d.scfg, d.tx, d.fcs[0], now), fcs := d.fcs[1..])
  }

  /** The receiver takes the next data frame. */
  function DTake(d: Dir, now: u32): Dir
    requires RxInv(d.rx) && d.chan != [] && 1 <= |d.chan[0].bytes| <= CAN_DL
  {
    var x := d.chan[0];
    var o := RxOnData(d.rcfg, d.rx, x.bytes, now, true);
    d.(rx := o.rx, chan := d.chan[1..], fcs := d.fcs + o.sent, last := x.pos,
       grants := (if x.pos.p == 0 then 0 else d.grants) + |o.sent|)
  }

  function DCollect(d: Dir): Dir
    requires RxInv(d.rx)
  {
    var r := Receive(d.rx, MAX_MSG);
    d.(rx := r.rx, got := if r.ret == Ok then d.got + [Receipt(r.msg, d.grants)] else d.got)
  }

  // ---- invariant ------------------------------------------------------------

  /** Flow controls an `n`-byte message takes when the receiver grants blocks of `bs`. */
  function GrantsFor(bs: byte, n: nat): nat {
    if n <= SF_MAX_DATA then 0
    else if bs == 0 then 1
    else 1 + (NumCf(n) - 1) / bs
  }

  /** The receiver answers the frame at position `x` with a grant. */
  predicate Triggers(bs: byte, sent: seq<Bytes>, x: Pos) {
    Multi(sent, x.idx) && (x.p == 0 || (bs != 0 && x.p % bs == 0 && x.p < NumCf(|sent[x.idx]|)))
  }

  predicate IsFinal(sent: seq<Bytes>, x: Pos) {
    x.idx < 0 || (x.idx < |sent| && Sendable(sent[x.idx]) && x.p + 1 == FrameCount(sent[x.idx]))
  }

  /**
   A message starts only after the previous one is complete, and no frame before
   the newest one triggers a grant.
   */
  predicate Quiet(bs: byte, sent: seq<Bytes>, last: Pos, chan: seq<Parcel>)
    decreases |chan|
  {
    chan == [] ||
    (&& (chan[0].pos.p == 0 ==> IsFinal(sent, last))
     && (|chan| > 1 ==> !Triggers(bs, sent, chan[0].pos))
     && Quiet(bs, sent, chan[0].pos, chan[1..]))
  }

  predicate GotPrefix(bs: byte, sent: seq<Bytes>, got: seq<Receipt>, n: int) {
    && |got| == n <= |sent|
    && forall i | 0 <= i < n :: got[i] == Receipt(sent[i], GrantsFor(bs, |sent[i]|))
  }

  predicate FlowInv(d: Dir) {
    var end := End(d.last, d.chan);
    && Quiet(d.rcfg.bs, d.sent, d.last, d.chan)
    && (d.tx.phase == WaitFc ==>
          Triggers(d.rcfg.bs, d.sent, end) && d.fcs == if d.chan == [] then [FcFrame(d.rcfg, FS_CTS)] else [])
    && (d.tx.phase != WaitFc ==>
          d.fcs == [] && (d.chan != [] ==> !Triggers(d.rcfg.bs, d.sent, end)))
    && (d.tx.phase == Sending ==>
          && d.tx.stmin == d.rcfg.stmin
          && if d.rcfg.bs == 0 then d.tx.bsLeft == 0
             else d.tx.bsLeft >= 1 && end.p % d.rcfg.bs + d.tx.bsLeft == d.rcfg.bs)
    && (d.tx.phase == Idle ==> IsFinal(d.sent, end))
  }

  predicate TakenInv(d: Dir) {
    var r := d.rx;
    && RxInv(r) && !(r.complete && r.functional)
    && (if r.phase == Recv then
          && !r.complete && d.last.idx >= 0 && Reassembling(r, d.sent, d.last, d.last.idx)
          && CfIndex(r.off) == d.last.p
          && (d.rcfg.bs != 0 ==> r.blockCf == d.last.p % d.rcfg.bs)
          && d.grants == (if d.rcfg.bs == 0 then 1 else 1 + d.last.p / d.rcfg.bs)
          && GotPrefix(d.rcfg.bs, d.sent, d.got, d.last.idx)
        else if r.complete then
          && d.last.idx >= 0 && Completed(r, d.sent, d.last.idx) && IsFinal(d.sent, d.last)
          && d.grants == GrantsFor(d.rcfg.bs, r.len)
          && GotPrefix(d.rcfg.bs, d.sent, d.got, d.last.idx)
        else IsFinal(d.sent, d.last) && GotPrefix(d.rcfg.bs, d.sent, d.got, d.last.idx + 1))
  }

  predicate DirInv(d: Dir) {
    && AllSendable(d.sent) && -1 <= d.last.idx < |d.sent|
    && ChanInv(d.scfg, d.sent, d.last, d.chan)
    && SenderInv(d.tx, d.sent, End(d.last, d.chan))
    && FlowInv(d) && TakenInv(d)
  }

  /** Work left: frames to emit, frames and grants under way, a message to collect. */
  function Work(d: Dir): nat
    requires TxInv(d.tx)
  {
    3 * (if d.tx.phase == Idle then 0 else
           assert CfIndex(d.tx.off) < NumCf(|d.tx.msg|);
           NumCf(|d.tx.msg|) - CfIndex(d.tx.off))
    + 2 * |d.chan| + |d.fcs| + if d.rx.complete then 1 else 0
  }

  // ---- sender steps ---------------------------------------------------------

  lemma {:induction false} QuietGrow(bs: byte, sent: seq<Bytes>, last: Pos, chan: seq<Parcel>, m: Bytes, cfg: Cfg)
    requires AllSendable(sent) && last.idx < |sent| && ChanInv(cfg, sent, last, chan) && Quiet(bs, sent, last, chan)
    ensures Quiet(bs, sent + [m], last, chan)
    decreases |chan|
  {
    if chan != [] {
      QuietGrow(bs, sent, chan[0].pos, chan[1..], m, cfg);
    }
  }

  lemma {:induction false} QuietPush(bs: byte, sent: seq<Bytes>, last: Pos, chan: seq<Parcel>, x: Parcel)
    requires Quiet(bs, sent, last, chan)
    requires chan != [] ==> !Triggers(bs, sent, End(last, chan))
    requires x.pos.p == 0 ==> IsFinal(sent, End(last, chan))
    ensures Quiet(bs, sent, last, chan + [x])
    decreases |chan|
  {
    if chan == [] {
      assert (chan + [x])[1..] == [];
    } else {
      assert (chan + [x])[1..] == chan[1..] + [x];
      QuietPush(bs, sent, chan[0].pos, chan[1..], x);
    }
  }

  lemma TakenGrow(d: Dir, m: Bytes)
    requires TakenInv(d) && -1 <= d.last.idx < |d.sent|
    ensures TakenInv(d.(sent := d.sent + [m]))
  {}

  lemma SendKeeps(d: Dir, data: Bytes, now: u32)
    requires DirInv(d)
    ensures DirInv(DSend(d, data, now))
    ensures DSend(d, data, now).got == d.got
    ensures DSend(d, data, now).sent == d.sent
            || (d.tx.phase == Idle && Sendable(data) && DSend(d, data, now).sent == d.sent + [data])
  {
    var o := SendTx(d.scfg, d.tx, data, now, true);
    SendEmits(d.scfg, d.tx, data, now, true);
    if o.sent != [] {
      StartsFrame(d, data, now);
      hide SendTx, FrameAt, ChanInv, Quiet, TakenInv, SenderInv;
      StartKeeps(d, data, o.tx, o.sent[0]);
    } else {
      hide ChanInv, Quiet, TakenInv, FrameAt;
      assert DSend(d, data, now) == d.(tx := o.tx);
    }
  }

  lemma StartsFrame(d: Dir, data: Bytes, now: u32)
    requires TxInv(d.tx) && SendTx(d.scfg, d.tx, data, now, true).sent != [] && AllSendable(d.sent)
    ensures var o := SendTx(d.scfg, d.tx, data, now, true);
            && d.tx.phase == Idle && Sendable(data) && o.sent[0] == FrameAt(d.scfg, data, 0)
            && o.tx.phase == (if |data| <= SF_MAX_DATA then Idle else WaitFc)
            && SenderInv(o.tx, d.sent + [data], Pos(|d.sent|, 0))
  {
    SendEmits(d.scfg, d.tx, data, now, true);
  }

  lemma StartKeeps(d: Dir, data: Bytes, tx: Tx, f: Bytes)
    requires DirInv(d) && d.tx.phase == Idle && Sendable(data) && f == FrameAt(d.scfg, data, 0)
    requires tx.phase == (if |data| <= SF_MAX_DATA then Idle else WaitFc)
    requires SenderInv(tx, d.sent + [data], Pos(|d.sent|, 0))
    ensures DirInv(d.(tx := tx, sent := d.sent + [data], chan := d.chan + [Parcel(Pos(|d.sent|, 0), f)]))
  {
    hide FrameAt, ChanInv, Quiet, TakenInv;
    assert End(d.last, d.chan).idx == |d.sent| - 1;
    hide SenderInv;
    var x := Parcel(Pos(|d.sent|, 0), f);
    var k := d.(sent := d.sent + [data]);
    ChanGrow(d.scfg, d.sent, d.last, d.chan, data);
    ChanPush(d.scfg, k.sent, d.last, d.chan, x);
    QuietGrow(d.rcfg.bs, d.sent, d.last, d.chan, data, d.scfg);
    QuietPush(d.rcfg.bs, k.sent, d.last, d.chan, x);
    TakenGrow(d, data);
    TakenIgnoresSender(k, k.(tx := tx, chan := d.chan + [x]));
  }

  // ---- polls and grants -----------------------------------------------------

  predicate NoSendTimeout(d: Dir, now: u32) {
    d.tx.phase == WaitFc ==> Elapsed32(now, d.tx.timer) < d.scfg.nBs
  }

  lemma TakenIgnoresSender(d: Dir, k: Dir)
    requires TakenInv(d)
    requires k.rx == d.rx && k.sent == d.sent && k.last == d.last && k.grants == d.grants && k.got == d.got
    requires k.rcfg == d.rcfg
    ensures TakenInv(k)
  {}

  /** The block counter of the sender after one more consecutive frame. */
  lemma AdvanceFlow(t: Tx, bs: byte, sent: seq<Bytes>, end: Pos, n: nat, now: u32)
    requires AllSendable(sent) && SenderInv(t, sent, end) && t.phase == Sending && n == |NextChunk(t)|
    requires if bs == 0 then t.bsLeft == 0 else t.bsLeft >= 1 && end.p % bs + t.bsLeft == bs
    ensures var s, e := Advance(t, n, now), Pos(end.idx, end.p + 1);
            && (s.phase == WaitFc <==> Triggers(bs, sent, e))
            && (s.phase == Sending ==>
                  if bs == 0 then s.bsLeft == 0 else s.bsLeft >= 1 && e.p % bs + s.bsLeft == bs)
            && (s.phase == Idle <==> IsFinal(sent, e))
            && (s.phase == Sending ==> s.stmin == t.stmin)
  {
    if bs != 0 {
      BlockStep(end.p, bs);
    }
    var m := sent[end.idx];
    CfIndexing(|m|, end.p);
    CfIndexing(|m|, end.p + 1);
    assert t.off + n >= |m| <==> end.p + 1 == NumCf(|m|);
  }

  lemma PollKeeps(d: Dir, now: u32)
    requires DirInv(d) && NoSendTimeout(d, now)
    ensures DirInv(DPoll(d, now))
    ensures !CfDue(d.tx, now) ==> DPoll(d, now) == d
  {
    hide TakenInv, ChanInv, Quiet, FrameAt, CfFrame, Triggers, IsFinal;
    if CfDue(d.tx, now) {
      var end := End(d.last, d.chan);
      var o := PollTx(d.scfg, d.tx, now, true);
      var x := Parcel(Pos(end.idx, end.p + 1), o.sent[0]);
      SenderPoll(d.scfg, d.tx, d.sent, end, now, true);
      AdvanceFlow(d.tx, d.rcfg.bs, d.sent, end, |NextChunk(d.tx)|, now);
      hide Advance, CfIndex;
      PollPushes(d, o.tx, x);
    }
  }

  lemma PollWorks(d: Dir, now: u32)
    requires DirInv(d) && CfDue(d.tx, now)
    ensures TxInv(DPoll(d, now).tx) && Work(DPoll(d, now)) < Work(d)
    ensures DPoll(d, now).sent == d.sent && DPoll(d, now).got == d.got
  {
    hide TakenInv, ChanInv, Quiet, FlowInv;
    var u := PollTx(d.scfg, d.tx, now, true).tx;
    assert u.phase != Idle ==> u.msg == d.tx.msg && CfIndex(u.off) == CfIndex(d.tx.off) + 1;
  }

  /** The queue after a poll that emitted `x` and left the send half in `u`. */
  lemma PollPushes(d: Dir, u: Tx, x: Parcel)
    requires DirInv(d) && d.tx.phase == Sending && ParcelOk(d.scfg, d.sent, x)
    requires Follows(End(d.last, d.chan), x.pos) && SenderInv(u, d.sent, x.pos)
    requires u.phase == WaitFc <==> Triggers(d.rcfg.bs, d.sent, x.pos)
    requires u.phase == Sending ==>
               if d.rcfg.bs == 0 then u.bsLeft == 0 else u.bsLeft >= 1 && x.pos.p % d.rcfg.bs + u.bsLeft == d.rcfg.bs
    requires u.phase == Sending ==> u.stmin == d.rcfg.stmin
    requires u.phase == Idle ==> IsFinal(d.sent, x.pos)
    ensures DirInv(d.(tx := u, chan := d.chan + [x]))
  {
    ChanPush(d.scfg, d.sent, d.last, d.chan, x);
    QuietPush(d.rcfg.bs, d.sent, d.last, d.chan, x);
    TakenIgnoresSender(d, d.(tx := u, chan := d.chan + [x]));
    hide TakenInv, ChanInv, Quiet, Triggers, ParcelOk, IsFinal;
  }

  lemma GrantKeeps(d: Dir, now: u32)
    requires DirInv(d) && d.fcs != []
    ensures 1 <= |d.fcs[0]| <= CAN_DL && PciType(d.fcs[0][0]) == PCI_FC
    ensures var k := DGrant(d, now);
            DirInv(k) && Work(k) < Work(d) && k.sent == d.sent && k.got == d.got
  {
    hide TakenInv, ChanInv, Quiet, Triggers, FcFrame;
    GrantTakes(d, now);
    GrantResumes(d, now);
    hide *;
  }

  lemma GrantTakes(d: Dir, now: u32)
    requires TxInv(d.tx) && d.tx.phase == WaitFc && d.fcs == [FcFrame(d.rcfg, FS_CTS)]
    ensures 1 <= |d.fcs[0]| <= CAN_DL && PciType(d.fcs[0][0]) == PCI_FC
    ensures DGrant(d, now) == Resumed(d, now)
  {
    FcRoundTrip(d.rcfg);
    hide FcFrame;
  }

  /** The sender has taken the grant. */
  function Resumed(d: Dir, now: u32): Dir {
    var t := d.tx.(bsLeft := d.rcfg.bs, stmin := d.rcfg.stmin, wft := 0, phase := Sending, stTimer := now);
    d.(tx := t, fcs := [])
  }

  lemma GrantResumes(d: Dir, now: u32)
    requires DirInv(d) && d.fcs != []
    ensures DirInv(Resumed(d, now)) && Work(Resumed(d, now)) < Work(d)
  {
    hide TakenInv, ChanInv, Quiet, Triggers, IsFinal, FcFrame;
    TakenIgnoresSender(d, Resumed(d, now));
    FlowResumes(d, now);
    hide FlowInv;
  }

  lemma FlowResumes(d: Dir, now: u32)
    requires FlowInv(d) && d.fcs != []
    ensures FlowInv(Resumed(d, now))
  {
    hide Quiet, IsFinal, FcFrame, Multi;
  }

  lemma FcRoundTrip(cfg: Cfg)
    ensures var f := FcFrame(cfg, FS_CTS);
            && 3 <= |f| <= CAN_DL && PciType(f[0]) == PCI_FC && PciLow(f[0]) == FS_CTS
            && f[1] == cfg.bs && f[2] == cfg.stmin
  {
    var f := FcFrame(cfg, FS_CTS);
    assert f[..3] == [(16 * PCI_FC + FS_CTS) as byte, cfg.bs, cfg.stmin];
    assert f[0] == f[..3][0] && f[1] == f[..3][1] && f[2] == f[..3][2];
  }

  // ---- receiver steps -------------------------------------------------------

  lemma QuietPop(bs: byte, sent: seq<Bytes>, last: Pos, chan: seq<Parcel>)
    requires Quiet(bs, sent, last, chan) && chan != []
    ensures Quiet(bs, sent, chan[0].pos, chan[1..])
    ensures chan[0].pos.p == 0 ==> IsFinal(sent, last)
    ensures |chan| > 1 ==> !Triggers(bs, sent, chan[0].pos)
    ensures |chan| == 1 ==> End(last, chan) == chan[0].pos
  {}

  function Taken(d: Dir, s: Rx, grants: nat, fcs: seq<Bytes>): Dir
    requires d.chan != []
  {
    d.(rx := s, chan := d.chan[1..], last := d.chan[0].pos, grants := grants, fcs := fcs)
  }

  /** Taking a frame that owes no grant. */
  lemma TakeQuietly(d: Dir, s: Rx, grants: nat)
    requires DirInv(d) && d.chan != [] && !Triggers(d.rcfg.bs, d.sent, d.chan[0].pos)
    requires TakenInv(Taken(d, s, grants, d.fcs))
    ensures DirInv(Taken(d, s, grants, d.fcs))
  {
    ChanPop(d.scfg, d.sent, d.last, d.chan);
    QuietPop(d.rcfg.bs, d.sent, d.last, d.chan);
    hide TakenInv, ChanInv, Quiet, Triggers, IsFinal;
  }

  /** Taking a frame and answering it: it was the newest one, and the sender awaits the answer. */
  lemma TakeAndGrant(d: Dir, s: Rx, grants: nat)
    requires DirInv(d) && d.chan != [] && Triggers(d.rcfg.bs, d.sent, d.chan[0].pos)
    requires TakenInv(Taken(d, s, grants, d.fcs + [FcFrame(d.rcfg, FS_CTS)]))
    ensures DirInv(Taken(d, s, grants, d.fcs + [FcFrame(d.rcfg, FS_CTS)]))
  {
    ChanPop(d.scfg, d.sent, d.last, d.chan);
    QuietPop(d.rcfg.bs, d.sent, d.last, d.chan);
    assert |d.chan| == 1;
    hide TakenInv, ChanInv, Quiet, Triggers, IsFinal, FcFrame;
  }

  /** When the next frame starts a message, everything before it has been handed up. */
  lemma StartsAfterAll(d: Dir)
    requires DirInv(d) && d.chan != [] && d.chan[0].pos.p == 0 && !d.rx.complete
    ensures d.rx.phase == Idle && GotPrefix(d.rcfg.bs, d.sent, d.got, d.chan[0].pos.idx)
    ensures d.chan[0].pos.idx == d.last.idx + 1
  {
    ChanPop(d.scfg, d.sent, d.last, d.chan);
    QuietPop(d.rcfg.bs, d.sent, d.last, d.chan);
    if d.rx.phase == Recv {
      CfIndexing(d.rx.len, d.last.p);
    }
  }

  /** When the next frame continues a message, the receiver is exactly there. */
  lemma ContinuesInStep(d: Dir)
    requires DirInv(d) && d.chan != [] && d.chan[0].pos.p > 0 && !d.rx.complete
    ensures d.rx.phase == Recv && d.chan[0].pos == Pos(d.last.idx, d.last.p + 1)
    ensures Multi(d.sent, d.last.idx) && d.last.p < NumCf(|d.sent[d.last.idx]|)
  {
    ChanPop(d.scfg, d.sent, d.last, d.chan);
  }

  lemma TakeSfKeeps(d: Dir, now: u32)
    requires DirInv(d) && d.chan != [] && !d.rx.complete
    requires d.chan[0].pos.idx < |d.sent| ==> !Multi(d.sent, d.chan[0].pos.idx)
    ensures 1 <= |d.chan[0].bytes| <= CAN_DL && PciType(d.chan[0].bytes[0]) == PCI_SF
    ensures DirInv(DTake(d, now))
  {
    var s := SfOutcome(d, now);
    hide DirInv, HandleSf, DTake, RxOnData, Completed;
    SfTaken(d, s);
    QuietSingle(d);
    TakeQuietly(d, s, 0);
  }

  lemma QuietSingle(d: Dir)
    requires d.chan != [] && !Multi(d.sent, d.chan[0].pos.idx)
    ensures !Triggers(d.rcfg.bs, d.sent, d.chan[0].pos)
  {}

  /** The outcome of the next single frame. */
  lemma SfOutcome(d: Dir, now: u32) returns (s: Rx)
    requires DirInv(d) && d.chan != [] && !d.rx.complete
    requires d.chan[0].pos.idx < |d.sent| ==> !Multi(d.sent, d.chan[0].pos.idx)
    ensures d.chan[0].pos.p == 0 && 0 <= d.chan[0].pos.idx < |d.sent|
    ensures 1 <= |d.chan[0].bytes| <= CAN_DL && PciType(d.chan[0].bytes[0]) == PCI_SF
    ensures RxInv(s) && s.phase == Idle && s.complete && !s.functional && Completed(s, d.sent, d.chan[0].pos.idx)
    ensures DTake(d, now) == Taken(d, s, 0, d.fcs)
  {
    var x := d.chan[0];
    ChanPop(d.scfg, d.sent, d.last, d.chan);
    var m := d.sent[x.pos.idx];
    SfRoundTrip(d.scfg, m);
    hide ChanInv, FlowInv, TakenInv, SfFrame;
    s := HandleSf(d.rx, x.bytes, false);
    assert s.buf[..0 + s.len] == d.rx.buf[..0] + m;
    assert d.fcs + [] == d.fcs;
  }

  lemma SfTaken(d: Dir, s: Rx)
    requires DirInv(d) && d.chan != [] && d.chan[0].pos.p == 0 && !d.rx.complete
    requires 0 <= d.chan[0].pos.idx < |d.sent| && !Multi(d.sent, d.chan[0].pos.idx)
    requires RxInv(s) && s.phase == Idle && s.complete && !s.functional && Completed(s, d.sent, d.chan[0].pos.idx)
    ensures TakenInv(Taken(d, s, 0, d.fcs))
  {
    StartsAfterAll(d);
    hide ChanInv, Quiet, FlowInv;
  }

  lemma TakeFfKeeps(d: Dir, now: u32)
    requires DirInv(d) && d.chan != [] && !d.rx.complete
    requires Multi(d.sent, d.chan[0].pos.idx) && d.chan[0].pos.p == 0
    ensures 1 <= |d.chan[0].bytes| <= CAN_DL && PciType(d.chan[0].bytes[0]) == PCI_FF
    ensures DirInv(DTake(d, now))
  {
    var x := d.chan[0];
    ChanPop(d.scfg, d.sent, d.last, d.chan);
    var m := d.sent[x.pos.idx];
    StartsAfterAll(d);
    FfRoundTrip(d.scfg, m);
    FirstFrameNeverOverflows(x.bytes);
    var o := HandleFf(d.rcfg, d.rx, x.bytes, now, true);
    assert o.rx.buf[..0 + FF_FIRST_DATA] == d.rx.buf[..0] + m[..FF_FIRST_DATA];
    assert DTake(d, now) == Taken(d, o.rx, 1, d.fcs + [FcFrame(d.rcfg, FS_CTS)]);
    TakeAndGrant(d, o.rx, 1);
  }

  /** When an accepted chunk owes a grant, and where that leaves the block counter. */
  lemma CfGrants(cfg: Cfg, r: Rx, c: Bytes, f: Bytes, now: u32)
    requires RxInv(r) && r.phase == Recv && |c| == Min(r.len - r.off, CF_MAX_DATA)
    requires 1 + |c| <= |f| <= CAN_DL && PciLow(f[0]) == r.sn && f[1..1 + |c|] == c
    requires cfg.bs != 0 ==> r.blockCf < cfg.bs
    ensures var o := HandleCf(cfg, r, f, now, true);
            var due := r.off + |c| < r.len && cfg.bs != 0 && r.blockCf + 1 == cfg.bs;
            && o.sent == (if due then [FcFrame(cfg, FS_CTS)] else [])
            && (cfg.bs != 0 && o.rx.phase == Recv ==> o.rx.blockCf == if due then 0 else r.blockCf + 1)
  {
    assert HandleCf(cfg, r, f, now, true) == TakeCf(cfg, r, c, now, true);
  }

  lemma CfTaken(d: Dir, s: Rx, grants: nat, fcs: seq<Bytes>)
    requires DirInv(d) && d.chan != [] && d.rx.phase == Recv && d.chan[0].pos == Pos(d.last.idx, d.last.p + 1)
    requires Multi(d.sent, d.last.idx) && d.last.p < NumCf(|d.sent[d.last.idx]|)
    requires RxInv(s) && !s.functional && s.len == d.rx.len && s.sn == NextSn(d.rx.sn)
    requires var c := Chunk(d.sent[d.last.idx], d.last.p);
             s.off == d.rx.off + |c| && s.buf[..s.off] == d.rx.buf[..d.rx.off] + c
    requires if s.off < s.len then s.phase == Recv && !s.complete else s.phase == Idle && s.complete
    requires var bs, p := d.rcfg.bs, d.last.p;
             var due := s.off < s.len && bs != 0 && p % bs + 1 == bs;
             && grants == d.grants + (if due then 1 else 0)
             && (bs != 0 && s.phase == Recv ==> s.blockCf == if due then 0 else p % bs + 1)
    ensures TakenInv(Taken(d, s, grants, fcs))
    ensures s.off < s.len <==> d.last.p + 1 < NumCf(s.len)
  {
    var pos := Pos(d.last.idx, d.last.p + 1);
    AppendKeeps(d.rx, s, d.sent, d.last, pos, d.last.idx);
    CfIndexing(s.len, d.last.p);
    CfIndexing(s.len, d.last.p + 1);
    ChunkFollows(d.sent[d.last.idx], d.last.p);
    if d.rcfg.bs != 0 {
      BlockStep(d.last.p, d.rcfg.bs);
    }
    hide Chunk, ChanInv, Quiet, FlowInv, NextSn, SnOf;
  }

  /** The outcome of the next consecutive frame. */
  lemma CfOutcome(d: Dir, now: u32)
    requires DirInv(d) && d.chan != [] && !d.rx.complete && d.chan[0].pos.p > 0
    ensures Multi(d.sent, d.last.idx) && d.last.p < NumCf(|d.sent[d.last.idx]|) && d.rx.phase == Recv
    ensures var f, c := d.chan[0].bytes, Chunk(d.sent[d.last.idx], d.last.p);
            && 1 + |c| <= |f| <= CAN_DL && PciType(f[0]) == PCI_CF
            && PciLow(f[0]) == d.rx.sn && f[1..1 + |c|] == c
            && |c| == Min(d.rx.len - d.rx.off, CF_MAX_DATA)
            && (d.rcfg.bs != 0 ==> d.rx.blockCf == d.last.p % d.rcfg.bs < d.rcfg.bs)
  {
    ContinuesInStep(d);
    ChanPop(d.scfg, d.sent, d.last, d.chan);
    CfRoundTrip(d.scfg, SnOf(d.last.p), Chunk(d.sent[d.last.idx], d.last.p));
    ChunkFollows(d.sent[d.last.idx], d.last.p);
    CfIndexing(d.rx.len, d.last.p);
    if d.rcfg.bs != 0 {
      BlockStep(d.last.p, d.rcfg.bs);
    }
    hide Chunk, CfFrame, ChanInv, Quiet, FlowInv, CfIndex, CfOffset, NumCf;
  }

  lemma TakeCfKeeps(d: Dir, now: u32)
    requires DirInv(d) && d.chan != [] && !d.rx.complete && d.chan[0].pos.p > 0
    ensures 1 <= |d.chan[0].bytes| <= CAN_DL && PciType(d.chan[0].bytes[0]) == PCI_CF
    ensures DirInv(DTake(d, now))
  {
    var o := TakeCfOutcome(d, now);
    var grants := d.grants + |o.sent|;
    hide *;
    TakeCfEnds(d, o, grants);
  }

  lemma TakeCfOutcome(d: Dir, now: u32) returns (o: RxOut)
    requires DirInv(d) && d.chan != [] && !d.rx.complete && d.chan[0].pos.p > 0
    ensures 1 <= |d.chan[0].bytes| <= CAN_DL && PciType(d.chan[0].bytes[0]) == PCI_CF
    ensures DTake(d, now) == Taken(d, o.rx, d.grants + |o.sent|, d.fcs + o.sent)
    ensures TakenInv(Taken(d, o.rx, d.grants + |o.sent|, d.fcs + o.sent))
    ensures o.sent == if Triggers(d.rcfg.bs, d.sent, d.chan[0].pos) then [FcFrame(d.rcfg, FS_CTS)] else []
  {
    hide Chunk, CfFrame, ChanInv, Quiet, NextSn, SnOf, CfIndex, CfOffset, FcFrame, HandleCf;
    var f := d.chan[0].bytes;
    ContinuesInStep(d);
    CfOutcome(d, now);
    var c := Chunk(d.sent[d.last.idx], d.last.p);
    CfAccepted(d.rcfg, d.rx, c, f, now, true);
    CfGrants(d.rcfg, d.rx, c, f, now);
    o := HandleCf(d.rcfg, d.rx, f, now, true);
    var grants := d.grants + |o.sent|;
    assert DTake(d, now) == Taken(d, o.rx, grants, d.fcs + o.sent);
    if d.rcfg.bs != 0 {
      BlockStep(d.last.p, d.rcfg.bs);
    }
    hide FlowInv;
    CfTaken(d, o.rx, grants, d.fcs + o.sent);
  }

  lemma TakeCfEnds(d: Dir, o: RxOut, grants: nat)
    requires DirInv(d) && d.chan != []
    requires TakenInv(Taken(d, o.rx, grants, d.fcs + o.sent))
    requires o.sent == if Triggers(d.rcfg.bs, d.sent, d.chan[0].pos) then [FcFrame(d.rcfg, FS_CTS)] else []
    ensures DirInv(Taken(d, o.rx, grants, d.fcs + o.sent))
  {
    if o.sent == [] {
      assert d.fcs + [] == d.fcs;
      TakeQuietly(d, o.rx, grants);
    } else {
      TakeAndGrant(d, o.rx, grants);
    }
  }

  lemma TakeKeeps(d: Dir, now: u32)
    requires DirInv(d) && d.chan != [] && !d.rx.complete
    ensures 1 <= |d.chan[0].bytes| <= CAN_DL
    ensures PciType(d.chan[0].bytes[0]) in {PCI_SF, PCI_FF, PCI_CF}
    ensures DirInv(DTake(d, now))
  {
    ChanPop(d.scfg, d.sent, d.last, d.chan);
    if !Multi(d.sent, d.chan[0].pos.idx) {
      TakeSfKeeps(d, now);
    } else if d.chan[0].pos.p == 0 {
      TakeFfKeeps(d, now);
    } else {
      TakeCfKeeps(d, now);
    }
  }

  lemma TakeWorks(d: Dir, now: u32)
    requires DirInv(d) && d.chan != [] && !d.rx.complete && 1 <= |d.chan[0].bytes| <= CAN_DL
    ensures Work(DTake(d, now)) < Work(d)
    ensures DTake(d, now).got == d.got && DTake(d, now).sent == d.sent
  {
    assert RxInv(d.rx);
    hide ChanInv, Quiet, FlowInv, TakenInv;
    var o := RxOnData(d.rcfg, d.rx, d.chan[0].bytes, now, true);
    assert |o.sent| <= 1 && !(o.sent != [] && o.rx.complete);
  }

  lemma CollectTakes(d: Dir)
    requires DirInv(d) && d.rx.complete
    ensures d.last.idx < |d.sent| && DCollect(d).got == d.got + [Receipt(d.sent[d.last.idx], d.grants)]
    ensures TakenInv(DCollect(d))
  {
    hide ChanInv, Quiet, FlowInv, SenderInv;
    var r := Receive(d.rx, MAX_MSG);
    assert r.ret == Ok && r.msg == d.sent[d.last.idx] && r.rx == d.rx.(complete := false);
    hide Receive;
    PrefixGrows(d.rcfg.bs, d.sent, d.got, d.last.idx, d.grants);
    hide GotPrefix, IsFinal, Reassembling;
  }

  lemma PrefixGrows(bs: byte, sent: seq<Bytes>, got: seq<Receipt>, n: int, grants: nat)
    requires 0 <= n < |sent| && GotPrefix(bs, sent, got, n) && grants == GrantsFor(bs, |sent[n]|)
    ensures GotPrefix(bs, sent, got + [Receipt(sent[n], grants)], n + 1)
  {
    hide GrantsFor;
  }

  lemma CollectKeeps(d: Dir)
    requires DirInv(d)
    ensures DirInv(DCollect(d))
    ensures if d.rx.complete then Work(DCollect(d)) < Work(d) && |DCollect(d).got| == |d.got| + 1
            else DCollect(d) == d
  {
    if d.rx.complete {
      CollectTakes(d);
    }
    hide ChanInv, Quiet, TakenInv, Triggers, IsFinal;
  }

  // ---- what the invariant says ----------------------------------------------

  /** Everything handed up is a prefix of everything sent, with the promised number of grants. */
  lemma DeliveredArePrefix(d: Dir)
    requires DirInv(d)
    ensures |d.got| <= |d.sent|
    ensures forall i | 0 <= i < |d.got| :: d.got[i] == Receipt(d.sent[i], GrantsFor(d.rcfg.bs, |d.sent[i]|))
  {}

  /** Nothing under way and nothing to collect: the sender is not stuck waiting for a grant. */
  lemma NeverStuck(d: Dir)
    requires DirInv(d) && d.chan == [] && d.fcs == [] && !d.rx.complete
    ensures d.tx.phase == Idle || d.tx.phase == Sending
    ensures d.tx.phase == Idle ==> |d.got| == |d.sent| && d.rx.phase == Idle
  {
    if d.tx.phase == Idle && d.rx.phase == Recv {
      CfIndexing(d.rx.len, d.last.p);
    }
  }

  /** No work left means that all was delivered and the sender is idle. */
  lemma NoWorkMeansDelivered(d: Dir)
    requires DirInv(d)
    ensures Work(d) == 0 ==> d.tx.phase == Idle && |d.got| == |d.sent|
  {
    if Work(d) == 0 {
      NeverStuck(d);
    }
  }
}
