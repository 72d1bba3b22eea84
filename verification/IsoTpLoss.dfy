/**
 Safety of reassembly over a lossy bus. Link `a` sends to link `b` through a FIFO
 of data frames. `a` and `b` may time out, abort, fail to transmit, start fresh
 messages and see any flow control at any time; single and consecutive frames may
 be lost without limit. Only a first frame must not vanish: then every physically
 addressed message that `b` hands up is one that `a` sent, whole, in order and at
 most once. Module IsoTpFirstFrame proves that the proviso is needed.
 */
module IsoTpLoss {
  import opened Words
  import opened IsoTp
  import opened IsoTpStream

  /** Position of a data frame: message index and frame index within it. */
  datatype Pos = Pos(idx: int, p: nat)

  datatype Parcel = Parcel(pos: Pos, bytes: Bytes)

  datatype Delivery = Delivery(idx: int, msg: Bytes)

  /**
   `sent` lists the messages accepted by `a`; `last` is the position of the frame
   that left the channel most recently; `cur` is the message of the last first
   frame fed to `b`, and `done` the message of its last completion. The last four
   fields only record history.
   */
  datatype Net = Net(a: Link, b: Link, chan: seq<Parcel>, sent: seq<Bytes>,
                     last: Pos, cur: int, done: int, delivered: seq<Delivery>)

  datatype NetEvent =
    | AtA(e: Event)
    | AtB(e: Event)
    | Deliver(now: u32, ok: bool)
    | Lose

  predicate IsFirstFrame(x: Parcel) {
    x.bytes != [] && PciType(x.bytes[0]) == PCI_FF
  }

  /**
   Frames addressed to `b` that do not come from the channel are flow controls or
   carry another id. The task loop collects a completed message before it feeds
   the next frame.
   */
  predicate Possible(n: Net, ev: NetEvent) {
    match ev
    case AtA(e) => true
    case AtB(e) =>
      e.Frame? ==>
        && !n.b.rx.complete
        && (e.id == n.b.rxId && e.bytes != [] ==> PciType(e.bytes[0]) == PCI_FC)
    case Deliver(now, ok) => n.chan != [] && !n.b.rx.complete
    case Lose => n.chan != []
  }

  /** A first frame may be lost only if `ffLoss`. */
  predicate Enabled(n: Net, ev: NetEvent, ffLoss: bool) {
    Possible(n, ev) && (ev.Lose? && !ffLoss ==> !IsFirstFrame(n.chan[0]))
  }

  function StepA(n: Net, e: Event): Net
    requires LinkInv(n.a)
  {
    var o := Step(n.a, e);
    var m := n.(a := o.link);
    if AcceptedBy(n.a, e) != [] && o.sent != [] then
      m.(sent := n.sent + [e.data], chan := n.chan + [Parcel(Pos(|n.sent|, 0), o.sent[0])])
    else if e.Poll? && o.sent != [] then
      var end := End(n.last, n.chan);
      m.(chan := n.chan + [Parcel(Pos(end.idx, end.p + 1), o.sent[0])])
    else m
  }

  function StepB(n: Net, e: Event): Net
    requires LinkInv(n.b)
  {
    var m := n.(b := Step(n.b, e).link);
    if e.Collect? then
      var r := Receive(n.b.rx, e.cap);
      if r.ret == Ok && !r.functional then
        m.(delivered := n.delivered + [Delivery(n.done, r.msg)])
      else m
    else m
  }

  function StepDeliver(n: Net, now: u32, ok: bool): Net
    requires LinkInv(n.b) && n.chan != []
  {
    var x := n.chan[0];
    var b := OnFrame(n.b, n.b.rxId, x.bytes, now, ok).link;
    n.(b := b, chan := n.chan[1..], last := x.pos,
       cur := if IsFirstFrame(x) then x.pos.idx else n.cur,
       done := if b.rx.complete then x.pos.idx else n.done)
  }

  function NetStep(n: Net, ev: NetEvent): Net
    requires LinkInv(n.a) && LinkInv(n.b) && Possible(n, ev)
  {
    match ev
    case AtA(e) => StepA(n, e)
    case AtB(e) => StepB(n, e)
    case Deliver(now, ok) => StepDeliver(n, now, ok)
    case Lose => n.(chan := n.chan[1..], last := n.chan[0].pos)
  }

  // ---- invariant ------------------------------------------------------------

  predicate Follows(x: Pos, y: Pos) {
    || (y.idx == x.idx && y.p == x.p + 1)
    || (y.idx == x.idx + 1 && y.p == 0)
  }

  predicate AllSendable(sent: seq<Bytes>) {
    forall i | 0 <= i < |sent| :: Sendable(sent[i])
  }

  predicate ParcelOk(cfg: Cfg, sent: seq<Bytes>, x: Parcel)
    requires AllSendable(sent)
  {
    && 0 <= x.pos.idx < |sent|
    && x.pos.p < FrameCount(sent[x.pos.idx])
    && x.bytes == FrameAt(cfg, sent[x.pos.idx], x.pos.p)
  }

  /** The channel holds the frames that follow position `last`, without a gap. */
  predicate ChanInv(cfg: Cfg, sent: seq<Bytes>, last: Pos, chan: seq<Parcel>)
    requires AllSendable(sent)
    decreases |chan|
  {
    chan == [] ||
    (Follows(last, chan[0].pos) && ParcelOk(cfg, sent, chan[0]) && ChanInv(cfg, sent, chan[0].pos, chan[1..]))
  }

  /** Position of the newest data frame emitted by the sender. */
  function End(last: Pos, chan: seq<Parcel>): Pos {
    if chan == [] then last else chan[|chan| - 1].pos
  }

  predicate SenderInv(t: Tx, sent: seq<Bytes>, end: Pos) {
    && TxInv(t)
    && end.idx == |sent| - 1
    && (t.phase != Idle ==> sent != [] && t.msg == sent[|sent| - 1] && end.p == CfIndex(t.off))
  }

  predicate Multi(sent: seq<Bytes>, i: int) {
    0 <= i < |sent| && |sent[i]| > SF_MAX_DATA
  }

  /** `r` has taken some consecutive frames of `sent[cur]`; no loss so far means a faithful prefix. */
  predicate Reassembling(r: Rx, sent: seq<Bytes>, last: Pos, cur: int) {
    && Multi(sent, cur) && cur <= last.idx
    && r.len == |sent[cur]| && FF_FIRST_DATA <= r.off < r.len && r.off <= |r.buf|
    && r.off == CfOffset(CfIndex(r.off)) && r.sn == SnOf(CfIndex(r.off))
    && (Multi(sent, last.idx) ==> cur == last.idx)
    && (cur == last.idx ==>
          && CfIndex(r.off) <= last.p
          && (CfIndex(r.off) == last.p ==> r.buf[..r.off] == sent[cur][..r.off]))
  }

  predicate Completed(r: Rx, sent: seq<Bytes>, i: int) {
    0 <= i < |sent| && r.len <= |r.buf| && r.buf[..r.len] == sent[i]
  }

  /** `seen` is the newest message already handed up. */
  predicate ReceiverInv(r: Rx, sent: seq<Bytes>, last: Pos, cur: int, done: int, seen: int) {
    && RxInv(r)
    && (r.complete ==> r.phase == Idle)
    && (r.phase == Recv ==> seen < cur && Reassembling(r, sent, last, cur))
    && (r.complete && !r.functional ==> seen < done <= last.idx && Completed(r, sent, done))
  }

  function Seen(delivered: seq<Delivery>): int {
    if delivered == [] then -1 else delivered[|delivered| - 1].idx
  }

  predicate DeliveredInv(sent: seq<Bytes>, delivered: seq<Delivery>) {
    && (forall k | 0 <= k < |delivered| ::
          0 <= delivered[k].idx < |sent| && delivered[k].msg == sent[delivered[k].idx])
    && (forall j, k | 0 <= j < k < |delivered| :: delivered[j].idx < delivered[k].idx)
  }

  predicate NetInv(n: Net) {
    && AllSendable(n.sent) && n.last.idx < |n.sent|
    && ChanInv(n.a.cfg, n.sent, n.last, n.chan)
    && LinkInv(n.a) && SenderInv(n.a.tx, n.sent, End(n.last, n.chan))
    && TxInv(n.b.tx) && ReceiverInv(n.b.rx, n.sent, n.last, n.cur, n.done, Seen(n.delivered))
    && DeliveredInv(n.sent, n.delivered) && Seen(n.delivered) <= n.last.idx
  }

  // ---- the channel ----------------------------------------------------------

  lemma {:induction false} ChanPush(cfg: Cfg, sent: seq<Bytes>, last: Pos, chan: seq<Parcel>, x: Parcel)
    requires AllSendable(sent) && ChanInv(cfg, sent, last, chan)
    requires ParcelOk(cfg, sent, x) && Follows(End(last, chan), x.pos)
    ensures ChanInv(cfg, sent, last, chan + [x]) && End(last, chan + [x]) == x.pos
    decreases |chan|
  {
    hide ParcelOk, Follows;
    if chan == [] {
      assert (chan + [x])[1..] == [];
    } else {
      assert (chan + [x])[1..] == chan[1..] + [x];
      ChanPush(cfg, sent, chan[0].pos, chan[1..], x);
    }
  }

  lemma {:induction false} ChanGrow(cfg: Cfg, sent: seq<Bytes>, last: Pos, chan: seq<Parcel>, m: Bytes)
    requires AllSendable(sent) && ChanInv(cfg, sent, last, chan) && Sendable(m)
    ensures AllSendable(sent + [m]) && ChanInv(cfg, sent + [m], last, chan)
    decreases |chan|
  {
    if chan != [] {
      ChanGrow(cfg, sent, chan[0].pos, chan[1..], m);
      assert (sent + [m])[chan[0].pos.idx] == sent[chan[0].pos.idx];
    }
  }

  lemma ChanPop(cfg: Cfg, sent: seq<Bytes>, last: Pos, chan: seq<Parcel>)
    requires AllSendable(sent) && ChanInv(cfg, sent, last, chan) && chan != []
    ensures ChanInv(cfg, sent, chan[0].pos, chan[1..])
    ensures End(chan[0].pos, chan[1..]) == End(last, chan)
    ensures Follows(last, chan[0].pos) && ParcelOk(cfg, sent, chan[0])
  {}

  // ---- sender steps ---------------------------------------------------------

  lemma ReceiverGrow(r: Rx, sent: seq<Bytes>, last: Pos, cur: int, done: int, seen: int, m: Bytes)
    requires ReceiverInv(r, sent, last, cur, done, seen) && last.idx < |sent|
    ensures ReceiverInv(r, sent + [m], last, cur, done, seen)
  {}

  lemma DeliveredGrow(sent: seq<Bytes>, delivered: seq<Delivery>, m: Bytes)
    requires DeliveredInv(sent, delivered)
    ensures DeliveredInv(sent + [m], delivered)
  {}

  lemma StepASendKeeps(n: Net, data: Bytes, now: u32, ok: bool)
    requires NetInv(n)
    ensures NetInv(StepA(n, Send(data, now, ok)))
  {
    var e := Send(data, now, ok);
    var o := SendTx(n.a.cfg, n.a.tx, data, now, ok);
    SendEmits(n.a.cfg, n.a.tx, data, now, ok);
    if o.ret in {Ok, InProgress} {
      var x := Parcel(Pos(|n.sent|, 0), o.sent[0]);
      assert o.sent[0] == FrameAt(n.a.cfg, data, 0);
      ChanGrow(n.a.cfg, n.sent, n.last, n.chan, data);
      ChanPush(n.a.cfg, n.sent + [data], n.last, n.chan, x);
      ReceiverGrow(n.b.rx, n.sent, n.last, n.cur, n.done, Seen(n.delivered), data);
      DeliveredGrow(n.sent, n.delivered, data);
      assert SenderInv(o.tx, n.sent + [data], x.pos);
      assert StepA(n, e) == n.(a := n.a.(tx := o.tx), sent := n.sent + [data], chan := n.chan + [x]);
    } else {
      assert StepA(n, e) == n.(a := n.a.(tx := o.tx));
    }
  }

  /** A poll of the sender emits nothing or exactly the next frame of its message. */
  lemma SenderPoll(cfg: Cfg, t: Tx, sent: seq<Bytes>, end: Pos, now: u32, ok: bool)
    requires AllSendable(sent) && SenderInv(t, sent, end)
    ensures var o := PollTx(cfg, t, now, ok);
            if o.sent == [] then SenderInv(o.tx, sent, end)
            else
              var x := Parcel(Pos(end.idx, end.p + 1), o.sent[0]);
              && ParcelOk(cfg, sent, x) && Follows(end, x.pos)
              && SenderInv(o.tx, sent, x.pos)
  {
    PollEmits(cfg, t, now, ok);
  }

  lemma SenderEmits(n: Net, a: Link, x: Parcel)
    requires NetInv(n) && LinkInv(a) && a.cfg == n.a.cfg
    requires ParcelOk(a.cfg, n.sent, x) && Follows(End(n.last, n.chan), x.pos) && SenderInv(a.tx, n.sent, x.pos)
    ensures NetInv(n.(a := a, chan := n.chan + [x]))
  {
    ChanPush(a.cfg, n.sent, n.last, n.chan, x);
  }

  lemma SenderSilent(n: Net, a: Link)
    requires NetInv(n) && LinkInv(a) && a.cfg == n.a.cfg
    requires SenderInv(a.tx, n.sent, End(n.last, n.chan))
    ensures NetInv(n.(a := a))
  {}

  lemma StepAPollKeeps(n: Net, now: u32, ok: bool)
    requires NetInv(n)
    ensures NetInv(StepA(n, Event.Poll(now, ok)))
  {
    hide PollTx, FrameAt, ChanInv, ReceiverInv, DeliveredInv, ParcelOk, Follows, CfDue, RxInv, PollRx;
    var l := Step(n.a, Event.Poll(now, ok));
    var end := End(n.last, n.chan);
    SenderPoll(n.a.cfg, n.a.tx, n.sent, end, now, ok);
    if l.sent == [] {
      SenderSilent(n, l.link);
    } else {
      SenderEmits(n, l.link, Parcel(Pos(end.idx, end.p + 1), l.sent[0]));
    }
  }

  lemma StepAKeeps(n: Net, e: Event)
    requires NetInv(n)
    ensures NetInv(StepA(n, e))
  {
    match e
    case Send(data, now, ok) => StepASendKeeps(n, data, now, ok);
    case Poll(now, ok) => StepAPollKeeps(n, now, ok);
    case Frame(id, bytes, now, ok) => StepAFrameKeeps(n, id, bytes, now, ok);
    case Collect(cap) => SenderSilent(n, Step(n.a, e).link);
    hide NetInv, StepA;
  }

  lemma StepAFrameKeeps(n: Net, id: u32, bytes: Bytes, now: u32, ok: bool)
    requires NetInv(n)
    ensures NetInv(StepA(n, Frame(id, bytes, now, ok)))
  {
    hide ChanInv, ReceiverInv, DeliveredInv, FrameAt;
    var e := Frame(id, bytes, now, ok);
    FrameEmits(n.a, id, bytes, now, ok);
    var k := Step(n.a, e).link;
    assert SenderInv(k.tx, n.sent, End(n.last, n.chan));
    hide Step;
    SenderSilent(n, k);
  }

  // ---- receiver steps -------------------------------------------------------

  /** A frame leaves the channel without reaching the receiver. */
  lemma RxLose(r: Rx, sent: seq<Bytes>, last: Pos, pos: Pos, cur: int, done: int, seen: int)
    requires ReceiverInv(r, sent, last, cur, done, seen)
    requires Follows(last, pos) && (Multi(sent, pos.idx) ==> pos.p > 0)
    ensures ReceiverInv(r, sent, pos, cur, done, seen)
  {}

  lemma RxSf(r: Rx, sent: seq<Bytes>, last: Pos, pos: Pos, cur: int, done: int, seen: int, f: Bytes)
    requires ReceiverInv(r, sent, last, cur, done, seen) && !r.complete
    requires Follows(last, pos) && 0 <= pos.idx < |sent| && pos.p == 0 && seen <= last.idx
    requires 1 <= |sent[pos.idx]| <= SF_MAX_DATA
    requires 1 + |sent[pos.idx]| <= |f| <= CAN_DL && PciLow(f[0]) == |sent[pos.idx]|
    requires f[1..1 + |sent[pos.idx]|] == sent[pos.idx]
    ensures var s := HandleSf(r, f, false); s.complete && ReceiverInv(s, sent, pos, cur, pos.idx, seen)
  {
    var s := HandleSf(r, f, false);
    assert s.buf[..0 + s.len] == r.buf[..0] + sent[pos.idx];
  }

  lemma RxFf(cfg: Cfg, r: Rx, sent: seq<Bytes>, last: Pos, pos: Pos, cur: int, done: int, seen: int,
             f: Bytes, now: u32, ok: bool)
    requires ReceiverInv(r, sent, last, cur, done, seen) && !r.complete
    requires Follows(last, pos) && Multi(sent, pos.idx) && pos.p == 0 && seen <= last.idx
    requires |f| == CAN_DL && FfLength(f) == |sent[pos.idx]| && f[2..] == sent[pos.idx][..FF_FIRST_DATA]
    ensures var s := HandleFf(cfg, r, f, now, ok).rx;
            !s.complete && ReceiverInv(s, sent, pos, pos.idx, done, seen)
  {
    var s := HandleFf(cfg, r, f, now, ok).rx;
    FirstFrameNeverOverflows(f);
    assert s.buf[..0 + FF_FIRST_DATA] == r.buf[..0] + f[2..];
  }

  /** A frame with the expected number and the full remaining chunk appends that chunk. */
  lemma CfAccepted(cfg: Cfg, r: Rx, c: Bytes, f: Bytes, now: u32, ok: bool)
    requires RxInv(r) && r.phase == Recv
    requires |c| == Min(r.len - r.off, CF_MAX_DATA)
    requires 1 + |c| <= |f| <= CAN_DL && PciLow(f[0]) == r.sn && f[1..1 + |c|] == c
    ensures var s := HandleCf(cfg, r, f, now, ok).rx;
            && RxInv(s) && s.len == r.len && s.off == r.off + |c| && s.sn == NextSn(r.sn)
            && s.buf[..s.off] == r.buf[..r.off] + c
            && (if s.off < s.len then s.phase == Recv && s.complete == r.complete && s.functional == r.functional
                else s.phase == Idle && s.complete && s.functional == r.functional)
  {
    assert HandleCf(cfg, r, f, now, ok) == TakeCf(cfg, r, c, now, ok);
  }

  /** Offsets and indices of consecutive frames, without the division. */
  lemma CfIndexing(len: nat, j: nat)
    requires len > SF_MAX_DATA
    ensures CfIndex(CfOffset(j)) == j && CfOffset(j + 1) == CfOffset(j) + CF_MAX_DATA
    ensures j < NumCf(len) <==> CfOffset(j) < len
  {}

  /** The chunks tile the message. */
  lemma ChunkFollows(m: Bytes, i: nat)
    requires SF_MAX_DATA < |m| <= MAX_MSG && i < NumCf(|m|)
    ensures CfOffset(i) + |Chunk(m, i)| <= |m|
    ensures |Chunk(m, i)| == Min(|m| - CfOffset(i), CF_MAX_DATA)
    ensures m[..CfOffset(i)] + Chunk(m, i) == m[..CfOffset(i) + |Chunk(m, i)|]
  {}

  /** A faithful prefix grows by the next chunk. */
  lemma AppendKeeps(r: Rx, s: Rx, sent: seq<Bytes>, last: Pos, pos: Pos, cur: int)
    requires Reassembling(r, sent, last, cur) && CfIndex(r.off) == last.p && pos == Pos(cur, last.p + 1)
    requires last.idx == cur && |sent[cur]| <= MAX_MSG && last.p < NumCf(|sent[cur]|)
    requires s.len == r.len && s.sn == NextSn(r.sn) && s.off <= |s.buf|
    requires var c := Chunk(sent[cur], last.p);
             s.off == r.off + |c| && s.buf[..s.off] == r.buf[..r.off] + c
    ensures s.buf[..s.off] == sent[cur][..s.off]
    ensures s.off < s.len ==> Reassembling(s, sent, pos, cur)
    ensures s.off <= s.len
  {
    ChunkFollows(sent[cur], last.p);
    CfIndexing(r.len, last.p);
    CfIndexing(r.len, last.p + 1);
    SnStep(last.p);
    hide Chunk, CfIndex, CfOffset, NumCf, SnOf, NextSn;
  }

  /** In step: the receiver appends exactly the chunk and stays faithful, or completes the message. */
  lemma RxCfInStep(cfg: Cfg, r: Rx, sent: seq<Bytes>, last: Pos, pos: Pos, cur: int, done: int, seen: int,
                   f: Bytes, now: u32, ok: bool)
    requires ReceiverInv(r, sent, last, cur, done, seen) && r.phase == Recv && !r.complete
    requires Follows(last, pos) && Multi(sent, pos.idx) && 0 < pos.p <= NumCf(|sent[pos.idx]|)
    requires |sent[pos.idx]| <= MAX_MSG && CfIndex(r.off) == last.p
    requires var c := Chunk(sent[pos.idx], pos.p - 1);
             1 + |c| <= |f| <= CAN_DL && PciLow(f[0]) == SnOf(pos.p - 1) && f[1..1 + |c|] == c
    ensures var s := HandleCf(cfg, r, f, now, ok).rx;
            ReceiverInv(s, sent, pos, cur, if s.complete then pos.idx else done, seen)
  {
    var c := Chunk(sent[cur], last.p);
    assert r.off == CfOffset(last.p);
    ChunkFollows(sent[cur], last.p);
    CfAccepted(cfg, r, c, f, now, ok);
    hide HandleCf, Chunk, CfIndex, CfOffset, NumCf, SnOf, NextSn;
    AppendKeeps(r, HandleCf(cfg, r, f, now, ok).rx, sent, last, pos, cur);
    hide Reassembling;
  }

  /** A non-final frame in the wrong place is rejected, or takes the place of its predecessor. */
  lemma CfElsewhere(cfg: Cfg, r: Rx, f: Bytes, now: u32, ok: bool)
    requires RxInv(r) && r.phase == Recv && !r.complete && 1 <= |f| <= CAN_DL
    requires r.off + CF_MAX_DATA < r.len
    ensures var s := HandleCf(cfg, r, f, now, ok).rx;
            && RxInv(s) && !s.complete
            && (s.phase == Recv ==> s.len == r.len && s.off == r.off + CF_MAX_DATA && s.sn == NextSn(r.sn))
  {}

  /** Out of step: the receiver gives up or falls further behind; it can no longer complete. */
  lemma RxCfBehind(cfg: Cfg, r: Rx, sent: seq<Bytes>, last: Pos, pos: Pos, cur: int, done: int, seen: int,
                   f: Bytes, now: u32, ok: bool)
    requires ReceiverInv(r, sent, last, cur, done, seen) && r.phase == Recv && !r.complete
    requires Follows(last, pos) && Multi(sent, pos.idx) && 0 < pos.p <= NumCf(|sent[pos.idx]|)
    requires |sent[pos.idx]| <= MAX_MSG && CfIndex(r.off) != last.p
    requires 1 <= |f| <= CAN_DL
    ensures var s := HandleCf(cfg, r, f, now, ok).rx;
            !s.complete && ReceiverInv(s, sent, pos, cur, done, seen)
  {
    var j := CfIndex(r.off);
    assert j + 1 <= last.p && last.p + 1 == pos.p && pos.idx == cur;
    CfIndexing(r.len, j);
    CfIndexing(r.len, j + 1);
    assert CfOffset(j + 1) < r.len;
    CfElsewhere(cfg, r, f, now, ok);
    SnStep(j);
    hide HandleCf, CfIndex, CfOffset, NumCf, SnOf, NextSn;
    var s := HandleCf(cfg, r, f, now, ok).rx;
    if s.phase == Recv {
      assert Reassembling(s, sent, pos, cur);
    }
  }

  lemma SfRoundTrip(cfg: Cfg, m: Bytes)
    requires 1 <= |m| <= SF_MAX_DATA
    ensures var f := SfFrame(cfg, m);
            1 + |m| <= |f| <= CAN_DL && PciLow(f[0]) == |m| && f[1..1 + |m|] == m && PciType(f[0]) == PCI_SF
  {
    var g := [|m| as byte] + m;
    var f := SfFrame(cfg, m);
    assert f[..|g|] == g;
    assert f[0] == f[..|g|][0] && f[1..1 + |m|] == f[..|g|][1..];
  }

  lemma FfRoundTrip(cfg: Cfg, m: Bytes)
    requires SF_MAX_DATA < |m| <= MAX_MSG
    ensures var f := FfFrame(cfg, m);
            && |f| == CAN_DL && PciType(f[0]) == PCI_FF
            && FfLength(f) == |m| && f[2..] == m[..FF_FIRST_DATA]
  {
    var f := [(16 * PCI_FF + |m| / 256) as byte, (|m| % 256) as byte] + m[..FF_FIRST_DATA];
    assert FfFrame(cfg, m) == f;
  }

  /** A consecutive frame carries its sequence number and its chunk. */
  lemma CfRoundTrip(cfg: Cfg, sn: nat, c: Bytes)
    requires |c| <= CF_MAX_DATA && sn < 16
    ensures var f := CfFrame(cfg, sn, c);
            && 1 + |c| <= |f| <= CAN_DL && PciType(f[0]) == PCI_CF
            && PciLow(f[0]) == sn && f[1..1 + |c|] == c
  {
    var g := [(16 * PCI_CF + sn % 16) as byte] + c;
    var f := CfFrame(cfg, sn, c);
    assert f[..|g|] == g;
    assert f[0] == f[..|g|][0] && f[1..1 + |c|] == f[..|g|][1..];
  }

  /** Local steps of `b`: its reassembly is untouched, dropped, or replaced by a broadcast. */
  lemma StepBFrameKeeps(n: Net, id: u32, bytes: Bytes, now: u32, ok: bool)
    requires NetInv(n) && Enabled(n, AtB(Frame(id, bytes, now, ok)), false)
    ensures NetInv(StepB(n, Frame(id, bytes, now, ok)))
  {
    var r := OnFrame(n.b, id, bytes, now, ok).link.rx;
    assert r == n.b.rx || (r.functional && r.complete && r.phase == Idle);
  }

  lemma StepBPollKeeps(n: Net, now: u32, ok: bool)
    requires NetInv(n)
    ensures NetInv(StepB(n, Event.Poll(now, ok)))
  {
    var b := IsoTp.Poll(n.b, now, ok).link;
    assert b.rx == n.b.rx || b.rx == PollRx(n.b.cfg, n.b.rx, now);
    assert StepB(n, Event.Poll(now, ok)) == n.(b := b);
  }

  lemma StepBCollectKeeps(n: Net, cap: nat)
    requires NetInv(n)
    ensures NetInv(StepB(n, Collect(cap)))
  {
    hide ChanInv, SenderInv;
    var r := Receive(n.b.rx, cap);
    if r.ret == Ok && !r.functional {
      var d := n.delivered + [Delivery(n.done, r.msg)];
      assert Seen(d) == n.done && r.msg == n.sent[n.done];
      assert StepB(n, Collect(cap)) == n.(b := n.b.(rx := r.rx), delivered := d);
    } else {
      assert StepB(n, Collect(cap)) == n.(b := n.b.(rx := r.rx));
    }
  }

  lemma StepBKeeps(n: Net, e: Event)
    requires NetInv(n) && Enabled(n, AtB(e), false)
    ensures NetInv(StepB(n, e))
  {
    match e
    case Send(data, now, ok) =>
      assert StepB(n, e) == n.(b := n.b.(tx := SendTx(n.b.cfg, n.b.tx, data, now, ok).tx));
    case Poll(now, ok) => StepBPollKeeps(n, now, ok);
    case Frame(id, bytes, now, ok) => StepBFrameKeeps(n, id, bytes, now, ok);
    case Collect(cap) => StepBCollectKeeps(n, cap);
  }

  lemma DeliverSfKeeps(n: Net, now: u32, ok: bool)
    requires NetInv(n) && Enabled(n, Deliver(now, ok), false)
    requires ParcelOk(n.a.cfg, n.sent, n.chan[0]) && Follows(n.last, n.chan[0].pos)
    requires !Multi(n.sent, n.chan[0].pos.idx)
    ensures var k := StepDeliver(n, now, ok);
            ReceiverInv(k.b.rx, k.sent, k.last, k.cur, k.done, Seen(k.delivered))
  {
    var x := n.chan[0];
    SfRoundTrip(n.a.cfg, n.sent[x.pos.idx]);
    assert StepDeliver(n, now, ok).b.rx == HandleSf(n.b.rx, x.bytes, false);
    RxSf(n.b.rx, n.sent, n.last, x.pos, n.cur, n.done, Seen(n.delivered), x.bytes);
  }

  lemma DeliverFfKeeps(n: Net, now: u32, ok: bool)
    requires NetInv(n) && Enabled(n, Deliver(now, ok), false)
    requires ParcelOk(n.a.cfg, n.sent, n.chan[0]) && Follows(n.last, n.chan[0].pos)
    requires Multi(n.sent, n.chan[0].pos.idx) && n.chan[0].pos.p == 0
    ensures var k := StepDeliver(n, now, ok);
            ReceiverInv(k.b.rx, k.sent, k.last, k.cur, k.done, Seen(k.delivered))
  {
    var x := n.chan[0];
    FfRoundTrip(n.a.cfg, n.sent[x.pos.idx]);
    assert StepDeliver(n, now, ok).b.rx == HandleFf(n.b.cfg, n.b.rx, x.bytes, now, ok).rx;
    RxFf(n.b.cfg, n.b.rx, n.sent, n.last, x.pos, n.cur, n.done, Seen(n.delivered), x.bytes, now, ok);
  }

  lemma DeliverCfKeeps(n: Net, now: u32, ok: bool)
    requires NetInv(n) && Enabled(n, Deliver(now, ok), false)
    requires ParcelOk(n.a.cfg, n.sent, n.chan[0]) && Follows(n.last, n.chan[0].pos)
    requires Multi(n.sent, n.chan[0].pos.idx) && n.chan[0].pos.p > 0
    ensures var k := StepDeliver(n, now, ok);
            ReceiverInv(k.b.rx, k.sent, k.last, k.cur, k.done, Seen(k.delivered))
  {
    var x, r, seen := n.chan[0], n.b.rx, Seen(n.delivered);
    CfRoundTrip(n.a.cfg, SnOf(x.pos.p - 1), Chunk(n.sent[x.pos.idx], x.pos.p - 1));
    assert StepDeliver(n, now, ok).b.rx == HandleCf(n.b.cfg, r, x.bytes, now, ok).rx;
    hide HandleCf, ChanInv, CfFrame, Chunk, ReceiverInv;
    CfReceived(n.b.cfg, r, n.sent, n.last, x.pos, n.cur, n.done, seen, x.bytes, now, ok);
  }

  /** The next consecutive frame of a sent message, in step or not. */
  lemma CfReceived(cfg: Cfg, r: Rx, sent: seq<Bytes>, last: Pos, pos: Pos, cur: int, done: int, seen: int,
                   f: Bytes, now: u32, ok: bool)
    requires ReceiverInv(r, sent, last, cur, done, seen) && !r.complete
    requires Follows(last, pos) && Multi(sent, pos.idx) && 0 < pos.p <= NumCf(|sent[pos.idx]|)
    requires |sent[pos.idx]| <= MAX_MSG
    requires var c := Chunk(sent[pos.idx], pos.p - 1);
             1 + |c| <= |f| <= CAN_DL && PciLow(f[0]) == SnOf(pos.p - 1) && f[1..1 + |c|] == c
    ensures var s := HandleCf(cfg, r, f, now, ok).rx;
            ReceiverInv(s, sent, pos, cur, if s.complete then pos.idx else done, seen)
  {
    if r.phase != Recv {
      assert HandleCf(cfg, r, f, now, ok).rx == r;
      hide HandleCf, Chunk;
      RxLose(r, sent, last, pos, cur, done, seen);
    } else {
      hide HandleCf, Chunk, Reassembling;
      if CfIndex(r.off) == last.p {
        RxCfInStep(cfg, r, sent, last, pos, cur, done, seen, f, now, ok);
      } else {
        RxCfBehind(cfg, r, sent, last, pos, cur, done, seen, f, now, ok);
      }
    }
  }

  lemma DeliverKeeps(n: Net, now: u32, ok: bool)
    requires NetInv(n) && Enabled(n, Deliver(now, ok), false)
    ensures NetInv(StepDeliver(n, now, ok))
  {
    ChanPop(n.a.cfg, n.sent, n.last, n.chan);
    if !Multi(n.sent, n.chan[0].pos.idx) {
      DeliverSfKeeps(n, now, ok);
    } else if n.chan[0].pos.p == 0 {
      DeliverFfKeeps(n, now, ok);
    } else {
      DeliverCfKeeps(n, now, ok);
    }
  }

  lemma LoseKeeps(n: Net)
    requires NetInv(n) && Enabled(n, Lose, false)
    ensures NetInv(NetStep(n, Lose))
  {
    var x := n.chan[0];
    ChanPop(n.a.cfg, n.sent, n.last, n.chan);
    RxLose(n.b.rx, n.sent, n.last, x.pos, n.cur, n.done, Seen(n.delivered));
  }

  lemma NetStepKeeps(n: Net, ev: NetEvent)
    requires NetInv(n) && Enabled(n, ev, false)
    ensures NetInv(NetStep(n, ev))
  {
    match ev
    case AtA(e) => StepAKeeps(n, e);
    case AtB(e) => StepBKeeps(n, e);
    case Lose => LoseKeeps(n);
    case Deliver(now, ok) => DeliverKeeps(n, now, ok);
  }

  // ---- runs -----------------------------------------------------------------

  /** Two idle links and an empty channel. */
  predicate NetStart(n: Net) {
    && LinkInv(n.a) && LinkInv(n.b)
    && n.a.tx.phase == Idle && n.b.rx.phase == Idle && !n.b.rx.complete
    && n.chan == [] && n.sent == [] && n.delivered == []
    && n.last == Pos(-1, 0)
  }

  /** `n` leads to `k` through the enabled events `evs`. */
  ghost predicate NetReaches(n: Net, evs: seq<NetEvent>, k: Net, ffLoss: bool)
    decreases |evs|
  {
    if evs == [] then n == k
    else
      && LinkInv(n.a) && LinkInv(n.b)
      && Enabled(n, evs[0], ffLoss)
      && NetReaches(NetStep(n, evs[0]), evs[1..], k, ffLoss)
  }

  lemma {:induction false} NetReachable(n: Net, evs: seq<NetEvent>, k: Net)
    requires NetInv(n) && NetReaches(n, evs, k, false)
    ensures NetInv(k)
    decreases |evs|
  {
    if evs != [] {
      NetStepKeeps(n, evs[0]);
      NetReachable(NetStep(n, evs[0]), evs[1..], k);
    }
  }

  /** Whatever `b` hands up was sent by `a`, whole and unmixed, in order, at most once. */
  lemma OnlyWholeSentMessagesAreDelivered(n: Net, evs: seq<NetEvent>, k: Net)
    requires NetStart(n) && NetReaches(n, evs, k, false)
    ensures forall i | 0 <= i < |k.delivered| ::
              0 <= k.delivered[i].idx < |k.sent| && k.delivered[i].msg == k.sent[k.delivered[i].idx]
    ensures forall i, j | 0 <= i < j < |k.delivered| :: k.delivered[i].idx < k.delivered[j].idx
  {
    NetReachable(n, evs, k);
  }
}
