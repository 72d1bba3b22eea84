/**
 What a link puts on the bus. `FrameAt` is an independent reference for the
 segmentation of one message; `StreamIsSegmentation` shows that over any run the
 data frames of a link are segmentations of the messages it accepted, in order,
 each complete or cut short, and never two interleaved.
 */
module IsoTpStream {
  import opened Words
  import opened IsoTp

  // ---- reference segmentation -----------------------------------------------

  predicate Sendable(m: Bytes) {
    1 <= |m| <= MAX_MSG
  }

  /** Number of frames that carry `m`. */
  function FrameCount(m: Bytes): (n: nat)
    requires Sendable(m)
    ensures n >= 1
  {
    if |m| <= SF_MAX_DATA then 1 else 1 + NumCf(|m|)
  }

  function CfOffset(i: nat): nat {
    FF_FIRST_DATA + CF_MAX_DATA * i
  }

  /** Payload of the `i`-th consecutive frame of `m`. */
  function Chunk(m: Bytes, i: nat): (c: Bytes)
    requires SF_MAX_DATA < |m| <= MAX_MSG && i < NumCf(|m|)
    ensures 1 <= |c| <= CF_MAX_DATA
    ensures i + 1 < NumCf(|m|) ==> |c| == CF_MAX_DATA
    ensures i + 1 == NumCf(|m|) ==> CfOffset(i) + |c| == |m|
  {
    m[CfOffset(i)..Min(CfOffset(i + 1), |m|)]
  }

  /** The `p`-th frame of the segmentation of `m`. */
  function FrameAt(cfg: Cfg, m: Bytes, p: nat): (f: Bytes)
    requires Sendable(m) && p < FrameCount(m)
    ensures 1 <= |f| <= CAN_DL
    ensures PciType(f[0]) == if p > 0 then PCI_CF else if |m| <= SF_MAX_DATA then PCI_SF else PCI_FF
  {
    if |m| <= SF_MAX_DATA then SfFrame(cfg, m)
    else if p == 0 then FfFrame(cfg, m)
    else CfFrame(cfg, SnOf(p - 1), Chunk(m, p - 1))
  }

  /** The first `n` frames of the segmentation of `m`. */
  function Prefix(cfg: Cfg, m: Bytes, n: nat): (fs: seq<Bytes>)
    requires Sendable(m) && n <= FrameCount(m)
    ensures |fs| == n
    ensures forall p | 0 <= p < n :: fs[p] == FrameAt(cfg, m, p)
  {
    seq(n, p requires 0 <= p < n => FrameAt(cfg, m, p))
  }

  lemma PrefixExtends(cfg: Cfg, m: Bytes, n: nat)
    requires Sendable(m) && n < FrameCount(m)
    ensures Prefix(cfg, m, n + 1) == Prefix(cfg, m, n) + [FrameAt(cfg, m, n)]
  {}

  /** How many bytes of a frame of `m` say something. */
  function UsedBytes(m: Bytes, p: nat): nat
    requires Sendable(m) && p < FrameCount(m)
  {
    if |m| <= SF_MAX_DATA then 1 + |m| else if p == 0 then CAN_DL else 1 + |Chunk(m, p - 1)|
  }

  /** Every frame is filled up to eight bytes with the pad byte, or ends with its payload when that is 0xFF. */
  lemma FramesArePadded(cfg: Cfg, m: Bytes, p: nat)
    requires Sendable(m) && p < FrameCount(m)
    ensures var f, n := FrameAt(cfg, m, p), UsedBytes(m, p);
            && |f| == (if cfg.pad == 0xFF then n else CAN_DL)
            && forall k :: n <= k < |f| ==> f[k] == cfg.pad
  {
    hide Chunk;
  }

  // ---- runs -----------------------------------------------------------------

  datatype Event =
    | Send(data: Bytes, now: u32, ok: bool)
    | Frame(id: u32, bytes: Bytes, now: u32, ok: bool)
    | Poll(now: u32, ok: bool)
    | Collect(cap: nat)

  function Step(l: Link, e: Event): (o: LinkOut)
    requires LinkInv(l)
    ensures LinkInv(o.link)
    ensures o.link.cfg == l.cfg && o.link.rxId == l.rxId && o.link.funcId == l.funcId && o.link.txId == l.txId
  {
    match e
    case Send(data, now, ok) =>
      var s := SendTx(l.cfg, l.tx, data, now, ok);
      LinkOut(l.(tx := s.tx), s.sent)
    case Frame(id, bytes, now, ok) => OnFrame(l, id, bytes, now, ok)
    case Poll(now, ok) => IsoTp.Poll(l, now, ok)
    case Collect(cap) => LinkOut(l.(rx := Receive(l.rx, cap).rx), [])
  }

  /** The link after a run and everything it put on the bus. */
  function Run(l: Link, es: seq<Event>): (o: LinkOut)
    requires LinkInv(l)
    ensures LinkInv(o.link) && o.link.cfg == l.cfg
  {
    if es == [] then LinkOut(l, [])
    else
      var r := Run(l, es[..|es| - 1]);
      var o := Step(r.link, es[|es| - 1]);
      LinkOut(o.link, r.sent + o.sent)
  }

  /** The message a step hands to the link and the link accepts, if any. */
  function AcceptedBy(l: Link, e: Event): seq<Bytes>
    requires LinkInv(l)
  {
    if e.Send? && SendTx(l.cfg, l.tx, e.data, e.now, e.ok).ret in {Ok, InProgress} then [e.data] else []
  }

  function Accepted(l: Link, es: seq<Event>): seq<Bytes>
    requires LinkInv(l)
  {
    if es == [] then []
    else Accepted(l, es[..|es| - 1]) + AcceptedBy(Run(l, es[..|es| - 1]).link, es[|es| - 1])
  }

  /** The bus output with the flow-control frames left out. */
  function DataFrames(fs: seq<Bytes>): seq<Bytes> {
    if fs == [] then []
    else
      var rest := DataFrames(fs[..|fs| - 1]);
      var f := fs[|fs| - 1];
      if f != [] && PciType(f[0]) == PCI_FC then rest else rest + [f]
  }

  /** A message and the number of its frames that were emitted. */
  datatype Unit = Unit(msg: Bytes, n: nat)

  predicate UnitOk(u: Unit) {
    Sendable(u.msg) && 1 <= u.n <= FrameCount(u.msg)
  }

  predicate UnitsOk(us: seq<Unit>) {
    forall i | 0 <= i < |us| :: UnitOk(us[i])
  }

  function Flatten(cfg: Cfg, us: seq<Unit>): seq<Bytes>
    requires UnitsOk(us)
  {
    if us == [] then []
    else
      var u := us[|us| - 1];
      Flatten(cfg, us[..|us| - 1]) + Prefix(cfg, u.msg, u.n)
  }

  function Messages(us: seq<Unit>): seq<Bytes> {
    seq(|us|, i requires 0 <= i < |us| => us[i].msg)
  }

  /** `us` explains the data output `data` of a link whose send half is `t`. */
  predicate Explains(cfg: Cfg, t: Tx, data: seq<Bytes>, us: seq<Unit>)
  {
    && UnitsOk(us)
    && data == Flatten(cfg, us)
    && (TxInv(t) && t.phase != Idle ==>
          us != [] && us[|us| - 1] == Unit(t.msg, 1 + CfIndex(t.off)))
  }

  predicate Nonempty(fs: seq<Bytes>) {
    forall i | 0 <= i < |fs| :: fs[i] != []
  }

  lemma DataFramesStep(fs: seq<Bytes>, sent: seq<Bytes>)
    requires |sent| <= 1 && Nonempty(sent)
    ensures DataFrames(fs + sent) ==
            if sent != [] && PciType(sent[0][0]) != PCI_FC then DataFrames(fs) + sent else DataFrames(fs)
  {
    if sent == [] {
      assert fs + sent == fs;
    } else {
      assert (fs + sent)[..|fs|] == fs;
      assert sent == [sent[0]];
    }
  }

  lemma FlattenSnoc(cfg: Cfg, us: seq<Unit>, u: Unit)
    requires UnitsOk(us) && UnitOk(u)
    ensures Flatten(cfg, us + [u]) == Flatten(cfg, us) + Prefix(cfg, u.msg, u.n)
  {
    assert (us + [u])[..|us|] == us;
  }

  /** The message being sent and how far it has got. */
  predicate SameProgress(t: Tx, u: Tx) {
    u.phase != Idle ==> t.phase != Idle && u.msg == t.msg && u.off == t.off
  }

  lemma SendEmits(cfg: Cfg, t: Tx, data: Bytes, now: u32, ok: bool)
    requires TxInv(t)
    ensures var o := SendTx(cfg, t, data, now, ok);
            if o.ret in {Ok, InProgress} then
              && t.phase == Idle && Sendable(data) && o.sent == Prefix(cfg, data, 1)
              && (o.tx.phase != Idle ==> o.tx.msg == data && o.tx.off == FF_FIRST_DATA)
            else o.sent == [] && SameProgress(t, o.tx)
  {}

  /**
   From the inputs alone: a send is accepted exactly when no send is active, the message has 1 to
   4095 bytes and its first frame reaches the bus. A busy half refuses and stays as it is.
   */
  lemma SendAcceptedIff(cfg: Cfg, t: Tx, data: Bytes, now: u32, ok: bool)
    requires TxInv(t)
    ensures var o := SendTx(cfg, t, data, now, ok);
            && (o.ret in {Ok, InProgress} <==> t.phase == Idle && Sendable(data) && ok)
            && (t.phase != Idle ==> SendOut(t, [], NoSpace) == o)
            && (t.phase == Idle && !Sendable(data) ==> SendOut(t, [], BadLength) == o)
            && (t.phase == Idle && Sendable(data) && !ok ==> o.tx.phase == Idle && o.sent == [] && o.ret == Error)
            && (t.phase == Idle && Sendable(data) && ok ==>
                  && o.sent == Prefix(cfg, data, 1)
                  && if FrameCount(data) == 1 then o.tx.phase == Idle && o.ret == Ok
                     else o.tx.phase == WaitFc && o.ret == InProgress && o.tx.msg == data && o.tx.timer == now
                          && o.tx.off == FF_FIRST_DATA && o.tx.wft == 0)
  {
    if t.phase == Idle && Sendable(data) && ok {
      SendEmits(cfg, t, data, now, ok);
    }
  }

  lemma FrameEmits(l: Link, id: u32, data: Bytes, now: u32, ok: bool)
    requires LinkInv(l)
    ensures var o := OnFrame(l, id, data, now, ok);
            && |o.sent| <= 1 && Nonempty(o.sent)
            && (o.sent != [] ==> PciType(o.sent[0][0]) == PCI_FC)
            && SameProgress(l.tx, o.link.tx)
  {}

  lemma PollEmits(cfg: Cfg, t: Tx, now: u32, ok: bool)
    requires TxInv(t)
    ensures var o := PollTx(cfg, t, now, ok);
            if o.sent == [] then SameProgress(t, o.tx)
            else
              && t.phase == Sending && Sendable(t.msg) && 1 + CfIndex(t.off) < FrameCount(t.msg)
              && o.sent == [FrameAt(cfg, t.msg, 1 + CfIndex(t.off))]
              && (o.tx.phase != Idle ==> o.tx.msg == t.msg && CfIndex(o.tx.off) == CfIndex(t.off) + 1)
  {
    if CfDue(t, now) {
      assert NextChunk(t) == Chunk(t.msg, CfIndex(t.off));
    }
  }

  lemma ExplainSame(cfg: Cfg, t: Tx, u: Tx, data: seq<Bytes>, us: seq<Unit>)
    requires TxInv(t) && Explains(cfg, t, data, us) && SameProgress(t, u)
    ensures Explains(cfg, u, data, us)
  {}

  lemma ExplainNew(cfg: Cfg, t: Tx, u: Tx, data: seq<Bytes>, us: seq<Unit>, m: Bytes) returns (vs: seq<Unit>)
    requires Explains(cfg, t, data, us) && Sendable(m)
    requires u.phase != Idle ==> u.msg == m && u.off == FF_FIRST_DATA
    ensures Explains(cfg, u, data + Prefix(cfg, m, 1), vs) && Messages(vs) == Messages(us) + [m]
  {
    vs := us + [Unit(m, 1)];
    FlattenSnoc(cfg, us, Unit(m, 1));
  }

  lemma ExplainNext(cfg: Cfg, t: Tx, u: Tx, data: seq<Bytes>, us: seq<Unit>) returns (vs: seq<Unit>)
    requires TxInv(t) && t.phase != Idle && Explains(cfg, t, data, us)
    requires 1 + CfIndex(t.off) < FrameCount(t.msg)
    requires TxInv(u) && u.phase != Idle ==> u.msg == t.msg && CfIndex(u.off) == CfIndex(t.off) + 1
    ensures Explains(cfg, u, data + [FrameAt(cfg, t.msg, 1 + CfIndex(t.off))], vs)
    ensures Messages(vs) == Messages(us)
  {
    var init, n := us[..|us| - 1], 1 + CfIndex(t.off);
    vs := init + [Unit(t.msg, n + 1)];
    PrefixExtends(cfg, t.msg, n);
    FlattenSnoc(cfg, init, Unit(t.msg, n + 1));
    assert Flatten(cfg, us) == Flatten(cfg, init) + Prefix(cfg, t.msg, n);
    assert Messages(vs) == Messages(us);
  }

  lemma ExplainSend(cfg: Cfg, t: Tx, data: Bytes, now: u32, ok: bool, out: seq<Bytes>, us: seq<Unit>)
    returns (vs: seq<Unit>)
    requires TxInv(t) && Explains(cfg, t, DataFrames(out), us)
    ensures var o := SendTx(cfg, t, data, now, ok);
            && Explains(cfg, o.tx, DataFrames(out + o.sent), vs)
            && Messages(vs) == Messages(us) + if o.ret in {Ok, InProgress} then [data] else []
  {
    var o := SendTx(cfg, t, data, now, ok);
    SendEmits(cfg, t, data, now, ok);
    DataFramesStep(out, o.sent);
    if o.ret in {Ok, InProgress} {
      vs := ExplainNew(cfg, t, o.tx, DataFrames(out), us, data);
    } else {
      vs := us;
      ExplainSame(cfg, t, o.tx, DataFrames(out), us);
    }
  }

  lemma ExplainPoll(cfg: Cfg, t: Tx, now: u32, ok: bool, out: seq<Bytes>, us: seq<Unit>) returns (vs: seq<Unit>)
    requires TxInv(t) && Explains(cfg, t, DataFrames(out), us)
    ensures var o := PollTx(cfg, t, now, ok);
            Explains(cfg, o.tx, DataFrames(out + o.sent), vs) && Messages(vs) == Messages(us)
  {
    var o := PollTx(cfg, t, now, ok);
    PollEmits(cfg, t, now, ok);
    DataFramesStep(out, o.sent);
    if o.sent != [] {
      vs := ExplainNext(cfg, t, o.tx, DataFrames(out), us);
    } else {
      vs := us;
      ExplainSame(cfg, t, o.tx, DataFrames(out), us);
    }
  }

  lemma ExplainStep(l: Link, e: Event, out: seq<Bytes>, us: seq<Unit>) returns (vs: seq<Unit>)
    requires LinkInv(l)
    requires Explains(l.cfg, l.tx, DataFrames(out), us)
    ensures Explains(l.cfg, Step(l, e).link.tx, DataFrames(out + Step(l, e).sent), vs)
    ensures Messages(vs) == Messages(us) + AcceptedBy(l, e)
  {
    hide Explains, Messages, DataFrames;
    match e
    case Send(data, now, ok) =>
      vs := ExplainSend(l.cfg, l.tx, data, now, ok, out, us);
    case Poll(now, ok) =>
      vs := ExplainPoll(l.cfg, l.tx, now, ok, out, us);
    case Frame(id, bytes, now, ok) =>
      vs := us;
      FrameEmits(l, id, bytes, now, ok);
      DataFramesStep(out, Step(l, e).sent);
      ExplainSame(l.cfg, l.tx, Step(l, e).link.tx, DataFrames(out), us);
    case Collect(cap) =>
      vs := us;
      DataFramesStep(out, []);
  }

  lemma {:induction false} ExplainRun(l: Link, es: seq<Event>) returns (us: seq<Unit>)
    requires LinkInv(l) && l.tx.phase == Idle
    ensures Explains(l.cfg, Run(l, es).link.tx, DataFrames(Run(l, es).sent), us)
    ensures Messages(us) == Accepted(l, es)
  {
    if es == [] {
      us := [];
    } else {
      var init := es[..|es| - 1];
      var vs := ExplainRun(l, init);
      us := ExplainStep(Run(l, init).link, es[|es| - 1], Run(l, init).sent, vs);
    }
  }

  /**
   Over any run of a link that starts with no send active, the data frames on the
   bus are segmentations of exactly the accepted messages, in order: each is
   complete or a non-empty prefix, and no two are interleaved.
   */
  lemma StreamIsSegmentation(l: Link, es: seq<Event>)
    requires LinkInv(l) && l.tx.phase == Idle
    ensures exists us: seq<Unit> ::
              && UnitsOk(us)
              && Messages(us) == Accepted(l, es)
              && DataFrames(Run(l, es).sent) == Flatten(l.cfg, us)
  {
    var us := ExplainRun(l, es);
  }
}
