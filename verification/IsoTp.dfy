/**
 The ISO-TP link of main/isotp.c as a step function on values.

 A link is two halves that share a configuration: the send half `Tx` and the
 receive half `Rx`. Every entry point makes at most one call of the transmit
 hook; its answer is the `ok` argument, and `sent` lists the frame that reached
 the bus, if any. The clock hook is the `now` argument.
 */
module IsoTp {
  import opened Words

  const CAN_DL: nat := 8
  const MAX_MSG: nat := 4095
  const SF_MAX_DATA: nat := 7
  const FF_FIRST_DATA: nat := 6
  const CF_MAX_DATA: nat := 7
  const NO_FUNC_ID: u32 := 0xFFFF_FFFF

  const PCI_SF: int := 0
  const PCI_FF: int := 1
  const PCI_CF: int := 2
  const PCI_FC: int := 3

  const FS_CTS: int := 0
  const FS_WAIT: int := 1

  datatype Phase = Idle | Sending | WaitFc | Recv

  datatype Ret = Ok | Error | InProgress | WrongSn | NoData | Timeout | BadLength | NoSpace

  datatype Cfg = Cfg(nBs: u32, nCr: u32, bs: byte, stmin: byte, wftMax: byte, pad: byte)

  /** Send half. `msg` is the first `tx_len` bytes of the transmit buffer. */
  datatype Tx = Tx(phase: Phase, msg: Bytes, off: nat, sn: nat, bsLeft: byte, stmin: byte,
                   wft: byte, timer: u32, stTimer: u32)

  /** Receive half. `buf` is the whole 4095-byte reassembly buffer. */
  datatype Rx = Rx(phase: Phase, buf: Bytes, len: nat, off: nat, sn: nat, blockCf: byte,
                   timer: u32, result: Ret, complete: bool, functional: bool)

  datatype Link = Link(txId: u32, rxId: u32, funcId: u32, cfg: Cfg, tx: Tx, rx: Rx)

  datatype TxOut = TxOut(tx: Tx, sent: seq<Bytes>)
  datatype RxOut = RxOut(rx: Rx, sent: seq<Bytes>)
  datatype LinkOut = LinkOut(link: Link, sent: seq<Bytes>)
  datatype SendOut = SendOut(tx: Tx, sent: seq<Bytes>, ret: Ret)
  datatype ReceiveOut = ReceiveOut(rx: Rx, ret: Ret, msg: Bytes, functional: bool)

  // ---- what every operation keeps -------------------------------------------

  /** Number of consecutive frames that carry an `n`-byte message. */
  function NumCf(n: nat): nat
    requires n >= FF_FIRST_DATA
  {
    (n - FF_FIRST_DATA + CF_MAX_DATA - 1) / CF_MAX_DATA
  }

  /** How many consecutive frames lie before offset `off` of a message. */
  function CfIndex(off: nat): nat
    requires off >= FF_FIRST_DATA
  {
    (off - FF_FIRST_DATA) / CF_MAX_DATA
  }

  /** Sequence number of the `i`-th consecutive frame of a message. */
  function SnOf(i: nat): nat { (1 + i) % 16 }

  function NextSn(sn: nat): nat { (sn + 1) % 16 }

  lemma SnStep(i: nat)
    ensures NextSn(SnOf(i)) == SnOf(i + 1)
  {}

  predicate TxInv(t: Tx) {
    match t.phase
    case Idle => t.msg == [] && t.off == 0
    case Recv => false
    case _ =>
      && SF_MAX_DATA < |t.msg| <= MAX_MSG
      && FF_FIRST_DATA <= t.off < |t.msg|
      && t.off == FF_FIRST_DATA + CF_MAX_DATA * CfIndex(t.off)
      && t.sn == SnOf(CfIndex(t.off))
  }

  predicate RxInv(r: Rx) {
    && |r.buf| == MAX_MSG
    && r.len <= MAX_MSG
    && r.sn < 16
    && (r.phase == Idle || r.phase == Recv)
    && (r.phase == Recv ==> FF_FIRST_DATA <= r.off < r.len && SF_MAX_DATA < r.len && !r.functional)
  }

  predicate LinkInv(l: Link) {
    TxInv(l.tx) && RxInv(l.rx)
  }

  // ---- frames ---------------------------------------------------------------

  function PciType(b0: byte): int { b0 / 16 }

  function PciLow(b0: byte): int { b0 % 16 }

  /** Grow a frame to 8 bytes unless the pad byte is 0xFF. */
  function Pad(cfg: Cfg, f: Bytes): (r: Bytes)
    requires |f| <= CAN_DL
    ensures |f| <= |r| <= CAN_DL && r[..|f|] == f
    ensures |r| == if cfg.pad == 0xFF then |f| else CAN_DL
  {
    if cfg.pad == 0xFF then f else f + seq(CAN_DL - |f|, _ => cfg.pad)
  }

  function SfFrame(cfg: Cfg, m: Bytes): Bytes
    requires 1 <= |m| <= SF_MAX_DATA
  {
    Pad(cfg, [|m| as byte] + m)
  }

  function FfFrame(cfg: Cfg, m: Bytes): Bytes
    requires SF_MAX_DATA < |m| <= MAX_MSG
  {
    Pad(cfg, [(16 * PCI_FF + |m| / 256) as byte, (|m| % 256) as byte] + m[..FF_FIRST_DATA])
  }

  function CfFrame(cfg: Cfg, sn: nat, chunk: Bytes): Bytes
    requires |chunk| <= CF_MAX_DATA
  {
    Pad(cfg, [(16 * PCI_CF + sn % 16) as byte] + chunk)
  }

  function FcFrame(cfg: Cfg, fs: int): Bytes
    requires 0 <= fs < 16
  {
    Pad(cfg, [(16 * PCI_FC + fs) as byte, cfg.bs, cfg.stmin])
  }

  // ---- small utilities ------------------------------------------------------

  /** What an STmin byte means in microseconds (ISO 15765-2): a reserved value means the longest time. */
  function StminUs(raw: byte): nat {
    if raw <= 127 then raw * 1000 else if 0xF1 <= raw <= 0xF9 then (raw - 0xF0) * 100 else 127_000
  }

  /** The least number of whole milliseconds that is not shorter. */
  function StminToMs(raw: byte): (ms: u32)
    ensures StminUs(raw) <= ms * 1000 < StminUs(raw) + 1000
    ensures ms <= 127
    ensures raw <= 127 ==> ms == raw
    ensures ms == 0 <==> raw == 0
  {
    if raw <= 0x7F then raw
    else if 0xF1 <= raw <= 0xF9 then 1
    else 0x7F
  }

  function TxReset(t: Tx): (r: Tx)
    ensures TxInv(r) && r.phase == Idle
  {
    Tx(Idle, [], 0, 0, 0, 0, 0, t.timer, t.stTimer)
  }

  function RxReset(r: Rx): (s: Rx)
    requires RxInv(r)
    ensures RxInv(s)
  {
    r.(phase := Idle, len := 0, off := 0, sn := 0, blockCf := 0)
  }

  /** `buf` with `data` copied in at `off`. */
  function Blit(buf: Bytes, off: nat, data: Bytes): (r: Bytes)
    requires off + |data| <= |buf|
    ensures |r| == |buf|
    ensures r[..off] == buf[..off] && r[off..off + |data|] == data
    ensures r[..off + |data|] == buf[..off] + data
    ensures r[off + |data|..] == buf[off + |data|..]
  {
    buf[..off] + data + buf[off + |data|..]
  }

  // ---- init -----------------------------------------------------------------

  function DefaultMs(v: u32): u32 { if v == 0 then 1000 else v }

  /** The configuration in force after init: a zero timer or limit takes its default, whatever is given stays. */
  function EffectiveCfg(cfg: Option<Cfg>): (r: Cfg)
    ensures 0 < r.nBs && 0 < r.nCr && 0 < r.wftMax
    ensures cfg.Some? ==> r == cfg.value.(nBs := r.nBs, nCr := r.nCr, wftMax := r.wftMax)
    ensures cfg.Some? ==> r.nBs == cfg.value.nBs || cfg.value.nBs == 0
    ensures cfg.Some? ==> r.nCr == cfg.value.nCr || cfg.value.nCr == 0
    ensures cfg.Some? ==> r.wftMax == cfg.value.wftMax || cfg.value.wftMax == 0
    ensures cfg in {None, Some(Cfg(0, 0, 0, 0, 0, 0xCC))} ==> r == Cfg(1000, 1000, 0, 0, 8, 0xCC)
  {
    var c := if cfg.Some? then cfg.value else Cfg(0, 0, 0, 0, 0, 0xCC);
    c.(nBs := DefaultMs(c.nBs), nCr := DefaultMs(c.nCr),
       wftMax := if c.wftMax == 0 then 8 else c.wftMax)
  }

  function InitTx(): (t: Tx)
    ensures TxInv(t)
  {
    Tx(Idle, [], 0, 0, 0, 0, 0, 0, 0)
  }

  function InitRx(): (r: Rx)
    ensures RxInv(r)
  {
    Rx(Idle, seq(MAX_MSG, _ => 0), 0, 0, 0, 0, 0, Ok, false, false)
  }

  function InitLink(txId: u32, rxId: u32, funcId: u32, cfg: Option<Cfg>): (l: Link)
    ensures LinkInv(l)
  {
    Link(txId, rxId, funcId, EffectiveCfg(cfg), InitTx(), InitRx())
  }

  // ---- send -----------------------------------------------------------------

  function SendTx(cfg: Cfg, t: Tx, data: Bytes, now: u32, ok: bool): (r: SendOut)
    requires TxInv(t)
    ensures TxInv(r.tx)
    ensures t.phase != Idle ==> r.tx == t && r.sent == [] && r.ret == NoSpace
  {
    if t.phase != Idle then SendOut(t, [], NoSpace)
    else if |data| == 0 || |data| > MAX_MSG then SendOut(t, [], BadLength)
    else if |data| <= SF_MAX_DATA then
      if ok then SendOut(TxReset(t), [SfFrame(cfg, data)], Ok)
      else SendOut(TxReset(t), [], Error)
    else if !ok then SendOut(TxReset(t), [], Error)
    else
      SendOut(t.(phase := WaitFc, msg := data, off := FF_FIRST_DATA, sn := 1, wft := 0, timer := now),
              [FfFrame(cfg, data)], InProgress)
  }

  // ---- receive side of on_can_frame -----------------------------------------

  function HandleSf(r: Rx, data: Bytes, functional: bool): (s: Rx)
    requires RxInv(r) && 1 <= |data| <= CAN_DL
    ensures RxInv(s)
  {
    var len := PciLow(data[0]);
    if len == 0 || len > SF_MAX_DATA then r
    else if len > |data| - 1 then r
    else if functional && (r.phase == Recv || r.complete) then r
    else r.(buf := Blit(r.buf, 0, data[1..1 + len]), len := len, off := len, phase := Idle,
            result := Ok, functional := functional, complete := true)
  }

  function FfLength(data: Bytes): nat
    requires |data| == CAN_DL
  {
    PciLow(data[0]) * 256 + data[1]
  }

  /** The 12-bit length field cannot exceed the buffer: the overflow answer is dead code. */
  lemma FirstFrameNeverOverflows(data: Bytes)
    requires |data| == CAN_DL
    ensures FfLength(data) <= MAX_MSG
  {}

  function HandleFf(cfg: Cfg, r: Rx, data: Bytes, now: u32, ok: bool): (o: RxOut)
    requires RxInv(r) && 1 <= |data| <= CAN_DL
    ensures RxInv(o.rx)
  {
    if |data| != CAN_DL then RxOut(r, [])
    else
      var len := FfLength(data);
      if len <= SF_MAX_DATA then RxOut(r, [])
      else
        // The overflow answer of the source is dead: see FirstFrameNeverOverflows.
        RxOut(r.(buf := Blit(r.buf, 0, data[2..]), len := len, off := FF_FIRST_DATA, sn := 1,
                 blockCf := 0, phase := Recv, result := Ok, functional := false, timer := now),
              if ok then [FcFrame(cfg, FS_CTS)] else [])
  }

  function HandleCf(cfg: Cfg, r: Rx, data: Bytes, now: u32, ok: bool): (o: RxOut)
    requires RxInv(r) && 1 <= |data| <= CAN_DL
    ensures RxInv(o.rx)
  {
    if r.phase != Recv then RxOut(r, [])
    else if PciLow(data[0]) != r.sn then RxOut(RxReset(r.(result := WrongSn)), [])
    else
      var remaining := r.len - r.off;
      var avail := |data| - 1;
      if remaining > CF_MAX_DATA && avail < CF_MAX_DATA then
        RxOut(RxReset(r.(result := BadLength)), [])
      else
        var take := Min(Min(remaining, CF_MAX_DATA), avail);
        TakeCf(cfg, r, data[1..1 + take], now, ok)
  }

  /** Append an accepted chunk: complete the message, or grant the next block when one is due. */
  function TakeCf(cfg: Cfg, r: Rx, chunk: Bytes, now: u32, ok: bool): (o: RxOut)
    requires RxInv(r) && r.phase == Recv && |chunk| <= r.len - r.off
    ensures RxInv(o.rx)
  {
    var block := (r.blockCf + 1) % 256;
    var s := r.(buf := Blit(r.buf, r.off, chunk), off := r.off + |chunk|,
                sn := NextSn(r.sn), blockCf := block, timer := now);
    if s.off >= s.len then
      RxOut(s.(result := Ok, complete := true, phase := Idle), [])
    else if cfg.bs != 0 && block >= cfg.bs then
      RxOut(s.(blockCf := 0), if ok then [FcFrame(cfg, FS_CTS)] else [])
    else RxOut(s, [])
  }

  function HandleFc(cfg: Cfg, t: Tx, data: Bytes, now: u32): (r: Tx)
    requires TxInv(t) && 1 <= |data| <= CAN_DL
    ensures TxInv(r)
    ensures t.phase != WaitFc ==> r == t
  {
    if t.phase != WaitFc then t
    else
      var fs := PciLow(data[0]);
      if fs == FS_CTS then
        t.(bsLeft := if |data| > 1 then data[1] else 0,
           stmin := if |data| > 2 then data[2] else 0,
           wft := 0, phase := Sending, stTimer := now)
      else if fs == FS_WAIT then
        var wft := (t.wft + 1) % 256;
        if wft > cfg.wftMax then TxReset(t) else t.(wft := wft, timer := now)
      else TxReset(t)
  }

  /** What a physically addressed data frame does to the receive half. */
  function RxOnData(cfg: Cfg, r: Rx, f: Bytes, now: u32, ok: bool): (o: RxOut)
    requires RxInv(r) && 1 <= |f| <= CAN_DL
    ensures RxInv(o.rx)
  {
    if PciType(f[0]) == PCI_SF then RxOut(HandleSf(r, f, false), [])
    else if PciType(f[0]) == PCI_FF then HandleFf(cfg, r, f, now, ok)
    else if PciType(f[0]) == PCI_CF then HandleCf(cfg, r, f, now, ok)
    else RxOut(r, [])
  }

  datatype Addressing = Physical | Functional | Foreign

  function Classify(l: Link, id: u32): Addressing {
    if id == l.rxId then Physical
    else if l.funcId != NO_FUNC_ID && id == l.funcId then Functional
    else Foreign
  }

  function OnFrame(l: Link, id: u32, data: Bytes, now: u32, ok: bool): (o: LinkOut)
    requires LinkInv(l)
    ensures LinkInv(o.link)
    ensures o.link.cfg == l.cfg && o.link.txId == l.txId && o.link.rxId == l.rxId && o.link.funcId == l.funcId
  {
    if |data| < 1 || |data| > CAN_DL then LinkOut(l, [])
    else
      var a := Classify(l, id);
      if a == Foreign then LinkOut(l, [])
      else
        var pci := PciType(data[0]);
        if pci == PCI_SF then LinkOut(l.(rx := HandleSf(l.rx, data, a == Functional)), [])
        else if a == Functional then LinkOut(l, [])
        else if pci == PCI_FF then
          var o := HandleFf(l.cfg, l.rx, data, now, ok);
          LinkOut(l.(rx := o.rx), o.sent)
        else if pci == PCI_CF then
          var o := HandleCf(l.cfg, l.rx, data, now, ok);
          LinkOut(l.(rx := o.rx), o.sent)
        else if pci == PCI_FC then LinkOut(l.(tx := HandleFc(l.cfg, l.tx, data, now)), [])
        else LinkOut(l, [])
  }

  // ---- poll -----------------------------------------------------------------

  /** The bytes the next consecutive frame carries. */
  function NextChunk(t: Tx): (c: Bytes)
    requires TxInv(t) && t.phase != Idle
    ensures 1 <= |c| <= CF_MAX_DATA
  {
    t.msg[t.off..t.off + Min(|t.msg| - t.off, CF_MAX_DATA)]
  }

  predicate CfDue(t: Tx, now: u32) {
    t.phase == Sending && Elapsed32(now, t.stTimer) >= StminToMs(t.stmin)
  }

  /** The state after `n` more bytes of the message have gone out. */
  function Advance(t: Tx, n: nat, now: u32): (s: Tx)
    requires TxInv(t) && t.phase == Sending && n == |NextChunk(t)|
    ensures TxInv(s)
  {
    var off := t.off + n;
    if off >= |t.msg| then TxReset(t.(stTimer := now))
    else
      assert CfIndex(off) == CfIndex(t.off) + 1;
      SnStep(CfIndex(t.off));
      var s := t.(off := off, sn := NextSn(t.sn), stTimer := now);
      if s.bsLeft == 0 then s
      else if s.bsLeft == 1 then s.(bsLeft := 0, phase := WaitFc, timer := now)
      else s.(bsLeft := s.bsLeft - 1)
  }

  function PollTx(cfg: Cfg, t: Tx, now: u32, ok: bool): (o: TxOut)
    requires TxInv(t)
    ensures TxInv(o.tx)
  {
    if t.phase == WaitFc then
      TxOut(if Elapsed32(now, t.timer) >= cfg.nBs then TxReset(t) else t, [])
    else if !CfDue(t, now) then TxOut(t, [])
    else if !ok then TxOut(TxReset(t), [])
    else
      var chunk := NextChunk(t);
      TxOut(Advance(t, |chunk|, now), [CfFrame(cfg, t.sn, chunk)])
  }

  function PollRx(cfg: Cfg, r: Rx, now: u32): (s: Rx)
    requires RxInv(r)
    ensures RxInv(s)
  {
    if r.phase == Recv && Elapsed32(now, r.timer) >= cfg.nCr
    then RxReset(r.(result := Timeout))
    else r
  }

  /** The send half of a poll ends the whole poll when it finishes or loses a message. */
  predicate PollStopsEarly(t: Tx, o: TxOut, now: u32)
  {
    CfDue(t, now) && o.tx.phase == Idle
  }

  function Poll(l: Link, now: u32, ok: bool): (o: LinkOut)
    requires LinkInv(l)
    ensures LinkInv(o.link)
    ensures o.link.cfg == l.cfg && o.link.txId == l.txId && o.link.rxId == l.rxId && o.link.funcId == l.funcId
  {
    var t := PollTx(l.cfg, l.tx, now, ok);
    if PollStopsEarly(l.tx, t, now) then LinkOut(l.(tx := t.tx), t.sent)
    else LinkOut(l.(tx := t.tx, rx := PollRx(l.cfg, l.rx, now)), t.sent)
  }

  // ---- receive --------------------------------------------------------------

  function Receive(r: Rx, cap: nat): (o: ReceiveOut)
    requires RxInv(r)
    ensures RxInv(o.rx)
  {
    if !r.complete then ReceiveOut(r, NoData, [], false)
    else if r.len > cap then ReceiveOut(r, NoSpace, [], false)
    else ReceiveOut(r.(complete := false), Ok, r.buf[..r.len], r.functional)
  }

}
