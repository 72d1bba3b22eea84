/**
 The link object itself: the fields of `isotp_link_t`, updated in place. Each
 method is proved to be the corresponding step function of module IsoTp.
 */
module IsoTpLink {
  import opened Words
  import opened IsoTp

  class LinkObject {
    const txId: u32
    const rxId: u32
    const funcId: u32
    const cfg: Cfg

    const txBuf: array<byte>
    var txLen: nat
    var txOff: nat
    var txSn: nat
    var txBsLeft: byte
    var txStmin: byte
    var txWft: byte
    var txPhase: Phase
    var txTimer: u32
    var txStTimer: u32

    const rxBuf: array<byte>
    var rxLen: nat
    var rxOff: nat
    var rxSn: nat
    var rxBlockCf: byte
    var rxPhase: Phase
    var rxTimer: u32
    var rxResult: Ret
    var rxComplete: bool
    var rxFunctional: bool

    ghost predicate Valid()
      reads this, txBuf, rxBuf
    {
      txBuf != rxBuf && TxValid() && RxValid()
    }

    ghost predicate TxValid()
      reads this, txBuf
    {
      txBuf.Length == MAX_MSG && txLen <= MAX_MSG && TxInv(TxState())
    }

    ghost predicate RxValid()
      reads this, rxBuf
    {
      rxBuf.Length == MAX_MSG && RxInv(RxState())
    }

    ghost function TxState(): Tx
      reads this, txBuf
      requires txLen <= txBuf.Length
    {
      Tx(txPhase, txBuf[..txLen], txOff, txSn, txBsLeft, txStmin, txWft, txTimer, txStTimer)
    }

    ghost function RxState(): Rx
      reads this, rxBuf
    {
      Rx(rxPhase, rxBuf[..], rxLen, rxOff, rxSn, rxBlockCf, rxTimer, rxResult, rxComplete, rxFunctional)
    }

    ghost function State(): Link
      reads this, txBuf, rxBuf
      requires Valid()
    {
      Link(txId, rxId, funcId, cfg, TxState(), RxState())
    }

    constructor (txId: u32, rxId: u32, funcId: u32, cfg: Option<Cfg>)
      ensures Valid() && fresh(txBuf) && fresh(rxBuf)
      ensures State() == InitLink(txId, rxId, funcId, cfg)
    {
      this.txId, this.rxId, this.funcId := txId, rxId, funcId;
      this.cfg := EffectiveCfg(cfg);
      txBuf := new byte[MAX_MSG](_ => 0);
      rxBuf := new byte[MAX_MSG](_ => 0);
      txLen, txOff, txSn, txBsLeft, txStmin, txWft := 0, 0, 0, 0, 0, 0;
      txPhase, txTimer, txStTimer := Idle, 0, 0;
      rxLen, rxOff, rxSn, rxBlockCf, rxTimer := 0, 0, 0, 0, 0;
      rxPhase, rxResult, rxComplete, rxFunctional := Idle, Ok, false, false;
      new;
      assert rxBuf[..] == InitRx().buf;
    }

    // ---- send half ----------------------------------------------------------

    method ResetTx()
      requires txBuf.Length == MAX_MSG && txLen <= MAX_MSG
      modifies this`txPhase, this`txLen, this`txOff, this`txSn, this`txBsLeft, this`txStmin, this`txWft
      ensures TxValid() && TxState() == TxReset(old(TxState()))
    {
      txPhase := Idle;
      txLen, txOff, txSn, txBsLeft, txStmin, txWft := 0, 0, 0, 0, 0, 0;
    }

    method Load(data: Bytes)
      requires txBuf.Length == MAX_MSG && |data| <= MAX_MSG
      modifies txBuf, this`txLen, this`txOff, this`txWft
      ensures txLen == |data| && txBuf[..txLen] == data && txOff == 0 && txWft == 0
    {
      forall i | 0 <= i < |data| {
        txBuf[i] := data[i];
      }
      txLen, txOff, txWft := |data|, 0, 0;
    }

    method Send(data: Bytes, now: u32, ok: bool) returns (sent: seq<Bytes>, ret: Ret)
      requires Valid()
      modifies txBuf, this`txPhase, this`txLen, this`txOff, this`txSn, this`txBsLeft, this`txStmin,
        this`txWft, this`txTimer
      ensures Valid()
      ensures RxState() == old(RxState())
      ensures SendOut(TxState(), sent, ret) == SendTx(cfg, old(TxState()), data, now, ok)
    {
      hide SfFrame, FfFrame;
      if txPhase != Idle {
        return [], NoSpace;
      }
      if |data| == 0 || |data| > MAX_MSG {
        return [], BadLength;
      }
      Load(data);
      if !ok {
        ResetTx();
        return [], Error;
      }
      if |data| <= SF_MAX_DATA {
        ResetTx();
        return [SfFrame(cfg, data)], Ok;
      }
      StartMultiFrame(now);
      return [FfFrame(cfg, data)], InProgress;
    }

    /** The first frame is out: await the receiver's first grant. */
    method StartMultiFrame(now: u32)
      requires txBuf.Length == MAX_MSG && SF_MAX_DATA < txLen <= MAX_MSG
      modifies this`txOff, this`txSn, this`txPhase, this`txTimer
      ensures TxState() == old(TxState()).(phase := WaitFc, off := FF_FIRST_DATA, sn := 1, timer := now)
      ensures TxValid()
    {
      txOff, txSn, txPhase, txTimer := FF_FIRST_DATA, 1, WaitFc, now;
    }

    method FlowControl(data: Bytes, now: u32)
      requires TxValid() && 1 <= |data| <= CAN_DL
      modifies this`txPhase, this`txLen, this`txOff, this`txSn, this`txBsLeft, this`txStmin,
        this`txWft, this`txTimer, this`txStTimer
      ensures TxValid()
      ensures TxState() == HandleFc(cfg, old(TxState()), data, now)
    {
      if txPhase != WaitFc {
        return;
      }
      var fs := PciLow(data[0]);
      if fs == FS_CTS {
        txBsLeft := if |data| > 1 then data[1] else 0;
        txStmin := if |data| > 2 then data[2] else 0;
        txWft, txPhase, txStTimer := 0, Sending, now;
      } else if fs == FS_WAIT {
        txWft := (txWft + 1) % 256;
        if txWft > cfg.wftMax {
          ResetTx();
        } else {
          txTimer := now;
        }
      } else {
        ResetTx();
      }
    }

    method SendNextCf(now: u32) returns (sent: seq<Bytes>)
      requires TxValid() && CfDue(TxState(), now)
      modifies this`txPhase, this`txLen, this`txOff, this`txSn, this`txBsLeft, this`txStmin,
        this`txWft, this`txTimer, this`txStTimer
      ensures txLen <= MAX_MSG
      ensures TxOut(TxState(), sent) == PollTx(cfg, old(TxState()), now, true)
      ensures TxValid()
    {
      ghost var before := TxState();
      ghost var o := Advance(before, |NextChunk(before)|, now);
      var n := if txLen - txOff < CF_MAX_DATA then txLen - txOff else CF_MAX_DATA;
      var chunk := txBuf[txOff..txOff + n];
      assert chunk == NextChunk(before);
      sent := [CfFrame(cfg, txSn, chunk)];
      txOff := txOff + n;
      txSn := NextSn(txSn);
      txStTimer := now;
      if txOff >= txLen {
        ResetTx();
        assert TxState() == o;
      } else if txBsLeft != 0 {
        txBsLeft := txBsLeft - 1;
        if txBsLeft == 0 {
          txPhase, txTimer := WaitFc, now;
        }
        assert TxState() == o;
      } else {
        assert TxState() == o;
      }
    }

    method PollSend(now: u32, ok: bool) returns (sent: seq<Bytes>, stop: bool)
      requires TxValid()
      modifies this`txPhase, this`txLen, this`txOff, this`txSn, this`txBsLeft, this`txStmin,
        this`txWft, this`txTimer, this`txStTimer
      ensures TxValid()
      ensures TxOut(TxState(), sent) == PollTx(cfg, old(TxState()), now, ok)
      ensures stop == PollStopsEarly(old(TxState()), TxOut(TxState(), sent), now)
    {
      sent, stop := [], false;
      if txPhase == WaitFc {
        if Elapsed32(now, txTimer) >= cfg.nBs {
          ResetTx();
        }
      } else if txPhase == Sending && Elapsed32(now, txStTimer) >= StminToMs(txStmin) {
        if !ok {
          ResetTx();
        } else {
          sent := SendNextCf(now);
        }
        stop := txPhase == Idle;
      }
    }

    // ---- receive half -------------------------------------------------------

    method ResetRx()
      requires RxValid()
      modifies this`rxPhase, this`rxLen, this`rxOff, this`rxSn, this`rxBlockCf
      ensures RxValid() && RxState() == RxReset(old(RxState()))
    {
      rxPhase := Idle;
      rxLen, rxOff, rxSn, rxBlockCf := 0, 0, 0, 0;
    }

    method CopyToRx(off: nat, data: Bytes)
      requires off + |data| <= rxBuf.Length
      modifies rxBuf
      ensures rxBuf[..] == Blit(old(rxBuf[..]), off, data)
    {
      forall i | 0 <= i < |data| {
        rxBuf[off + i] := data[i];
      }
      assert forall i | 0 <= i < rxBuf.Length :: rxBuf[..][i] == Blit(old(rxBuf[..]), off, data)[i];
    }

    method SingleFrame(data: Bytes, functional: bool)
      requires RxValid() && 1 <= |data| <= CAN_DL
      modifies rxBuf, this`rxLen, this`rxOff, this`rxPhase, this`rxResult, this`rxFunctional, this`rxComplete
      ensures RxValid()
      ensures RxState() == HandleSf(old(RxState()), data, functional)
    {
      var len := PciLow(data[0]);
      if len == 0 || len > SF_MAX_DATA || len > |data| - 1 {
        return;
      }
      if functional && (rxPhase == Recv || rxComplete) {
        return;
      }
      CopyToRx(0, data[1..1 + len]);
      rxLen, rxOff, rxPhase, rxResult := len, len, Idle, Ok;
      rxFunctional, rxComplete := functional, true;
    }

    method FirstFrame(data: Bytes, now: u32, ok: bool) returns (sent: seq<Bytes>)
      requires RxValid() && 1 <= |data| <= CAN_DL
      modifies rxBuf, this`rxLen, this`rxOff, this`rxSn, this`rxBlockCf, this`rxPhase, this`rxResult,
        this`rxFunctional, this`rxTimer
      ensures RxValid()
      ensures RxOut(RxState(), sent) == HandleFf(cfg, old(RxState()), data, now, ok)
    {
      if |data| != CAN_DL || FfLength(data) <= SF_MAX_DATA {
        return [];
      }
      FirstFrameNeverOverflows(data);
      CopyToRx(0, data[2..]);
      rxLen, rxOff, rxSn, rxBlockCf := FfLength(data), FF_FIRST_DATA, 1, 0;
      rxPhase, rxResult, rxFunctional, rxTimer := Recv, Ok, false, now;
      return if ok then [FcFrame(cfg, FS_CTS)] else [];
    }

    method ConsecutiveFrame(data: Bytes, now: u32, ok: bool) returns (sent: seq<Bytes>)
      requires RxValid() && 1 <= |data| <= CAN_DL
      modifies rxBuf, this`rxLen, this`rxOff, this`rxSn, this`rxBlockCf, this`rxPhase, this`rxResult,
        this`rxComplete, this`rxTimer
      ensures RxOut(RxState(), sent) == HandleCf(cfg, old(RxState()), data, now, ok)
      ensures RxValid()
    {
      hide TakeCf;
      sent := [];
      if rxPhase != Recv {
        return;
      }
      if PciLow(data[0]) != rxSn {
        rxResult := WrongSn;
        ResetRx();
        return;
      }
      var remaining := rxLen - rxOff;
      var avail := |data| - 1;
      if remaining > CF_MAX_DATA && avail < CF_MAX_DATA {
        rxResult := BadLength;
        ResetRx();
        return;
      }
      var take := if remaining < CF_MAX_DATA then remaining else CF_MAX_DATA;
      if take > avail {
        take := avail;
      }
      sent := AcceptCf(data[1..1 + take], now, ok);
    }

    method AcceptCf(chunk: Bytes, now: u32, ok: bool) returns (sent: seq<Bytes>)
      requires RxValid() && rxPhase == Recv && |chunk| <= rxLen - rxOff
      modifies rxBuf, this`rxOff, this`rxSn, this`rxBlockCf, this`rxPhase, this`rxResult,
        this`rxComplete, this`rxTimer
      ensures RxOut(RxState(), sent) == TakeCf(cfg, old(RxState()), chunk, now, ok)
      ensures RxValid()
    {
      ghost var o := TakeCf(cfg, RxState(), chunk, now, ok);
      sent := [];
      CopyToRx(rxOff, chunk);
      rxOff := rxOff + |chunk|;
      rxSn := NextSn(rxSn);
      rxBlockCf := (rxBlockCf + 1) % 256;
      rxTimer := now;
      if rxOff >= rxLen {
        rxResult, rxComplete, rxPhase := Ok, true, Idle;
      } else if cfg.bs != 0 && rxBlockCf >= cfg.bs {
        rxBlockCf := 0;
        sent := if ok then [FcFrame(cfg, FS_CTS)] else [];
      }
      assert RxState() == o.rx;
    }

    method PollReceive(now: u32)
      requires RxValid()
      modifies this`rxPhase, this`rxLen, this`rxOff, this`rxSn, this`rxBlockCf, this`rxResult
      ensures RxValid() && RxState() == PollRx(cfg, old(RxState()), now)
    {
      if rxPhase == Recv && Elapsed32(now, rxTimer) >= cfg.nCr {
        rxResult := Timeout;
        ResetRx();
      }
    }

    method ReceiveMessage(cap: nat) returns (ret: Ret, msg: Bytes, functional: bool)
      requires RxValid()
      modifies this`rxComplete
      ensures RxValid()
      ensures ReceiveOut(RxState(), ret, msg, functional) == Receive(old(RxState()), cap)
    {
      if !rxComplete {
        return NoData, [], false;
      }
      if rxLen > cap {
        return NoSpace, [], false;
      }
      assert rxBuf[..rxLen] == rxBuf[..][..rxLen];
      rxComplete := false;
      return Ok, rxBuf[..rxLen], rxFunctional;
    }

    // ---- both halves --------------------------------------------------------

    method OnCanFrame(id: u32, data: Bytes, now: u32, ok: bool) returns (sent: seq<Bytes>)
      requires Valid()
      modifies this, rxBuf
      ensures Valid()
      ensures LinkOut(State(), sent) == OnFrame(old(State()), id, data, now, ok)
    {
      hide HandleSf, HandleFf, HandleCf, HandleFc;
      sent := [];
      if |data| < 1 || |data| > CAN_DL {
        return;
      }
      var functional := false;
      if id != rxId {
        if funcId == NO_FUNC_ID || id != funcId {
          return;
        }
        functional := true;
      }
      var pci := PciType(data[0]);
      if pci == PCI_SF {
        SingleFrame(data, functional);
      } else if functional {
        return;
      } else if pci == PCI_FF {
        sent := FirstFrame(data, now, ok);
      } else if pci == PCI_CF {
        sent := ConsecutiveFrame(data, now, ok);
      } else if pci == PCI_FC {
        FlowControl(data, now);
      }
    }

    method PollLink(now: u32, ok: bool) returns (sent: seq<Bytes>)
      requires Valid()
      modifies this
      ensures Valid()
      ensures LinkOut(State(), sent) == Poll(old(State()), now, ok)
    {
      var stop: bool;
      sent, stop := PollSend(now, ok);
      if !stop {
        PollReceive(now);
      }
    }
  }
}
