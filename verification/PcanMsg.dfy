/**
 The record codec of main/pcan_msg.c. An EP2-IN batch is described by the list of
 its records: `Wire(recs)` is the bytes the encoder leaves in the buffer. An
 EP2-OUT batch is taken apart by `DecodeTx`.
 */
module PcanMsg {
  import opened Words

  const BATCH_SIZE: int := 64
  const HEADER: int := 2
  const MSG_TX_CAN: byte := 2

  const REC_ERROR: byte := 1
  const REC_ANALOG: byte := 2
  const REC_BUSLOAD: byte := 3
  const REC_TS: byte := 4

  /** The firmware's canonical frame; always eight data bytes. */
  datatype Frame = Frame(id: u32, ts16: u16, dlc: byte, ext: bool, rtr: bool, ss: bool, srr: bool,
                         data: Bytes, writer: byte)

  const BLANK: Frame := Frame(0, 0, 0, false, false, false, false, [0, 0, 0, 0, 0, 0, 0, 0], 0)

  predicate WfFrame(f: Frame) { |f.data| == 8 }

  datatype Rec =
    | Data(f: Frame)
    | Status(func: byte, num: byte, payload: Bytes, ts: Option<u16>)

  /** The length nibble holds at most 15. */
  predicate WfRec(r: Rec) {
    if r.Data? then WfFrame(r.f) else |r.payload| <= 15
  }

  predicate WfRecs(recs: seq<Rec>) { forall k :: 0 <= k < |recs| ==> WfRec(recs[k]) }

  function Calib(ts16: u16): (r: Rec)
    ensures WfRec(r)
  {
    Status(REC_TS, 0, Le16(ts16), None)
  }

  function ErrorRec(mask: byte, ts16: u16): (r: Rec)
    ensures WfRec(r)
  {
    Status(REC_ERROR, mask, [], Some(ts16))
  }

  // ---- one record on the wire -----------------------------------------------

  function Bit(on: bool, v: byte): byte { if on then v else 0 }

  function Sat8(dlc: byte): (d: byte)
    ensures d <= 8
  {
    if dlc > 8 then 8 else dlc
  }

  /** Flags share the id word: 3 low bits of an extended id, 5 of a standard one. */
  function IdWord(ext: bool, id: u32, flags: byte): (b: Bytes)
    requires flags < 4
    ensures |b| == if ext then 4 else 2
  {
    if ext then Le32(id % 0x2000_0000 * 8 + flags) else Le16(id % 0x800 * 32 + flags)
  }

  function TsBytes(first: bool, ts16: u16): (b: Bytes)
    ensures |b| == if first then 2 else 1
  {
    if first then Le16(ts16) else [ts16 % 256]
  }

  function FlagBits(srr: bool, at: bool): (f: byte)
    ensures f < 4
  {
    Bit(srr, 1) + Bit(at, 2)
  }

  function FrameBytes(first: bool, f: Frame): (b: Bytes)
    requires WfFrame(f)
    ensures |b| == 1 + (if f.ext then 4 else 2) + (if first then 2 else 1)
                   + (if f.rtr then 0 else Sat8(f.dlc)) + (if f.srr && !f.rtr then 1 else 0)
  {
    [Sat8(f.dlc) + 0x80 + Bit(f.ext, 0x20) + Bit(f.rtr, 0x10)]
    + IdWord(f.ext, f.id, FlagBits(f.srr, f.ss))
    + TsBytes(first, f.ts16)
    + (if f.rtr then [] else f.data[..Sat8(f.dlc)])
    + (if f.srr && !f.rtr then [f.writer] else [])
  }

  function StatusBytes(first: bool, func: byte, num: byte, payload: Bytes, ts: Option<u16>): (b: Bytes)
    requires |payload| <= 15
    ensures |b| == 3 + (if ts.None? then 0 else if first then 2 else 1) + |payload|
  {
    [|payload| + 0x40 + Bit(ts.Some?, 0x80), func, num]
    + (if ts.Some? then TsBytes(first, ts.value) else [])
    + payload
  }

  function RecBytes(first: bool, r: Rec): (b: Bytes)
    requires WfRec(r)
    ensures 3 <= |b| <= 20
  {
    match r
    case Data(f) => FrameBytes(first, f)
    case Status(func, num, payload, ts) => StatusBytes(first, func, num, payload, ts)
  }

  predicate IsStamped(r: Rec) { r.Data? || r.ts.Some? }

  function StampOf(r: Rec): u16
    requires IsStamped(r)
  {
    if r.Data? then r.f.ts16 else r.ts.value
  }

  // ---- a whole batch --------------------------------------------------------

  predicate AnyStamped(recs: seq<Rec>) {
    recs != [] && (IsStamped(recs[|recs| - 1]) || AnyStamped(recs[..|recs| - 1]))
  }

  function Body(recs: seq<Rec>): (b: Bytes)
    requires WfRecs(recs)
    ensures |b| >= 3 * |recs|
  {
    if recs == [] then []
    else
      var init := recs[..|recs| - 1];
      Body(init) + RecBytes(!AnyStamped(init), recs[|recs| - 1])
  }

  predicate FitsBatch(recs: seq<Rec>)
    requires WfRecs(recs)
  {
    HEADER + |Body(recs)| <= BATCH_SIZE
  }

  function Wire(recs: seq<Rec>): (b: Bytes)
    requires WfRecs(recs) && FitsBatch(recs)
    ensures HEADER <= |b| <= BATCH_SIZE
  {
    [MSG_TX_CAN, |recs|] + Body(recs)
  }

  // ---- host to device -------------------------------------------------------

  function HasBit(b: byte, v: byte): bool
    requires v in {1, 2, 16, 32, 64, 128}
  {
    b / v % 2 == 1
  }

  datatype Parsed = Bad | Skipped(next: nat) | Got(f: Frame, next: nat)

  /** The record at `pos`; `writer` is the tail byte of a full batch. */
  function ParseRec(buf: Bytes, pos: nat, writer: byte): (p: Parsed)
    ensures p.Skipped? ==> pos + 3 <= p.next <= |buf|
    ensures p.Got? ==> pos + 3 <= p.next <= |buf| && WfFrame(p.f)
  {
    if pos >= |buf| then Bad
    else
      var sl := buf[pos];
      if HasBit(sl, 64) then
        if pos + 3 + sl % 16 > |buf| then Bad else Skipped(pos + 3 + sl % 16)
      else
        ParseFrame(buf, pos + 1, sl, writer)
  }

  function ParseFrame(buf: Bytes, pos: nat, sl: byte, writer: byte): (p: Parsed)
    ensures p.Bad? || (p.Got? && pos + 2 <= p.next <= |buf| && WfFrame(p.f))
  {
    var ext, rtr := HasBit(sl, 32), HasBit(sl, 16);
    if pos + (if ext then 4 else 2) > |buf| then Bad
    else
      var id := if ext then GetLe32(buf, pos) / 8 else GetLe16(buf, pos) / 32;
      var flags := if ext then GetLe32(buf, pos) % 8 else GetLe16(buf, pos) % 32;
      var dlc := Sat8(sl % 16);
      var at := pos + (if ext then 4 else 2);
      var n := if rtr then 0 else dlc;
      if at + n > |buf| then Bad
      else
        var srr := HasBit(flags, 1);
        if srr && at + n + 1 > |buf| then Bad
        else
          Got(Frame(id, 0, dlc, ext, rtr, HasBit(flags, 2), srr, buf[at..at + n] + seq(8 - n, _ => 0), writer),
              at + n + (if srr then 1 else 0))
  }

  /** `left` records from `pos`; stops early once `room` frames are out. */
  function ParseAll(buf: Bytes, pos: nat, left: nat, writer: byte, room: nat): (fs: Option<seq<Frame>>)
    ensures fs.Some? ==> |fs.value| <= room && |fs.value| <= left
    ensures fs.Some? && pos <= |buf| ==> pos + 3 * |fs.value| <= |buf|
    decreases left
  {
    if left == 0 || room == 0 then Some([])
    else
      match ParseRec(buf, pos, writer)
      case Bad => None
      case Skipped(next) => ParseAll(buf, next, left - 1, writer, room)
      case Got(f, next) =>
        var rest := ParseAll(buf, next, left - 1, writer, room - 1);
        if rest.None? then None else Some([f] + rest.value)
  }

  function TailOf(buf: Bytes): byte {
    if |buf| >= BATCH_SIZE then buf[BATCH_SIZE - 1] else 0
  }

  /** None stands for the result -1. */
  function DecodeTx(buf: Bytes, room: nat): (fs: Option<seq<Frame>>)
    ensures fs.Some? ==> |fs.value| <= room && HEADER + 3 * |fs.value| <= |buf|
  {
    if room == 0 || |buf| <= HEADER then None
    else ParseAll(buf, HEADER, buf[1], TailOf(buf), room)
  }

  /** A record takes at least three bytes, so enough room never cuts a batch short. */
  lemma {:induction false} EnoughRoom(buf: Bytes, pos: nat, left: nat, writer: byte, room: nat, more: nat)
    requires pos <= |buf| < pos + 3 * room && more >= room
    ensures ParseAll(buf, pos, left, writer, room) == ParseAll(buf, pos, left, writer, more)
    decreases left
  {
    hide ParseRec;
    if left > 0 {
      match ParseRec(buf, pos, writer)
      case Bad =>
      case Skipped(next) => EnoughRoom(buf, next, left - 1, writer, room, more);
      case Got(f, next) => EnoughRoom(buf, next, left - 1, writer, room - 1, more - 1);
    }
  }

  /** A transfer of at most 64 bytes yields at most 20 frames; every limit above that gives the same result. */
  lemma LimitNeverTruncates(buf: Bytes, room: nat)
    requires |buf| <= BATCH_SIZE && room >= 21
    ensures DecodeTx(buf, room) == DecodeTx(buf, 32)
    ensures DecodeTx(buf, room).Some? ==> |DecodeTx(buf, room).value| <= 20
  {
    if |buf| > HEADER {
      EnoughRoom(buf, HEADER, buf[1], TailOf(buf), 21, room);
      EnoughRoom(buf, HEADER, buf[1], TailOf(buf), 21, 32);
    }
  }
}
