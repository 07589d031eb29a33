/**
 * The command engine as state transitions. Each function here is the effect
 * of one routine of the engine on the persistent CSW record, the persistent
 * sense record and the sequence of things handed to the transport and to the
 * block store. The imperative engine (module Msc) is proved to perform
 * exactly these transitions; the lemmas at the end state what the engine
 * promises about every command.
 *
 * The collaborators the engine cannot see are an Io value given in advance:
 * what USB_Send returns for a small response, what USB_Ok answers before
 * block i, what read_block yields for an LBA and what USB_Recv delivers for
 * block i.
 */
module MscSpec {
  import opened ByteOrder
  import opened MscWire

  datatype Event =
    | DataSent(data: seq<byte>)          // a buffer handed to USB_Send on the bulk IN endpoint
    | CswSent(csw: Csw)                  // the CSW record handed to USB_Send
    | BlockRead(lba: u32)                // read_block(lba, ...)
    | BlockWrite(lba: u32, block: Block) // write_block(lba, data, false, &usbWriteState)
    | LedSignal                          // led_signal()

  /** The persistent records of the engine and everything emitted so far. */
  datatype State = State(csw: Csw, sense: SenseData, trace: seq<Event>)

  datatype Io = Io(sent: int, alive: nat -> bool, disk: u32 -> Block, received: nat -> Block)

  /** The static initialisers: CSW {signature, 0, 0, 0}, sense all zero. */
  function Initial(): State {
    State(Csw(CswSignature(), 0, 0, CswStatusPass), InitialSense(), [])
  }

  function Min(a: nat, b: nat): nat {
    if a < b then a else b
  }

  // ---------------------------------------------------------------------
  // Sense routines

  function ClearSense(st: State): State {
    st.(sense := ClearedSense())
  }

  function SenseFail(st: State, key: byte, addSense: u16, lba: u32): State {
    st.(sense := FailSense(key, addSense, lba), csw := st.csw.(status := CswStatusFail))
  }

  function SensePass(st: State): State {
    ClearSense(st).(csw := st.csw.(status := CswStatusPass))
  }

  function SenseFailHardware(st: State): State {
    SenseFail(st, SkHardwareError, AscNoAdditionalSenseInfo, 0)
  }

  function SenseCommandInvalid(st: State): State {
    SenseFail(st, SkIllegalRequest, AscInvalidCommandOperationCode, 0)
  }

  // ---------------------------------------------------------------------
  // CSW and small data phase

  /** Stamp the CBW's tag into the CSW and hand the CSW to the transport. */
  function CswProcess(st: State, cbw: Cbw): State {
    var c := st.csw.(tag := cbw.tag, residue := CpuToLe32(st.csw.residue));
    st.(csw := c, trace := st.trace + [CswSent(c)])
  }

  /**
   * udi_msc_data_send as written: on a short send the hardware-error sense
   * and a CSW are produced, and then, with no return, the pass path runs too.
   */
  function DataSend(st: State, cbw: Cbw, buf: seq<byte>, sent: int): State
    requires |buf| < 0x100
  {
    var st1 := st.(trace := st.trace + [DataSent(buf)]);
    var st2 := if sent != |buf| then CswProcess(SenseFailHardware(st1), cbw) else st1;
    var st3 := SensePass(st2);
    CswProcess(st3.(csw := st3.csw.(residue := Sub32(st3.csw.residue, |buf|))), cbw)
  }

  // ---------------------------------------------------------------------
  // Command handlers

  /** REQUEST SENSE sends the sense record as it stands, cut to CDB[4] bytes. */
  function RequestSenseData(sense: SenseData, cbw: Cbw): (r: seq<byte>)
    ensures |r| == Min(cbw.cdb[4], SenseSize)
  {
    SenseBytes(sense)[..Min(cbw.cdb[4], SenseSize)]
  }

  function RequestSense(st: State, cbw: Cbw, sent: int): State {
    DataSend(st, cbw, RequestSenseData(st.sense, cbw), sent)
  }

  /** READ FORMAT CAPACITIES first lowers the residue to at most 12. */
  function ReadFormatCapacity(st: State, cbw: Cbw, sent: int): State {
    var st1 := if st.csw.residue > 12 then st.(csw := st.csw.(residue := 12)) else st;
    DataSend(st1, cbw, FormatCapacityData(), sent)
  }

  function InquiryResponse(cbw: Cbw): (r: seq<byte>)
    ensures |r| == Min(cbw.cdb[4], InquirySize)
  {
    InquiryData()[..Min(cbw.cdb[4], InquirySize)]
  }

  function Inquiry(st: State, cbw: Cbw, sent: int): State {
    DataSend(st, cbw, InquiryResponse(cbw), sent)
  }

  /**
   * TEST UNIT READY (whose readiness check always answers true), PREVENT
   * ALLOW MEDIUM REMOVAL, START STOP UNIT and VERIFY(10): pass, then CSW.
   */
  function PassNoData(st: State, cbw: Cbw): State {
    CswProcess(SensePass(st), cbw)
  }

  /** The allocation length MODE SENSE reads: CDB[8] for (10), CDB[4] for (6). */
  function ModeSenseAllocation(cbw: Cbw, sense10: bool): byte {
    if sense10 then cbw.cdb[8] else cbw.cdb[4]
  }

  function ModeSenseResponse(cbw: Cbw, sense10: bool): (r: seq<byte>)
    ensures |r| <= 20
  {
    var data := ModeSenseData(sense10, WantsInfExpPage(cbw.cdb[2]));
    data[..Min(ModeSenseAllocation(cbw, sense10), |data|)]
  }

  function ModeSense(st: State, cbw: Cbw, sense10: bool, sent: int): State {
    DataSend(st, cbw, ModeSenseResponse(cbw, sense10), sent)
  }

  function ReadCapacity(st: State, cbw: Cbw, sent: int): State {
    DataSend(st, cbw, ReadCapacityData(), sent)
  }

  // ---------------------------------------------------------------------
  // READ(10) / WRITE(10)

  /** The starting LBA: CDB bytes 2..5, most significant first. */
  function CdbLba(cdb: Cdb): u32 {
    FromBe32(cdb[2..6])
  }

  /** The block count: CDB bytes 7..8, most significant first. */
  function CdbBlockCount(cdb: Cdb): u16 {
    cdb[7] as int * 0x100 + cdb[8] as int
  }

  /** What one block of the transfer emits: read then send, or write then signal. */
  function BlockEventsOf(read: bool, lba: u32, i: nat, io: Io): seq<Event> {
    var addr := Add32(lba, i);
    if read then [BlockRead(addr), DataSent(io.disk(addr))]
    else [BlockWrite(addr, io.received(i)), LedSignal]
  }

  /** One iteration of the block loop. */
  function TransBlock(st: State, read: bool, lba: u32, i: nat, io: Io): State {
    st.(trace := st.trace + BlockEventsOf(read, lba, i, io),
        csw := st.csw.(residue := Sub32(st.csw.residue, BlockSize)))
  }

  /** The block loop from iteration i on. */
  function TransFrom(st: State, cbw: Cbw, read: bool, lba: u32, count: nat, i: nat, io: Io): State
    decreases count - i
  {
    if i >= count then CswProcess(SensePass(st), cbw)
    else if !io.alive(i) then st
    else TransFrom(TransBlock(st, read, lba, i, io), cbw, read, lba, count, i + 1, io)
  }

  function Trans(st: State, cbw: Cbw, read: bool, io: Io): State {
    TransFrom(st, cbw, read, CdbLba(cbw.cdb), CdbBlockCount(cbw.cdb), 0, io)
  }

  // ---------------------------------------------------------------------
  // The dispatcher

  /** msc_process_cbw: load the residue, then dispatch on the opcode. */
  function Process(st: State, cbw: Cbw, io: Io): State {
    var st0 := st.(csw := st.csw.(residue := Le32ToCpu(cbw.dataTransferLength)));
    var op := cbw.cdb[0];
    if op == SpcRequestSense then RequestSense(st0, cbw, io.sent)
    else if op == SpcInquiry then Inquiry(st0, cbw, io.sent)
    else if op == SpcModeSense6 then ModeSense(st0, cbw, false, io.sent)
    else if op == SpcModeSense10 then ModeSense(st0, cbw, true, io.sent)
    else if op == SpcTestUnitReady then PassNoData(st0, cbw)
    else if op == SbcReadCapacity10 then ReadCapacity(st0, cbw, io.sent)
    else if op == SbcStartStopUnit then PassNoData(st0, cbw)
    else if op == SpcPreventAllowMediumRemoval then PassNoData(st0, cbw)
    else if op == SbcVerify10 then PassNoData(st0, cbw)
    else if op == SbcRead10 then Trans(st0, cbw, true, io)
    else if op == SbcWrite10 then Trans(st0, cbw, false, io)
    else if op == UfiReadFormatCapacities then ReadFormatCapacity(st0, cbw, io.sent)
    else CswProcess(SenseCommandInvalid(st0), cbw)
  }

  // =====================================================================
  // Properties

  /** The number of CSWs among some events. */
  function CswCount(events: seq<Event>): nat {
    if events == [] then 0
    else (if events[0].CswSent? then 1 else 0) + CswCount(events[1..])
  }

  lemma {:induction false} CswCountAppend(a: seq<Event>, b: seq<Event>)
    ensures CswCount(a + b) == CswCount(a) + CswCount(b)
  {
    if a == [] {
      assert a + b == b;
    } else {
      assert (a + b)[1..] == a[1..] + b;
      CswCountAppend(a[1..], b);
    }
  }

  /** Every CSW among the events carries the given tag and the CSW signature. */
  ghost predicate CswsTagged(events: seq<Event>, tag: u32) {
    forall j :: 0 <= j < |events| && events[j].CswSent? ==>
      events[j].csw.tag == tag && events[j].csw.signature == CswSignature()
  }

  /** The events emitted by the blocks i .. k-1 of a transfer, in order. */
  function BlockEvents(read: bool, lba: u32, i: nat, k: nat, io: Io): seq<Event>
    decreases k
  {
    if k <= i then [] else BlockEvents(read, lba, i, k - 1, io) + BlockEventsOf(read, lba, k - 1, io)
  }

  /** The first iteration at or after i whose link check fails, or count. */
  function FirstDead(alive: nat -> bool, i: nat, count: nat): (k: nat)
    requires i <= count
    ensures i <= k <= count
    ensures forall j :: i <= j < k ==> alive(j)
    ensures k < count ==> !alive(k)
    decreases count - i
  {
    if i == count || !alive(i) then i else FirstDead(alive, i + 1, count)
  }

  /**
   * Blocks are accessed in ascending order: the events of blocks i .. k-1
   * are two per block, and those of block j, at offset 2*(j-i), concern LBA
   * lba + j (modulo 2^32), read then sent, or written then signalled.
   */
  lemma {:induction false} BlockEventsAt(read: bool, lba: u32, i: nat, k: nat, io: Io, j: nat)
    requires i <= j < k
    ensures |BlockEvents(read, lba, i, k, io)| == 2 * (k - i)
    ensures BlockEvents(read, lba, i, k, io)[2 * (j - i)] ==
              (if read then BlockRead(Add32(lba, j)) else BlockWrite(Add32(lba, j), io.received(j)))
    ensures BlockEvents(read, lba, i, k, io)[2 * (j - i) + 1] ==
              (if read then DataSent(io.disk(Add32(lba, j))) else LedSignal)
    decreases k
  {
    BlockEventsLength(read, lba, i, k - 1, io);
    if j < k - 1 {
      BlockEventsAt(read, lba, i, k - 1, io, j);
    }
  }

  lemma {:induction false} BlockEventsLength(read: bool, lba: u32, i: nat, k: nat, io: Io)
    ensures |BlockEvents(read, lba, i, k, io)| == if k <= i then 0 else 2 * (k - i)
    decreases k
  {
    if k > i {
      BlockEventsLength(read, lba, i, k - 1, io);
    }
  }

  /** No CSW among some events. */
  ghost predicate NoCsw(events: seq<Event>) {
    forall j :: 0 <= j < |events| ==> !events[j].CswSent?
  }

  lemma {:induction false} NoCswCount(events: seq<Event>)
    requires NoCsw(events)
    ensures CswCount(events) == 0
    ensures forall tag: u32 :: CswsTagged(events, tag)
  {
    if events != [] {
      assert forall j :: 0 <= j < |events[1..]| ==> events[1..][j] == events[j + 1];
      NoCswCount(events[1..]);
    }
  }

  /** The block phase hands no CSW to the transport. */
  lemma {:induction false} BlockEventsNoCsw(read: bool, lba: u32, i: nat, k: nat, io: Io)
    ensures NoCsw(BlockEvents(read, lba, i, k, io))
    decreases k
  {
    if k > i {
      BlockEventsNoCsw(read, lba, i, k - 1, io);
      var a := BlockEvents(read, lba, i, k - 1, io);
      var b := BlockEventsOf(read, lba, k - 1, io);
      assert |b| == 2 && !b[0].CswSent? && !b[1].CswSent?;
      forall j | 0 <= j < |a + b| ensures !(a + b)[j].CswSent? {
        if j >= |a| {
          assert (a + b)[j] == b[j - |a|];
        } else {
          assert (a + b)[j] == a[j];
        }
      }
    }
  }

  /**
   * The block loop from iteration i runs the blocks up to the first failed
   * link check k, lowering the residue by 512 per block. If every check
   * passed (k == count) it then sets PASS and emits one CSW; otherwise it
   * stops there, with no CSW and the sense and status left as they were.
   */
  lemma {:induction false} TransFromOutcome(st: State, cbw: Cbw, read: bool, lba: u32, count: nat,
                                            i: nat, io: Io)
    requires i <= count
    ensures var k := FirstDead(io.alive, i, count);
            var mid := st.(trace := st.trace + BlockEvents(read, lba, i, k, io),
                           csw := st.csw.(residue := Sub32(st.csw.residue, (k - i) * BlockSize)));
            TransFrom(st, cbw, read, lba, count, i, io) ==
              if k == count then CswProcess(SensePass(mid), cbw) else mid
    decreases count - i
  {
    var k := FirstDead(io.alive, i, count);
    if i == count || !io.alive(i) {
      assert k == i;
      assert st.trace + BlockEvents(read, lba, i, k, io) == st.trace;
      assert Sub32(st.csw.residue, 0) == st.csw.residue;
      assert st.csw.(residue := st.csw.residue) == st.csw;
    } else {
      var st1 := TransBlock(st, read, lba, i, io);
      TransFromOutcome(st1, cbw, read, lba, count, i + 1, io);
      assert FirstDead(io.alive, i + 1, count) == k;
      assert BlockEvents(read, lba, i, k, io) ==
             BlockEventsOf(read, lba, i, io) + BlockEvents(read, lba, i + 1, k, io) by {
        BlockEventsSplit(read, lba, i, k, io);
      }
      Sub32Twice(st.csw.residue, BlockSize, (k - (i + 1)) * BlockSize);
    }
  }

  lemma {:induction false} BlockEventsSplit(read: bool, lba: u32, i: nat, k: nat, io: Io)
    requires i < k
    ensures BlockEvents(read, lba, i, k, io) ==
            BlockEventsOf(read, lba, i, io) + BlockEvents(read, lba, i + 1, k, io)
    decreases k
  {
    if k - 1 > i {
      BlockEventsSplit(read, lba, i, k - 1, io);
    } else {
      assert BlockEvents(read, lba, i, k - 1, io) == [];
      assert BlockEvents(read, lba, i + 1, k, io) == [];
    }
  }

  /** The state after the residue has been loaded from the CBW. */
  function Loaded(st: State, cbw: Cbw): State {
    st.(csw := st.csw.(residue := cbw.dataTransferLength))
  }

  /**
   * READ(10) / WRITE(10) with every link check passing: the blocks of
   * LBA..LBA+count-1 in ascending order, the residue lowered by 512 per
   * block, PASS, the cleared sense, and one CSW.
   */
  lemma TransCompletes(st: State, cbw: Cbw, io: Io)
    requires cbw.cdb[0] == SbcRead10 || cbw.cdb[0] == SbcWrite10
    requires forall j :: 0 <= j < CdbBlockCount(cbw.cdb) ==> io.alive(j)
    ensures var read := cbw.cdb[0] == SbcRead10;
            var n := CdbBlockCount(cbw.cdb);
            var c := Csw(st.csw.signature, cbw.tag, Sub32(cbw.dataTransferLength, n * BlockSize),
                         CswStatusPass);
            Process(st, cbw, io) ==
              State(c, ClearedSense(),
                    st.trace + BlockEvents(read, CdbLba(cbw.cdb), 0, n, io) + [CswSent(c)])
  {
    var read := cbw.cdb[0] == SbcRead10;
    var n := CdbBlockCount(cbw.cdb);
    TransFromOutcome(Loaded(st, cbw), cbw, read, CdbLba(cbw.cdb), n, 0, io);
  }

  /**
   * READ(10) / WRITE(10) whose link check fails before block k: blocks
   * 0..k-1 only, the residue lowered by 512 per completed block, no CSW,
   * and the sense record and CSW status untouched.
   */
  lemma TransAborts(st: State, cbw: Cbw, io: Io, k: nat)
    requires cbw.cdb[0] == SbcRead10 || cbw.cdb[0] == SbcWrite10
    requires k < CdbBlockCount(cbw.cdb) && !io.alive(k)
    requires forall j :: 0 <= j < k ==> io.alive(j)
    ensures var read := cbw.cdb[0] == SbcRead10;
            Process(st, cbw, io) ==
              State(st.csw.(residue := Sub32(cbw.dataTransferLength, k * BlockSize)), st.sense,
                    st.trace + BlockEvents(read, CdbLba(cbw.cdb), 0, k, io))
  {
    var read := cbw.cdb[0] == SbcRead10;
    var n := CdbBlockCount(cbw.cdb);
    TransFromOutcome(Loaded(st, cbw), cbw, read, CdbLba(cbw.cdb), n, 0, io);
  }

  /**
   * A full send of a small response: the buffer, then one CSW with the
   * CBW's tag, PASS and the residue lowered by exactly the bytes sent;
   * the sense record ends cleared.
   */
  lemma DataSendFull(st: State, cbw: Cbw, buf: seq<byte>)
    requires |buf| < 0x100
    ensures var c := Csw(st.csw.signature, cbw.tag, Sub32(st.csw.residue, |buf|), CswStatusPass);
            DataSend(st, cbw, buf, |buf|) ==
              State(c, ClearedSense(), st.trace + [DataSent(buf), CswSent(c)])
  {
  }

  /**
   * A short send, as the code is written: a FAIL CSW with the residue
   * untouched, then a PASS CSW with the residue lowered anyway; the
   * hardware-error sense it set is overwritten by the cleared record.
   */
  lemma DataSendShort(st: State, cbw: Cbw, buf: seq<byte>, sent: int)
    requires |buf| < 0x100 && sent != |buf|
    ensures var fail := Csw(st.csw.signature, cbw.tag, st.csw.residue, CswStatusFail);
            var pass := Csw(st.csw.signature, cbw.tag, Sub32(st.csw.residue, |buf|), CswStatusPass);
            DataSend(st, cbw, buf, sent) ==
              State(pass, ClearedSense(), st.trace + [DataSent(buf), CswSent(fail), CswSent(pass)])
  {
  }

  /** Without underflow, a small response lowers the residue by exactly the bytes sent. */
  lemma DataSendResidueExact(st: State, cbw: Cbw, buf: seq<byte>, sent: int)
    requires |buf| < 0x100 && |buf| <= st.csw.residue
    ensures DataSend(st, cbw, buf, sent).csw.residue == st.csw.residue - |buf|
  {
    Sub32Exact(st.csw.residue, |buf|);
  }

  /**
   * TEST UNIT READY, START STOP UNIT, PREVENT ALLOW MEDIUM REMOVAL and
   * VERIFY(10): PASS, the cleared sense, no data phase, and one CSW whose
   * residue is the declared length.
   */
  lemma NoDataCommandsPass(st: State, cbw: Cbw, io: Io)
    requires cbw.cdb[0] in {SpcTestUnitReady, SbcStartStopUnit, SpcPreventAllowMediumRemoval, SbcVerify10}
    ensures var c := Csw(st.csw.signature, cbw.tag, cbw.dataTransferLength, CswStatusPass);
            Process(st, cbw, io) == State(c, ClearedSense(), st.trace + [CswSent(c)])
  {
  }

  /**
   * An opcode with no case: FAIL, ILLEGAL REQUEST with INVALID COMMAND
   * OPERATION CODE (ASC 0x20, ASCQ 0x00), information LBA 0, no data phase,
   * and one CSW whose residue is the declared length.
   */
  lemma UnknownOpcodeFails(st: State, cbw: Cbw, io: Io)
    requires !IsKnownOpcode(cbw.cdb[0])
    ensures var c := Csw(st.csw.signature, cbw.tag, cbw.dataTransferLength, CswStatusFail);
            Process(st, cbw, io) ==
              State(c, SenseData(0xF0, SkIllegalRequest, [0, 0, 0, 0], 10, 0x20, 0x00),
                    st.trace + [CswSent(c)])
  {
  }

  /**
   * REQUEST SENSE sends the first min(CDB[4], 18) bytes of the sense record
   * as the previous command left it; afterwards the record is the cleared
   * one and the status PASS, whatever the send returned.
   */
  lemma RequestSenseReportsPrevious(st: State, cbw: Cbw, io: Io)
    requires cbw.cdb[0] == SpcRequestSense
    ensures var r := Process(st, cbw, io);
            && |r.trace| > |st.trace|
            && r.trace[|st.trace|] == DataSent(SenseBytes(st.sense)[..Min(cbw.cdb[4], SenseSize)])
            && r.sense == ClearedSense() && r.csw.status == CswStatusPass
  {
  }

  /** INQUIRY sends min(CDB[4], 36) bytes of the INQUIRY data. */
  lemma InquirySends(st: State, cbw: Cbw, io: Io)
    requires cbw.cdb[0] == SpcInquiry
    ensures var r := Process(st, cbw, io);
            && |r.trace| > |st.trace|
            && r.trace[|st.trace|] == DataSent(InquiryData()[..Min(cbw.cdb[4], InquirySize)])
            && r.sense == ClearedSense() && r.csw.status == CswStatusPass
  {
  }

  /**
   * MODE SENSE sends the header, plus the Informational Exceptions page when
   * CDB[2] selects it or all pages, cut to the allocation byte (CDB[4] for
   * the 6-byte form, only CDB[8] for the 10-byte form).
   */
  lemma ModeSenseSends(st: State, cbw: Cbw, io: Io)
    requires cbw.cdb[0] == SpcModeSense6 || cbw.cdb[0] == SpcModeSense10
    ensures var sense10 := cbw.cdb[0] == SpcModeSense10;
            var data := ModeSenseData(sense10, WantsInfExpPage(cbw.cdb[2]));
            var alloc := if sense10 then cbw.cdb[8] else cbw.cdb[4];
            var r := Process(st, cbw, io);
            && |r.trace| > |st.trace|
            && r.trace[|st.trace|] == DataSent(data[..Min(alloc, |data|)])
            && r.sense == ClearedSense() && r.csw.status == CswStatusPass
  {
  }

  /** READ CAPACITY(10) sends its 8 bytes whatever the CDB or the declared length. */
  lemma ReadCapacitySends(st: State, cbw: Cbw, io: Io)
    requires cbw.cdb[0] == SbcReadCapacity10
    ensures var r := Process(st, cbw, io);
            && |r.trace| > |st.trace|
            && r.trace[|st.trace|] == DataSent(ReadCapacityData())
            && r.csw.residue == Sub32(cbw.dataTransferLength, 8)
  {
  }

  /**
   * READ FORMAT CAPACITIES sends its 12 bytes after clamping the residue to
   * at most 12, so the final residue is 0 when 12 or more bytes were
   * declared and wraps below zero otherwise.
   */
  lemma ReadFormatCapacitySends(st: State, cbw: Cbw, io: Io)
    requires cbw.cdb[0] == UfiReadFormatCapacities
    ensures var r := Process(st, cbw, io);
            && |r.trace| > |st.trace|
            && r.trace[|st.trace|] == DataSent(FormatCapacityData())
            && r.csw.residue == Sub32(Min(cbw.dataTransferLength, 12), 12)
            && (cbw.dataTransferLength >= 12 ==> r.csw.residue == 0)
  {
  }

  /** The number of bytes a command's small data phase sends (0 when it has none). */
  function SmallResponseLength(cbw: Cbw): nat {
    var op := cbw.cdb[0];
    if op == SpcRequestSense then Min(cbw.cdb[4], SenseSize)
    else if op == SpcInquiry then Min(cbw.cdb[4], InquirySize)
    else if op == SpcModeSense6 || op == SpcModeSense10 then |ModeSenseResponse(cbw, op == SpcModeSense10)|
    else if op == SbcReadCapacity10 then 8
    else if op == UfiReadFormatCapacities then 12
    else 0
  }

  predicate HasSmallDataPhase(op: byte) {
    op in {SpcRequestSense, SpcInquiry, SpcModeSense6, SpcModeSense10, SbcReadCapacity10,
           UfiReadFormatCapacities}
  }

  /**
   * How many CSWs a command emits: one, except that a READ(10)/WRITE(10)
   * whose link check fails emits none and a short send of a small response
   * emits two.
   */
  function CswsExpected(cbw: Cbw, io: Io): nat {
    var op := cbw.cdb[0];
    var n := CdbBlockCount(cbw.cdb);
    if op == SbcRead10 || op == SbcWrite10 then
      (if FirstDead(io.alive, 0, n) < n then 0 else 1)
    else if HasSmallDataPhase(op) && io.sent != SmallResponseLength(cbw) then 2
    else 1
  }

  /**
   * r extends the trace of st, keeps the CSW signature, and its new events
   * hold count CSWs, each carrying the given tag.
   */
  ghost predicate EmitsCsws(st: State, r: State, tag: u32, count: nat) {
    && |st.trace| <= |r.trace| && r.trace[..|st.trace|] == st.trace
    && r.csw.signature == CswSignature()
    && CswsTagged(r.trace[|st.trace|..], tag)
    && CswCount(r.trace[|st.trace|..]) == count
  }

  /**
   * The trace only grows, and every CSW a command emits carries that
   * command's tag and the CSW signature; their number is CswsExpected.
   */
  lemma ProcessCsws(st: State, cbw: Cbw, io: Io)
    requires st.csw.signature == CswSignature()
    ensures EmitsCsws(st, Process(st, cbw, io), cbw.tag, CswsExpected(cbw, io))
  {
    var op := cbw.cdb[0];
    var st0 := Loaded(st, cbw);
    if op == SbcRead10 || op == SbcWrite10 {
      TransCsws(st0, cbw, op == SbcRead10, io);
    } else if op == SpcRequestSense {
      DataSendCsws(st0, cbw, RequestSenseData(st0.sense, cbw), io.sent);
    } else if op == SpcInquiry {
      DataSendCsws(st0, cbw, InquiryResponse(cbw), io.sent);
    } else if op == SpcModeSense6 || op == SpcModeSense10 {
      DataSendCsws(st0, cbw, ModeSenseResponse(cbw, op == SpcModeSense10), io.sent);
    } else if op == SbcReadCapacity10 {
      DataSendCsws(st0, cbw, ReadCapacityData(), io.sent);
    } else if op == UfiReadFormatCapacities {
      var st1 := if st0.csw.residue > 12 then st0.(csw := st0.csw.(residue := 12)) else st0;
      DataSendCsws(st1, cbw, FormatCapacityData(), io.sent);
    } else {
      var st1 := if op in {SpcTestUnitReady, SbcStartStopUnit, SpcPreventAllowMediumRemoval, SbcVerify10}
                 then SensePass(st0) else SenseCommandInvalid(st0);
      var r := CswProcess(st1, cbw);
      assert Process(st, cbw, io) == r;
      assert r.trace[|st.trace|..] == [CswSent(r.csw)];
      assert CswCount([CswSent(r.csw)][1..]) == 0;
    }
  }

  /** The CSWs of the block phase: one if every link check passed, none otherwise. */
  lemma TransCsws(st: State, cbw: Cbw, read: bool, io: Io)
    requires st.csw.signature == CswSignature()
    ensures var n := CdbBlockCount(cbw.cdb);
            EmitsCsws(st, Trans(st, cbw, read, io), cbw.tag, if FirstDead(io.alive, 0, n) < n then 0 else 1)
  {
    var r := Trans(st, cbw, read, io);
    var n := CdbBlockCount(cbw.cdb);
    var k := FirstDead(io.alive, 0, n);
    var blocks := BlockEvents(read, CdbLba(cbw.cdb), 0, k, io);
    TransFromOutcome(st, cbw, read, CdbLba(cbw.cdb), n, 0, io);
    BlockEventsNoCsw(read, CdbLba(cbw.cdb), 0, k, io);
    NoCswCount(blocks);
    if k == n {
      assert r.trace == st.trace + (blocks + [CswSent(r.csw)]);
      var tail := r.trace[|st.trace|..];
      assert tail == blocks + [CswSent(r.csw)];
      CswCountAppend(blocks, [CswSent(r.csw)]);
      assert CswCount([CswSent(r.csw)][1..]) == 0;
    } else {
      assert r.trace == st.trace + blocks;
      assert r.trace[|st.trace|..] == blocks;
    }
  }

  /** The CSWs of a small data phase: one on a full send, two on a short one. */
  lemma DataSendCsws(st: State, cbw: Cbw, buf: seq<byte>, sent: int)
    requires |buf| < 0x100 && st.csw.signature == CswSignature()
    ensures EmitsCsws(st, DataSend(st, cbw, buf, sent), cbw.tag, if sent != |buf| then 2 else 1)
  {
    var r := DataSend(st, cbw, buf, sent);
    if sent != |buf| {
      DataSendShort(st, cbw, buf, sent);
      var fail := Csw(st.csw.signature, cbw.tag, st.csw.residue, CswStatusFail);
      var tail := [DataSent(buf), CswSent(fail), CswSent(r.csw)];
      assert r.trace[|st.trace|..] == tail;
      assert tail[1..][1..][1..] == [];
      assert CswCount(tail[1..][1..]) == 1;
    } else {
      DataSendFull(st, cbw, buf);
      var tail := [DataSent(buf), CswSent(r.csw)];
      assert r.trace[|st.trace|..] == tail;
      assert tail[1..][1..] == [];
      assert CswCount(tail[1..]) == 1;
    }
  }

  /**
   * End to end: an INQUIRY declaring and allocating 36 bytes, fully sent,
   * sends exactly the 36 bytes of INQUIRY data and then a PASS CSW with
   * residue 0.
   */
  lemma InquiryScenario(st: State, cbw: Cbw, io: Io)
    requires cbw.cdb[0] == SpcInquiry && cbw.cdb[4] == 36 && cbw.dataTransferLength == 36
    requires io.sent == 36
    ensures var c := Csw(st.csw.signature, cbw.tag, 0, CswStatusPass);
            Process(st, cbw, io) == State(c, ClearedSense(), st.trace + [DataSent(InquiryData()), CswSent(c)])
  {
    assert InquiryData()[..36] == InquiryData();
  }

  /**
   * End to end: READ(10) of two blocks at LBA 0 with 1024 bytes declared
   * reads LBA 0 then LBA 1, sends each, and ends with a PASS CSW, residue 0.
   */
  lemma ReadTwoBlocksScenario(st: State, cbw: Cbw, io: Io)
    requires cbw.cdb[0] == SbcRead10 && cbw.cdb[2..6] == [0, 0, 0, 0] && cbw.cdb[7] == 0 && cbw.cdb[8] == 2
    requires cbw.dataTransferLength == 1024 && io.alive(0) && io.alive(1)
    ensures var c := Csw(st.csw.signature, cbw.tag, 0, CswStatusPass);
            Process(st, cbw, io) ==
              State(c, ClearedSense(),
                    st.trace + [BlockRead(0), DataSent(io.disk(0)), BlockRead(1), DataSent(io.disk(1)), CswSent(c)])
  {
    assert CdbLba(cbw.cdb) == 0;
    TransCompletes(st, cbw, io);
    assert BlockEvents(true, 0, 0, 2, io) == [BlockRead(0), DataSent(io.disk(0)), BlockRead(1), DataSent(io.disk(1))] by {
      assert BlockEvents(true, 0, 0, 0, io) == [];
    }
  }

  /**
   * End to end: after an undefined opcode, a fully sent REQUEST SENSE for 18
   * bytes reports ILLEGAL REQUEST / INVALID COMMAND OPERATION CODE, and then
   * the sense is clear again.
   */
  lemma UnknownThenRequestSense(st: State, bad: Cbw, rs: Cbw, io1: Io, io2: Io)
    requires !IsKnownOpcode(bad.cdb[0])
    requires rs.cdb[0] == SpcRequestSense && rs.cdb[4] == 18 && io2.sent == 18
    ensures var st1 := Process(st, bad, io1);
            var st2 := Process(st1, rs, io2);
            && st1.csw.status == CswStatusFail
            && st2.trace[|st1.trace|] ==
                 DataSent([0xF0, 0, SkIllegalRequest, 0, 0, 0, 0, 10, 0, 0, 0, 0, 0x20, 0x00, 0, 0, 0, 0])
            && st2.sense == ClearedSense() && st2.csw.status == CswStatusPass
  {
    UnknownOpcodeFails(st, bad, io1);
  }
}
