/**
 * The command engine as the firmware runs it: one object holding the
 * persistent CSW record, the persistent sense record and the static INQUIRY
 * buffer, with one method per routine. Every method is proved to perform
 * the transition of the same name in MscSpec. What the transport hands to
 * the host and what the engine asks of the block store are recorded in the
 * ghost trace.
 */
module Msc {
  import opened ByteOrder
  import opened MscWire
  import MscSpec

  /**
   * padded_memcpy: copy len bytes of the C string src into dst at off,
   * writing spaces once its terminator is reached (the terminator is never
   * stepped over, so src needs one).
   */
  method PaddedMemcpy(dst: array<byte>, off: nat, src: seq<byte>, len: nat)
    requires off + len <= dst.Length
    requires CStrLen(src) < |src|
    modifies dst
    ensures dst[off..off + len] == Padded(src, len)
    ensures dst[..off] == old(dst[..off]) && dst[off + len..] == old(dst[off + len..])
  {
    var s := 0;
    for i := 0 to len
      invariant s == if i < CStrLen(src) then i else CStrLen(src)
      invariant forall j :: off <= j < off + i ==> dst[j] == PaddedAt(src, j - off)
      invariant forall j :: 0 <= j < off || off + len <= j < dst.Length ==> dst[j] == old(dst[j])
    {
      if src[s] != 0 {
        dst[off + i] := src[s];
        s := s + 1;
      } else {
        dst[off + i] := Space;
      }
    }
  }

  /**
   * The address and block count of READ(10) / WRITE(10), stored byte by
   * byte through MSB0..MSB3 and MSB/LSB: CDB[2..5] and CDB[7..8], most
   * significant first.
   */
  method DecodeTrans(cdb: Cdb) returns (addr: u32, nbBlock: u16)
    ensures addr == FromBe32(cdb[2..6])
    ensures nbBlock == cdb[7] as int * 0x100 + cdb[8] as int
  {
    addr := 0;
    addr := StoreMsbK(addr, 0, cdb[2]);
    addr := StoreMsbK(addr, 1, cdb[3]);
    addr := StoreMsbK(addr, 2, cdb[4]);
    addr := StoreMsbK(addr, 3, cdb[5]);
    nbBlock := 0;
    nbBlock := StoreMsb(nbBlock, cdb[7]);
    nbBlock := StoreLsb(nbBlock, cdb[8]);
    StoreMsb0To3(0, cdb[2], cdb[3], cdb[4], cdb[5]);
    assert cdb[2..6] == [cdb[2], cdb[3], cdb[4], cdb[5]];
    StoreMsbLsb(0, cdb[7], cdb[8]);
  }

  /** The readiness check of TEST UNIT READY, which always answers ready. */
  function UnitReady(): bool {
    true
  }

  class MscEngine {
    var csw: Csw
    var sense: SenseData
    ghost var trace: seq<MscSpec.Event>
    /** The static INQUIRY record: header, vendor and product fields, revision. */
    const inquiry: array<byte>

    ghost function Snapshot(): MscSpec.State
      reads this
    {
      MscSpec.State(csw, sense, trace)
    }

    /** The INQUIRY record keeps its size, its header and its revision. */
    ghost predicate Valid()
      reads this, inquiry
    {
      && inquiry.Length == InquirySize
      && inquiry[..8] == InquiryHeader()
      && inquiry[32..] == InquiryRevision()
    }

    /** The static initialisers: CSW {signature, 0, 0, 0}, sense zero, empty names. */
    constructor()
      ensures Valid() && Snapshot() == MscSpec.Initial()
      ensures fresh(inquiry)
    {
      csw := Csw(CswSignature(), 0, 0, CswStatusPass);
      sense := InitialSense();
      trace := [];
      var init := InquiryHeader() + seq(8 + 16, _ => 0) + InquiryRevision();
      inquiry := new byte[InquirySize](i requires 0 <= i < InquirySize => init[i]);
    }

    // -------------------------------------------------------------------
    // Sense routines

    method ClearSense()
      modifies this
      ensures Snapshot() == MscSpec.ClearSense(old(Snapshot()))
    {
      sense := InitialSense();
      sense := sense.(responseCode := SenseValid + SenseCurrent,
                      addSenseLen := (SenseSize - 8) as byte);
    }

    method SenseFail(key: byte, addSense: u16, lba: u32)
      modifies this
      ensures Snapshot() == MscSpec.SenseFail(old(Snapshot()), key, addSense, lba)
    {
      ClearSense();
      csw := csw.(status := CswStatusFail);
      sense := sense.(senseKey := key);
      sense := sense.(information := [(lba / 0x100_0000) as byte, (lba / 0x1_0000 % 0x100) as byte,
                                      (lba / 0x100 % 0x100) as byte, (lba % 0x100) as byte]);
      sense := sense.(asc := (addSense / 0x100) as byte);
      sense := sense.(ascq := (addSense % 0x100) as byte);
    }

    method SensePass()
      modifies this
      ensures Snapshot() == MscSpec.SensePass(old(Snapshot()))
    {
      ClearSense();
      csw := csw.(status := CswStatusPass);
    }

    method SenseFailHardware()
      modifies this
      ensures Snapshot() == MscSpec.SenseFailHardware(old(Snapshot()))
    {
      SenseFail(SkHardwareError, AscNoAdditionalSenseInfo, 0);
    }

    method SenseCommandInvalid()
      modifies this
      ensures Snapshot() == MscSpec.SenseCommandInvalid(old(Snapshot()))
    {
      SenseFail(SkIllegalRequest, AscInvalidCommandOperationCode, 0);
    }

    // -------------------------------------------------------------------
    // CSW and small data phase

    /** Hand the CSW record to the bulk IN endpoint. */
    method CswSend()
      modifies this
      ensures csw == old(csw) && sense == old(sense)
      ensures trace == old(trace) + [MscSpec.CswSent(csw)]
    {
      trace := trace + [MscSpec.CswSent(csw)];
    }

    method CswProcess(cbw: Cbw)
      modifies this
      ensures Snapshot() == MscSpec.CswProcess(old(Snapshot()), cbw)
    {
      csw := csw.(tag := cbw.tag);
      csw := csw.(residue := CpuToLe32(csw.residue));
      CswSend();
    }

    /** sent is what USB_Send reports for the buffer. */
    method DataSend(cbw: Cbw, buf: seq<byte>, sent: int)
      requires |buf| < 0x100
      modifies this
      ensures Snapshot() == MscSpec.DataSend(old(Snapshot()), cbw, buf, sent)
    {
      trace := trace + [MscSpec.DataSent(buf)];
      if sent != |buf| {
        SenseFailHardware();
        CswProcess(cbw);
      }
      SensePass();
      csw := csw.(residue := Sub32(csw.residue, |buf|));
      CswProcess(cbw);
    }

    // -------------------------------------------------------------------
    // Command handlers

    method RequestSense(cbw: Cbw, sent: int)
      modifies this
      ensures Snapshot() == MscSpec.RequestSense(old(Snapshot()), cbw, sent)
    {
      var length: nat := cbw.cdb[4];
      if length > SenseSize {
        length := SenseSize;
      }
      DataSend(cbw, SenseBytes(sense)[..length], sent);
    }

    method ReadFormatCapacity(cbw: Cbw, sent: int)
      modifies this
      ensures Snapshot() == MscSpec.ReadFormatCapacity(old(Snapshot()), cbw, sent)
    {
      var buf: seq<byte> := [0, 0, 0, 8,
                             NumFatBlocks / 0x100_0000 % 0x100, NumFatBlocks / 0x1_0000 % 0x100,
                             NumFatBlocks / 0x100 % 0x100, NumFatBlocks % 0x100,
                             2, 0, BlockSize / 0x100 % 0x100, 0];
      var length: nat := 12;
      if csw.residue > length {
        csw := csw.(residue := length);
      }
      FormatCapacityLayout();
      DataSend(cbw, buf, sent);
    }

    /** Write the product name over the vendor and product fields of the INQUIRY record. */
    method FillInquiry()
      requires Valid()
      modifies inquiry
      ensures Valid() && inquiry[..] == InquiryData()
    {
      ghost var header := inquiry[..8];
      ghost var revision := inquiry[32..];
      ProductNameLength();
      PaddedMemcpy(inquiry, 8, ProductName(), 8 + 16);
      assert inquiry[..8] == header && inquiry[32..] == revision;
      assert inquiry[..] == inquiry[..8] + inquiry[8..32] + inquiry[32..];
    }

    method Inquiry(cbw: Cbw, sent: int)
      requires Valid()
      modifies this, inquiry
      ensures Valid()
      ensures Snapshot() == MscSpec.Inquiry(old(Snapshot()), cbw, sent)
    {
      FillInquiry();
      var length: nat := cbw.cdb[4];
      if length > InquirySize {
        length := InquirySize;
      }
      DataSend(cbw, inquiry[..length], sent);
    }

    method TestUnitReady(cbw: Cbw)
      modifies this
      ensures Snapshot() == MscSpec.PassNoData(old(Snapshot()), cbw)
    {
      if UnitReady() {
        SensePass();
      }
      CswProcess(cbw);
    }

    method ModeSense(cbw: Cbw, sense10: bool, sent: int)
      modifies this
      ensures Snapshot() == MscSpec.ModeSense(old(Snapshot()), cbw, sense10, sent)
    {
      var requestLgt: nat;
      var dataSenseLgt: nat;
      if sense10 {
        requestLgt := cbw.cdb[8];
        dataSenseLgt := ModeHeader10Size;
      } else {
        requestLgt := cbw.cdb[4];
        dataSenseLgt := ModeHeader6Size;
      }
      var mode := cbw.cdb[2] % 0x40;
      var withPage := false;
      if mode == ModeInfExp || mode == ModeAll {
        withPage := true;
        dataSenseLgt := dataSenseLgt + InfExpPageSize;
      }
      if requestLgt > dataSenseLgt {
        requestLgt := dataSenseLgt;
      }
      var data := ModeSenseData(sense10, withPage);
      DataSend(cbw, data[..requestLgt], sent);
    }

    method PreventAllowMediumRemoval(cbw: Cbw)
      modifies this
      ensures Snapshot() == MscSpec.PassNoData(old(Snapshot()), cbw)
    {
      SensePass();
      CswProcess(cbw);
    }

    method StartStopUnit(cbw: Cbw)
      modifies this
      ensures Snapshot() == MscSpec.PassNoData(old(Snapshot()), cbw)
    {
      SensePass();
      CswProcess(cbw);
    }

    method ReadCapacity(cbw: Cbw, sent: int)
      modifies this
      ensures Snapshot() == MscSpec.ReadCapacity(old(Snapshot()), cbw, sent)
    {
      var maxLba: u32 := NumFatBlocks - 1;
      var blockLen := CpuToBe32(BlockSize);
      maxLba := CpuToBe32(maxLba);
      DataSend(cbw, LeBytes32(maxLba) + LeBytes32(blockLen), sent);
    }

    /**
     * One block of READ(10) / WRITE(10): a read takes read_block's data for
     * the LBA and sends it, a write receives io.received(i), writes it and
     * signals; then the residue drops by one block.
     */
    method TransferBlock(read: bool, addr: u32, i: nat, io: MscSpec.Io)
      modifies this
      ensures Snapshot() == MscSpec.TransBlock(old(Snapshot()), read, addr, i, io)
    {
      if read {
        var block := io.disk(Add32(addr, i));
        trace := trace + [MscSpec.BlockRead(Add32(addr, i))];
        trace := trace + [MscSpec.DataSent(block)];
      } else {
        var block := io.received(i);
        trace := trace + [MscSpec.BlockWrite(Add32(addr, i), block)];
        trace := trace + [MscSpec.LedSignal];
      }
      csw := csw.(residue := Sub32(csw.residue, BlockSize));
    }

    /**
     * READ(10) / WRITE(10). Before block i the link is checked
     * (io.alive(i)); a failed check ends the command with no CSW.
     */
    method SbcTrans(cbw: Cbw, read: bool, io: MscSpec.Io)
      modifies this
      ensures Snapshot() == MscSpec.Trans(old(Snapshot()), cbw, read, io)
    {
      var addr, nbBlock := DecodeTrans(cbw.cdb);
      var i: nat := 0;
      while i < nbBlock
        invariant i <= nbBlock
        invariant MscSpec.TransFrom(Snapshot(), cbw, read, addr, nbBlock, i, io)
               == MscSpec.Trans(old(Snapshot()), cbw, read, io)
        decreases nbBlock - i
      {
        if !io.alive(i) {
          return;
        }
        TransferBlock(read, addr, i, io);
        i := i + 1;
      }
      SensePass();
      CswProcess(cbw);
    }

    // -------------------------------------------------------------------
    // The dispatcher

    /**
     * msc_process_cbw. recv, the number of bytes received for the CBW, is
     * only read by the integrity checks, which are compiled out.
     */
    method ProcessCbw(cbw: Cbw, recv: u32, io: MscSpec.Io)
      requires Valid()
      modifies this, inquiry
      ensures Valid()
      ensures Snapshot() == MscSpec.Process(old(Snapshot()), cbw, io)
    {
      csw := csw.(residue := Le32ToCpu(cbw.dataTransferLength));
      var op := cbw.cdb[0];
      if op == SpcRequestSense {
        RequestSense(cbw, io.sent);
      } else if op == SpcInquiry {
        Inquiry(cbw, io.sent);
      } else if op == SpcModeSense6 {
        ModeSense(cbw, false, io.sent);
      } else if op == SpcModeSense10 {
        ModeSense(cbw, true, io.sent);
      } else if op == SpcTestUnitReady {
        TestUnitReady(cbw);
      } else if op == SbcReadCapacity10 {
        ReadCapacity(cbw, io.sent);
      } else if op == SbcStartStopUnit {
        StartStopUnit(cbw);
      } else if op == SpcPreventAllowMediumRemoval {
        PreventAllowMediumRemoval(cbw);
      } else if op == SbcVerify10 {
        SensePass();
        CswProcess(cbw);
      } else if op == SbcRead10 {
        SbcTrans(cbw, true, io);
      } else if op == SbcWrite10 {
        SbcTrans(cbw, false, io);
      } else if op == UfiReadFormatCapacities {
        ReadFormatCapacity(cbw, io.sent);
      } else {
        SenseCommandInvalid();
        CswProcess(cbw);
      }
    }
  }
}
