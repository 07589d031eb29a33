/**
 * The wire structures of the mass-storage command engine: the Command Block
 * Wrapper and Command Status Wrapper of the USB Mass Storage Class Bulk-Only
 * Transport 1.0 (sections 5.1 and 5.2), the SCSI sense record, and the
 * fixed-format responses the engine builds for INQUIRY, MODE SENSE,
 * READ CAPACITY(10) and READ FORMAT CAPACITIES.
 *
 * Every structure is given as the bytes it occupies in memory on the
 * little-endian target, because the engine sends its structures by address.
 */
module MscWire {
  import opened ByteOrder

  // ---------------------------------------------------------------------
  // Configuration

  /** UDI_MSC_BLOCK_SIZE: the logical block length in bytes. */
  const BlockSize: nat := 512

  /** NUM_FAT_BLOCKS: the number of logical blocks the medium reports. */
  const NumFatBlocks: nat := 8000

  /** One logical block of data. */
  type Block = s: seq<byte> | |s| == 512 witness ZeroBlock()

  function ZeroBlock(): (r: seq<byte>)
    ensures |r| == 512
  {
    seq(512, _ => 0)
  }

  // ---------------------------------------------------------------------
  // SCSI operation codes (SPC-4, SBC-3, and the UFI READ FORMAT CAPACITIES)

  const SpcTestUnitReady: byte := 0x00
  const SpcRequestSense: byte := 0x03
  const SpcInquiry: byte := 0x12
  const SpcModeSense6: byte := 0x1A
  const SbcStartStopUnit: byte := 0x1B
  const SpcPreventAllowMediumRemoval: byte := 0x1E
  const UfiReadFormatCapacities: byte := 0x23
  const SbcReadCapacity10: byte := 0x25
  const SbcRead10: byte := 0x28
  const SbcWrite10: byte := 0x2A
  const SbcVerify10: byte := 0x2F
  const SpcModeSense10: byte := 0x5A

  /** The opcodes the dispatcher has a case for. */
  predicate IsKnownOpcode(op: byte) {
    op in {SpcTestUnitReady, SpcRequestSense, SpcInquiry, SpcModeSense6, SbcStartStopUnit,
           SpcPreventAllowMediumRemoval, UfiReadFormatCapacities, SbcReadCapacity10,
           SbcRead10, SbcWrite10, SbcVerify10, SpcModeSense10}
  }

  // ---------------------------------------------------------------------
  // Command Block Wrapper and Command Status Wrapper

  /** The 16-byte command descriptor block carried in a CBW. */
  type Cdb = s: seq<byte> | |s| == 16 witness seq(16, _ => 0)

  /**
   * A received CBW, field by field. The four-byte fields hold the value read
   * from memory (wire order is little-endian, as is the target).
   */
  datatype Cbw = Cbw(signature: u32, tag: u32, dataTransferLength: u32,
                     flags: byte, lun: byte, cbLength: byte, cdb: Cdb)

  /** CSW status codes. */
  const CswStatusPass: byte := 0x00
  const CswStatusFail: byte := 0x01
  const CswStatusPhaseError: byte := 0x02

  /** The dCSWSignature value, stored as CPU_TO_BE32(0x55534253). */
  function CswSignature(): u32 {
    CpuToBe32(0x5553_4253)
  }

  datatype Csw = Csw(signature: u32, tag: u32, residue: u32, status: byte)

  /** The 13 bytes the engine hands to the transport for a CSW. */
  function CswBytes(c: Csw): (r: seq<byte>)
    ensures |r| == 13
  {
    LeBytes32(c.signature) + LeBytes32(c.tag) + LeBytes32(c.residue) + [c.status]
  }

  /** Reading a CSW back from its 13 bytes. */
  function CswFromBytes(b: seq<byte>): Csw
    requires |b| == 13
  {
    Csw(FromLe32(b[0..4]), FromLe32(b[4..8]), FromLe32(b[8..12]), b[12])
  }

  /** The CSW signature goes on the wire as the ASCII letters "USBS". */
  lemma CswSignatureBytes()
    ensures LeBytes32(CswSignature()) == [0x55, 0x53, 0x42, 0x53]
  {
    CpuToBe32Layout(0x5553_4253);
  }

  /**
   * A CSW is its signature, tag and residue in little-endian order followed by
   * the status byte, and reading those 13 bytes back gives the same CSW.
   */
  lemma CswRoundTrip(c: Csw)
    ensures CswFromBytes(CswBytes(c)) == c
    ensures CswBytes(c)[4..8] == LeBytes32(c.tag) && CswBytes(c)[12] == c.status
  {
    var b := CswBytes(c);
    assert b[0..4] == LeBytes32(c.signature);
    assert b[4..8] == LeBytes32(c.tag);
    assert b[8..12] == LeBytes32(c.residue);
    LeBytes32RoundTrip(c.signature);
    LeBytes32RoundTrip(c.tag);
    LeBytes32RoundTrip(c.residue);
  }

  // ---------------------------------------------------------------------
  // Sense data (SPC-4 section 4.5.3, fixed format)

  const SenseValid: byte := 0x80
  const SenseCurrent: byte := 0x70
  const SkHardwareError: byte := 0x04
  const SkIllegalRequest: byte := 0x05
  const AscNoAdditionalSenseInfo: u16 := 0x0000
  const AscInvalidCommandOperationCode: u16 := 0x2000

  /** sizeof the fixed-format sense record. */
  const SenseSize: nat := 18

  type Bytes4 = s: seq<byte> | |s| == 4 witness [0, 0, 0, 0]

  /**
   * The fields of the sense record the engine ever writes. Obsolete,
   * command-specific information, field-replaceable-unit code and
   * sense-key-specific bytes are only ever zeroed.
   */
  datatype SenseData = SenseData(responseCode: byte, senseKey: byte, information: Bytes4,
                                 addSenseLen: byte, asc: byte, ascq: byte)

  /** The 18 bytes of the sense record in memory. */
  function SenseBytes(s: SenseData): (r: seq<byte>)
    ensures |r| == SenseSize
  {
    [s.responseCode, 0, s.senseKey] + s.information
    + [s.addSenseLen, 0, 0, 0, 0, s.asc, s.ascq, 0, 0, 0, 0]
  }

  /** The static record before any command: all bytes zero. */
  function InitialSense(): SenseData {
    SenseData(0, 0, [0, 0, 0, 0], 0, 0, 0)
  }

  /**
   * The cleared record: response code "valid, current error", additional
   * sense length 18 - 8, everything else zero.
   */
  function ClearedSense(): SenseData {
    SenseData(SenseValid + SenseCurrent, 0, [0, 0, 0, 0], (SenseSize - 8) as byte, 0, 0)
  }

  /**
   * The cleared record with a failure written over it: the sense key, the
   * LBA in the information field (each byte the C `lba >> n` truncated to a
   * byte), and the 16-bit additional sense split into code and qualifier.
   */
  function FailSense(key: byte, addSense: u16, lba: u32): SenseData {
    ClearedSense().(
      senseKey := key,
      information := [lba / 0x100_0000, lba / 0x1_0000 % 0x100, lba / 0x100 % 0x100, lba % 0x100],
      asc := addSense / 0x100,
      ascq := addSense % 0x100)
  }

  /** A cleared record reports "no sense" with the standard additional length. */
  lemma ClearedSenseLayout()
    ensures SenseBytes(ClearedSense()) == [0xF0, 0, 0, 0, 0, 0, 0, 10, 0, 0, 0, 0, 0, 0, 0, 0, 0, 0]
  {
  }

  /**
   * A failure record carries the key at byte 2, the LBA big-endian at bytes
   * 3..6, the additional length 10 at byte 7, and the high and low byte of
   * the additional sense code at bytes 12 and 13.
   */
  lemma FailSenseLayout(key: byte, addSense: u16, lba: u32)
    ensures SenseBytes(FailSense(key, addSense, lba))[0] == SenseValid + SenseCurrent
    ensures SenseBytes(FailSense(key, addSense, lba))[2] == key
    ensures FromBe32(SenseBytes(FailSense(key, addSense, lba))[3..7]) == lba
    ensures SenseBytes(FailSense(key, addSense, lba))[7] == 10
    ensures SenseBytes(FailSense(key, addSense, lba))[12] as int * 0x100
          + SenseBytes(FailSense(key, addSense, lba))[13] as int == addSense
  {
    var b := SenseBytes(FailSense(key, addSense, lba));
    assert b[3..7] == BeBytes32(lba);
    BeBytes32RoundTrip(lba);
  }

  // ---------------------------------------------------------------------
  // INQUIRY (SPC-4 section 6.4.2)

  /** The length of a C string: the bytes before its first zero byte. */
  function CStrLen(s: seq<byte>): (n: nat)
    ensures n <= |s|
    ensures forall i :: 0 <= i < n ==> s[i] != 0
    ensures n < |s| ==> s[n] == 0
  {
    if s == [] || s[0] == 0 then 0 else 1 + CStrLen(s[1..])
  }

  const Space: byte := 0x20

  /**
   * What padded_memcpy writes for a C string `src` and a length: the
   * characters of `src` up to its terminator, then spaces.
   */
  function Padded(src: seq<byte>, len: nat): (r: seq<byte>)
    ensures |r| == len
  {
    seq(len, i => PaddedAt(src, i))
  }

  /** Byte i of the padded copy: the source byte before the terminator, a space after it. */
  function PaddedAt(src: seq<byte>, i: int): byte {
    if 0 <= i < CStrLen(src) then src[i] else Space
  }

  /** ASCII text as bytes. */
  function Ascii(s: string): (r: seq<byte>)
    requires forall i :: 0 <= i < |s| ==> s[i] as int < 0x100
    ensures |r| == |s|
  {
    seq(|s|, i requires 0 <= i < |s| => s[i] as int)
  }

  /** PRODUCT_NAME as a terminated C string. */
  function ProductName(): seq<byte> {
    Ascii("Arduino MSC") + [0]
  }

  /**
   * The first eight bytes of the INQUIRY data: peripheral qualifier
   * "connected" with device type "direct access" (0), removable medium (RMB,
   * 0x80), version 2, response data format SPC-2 (2), additional length
   * 36 - 4, and three zero flag bytes.
   */
  function InquiryHeader(): seq<byte> {
    [0x00, 0x80, 2, 0x02, 36 - 4, 0, 0, 0]
  }

  /** The product revision "1.00". */
  function InquiryRevision(): seq<byte> {
    Ascii("1.00")
  }

  /** sizeof the standard INQUIRY data. */
  const InquirySize: nat := 36

  /** The INQUIRY data after padded_memcpy has filled vendor and product ids. */
  function InquiryData(): (r: seq<byte>)
    ensures |r| == InquirySize
  {
    InquiryHeader() + Padded(ProductName(), 8 + 16) + InquiryRevision()
  }

  /**
   * The INQUIRY data is 36 bytes: a removable direct-access device with
   * additional length 32, "Arduino MSC" followed by 13 spaces across the
   * vendor and product fields, and revision "1.00".
   */
  lemma InquiryDataLayout()
    ensures InquiryData()[1] == 0x80 && InquiryData()[4] == 32
    ensures InquiryData()[8..32] == Ascii("Arduino MSC") + seq(13, _ => Space)
    ensures InquiryData()[32..] == Ascii("1.00")
  {
    ProductNameLength();
    PaddedLayout(ProductName(), 24);
    assert InquiryData()[8..32] == Padded(ProductName(), 24);
  }

  /** PRODUCT_NAME holds 11 characters before its terminator. */
  lemma ProductNameLength()
    ensures CStrLen(ProductName()) == 11
    ensures ProductName()[..11] == Ascii("Arduino MSC")
  {
    var name := ProductName();
    forall i | 0 <= i < 11 ensures name[i] != 0 {
      assert name[i] == "Arduino MSC"[i] as int;
    }
    CStrLenAt(name, 11);
  }

  /** A padded copy is the string's characters, then spaces up to the length. */
  lemma PaddedLayout(src: seq<byte>, len: nat)
    requires CStrLen(src) <= len
    ensures Padded(src, len) == src[..CStrLen(src)] + seq(len - CStrLen(src), _ => Space)
  {
  }

  /** A C string whose first zero byte is at index n has length n. */
  lemma {:induction false} CStrLenAt(s: seq<byte>, n: nat)
    requires n < |s| && s[n] == 0
    requires forall i :: 0 <= i < n ==> s[i] != 0
    ensures CStrLen(s) == n
  {
    if n > 0 {
      CStrLenAt(s[1..], n - 1);
    }
  }

  // ---------------------------------------------------------------------
  // MODE SENSE(6) and MODE SENSE(10)

  const ModeAll: byte := 0x3F
  const ModeInfExp: byte := 0x1C
  const InfExpPageLength: byte := 0x0A
  const MrieNoSense: byte := 0x05

  const ModeHeader6Size: nat := 4
  const ModeHeader10Size: nat := 8
  const InfExpPageSize: nat := 12

  /**
   * The page selection test: the page code of CDB byte 2 (its low six bits,
   * `CDB[2] & 0x3F`) asks for the Informational Exceptions page or for all
   * pages.
   */
  predicate WantsInfExpPage(cdb2: byte) {
    var mode := cdb2 % 0x40;
    mode == ModeInfExp || mode == ModeAll
  }

  /** The length of the mode parameter data before truncation. */
  function ModeSenseTotal(sense10: bool, withPage: bool): (n: nat)
    ensures n <= 20
  {
    (if sense10 then ModeHeader10Size else ModeHeader6Size) + (if withPage then InfExpPageSize else 0)
  }

  /** The Informational Exceptions control page: code, length, MRIE "no sense". */
  function InfExpPage(): (r: seq<byte>)
    ensures |r| == InfExpPageSize
  {
    [ModeInfExp, InfExpPageLength, 0, MrieNoSense, 0, 0, 0, 0, 0, 0, 0, 0]
  }

  /**
   * The zeroed mode-sense buffer with the header filled in and, when asked
   * for, the page after it. The MODE SENSE(6) header holds `total - 1` in its
   * first byte; the MODE SENSE(10) header holds cpu_to_be16(total - 2) in its
   * first two.
   */
  function ModeSenseData(sense10: bool, withPage: bool): (r: seq<byte>)
    ensures |r| == ModeSenseTotal(sense10, withPage)
  {
    var total := ModeSenseTotal(sense10, withPage);
    var header :=
      if sense10 then LeBytes16(CpuToBe16(total - 2)) + [0, 0, 0, 0, 0, 0]
      else [total - 1, 0, 0, 0];
    header + (if withPage then InfExpPage() else [])
  }

  /**
   * The mode data length counts the bytes after the length field of the
   * whole (untruncated) response: total - 1 for MODE SENSE(6), total - 2
   * big-endian for MODE SENSE(10); the page follows the header exactly when
   * it was asked for.
   */
  lemma ModeSenseDataLayout(sense10: bool, withPage: bool)
    ensures var r := ModeSenseData(sense10, withPage);
            var hdr := if sense10 then ModeHeader10Size else ModeHeader6Size;
            && (sense10 ==> r[0] as int * 0x100 + r[1] as int == |r| - 2)
            && (!sense10 ==> r[0] == |r| - 1)
            && (withPage ==> r[hdr..] == InfExpPage())
            && (!withPage ==> |r| == hdr)
  {
    var total := ModeSenseTotal(sense10, withPage);
    if sense10 {
      CpuToBe16Layout(total - 2);
    }
  }

  // ---------------------------------------------------------------------
  // READ CAPACITY(10) (SBC-3) and READ FORMAT CAPACITIES (UFI)

  /**
   * The READ CAPACITY(10) parameter data: the last LBA and the block length,
   * each stored through cpu_to_be32.
   */
  function ReadCapacityData(): (r: seq<byte>)
    ensures |r| == 8
  {
    LeBytes32(CpuToBe32(NumFatBlocks - 1)) + LeBytes32(CpuToBe32(BlockSize))
  }

  /** READ CAPACITY(10) reports max LBA 7999 and block length 512, both big-endian. */
  lemma ReadCapacityLayout()
    ensures ReadCapacityData() == [0, 0, 0x1F, 0x3F, 0, 0, 0x02, 0]
    ensures FromBe32(ReadCapacityData()[0..4]) == NumFatBlocks - 1
    ensures FromBe32(ReadCapacityData()[4..8]) == BlockSize
  {
    CpuToBe32Layout(NumFatBlocks - 1);
    CpuToBe32Layout(BlockSize);
  }

  /**
   * The READ FORMAT CAPACITIES response: a capacity list header (length 8)
   * and one descriptor with the block count, descriptor code 2 "formatted
   * media", and the block length in three bytes.
   */
  function FormatCapacityData(): (r: seq<byte>)
    ensures |r| == 12
  {
    [0, 0, 0, 8,
     NumFatBlocks / 0x100_0000 % 0x100, NumFatBlocks / 0x1_0000 % 0x100,
     NumFatBlocks / 0x100 % 0x100, NumFatBlocks % 0x100,
     2, 0, BlockSize / 0x100 % 0x100, 0]
  }

  /** The descriptor declares 8000 blocks of 512 bytes as formatted media. */
  lemma FormatCapacityLayout()
    ensures FormatCapacityData()[3] == 8
    ensures FromBe32(FormatCapacityData()[4..8]) == NumFatBlocks
    ensures FormatCapacityData()[8] == 2
    ensures FormatCapacityData()[9] as int * 0x1_0000 + FormatCapacityData()[10] as int * 0x100
            + FormatCapacityData()[11] as int == BlockSize
  {
  }
}
