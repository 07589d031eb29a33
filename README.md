# PluggableUSB_MSC in Dafny

This project models the USB Mass Storage (Bulk-Only Transport) engine of the
PluggableUSB_MSC Arduino library, together with the byte-order macros it relies
on and its block-device classes.

A host sends a Command Block Wrapper (CBW) that carries a SCSI command
descriptor block (CDB). The engine loads the CSW data residue from the CBW's
declared transfer length and dispatches on the opcode. It then answers in one
of three ways:

- with a small fixed response: REQUEST SENSE, INQUIRY, MODE SENSE(6)/(10),
  READ CAPACITY(10) or READ FORMAT CAPACITIES;
- with no data phase: TEST UNIT READY, START STOP UNIT, PREVENT ALLOW MEDIUM
  REMOVAL or VERIFY(10);
- with a block-by-block transfer: READ(10) or WRITE(10).

It finishes with a Command Status Wrapper (CSW), which carries the CBW's tag,
the residue and a status. The engine keeps two persistent records, the CSW and
the fixed-format sense data, and every routine updates them in place.

The project has these files:

- `byte_order.dfy` (module `ByteOrder`): the macros of `src/compiler.h`.
  - `swap16` and `swap32`, the `le*`/`be*` conversions, and `MSB`/`LSB`,
    `MSBn`/`LSBn` over a little-endian memory view.
  - 32-bit wrap-around subtraction and addition (`Sub32`, `Add32`).
- `msc_wire.dfy` (module `MscWire`): the records and byte layouts of
  `src/msc.cpp`.
  - The CBW, the CSW and its 13 bytes, and the sense record and its 18 bytes.
  - The INQUIRY data, the MODE SENSE header and Informational Exceptions
    page, and the READ CAPACITY and READ FORMAT CAPACITIES responses.
- `msc_spec.dfy` (module `MscSpec`): every routine of the engine as a
  transition on `State(csw, sense, trace)`, plus the properties of those
  transitions.
  - The trace lists what was handed to the transport (`DataSent`, `CswSent`)
    and to the block store (`BlockRead`, `BlockWrite`, `LedSignal`).
  - The collaborators the engine calls are given by an `Io` value:
    - what `USB_Send` reports for a small response;
    - what `USB_Ok` answers before block i;
    - what `read_block` yields for an LBA;
    - what `USB_Recv` delivers for block i.
- `msc_engine.dfy` (module `Msc`): class `MscEngine`, the imperative engine.
  - Fields `csw` and `sense`, a ghost `trace`, and the static INQUIRY record
    as an `array<byte>`.
  - Each method is proved to perform the `MscSpec` transition of the same
    name.
  - The module also holds `padded_memcpy` as a loop over the array.
- `mtd.dfy` (module `MtdApi`): the `MtdRet`/`MtdState` enumerations and the
  base `Mtd` device.
  - Also the documented three-phase protocol: init, then start, then wait.
- `dynamic_mtd.dfy` (module `DynamicMtdDevice`): class `DynamicMtd`.
  - It fills a caller's array block by block from `fat_read_block`, which is
    given as a function from block number to 512 bytes.

Some of what the code does as written is unusual, and the model reflects it
exactly:

- **A short send produces two CSWs.** In `udi_msc_data_send`, when `USB_Send`
  reports fewer bytes than requested, the routine:
  1. sets a hardware-error sense and emits a FAIL CSW;
  2. does not return, but sets PASS, clears the sense, lowers the residue and
     emits a second CSW.

  `MscSpec.DataSendShort` states this outcome and `MscSpec.ProcessCsws` counts
  it. The comment in the source says the routine was meant to stop after the
  failure.
- **The residue wraps.** The residue is an unsigned 32-bit value and nothing
  bounds it by the bytes actually sent, so it wraps below zero.
  `MscSpec.DataSendResidueExact` gives the exact difference when the host
  declared enough.
- **READ(10)/WRITE(10) are not checked against the capacity.** The LBA and
  block count are used as received, and LBA + i wraps modulo 2^32.
- **MODE SENSE(10) reads only CDB[8]** as its allocation length.
- **`led_signal` fires only on writes.**
- **The CSW status persists between commands.** Only the sense routines set
  it, and a transfer aborted by a failed link check leaves it as it was.
- **The integrity checks are compiled out** (`USE_MSC_CHECKS` is 0). No CBW
  signature, LUN or length is checked, and `udi_msc_cbw_validate` accepts
  everything.

The source declares the handlers without a CBW parameter but defines them
with one. The model gives every handler the CBW being processed, and the CSW
tag comes from it.

The protocol header files are not part of this model: `spc_protocol.h`,
`sbc_protocol.h` and `usb_protocol_msc.h`. Their constants are taken from the
following standards:

- the CSW signature "USBS" and the status codes PASS 0, FAIL 1 and PHASE
  ERROR 2, from the USB Mass Storage Class Bulk-Only Transport 1.0,
  section 5.2;
- the opcodes, the sense-key and additional-sense codes, the 18-byte
  fixed-format sense record and the mode header sizes 4 and 8, from SPC-4 and
  SBC-3;
- the 12-byte Informational Exceptions control page, with page code 0x1C,
  page length 0x0A and MRIE "no sense" 0x05, from section 7.5.8 of SPC-4.

## Model

| member | source | states |
|---|---|---|
| ByteOrder.Sub32Exact | src/msc.cpp:438 | when no more bytes are subtracted than the residue holds, the unsigned 32-bit decrement is the exact difference |
| ByteOrder.Sub32Twice | src/msc.cpp:787-818 | two successive wrapping decrements equal one decrement by their sum, so k blocks lower the residue by 512·k modulo 2^32 |
| ByteOrder.LeBytes16RoundTrip | src/compiler.h:68-69 | a 16-bit value is recovered from its little-endian byte view |
| ByteOrder.FromLe16RoundTrip | src/compiler.h:68-69 | two bytes are recovered from the 16-bit value they form in little-endian memory |
| ByteOrder.LeBytes32RoundTrip | src/compiler.h:73-76 | a 32-bit value is recovered from its little-endian byte view |
| ByteOrder.FromLe32RoundTrip | src/compiler.h:73-76 | four bytes are recovered from the 32-bit value they form in little-endian memory |
| ByteOrder.BeBytes32RoundTrip | src/msc.cpp:768-771 | a 32-bit value is recovered from its big-endian bytes (the LBA order of the CDB and of the sense information field) |
| ByteOrder.Swap16Bytes | src/compiler.h:19-20 | swap16 exchanges the two bytes of a 16-bit value |
| ByteOrder.Swap16Involution | src/compiler.h:19-20 | swap16 is its own inverse |
| ByteOrder.Swap32Bytes | src/compiler.h:45 | swap32 reverses the four bytes of a 32-bit value |
| ByteOrder.Swap32Involution | src/compiler.h:45 | swap32 is its own inverse |
| ByteOrder.LittleEndianConversionsAreIdentity | src/compiler.h:25-38 | le16_to_cpu, cpu_to_le16, le32_to_cpu and cpu_to_le32 leave every value unchanged |
| ByteOrder.BigEndianRoundTrip | src/compiler.h:30-43 | be16/be32 conversion in either direction followed by the other restores the value |
| ByteOrder.CpuToBe32Layout | src/compiler.h:52-55 | the memory bytes of cpu_to_be32(x) are the bytes of x, most significant first |
| ByteOrder.CpuToBe16Layout | src/compiler.h:30-33 | the memory bytes of cpu_to_be16(x) are x's high byte, then its low byte |
| ByteOrder.MsbLsbRecompose | src/compiler.h:68-69 | MSB(x)·256 + LSB(x) == x, and MSB and LSB are the high and low bytes |
| ByteOrder.StoreMsbLsb | src/compiler.h:68-69 | storing hi through MSB and lo through LSB yields hi·256 + lo, whatever the value was before |
| ByteOrder.MsbKOrder | src/compiler.h:73-76 | MSB0W..MSB3W are the bytes of a 32-bit value from most to least significant |
| ByteOrder.LsbKOrder | src/compiler.h:77-80 | LSB0W..LSB3W are the bytes from least to most significant, the MSB accessors in reverse order |
| ByteOrder.StoreMsb0To3 | src/compiler.h:113-116 | storing b0..b3 through MSB0..MSB3 yields b0<<24 \| b1<<16 \| b2<<8 \| b3, whatever the value was before |
| MscWire.CswSignatureBytes | src/msc.cpp:79 | the stored CSW signature CPU_TO_BE32(0x55534253) goes on the wire as "USBS" |
| MscWire.CswRoundTrip | src/msc.cpp:476-478 | the 13 CSW bytes are signature, tag and residue little-endian, then the status, and reading them back gives the same CSW |
| MscWire.ClearedSenseLayout | src/msc.cpp:483-488 | the cleared sense record is response code 0xF0 (valid, current), additional length 10, all other bytes zero |
| MscWire.FailSenseLayout | src/msc.cpp:490-502 | a failure record holds the key at byte 2, the LBA big-endian at bytes 3..6, length 10, and the additional sense code's high and low bytes at 12 and 13 |
| MscWire.Padded | src/msc.cpp:246-257 | padded_memcpy's result has exactly len bytes |
| MscWire.PaddedLayout | src/msc.cpp:246-257 | the padded copy is the string's characters up to its terminator, followed by spaces |
| MscWire.ProductNameLength | src/msc.cpp:58 | PRODUCT_NAME holds the 11 characters "Arduino MSC" before its terminator |
| MscWire.InquiryData | src/msc.cpp:574-590 | the INQUIRY record is 36 bytes |
| MscWire.InquiryDataLayout | src/msc.cpp:574-590 | the INQUIRY record declares a removable device with additional length 32, has "Arduino MSC" and 13 spaces across vendor and product ids, and revision "1.00" |
| MscWire.ModeSenseData | src/msc.cpp:633-703 | the mode sense buffer is header plus optional page, 4 + 12·page or 8 + 12·page bytes |
| MscWire.ModeSenseDataLayout | src/msc.cpp:690-700 | the mode data length is total−1 for MODE SENSE(6) and big-endian total−2 for MODE SENSE(10), from the untruncated total, and the page follows the header exactly when asked for |
| MscWire.ReadCapacityData | src/msc.cpp:737-751 | the READ CAPACITY(10) response is 8 bytes |
| MscWire.ReadCapacityLayout | src/msc.cpp:744-748 | READ CAPACITY(10) reports max LBA 7999 and block length 512, both big-endian |
| MscWire.FormatCapacityData | src/msc.cpp:546-557 | the READ FORMAT CAPACITIES response is 12 bytes |
| MscWire.FormatCapacityLayout | src/msc.cpp:546-557 | list length 8, block count 8000 big-endian, descriptor code 2 (formatted media), block length 512 in three bytes |
| MscSpec.RequestSenseData | src/msc.cpp:532-536 | REQUEST SENSE sends min(CDB[4], 18) bytes |
| MscSpec.InquiryResponse | src/msc.cpp:592-596 | INQUIRY sends min(CDB[4], 36) bytes |
| MscSpec.ModeSenseResponse | src/msc.cpp:657-686 | MODE SENSE never sends more than its 20-byte buffer |
| MscSpec.FirstDead | src/msc.cpp:787-794 | the block loop runs up to the first block whose link check fails: every earlier check passed and, unless all blocks ran, that one failed |
| MscSpec.BlockEventsAt | src/msc.cpp:787-818 | the transfer emits two events per block in ascending order: for block j, the read of LBA+j then its send, or the write of the j-th received block to LBA+j then the LED signal |
| MscSpec.BlockEventsNoCsw | src/msc.cpp:787-818 | the block phase emits no CSW |
| MscSpec.TransFromOutcome | src/msc.cpp:787-819 | the block loop runs the blocks before the first failed link check and lowers the residue by 512 for each; if none failed, PASS and one CSW follow, otherwise it stops with no CSW and nothing else changed |
| MscSpec.TransCompletes | src/msc.cpp:757-820 | READ(10)/WRITE(10) with every link check passing: LBA from CDB[2..5], count from CDB[7..8], blocks in order, residue = declared − 512·count (mod 2^32), PASS, cleared sense, one CSW with the tag |
| MscSpec.TransAborts | src/msc.cpp:787-794 | a failed link check before block k: blocks 0..k−1 only, residue = declared − 512·k, no CSW, and the sense and status left as before the command |
| MscSpec.DataSendFull | src/msc.cpp:425-440 | a full send emits the buffer and then one PASS CSW with the tag and the residue lowered by the bytes sent; the sense ends cleared |
| MscSpec.DataSendShort | src/msc.cpp:425-440 | a short send emits the buffer, a FAIL CSW with the residue untouched, then a PASS CSW with the residue lowered; the hardware-error sense is overwritten by the cleared record |
| MscSpec.DataSendResidueExact | src/msc.cpp:438 | when the residue covers the response, it drops by exactly the bytes sent |
| MscSpec.NoDataCommandsPass | src/msc.cpp:620-735 | TEST UNIT READY, START STOP UNIT, PREVENT ALLOW MEDIUM REMOVAL and VERIFY(10) (lines 360-364) set PASS and the cleared sense, send no data, and emit one CSW with the tag and the declared length as residue |
| MscSpec.UnknownOpcodeFails | src/msc.cpp:381-386 | an undefined opcode gives FAIL, ILLEGAL REQUEST with ASC 0x20 / ASCQ 0x00, information LBA 0, no data, and one CSW with the declared length as residue |
| MscSpec.RequestSenseReportsPrevious | src/msc.cpp:530-542 | REQUEST SENSE sends the first min(CDB[4], 18) bytes of the sense record as the previous command left it, then leaves the cleared sense and PASS |
| MscSpec.InquirySends | src/msc.cpp:569-618 | INQUIRY sends the first min(CDB[4], 36) bytes of the filled INQUIRY record, then PASS and the cleared sense |
| MscSpec.ModeSenseSends | src/msc.cpp:633-704 | MODE SENSE sends header and page (when CDB[2] & 0x3F is 0x1C or 0x3F), cut to CDB[4] for (6) or CDB[8] for (10) |
| MscSpec.ReadCapacitySends | src/msc.cpp:737-751 | READ CAPACITY(10) sends its 8 bytes whatever the CDB, and the residue drops by 8 (mod 2^32) |
| MscSpec.ReadFormatCapacitySends | src/msc.cpp:544-567 | READ FORMAT CAPACITIES sends its 12 bytes after clamping the residue to at most 12, so it ends at 0 when 12 or more were declared |
| MscSpec.ProcessCsws | src/msc.cpp:283-388 | every command only appends to the trace, keeps the CSW signature, and every CSW it emits carries the CBW's tag; it emits one CSW, none for an aborted transfer, two for a short small response |
| MscSpec.TransCsws | src/msc.cpp:787-819 | a transfer emits one CSW with the tag when every link check passes, none otherwise |
| MscSpec.DataSendCsws | src/msc.cpp:425-440 | a small response emits one CSW with the tag on a full send and two on a short one |
| MscSpec.InquiryScenario | src/msc.cpp:569-618 | INQUIRY with 36 declared and allocated, fully sent: exactly the 36-byte record, then a PASS CSW with residue 0 |
| MscSpec.ReadTwoBlocksScenario | src/msc.cpp:757-820 | READ(10) of 2 blocks at LBA 0 with 1024 declared: read 0, send, read 1, send, then a PASS CSW with residue 0 |
| MscSpec.UnknownThenRequestSense | src/msc.cpp:530-542 | after an undefined opcode, REQUEST SENSE for 18 bytes reports ILLEGAL REQUEST / INVALID COMMAND OPERATION CODE, and the sense is clear afterwards |
| Msc.PaddedMemcpy | src/msc.cpp:246-257 | writes exactly dst[off..off+len] with the padded copy of the terminated source string and leaves the rest of dst unchanged |
| Msc.DecodeTrans | src/msc.cpp:768-773 | the address stored byte by byte through MSB0..MSB3 is CDB[2..5] big-endian; the count through MSB/LSB is CDB[7]·256 + CDB[8] |
| Msc.MscEngine.constructor | src/msc.cpp:79-81 | the CSW starts as {signature, 0, 0, 0} and the sense record all zero |
| Msc.MscEngine.ClearSense | src/msc.cpp:483-488 | the sense becomes the cleared record; the CSW and trace are unchanged |
| Msc.MscEngine.SenseFail | src/msc.cpp:490-502 | status FAIL and the failure record for the key, additional sense code and LBA |
| Msc.MscEngine.SensePass | src/msc.cpp:504-508 | status PASS and the cleared sense |
| Msc.MscEngine.SenseFailHardware | src/msc.cpp:510-513 | SenseFail with HARDWARE ERROR, no additional sense, LBA 0 |
| Msc.MscEngine.SenseCommandInvalid | src/msc.cpp:522-525 | SenseFail with ILLEGAL REQUEST, INVALID COMMAND OPERATION CODE, LBA 0 |
| Msc.MscEngine.CswSend | src/msc.cpp:476-478 | the CSW record is appended to the trace and nothing else changes |
| Msc.MscEngine.CswProcess | src/msc.cpp:445-474 | the CSW takes the CBW's tag, keeps its residue, and is sent |
| Msc.MscEngine.DataSend | src/msc.cpp:425-440 | performs MscSpec.DataSend: the buffer, the extra FAIL CSW on a short send, PASS, residue lowered, CSW |
| Msc.MscEngine.RequestSense | src/msc.cpp:530-542 | performs MscSpec.RequestSense on the current sense record |
| Msc.MscEngine.ReadFormatCapacity | src/msc.cpp:544-567 | performs MscSpec.ReadFormatCapacity: residue clamped to 12, then the 12-byte response |
| Msc.MscEngine.FillInquiry | src/msc.cpp:574-590 | after padded_memcpy the static INQUIRY record equals the 36-byte INQUIRY data |
| Msc.MscEngine.Inquiry | src/msc.cpp:569-618 | performs MscSpec.Inquiry and keeps the INQUIRY record's header and revision |
| Msc.MscEngine.TestUnitReady | src/msc.cpp:620-631 | PASS (the unit is always ready), then the CSW |
| Msc.MscEngine.ModeSense | src/msc.cpp:633-704 | performs MscSpec.ModeSense for the 6- or 10-byte form |
| Msc.MscEngine.PreventAllowMediumRemoval | src/msc.cpp:706-722 | PASS, then the CSW |
| Msc.MscEngine.StartStopUnit | src/msc.cpp:724-735 | PASS, then the CSW |
| Msc.MscEngine.ReadCapacity | src/msc.cpp:737-751 | performs MscSpec.ReadCapacity: the 8 bytes built with cpu_to_be32 |
| Msc.MscEngine.TransferBlock | src/msc.cpp:796-817 | one block: read of LBA+i and its send, or receive, write and LED signal; residue lowered by 512 |
| Msc.MscEngine.SbcTrans | src/msc.cpp:757-820 | performs MscSpec.Trans: the block loop with its link checks, then PASS and the CSW |
| Msc.MscEngine.ProcessCbw | src/msc.cpp:283-388 | performs MscSpec.Process: residue from the CBW, then the handler for the opcode, the default being command-invalid and a CSW |
| MtdApi.MtdRetOutcomes | src/mtd.h:6-10 | MtdRet has exactly three outcomes, only Ok a success |
| MtdApi.MtdStateOutcomes | src/mtd.h:12-15 | MtdState has exactly two values, Ready and Empty |
| MtdApi.BaseMtdImplementsNothing | src/mtd.h:17-111 | the base device reports Empty, capacity 0 and block size 512, and returns NotImplemented from all six phase operations, whatever the arguments |
| MtdApi.IdleAgainIffWholeCycles | src/mtd.h:32-110 | a caller returns to rest exactly when its calls form whole init, start, wait cycles, each cycle in one direction |
| MtdApi.NotWholeCycleStuck | src/mtd.h:32-110 | calls that do not open with a whole cycle never return to rest |
| DynamicMtdDevice.ReadSpan | src/DynamicMtd.cpp:28-38 | n blocks occupy exactly n·512 bytes |
| DynamicMtdDevice.ReadSpanAt | src/DynamicMtd.cpp:28-38 | byte j of block i of the span is byte j of fat_read_block(start + i) |
| DynamicMtdDevice.BlockNumbers | src/DynamicMtd.cpp:31-33 | the blocks requested are start, start+1, … modulo 2^32 |
| DynamicMtdDevice.FatReadBlock | src/DynamicMtd.cpp:33 | fat_read_block writes the block's 512 bytes at the pointer and nothing else |
| DynamicMtdDevice.DynamicMtd.constructor | src/DynamicMtd.cpp:4-8 | startReadBlock and numReadBlocks start at 0 |
| DynamicMtdDevice.DynamicMtd.InitReadBlocks | src/DynamicMtd.cpp:20-26 | stores start and count and returns Ok |
| DynamicMtdDevice.DynamicMtd.StartReadBlocks | src/DynamicMtd.cpp:28-38 | fills exactly nb·512 bytes of dest with the blocks from startReadBlock on, in ascending order, leaves the rest of dest, and its own fields, unchanged, and returns Ok; the reach depends on its own count, not the one given to init |
| DynamicMtdDevice.DynamicMtd.WaitEndOfReadBlocks | src/DynamicMtd.cpp:40-43 | returns Ok whatever the abort flag, changing nothing |
| DynamicMtdDevice.DynamicMtdReady | src/DynamicMtd.h:15-17 | unlike the base device it reports a medium (Ready); like it, capacity 0 and block size 512 |

## Left out

- The USB transport primitives `USB_Send`, `USB_Recv`, `USB_Ok`, `USB_Stall` and `USB_Reset` are foreign calls. Their results enter as the `Io` value. What a block send returns is ignored, as it is in the code.
- `read_block`, `write_block` and its `WriteState`, and `led_signal` are external. They appear as trace events, and `read_block`'s data comes from `Io.disk`. A write inside a command does not change what a later read of `Io.disk` returns.
- `fat_read_block` is external; it is given as a function from block number to 512 bytes.
- The shared 512-byte `block_buffer` is modelled by the block value it carries, not as a buffer overwritten in place.
- The static MODE SENSE union is modelled by the bytes it holds when sent, not zeroed and filled in place.
- The handover and bootloader path (`USE_MSC_HANDOVER`) writes hardware registers and loops forever.
- Endpoint plumbing is left out: `msc_config`, `msc_reset`, `udd_ep_set_halt`, and the descriptor and PluggableUSB registration code.
- The integrity checks disabled by `USE_MSC_CHECKS` are left out, and so is the commented-out residue-stall block of `udi_msc_csw_process`. Neither is compiled.
- Msc.MscEngine.ProcessCbw: its `recv` argument (the number of bytes received) is only read by those disabled checks, so it has no effect.
- Debug output (`DBUG*`, `logmsg`) is left out.
- `DynamicMtd` inherits the three write-phase operations from the base device; those are covered by `MtdApi.BaseMtdImplementsNothing`.
- The protocol header files `spc_protocol.h`, `sbc_protocol.h` and `usb_protocol_msc.h` are not part of this model; their values are taken from the standards named above.
