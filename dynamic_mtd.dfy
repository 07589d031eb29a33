/**
 * DynamicMtd: a read-only block device whose blocks come from the FAT
 * emulation. fat_read_block is an oracle from block number to the 512 bytes
 * it produces.
 */
module DynamicMtdDevice {
  import opened ByteOrder
  import opened MtdApi
  import opened MscWire

  /**
   * The bytes of n consecutive blocks from start on (block numbers wrap
   * modulo 2^32, as the unsigned 32-bit sum does).
   */
  function ReadSpan(start: u32, n: nat, fat: u32 -> Block): (r: seq<byte>)
    ensures |r| == n * BlockSize
  {
    if n == 0 then [] else ReadSpan(start, n - 1, fat) + fat(Add32(start, n - 1))
  }

  /** Byte j of block i of a span is byte j of block start + i. */
  lemma {:induction false} ReadSpanAt(start: u32, n: nat, fat: u32 -> Block, i: nat, j: nat)
    requires i < n && j < BlockSize
    ensures ReadSpan(start, n, fat)[i * BlockSize + j] == fat(Add32(start, i))[j]
  {
    if i < n - 1 {
      ReadSpanAt(start, n - 1, fat, i, j);
    }
  }

  /** The block numbers start, start + 1, ..., start + n - 1, modulo 2^32. */
  function BlockNumbers(start: u32, n: nat): (r: seq<u32>)
    ensures |r| == n
    ensures forall i :: 0 <= i < n ==> r[i] == Add32(start, i)
  {
    if n == 0 then [] else BlockNumbers(start, n - 1) + [Add32(start, n - 1)]
  }

  /** fat_read_block(block, dest + off): the block's bytes written at off. */
  method FatReadBlock(fat: u32 -> Block, block: u32, dest: array<byte>, off: nat)
    requires off + BlockSize <= dest.Length
    modifies dest
    ensures dest[off..off + BlockSize] == fat(block)
    ensures forall k :: 0 <= k < dest.Length && !(off <= k < off + BlockSize) ==> dest[k] == old(dest[k])
  {
    var data := fat(block);
    forall k | off <= k < off + BlockSize {
      dest[k] := data[k - off];
    }
  }

  class DynamicMtd {
    var startReadBlock: u32
    var numReadBlocks: u16

    constructor()
      ensures startReadBlock == 0 && numReadBlocks == 0
    {
      startReadBlock := 0;
      numReadBlocks := 0;
    }

    function GetState(): MtdState {
      Ready
    }

    function GetCapacity(): u32 {
      0
    }

    function GetBlockSize(): u32 {
      512
    }

    method InitReadBlocks(start: u32, nbBlock: u16) returns (r: MtdRet)
      modifies this
      ensures startReadBlock == start && numReadBlocks == nbBlock
      ensures r == Ok
    {
      startReadBlock := start;
      numReadBlocks := nbBlock;
      return Ok;
    }

    /**
     * Fill dest with nbBlock blocks from startReadBlock on, one block at a
     * time in ascending order; calls lists the block numbers requested.
     */
    method StartReadBlocks(dest: array<byte>, nbBlock: u16, fat: u32 -> Block)
      returns (r: MtdRet, ghost calls: seq<u32>)
      requires nbBlock * BlockSize <= dest.Length
      modifies dest
      ensures r == Ok
      ensures dest[..nbBlock * BlockSize] == ReadSpan(startReadBlock, nbBlock, fat)
      ensures dest[nbBlock * BlockSize..] == old(dest[nbBlock * BlockSize..])
      ensures calls == BlockNumbers(startReadBlock, nbBlock)
    {
      var ptr: nat := 0;
      var i: nat := 0;
      calls := [];
      while i < nbBlock
        invariant i <= nbBlock && ptr == i * BlockSize
        invariant dest[..ptr] == ReadSpan(startReadBlock, i, fat)
        invariant forall k :: ptr <= k < dest.Length ==> dest[k] == old(dest[k])
        invariant calls == BlockNumbers(startReadBlock, i)
      {
        FatReadBlock(fat, Add32(startReadBlock, i), dest, ptr);
        calls := calls + [Add32(startReadBlock, i)];
        assert dest[..ptr + BlockSize] == dest[..ptr] + dest[ptr..ptr + BlockSize];
        ptr := ptr + GetBlockSize();
        i := i + 1;
      }
      return Ok, calls;
    }

    method WaitEndOfReadBlocks(abort: bool) returns (r: MtdRet)
      ensures r == Ok
    {
      return Ok;
    }
  }

  /**
   * Unlike the base device, this one reports a medium; like it, it reports
   * capacity 0 and 512-byte blocks.
   */
  lemma DynamicMtdReady(m: DynamicMtd, base: Mtd)
    ensures m.GetState() == Ready && base.GetState() == MtdState.Empty
    ensures m.GetCapacity() == base.GetCapacity() == 0
    ensures m.GetBlockSize() == base.GetBlockSize() == BlockSize
  {
  }
}
