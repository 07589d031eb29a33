/**
 * The block-device interface: the result and state enumerations, the base
 * device that implements nothing, and the three-phase protocol its
 * documentation fixes for reading and for writing: initialise with a start
 * block and a count, start with a buffer, then wait for the end.
 */
module MtdApi {
  import opened ByteOrder

  datatype MtdRet = Ok | Empty | NotImplemented   // Empty: no media

  datatype MtdState = Ready | Empty               // Empty: no media

  datatype Option<T> = None | Some(value: T)

  /** The base device: no fields, every answer a constant. */
  datatype Mtd = Mtd {
    function GetState(): MtdState {
      MtdState.Empty
    }

    function GetCapacity(): u32 {
      0
    }

    function GetBlockSize(): u32 {
      512
    }

    function InitReadBlocks(start: u32, nbBlock: u16): MtdRet {
      NotImplemented
    }

    function StartReadBlocks(dest: seq<byte>, nbBlock: u16): MtdRet {
      NotImplemented
    }

    function WaitEndOfReadBlocks(abort: bool): MtdRet {
      NotImplemented
    }

    function InitWriteBlocks(start: u32, nbBlock: u16): MtdRet {
      NotImplemented
    }

    function StartWriteBlocks(src: seq<byte>, nbBlock: u16): MtdRet {
      NotImplemented
    }

    function WaitEndOfWriteBlocks(abort: bool): MtdRet {
      NotImplemented
    }
  }

  /** Every result is one of three outcomes, and exactly one of them is success. */
  lemma MtdRetOutcomes(r: MtdRet)
    ensures r == Ok || r == MtdRet.Empty || r == NotImplemented
    ensures r.Ok? <==> !(r.Empty? || r.NotImplemented?)
  {
  }

  /** Every state is one of two, and only Ready has a medium. */
  lemma MtdStateOutcomes(s: MtdState)
    ensures s == Ready || s == MtdState.Empty
    ensures s.Ready? <==> !s.Empty?
  {
  }

  /**
   * The base device reports no medium, no capacity and 512-byte blocks, and
   * answers NotImplemented to every phase of reading and of writing,
   * whatever the arguments.
   */
  lemma BaseMtdImplementsNothing(m: Mtd, start: u32, nbBlock: u16, buf: seq<byte>, abort: bool)
    ensures m.GetState() == MtdState.Empty && m.GetCapacity() == 0 && m.GetBlockSize() == 512
    ensures m.InitReadBlocks(start, nbBlock) == NotImplemented
    ensures m.StartReadBlocks(buf, nbBlock) == NotImplemented
    ensures m.WaitEndOfReadBlocks(abort) == NotImplemented
    ensures m.InitWriteBlocks(start, nbBlock) == NotImplemented
    ensures m.StartWriteBlocks(buf, nbBlock) == NotImplemented
    ensures m.WaitEndOfWriteBlocks(abort) == NotImplemented
  {
  }

  // ---------------------------------------------------------------------
  // The three-phase protocol

  datatype Direction = Read | Write

  datatype PhaseOp = Init(dir: Direction) | Start(dir: Direction) | Wait(dir: Direction)

  /** Where a caller stands in the protocol. */
  datatype Phase = Idle | Initialised(dir: Direction) | Started(dir: Direction)

  /** One call of the protocol: None when it is out of order. */
  function Step(p: Phase, op: PhaseOp): Option<Phase> {
    match (p, op)
    case (Idle, Init(d)) => Some(Initialised(d))
    case (Initialised(d), Start(e)) => if d == e then Some(Started(d)) else None
    case (Started(d), Wait(e)) => if d == e then Some(Idle) else None
    case _ => None
  }

  /** A sequence of calls from p: None as soon as one is out of order. */
  function Run(p: Phase, ops: seq<PhaseOp>): Option<Phase>
    decreases |ops|
  {
    if ops == [] then Some(p)
    else match Step(p, ops[0])
      case None => None
      case Some(q) => Run(q, ops[1..])
  }

  /** The call at position i of a sequence of whole init, start, wait cycles. */
  function CycleOp(dir: Direction, i: nat): PhaseOp {
    if i % 3 == 0 then Init(dir) else if i % 3 == 1 then Start(dir) else Wait(dir)
  }

  /**
   * ops is a sequence of whole cycles: init, start, wait, each cycle in one
   * direction.
   */
  ghost predicate WholeCycles(ops: seq<PhaseOp>) {
    && |ops| % 3 == 0
    && forall i :: 0 <= i < |ops| ==> ops[i] == CycleOp(ops[i - i % 3].dir, i)
  }

  /**
   * The protocol returns to rest exactly after whole cycles: a caller that
   * starts idle is idle again after ops if and only if ops is a sequence of
   * init, start, wait cycles, each in a single direction.
   */
  lemma {:induction false} IdleAgainIffWholeCycles(ops: seq<PhaseOp>)
    ensures Run(Idle, ops) == Some(Idle) <==> WholeCycles(ops)
    decreases |ops|
  {
    if ops == [] {
    } else if |ops| >= 3 && ops[0].Init? && ops[1] == Start(ops[0].dir) && ops[2] == Wait(ops[0].dir) {
      var d := ops[0].dir;
      var rest := ops[3..];
      assert Run(Idle, ops) == Run(Idle, rest) by {
        assert Run(Idle, ops) == Run(Initialised(d), ops[1..]);
        assert ops[1..][0] == ops[1] && ops[1..][1..] == ops[2..];
        assert Run(Initialised(d), ops[1..]) == Run(Started(d), ops[2..]);
        assert ops[2..][0] == ops[2] && ops[2..][1..] == rest;
        assert Run(Started(d), ops[2..]) == Run(Idle, rest);
      }
      IdleAgainIffWholeCycles(rest);
      if WholeCycles(rest) {
        forall i | 0 <= i < |ops| ensures ops[i] == CycleOp(ops[i - i % 3].dir, i) {
          if i >= 3 {
            assert rest[i - 3] == CycleOp(rest[i - 3 - (i - 3) % 3].dir, i - 3);
          }
        }
      }
      if WholeCycles(ops) {
        forall i | 0 <= i < |rest| ensures rest[i] == CycleOp(rest[i - i % 3].dir, i) {
          assert ops[i + 3] == CycleOp(ops[i + 3 - (i + 3) % 3].dir, i + 3);
        }
      }
    } else {
      NotWholeCycleStuck(ops);
    }
  }

  /** A sequence that does not open with a whole cycle never returns to rest. */
  lemma NotWholeCycleStuck(ops: seq<PhaseOp>)
    requires ops != []
    requires !(|ops| >= 3 && ops[0].Init? && ops[1] == Start(ops[0].dir) && ops[2] == Wait(ops[0].dir))
    ensures Run(Idle, ops) != Some(Idle)
  {
    if ops[0].Init? {
      var d := ops[0].dir;
      assert Run(Idle, ops) == Run(Initialised(d), ops[1..]);
      if |ops| >= 2 && ops[1] == Start(d) {
        assert Run(Initialised(d), ops[1..]) == Run(Started(d), ops[2..]) by {
          assert ops[1..][0] == ops[1] && ops[1..][1..] == ops[2..];
        }
        if |ops| >= 3 {
          assert ops[2..][0] == ops[2];
          assert Step(Started(d), ops[2]) == None;
        }
      } else if |ops| >= 2 {
        assert ops[1..][0] == ops[1];
        assert Step(Initialised(d), ops[1]) == None;
      }
    }
  }
}
