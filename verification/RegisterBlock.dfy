/** The fixed x86-64 register block: 32 little-endian eight-byte slots, converted from
    and to a thread context. */
module RegisterBlock {
  import opened Octets

  const SLOT_SIZE := 8
  const NUM_SLOTS := 32
  const BLOCK_SIZE := 256
  const RIP_SLOT := 16
  const RIP_OFFSET := 128

  /** `other` stands for the part of a thread context the block does not carry. */
  datatype Context = Context(
    rax: Word64, rbx: Word64, rcx: Word64, rdx: Word64,
    rsi: Word64, rdi: Word64, rbp: Word64, rsp: Word64,
    r8: Word64, r9: Word64, r10: Word64, r11: Word64,
    r12: Word64, r13: Word64, r14: Word64, r15: Word64,
    rip: Word64, eflags: Word32,
    segCs: Word16, segSs: Word16, segDs: Word16, segEs: Word16, segFs: Word16, segGs: Word16,
    dr0: Word64, dr1: Word64, dr2: Word64, dr3: Word64, dr6: Word64, dr7: Word64,
    other: seq<Byte>)

  /** The register kept in slot `i`; the last two slots are reserved and hold 0. */
  function SlotValue(ctx: Context, i: nat): Word64
    requires i < NUM_SLOTS
  {
    match i
    case 0 => ctx.rax case 1 => ctx.rbx case 2 => ctx.rcx case 3 => ctx.rdx
    case 4 => ctx.rsi case 5 => ctx.rdi case 6 => ctx.rbp case 7 => ctx.rsp
    case 8 => ctx.r8 case 9 => ctx.r9 case 10 => ctx.r10 case 11 => ctx.r11
    case 12 => ctx.r12 case 13 => ctx.r13 case 14 => ctx.r14 case 15 => ctx.r15
    case 16 => ctx.rip case 17 => ctx.eflags
    case 18 => ctx.segCs case 19 => ctx.segSs case 20 => ctx.segDs
    case 21 => ctx.segEs case 22 => ctx.segFs case 23 => ctx.segGs
    case 24 => ctx.dr0 case 25 => ctx.dr1 case 26 => ctx.dr2 case 27 => ctx.dr3
    case 28 => ctx.dr6 case 29 => ctx.dr7
    case _ => 0
  }

  function Limit(n: nat): nat {
    if n == 0 then 1 else 256 * Limit(n - 1)
  }

  function LittleEndian(v: nat, n: nat): (b: seq<Byte>)
    ensures |b| == n
  {
    if n == 0 then [] else [v % 256] + LittleEndian(v / 256, n - 1)
  }

  function Value(b: seq<Byte>): (v: nat)
    ensures v < Limit(|b|)
  {
    if b == [] then 0 else b[0] + 256 * Value(b[1..])
  }

  lemma {:induction false} LittleEndianRoundTrip(v: nat, n: nat)
    requires v < Limit(n)
    ensures Value(LittleEndian(v, n)) == v
  {
    if n > 0 {
      LittleEndianRoundTrip(v / 256, n - 1);
      assert LittleEndian(v, n)[1..] == LittleEndian(v / 256, n - 1);
    }
  }

  lemma EightByteLimit()
    ensures Limit(8) == 0x1_0000_0000_0000_0000
  {
    assert Limit(4) == 0x1_0000_0000;
    assert Limit(8) == 256 * (256 * (256 * (256 * Limit(4))));
  }

  function SlotBytes(block: seq<Byte>, i: nat): (b: seq<Byte>)
    requires i < NUM_SLOTS && |block| >= BLOCK_SIZE
    ensures |b| == SLOT_SIZE
  {
    block[8 * i..8 * i + 8]
  }

  function GetSlot(block: seq<Byte>, i: nat): Word64
    requires i < NUM_SLOTS && |block| >= BLOCK_SIZE
  {
    EightByteLimit();
    Value(SlotBytes(block, i))
  }

  /** Overwrites slot `i`. */
  function PutSlot(block: seq<Byte>, i: nat, v: Word64): (b: seq<Byte>)
    requires i < NUM_SLOTS && |block| >= BLOCK_SIZE
    ensures |b| == |block|
  {
    block[..8 * i] + LittleEndian(v, 8) + block[8 * i + 8..]
  }

  lemma PutThenGet(block: seq<Byte>, i: nat, v: Word64, j: nat)
    requires i < NUM_SLOTS && j < NUM_SLOTS && |block| >= BLOCK_SIZE
    ensures GetSlot(PutSlot(block, i, v), j) == if i == j then v else GetSlot(block, j)
  {
    var b := PutSlot(block, i, v);
    if i == j {
      assert SlotBytes(b, i) == LittleEndian(v, 8);
      EightByteLimit();
      LittleEndianRoundTrip(v, 8);
    } else {
      forall m | 8 * j <= m < 8 * j + 8
        ensures b[m] == block[m]
      {
        assert if i < j then 8 * i + 8 <= m else m < 8 * i;
      }
      assert SlotBytes(b, j) == SlotBytes(block, j);
    }
  }

  /** Serializes a context, one slot after the other, into a zeroed block. */
  method ContextToBlock(ctx: Context) returns (block: seq<Byte>)
    ensures |block| == BLOCK_SIZE
    ensures forall j :: 0 <= j < NUM_SLOTS ==> GetSlot(block, j) == SlotValue(ctx, j)
  {
    block := seq(BLOCK_SIZE, _ => 0);
    for i := 0 to NUM_SLOTS
      invariant |block| == BLOCK_SIZE
      invariant forall j :: 0 <= j < i ==> GetSlot(block, j) == SlotValue(ctx, j)
    {
      forall j | 0 <= j <= i {
        PutThenGet(block, i, SlotValue(ctx, i), j);
      }
      block := PutSlot(block, i, SlotValue(ctx, i));
    }
  }

  /** Reads a context back; narrow registers are truncated, the rest is taken from `ctx`. */
  function BlockToContext(block: seq<Byte>, ctx: Context): Context
    requires |block| >= BLOCK_SIZE
  {
    Context(GetSlot(block, 0), GetSlot(block, 1), GetSlot(block, 2), GetSlot(block, 3),
            GetSlot(block, 4), GetSlot(block, 5), GetSlot(block, 6), GetSlot(block, 7),
            GetSlot(block, 8), GetSlot(block, 9), GetSlot(block, 10), GetSlot(block, 11),
            GetSlot(block, 12), GetSlot(block, 13), GetSlot(block, 14), GetSlot(block, 15),
            GetSlot(block, 16), GetSlot(block, 17) % 0x1_0000_0000,
            GetSlot(block, 18) % 0x1_0000, GetSlot(block, 19) % 0x1_0000, GetSlot(block, 20) % 0x1_0000,
            GetSlot(block, 21) % 0x1_0000, GetSlot(block, 22) % 0x1_0000, GetSlot(block, 23) % 0x1_0000,
            GetSlot(block, 24), GetSlot(block, 25), GetSlot(block, 26), GetSlot(block, 27),
            GetSlot(block, 28), GetSlot(block, 29), ctx.other)
  }

  /** Every slot is written: wide registers in full, narrow ones cut to their width. */
  lemma EverySlotIsWritten(block: seq<Byte>, ctx: Context, j: nat)
    requires |block| >= BLOCK_SIZE && j < 30
    ensures SlotValue(BlockToContext(block, ctx), j) ==
            if j == 17 then GetSlot(block, j) % 0x1_0000_0000
            else if 18 <= j <= 23 then GetSlot(block, j) % 0x1_0000
            else GetSlot(block, j)
    ensures BlockToContext(block, ctx).other == ctx.other
  {
  }

  lemma FourBytes(b: seq<Byte>)
    requires |b| == 4
    ensures Value(b) == b[0] as int + 0x100 * b[1] as int + 0x1_0000 * b[2] as int + 0x100_0000 * b[3] as int
  {
    assert b[1..][1..] == b[2..] && b[2..][1..] == b[3..] && b[3..][1..] == [];
    assert Value(b[3..]) == b[3] && Value(b[2..]) == b[2] as int + 256 * b[3] as int;
    assert Value(b[1..]) == b[1] as int + 256 * Value(b[2..]);
  }

  /** A slot holds its number lowest byte first. */
  lemma LowestByteFirst(block: seq<Byte>, i: nat)
    requires i < NUM_SLOTS && |block| >= BLOCK_SIZE
    ensures var b := SlotBytes(block, i);
            GetSlot(block, i) ==
            b[0] as int + 0x100 * b[1] as int + 0x1_0000 * b[2] as int + 0x100_0000 * b[3] as int
            + 0x1_0000_0000 * (b[4] as int + 0x100 * b[5] as int + 0x1_0000 * b[6] as int + 0x100_0000 * b[7] as int)
    ensures forall k :: 0 <= k < 8 ==> SlotBytes(block, i)[k] == block[8 * i + k]
  {
    var b := SlotBytes(block, i);
    FourBytes(b[4..]);
    assert b[1..][1..] == b[2..] && b[2..][1..] == b[3..] && b[3..][1..] == b[4..];
    assert Value(b[3..]) == b[3] as int + 256 * Value(b[4..]);
    assert Value(b[2..]) == b[2] as int + 256 * Value(b[3..]);
    assert Value(b[1..]) == b[1] as int + 256 * Value(b[2..]);
  }

  /** `block` is a serialization of `ctx`. */
  predicate Carries(block: seq<Byte>, ctx: Context) {
    |block| == BLOCK_SIZE && forall j :: 0 <= j < NUM_SLOTS ==> GetSlot(block, j) == SlotValue(ctx, j)
  }

  function Slots(block: seq<Byte>): (w: seq<int>)
    requires |block| >= BLOCK_SIZE
  {
    seq(NUM_SLOTS, i requires 0 <= i < NUM_SLOTS => GetSlot(block, i))
  }

  /** The documented order of the slots. */
  lemma SlotsInOrder(block: seq<Byte>, ctx: Context)
    requires Carries(block, ctx)
    ensures Slots(block) ==
            [ctx.rax, ctx.rbx, ctx.rcx, ctx.rdx, ctx.rsi, ctx.rdi, ctx.rbp, ctx.rsp,
             ctx.r8, ctx.r9, ctx.r10, ctx.r11, ctx.r12, ctx.r13, ctx.r14, ctx.r15,
             ctx.rip, ctx.eflags, ctx.segCs, ctx.segSs, ctx.segDs, ctx.segEs, ctx.segFs, ctx.segGs,
             ctx.dr0, ctx.dr1, ctx.dr2, ctx.dr3, ctx.dr6, ctx.dr7, 0, 0]
  {
  }

  /** Patches the instruction pointer in a block that is long enough to hold it. */
  function WriteRip(block: seq<Byte>, rip: Word64): (b: seq<Byte>)
    ensures |b| == |block|
  {
    if |block| >= RIP_OFFSET + 8
    then block[..RIP_OFFSET] + LittleEndian(rip, 8) + block[RIP_OFFSET + 8..] else block
  }

  /** Both directions agree on every slot: writing back a serialized context restores it,
      whatever the thread's registers are by then. */
  lemma BlockRoundTrip(block: seq<Byte>, saved: Context, ctx: Context)
    requires Carries(block, saved)
    ensures BlockToContext(block, ctx) == saved.(other := ctx.other)
  {
  }

  /** Only the eight bytes of the slot are patched; a block too short for it is left as it is. */
  lemma RipIsPatchedInPlace(block: seq<Byte>, rip: Word64, i: nat)
    requires i < |block|
    ensures |block| < 136 || i < 128 || i >= 136 ==> WriteRip(block, rip)[i] == block[i]
    ensures |block| >= 136 ==> Value(WriteRip(block, rip)[128..136]) == rip
  {
    if |block| >= 136 {
      EightByteLimit();
      LittleEndianRoundTrip(rip, 8);
      assert WriteRip(block, rip)[128..136] == LittleEndian(rip, 8);
    }
  }

  /** The rewind through the register block changes rip and nothing else. */
  lemma RewindChangesOnlyRip(block: seq<Byte>, ctx: Context, rip: Word64)
    requires Carries(block, ctx)
    ensures Carries(WriteRip(block, rip), ctx.(rip := rip))
    ensures BlockToContext(WriteRip(block, rip), ctx) == ctx.(rip := rip)
  {
    assert WriteRip(block, rip) == PutSlot(block, RIP_SLOT, rip);
    forall j | 0 <= j < NUM_SLOTS
      ensures GetSlot(WriteRip(block, rip), j) == SlotValue(ctx.(rip := rip), j)
    {
      PutThenGet(block, RIP_SLOT, rip, j);
    }
    var after := ctx.(rip := rip);
    BlockRoundTrip(WriteRip(block, rip), after, ctx);
  }
}
