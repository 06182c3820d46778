/**
 Slots of new tokens in the paged cache.  With context parallelism the positions of a virtual block
 (world * block positions) are dealt to the ranks in turns of `interleave`.
 */
module SlotMapping {
  import opened Arithmetic
  import opened ArrayOps

  const PAD_SLOT_ID: int := -1

  // ----- one position -----

  /** The rank of an offset in the virtual block. */
  function RankOf(v: nat, interleave: nat, world: nat): nat
    requires interleave > 0 && world > 0
  {
    v / interleave % world
  }

  /** The offset in that rank's own block. */
  function OffsetOf(v: nat, interleave: nat, world: nat): int
    requires interleave > 0 && world > 0
  {
    assert world * interleave > 0;
    v / (world * interleave) * interleave + v % interleave
  }

  function VirtualOffset(position: nat, block: nat, world: nat): nat
    requires block > 0 && world > 0
  {
    assert block * world > 0;
    position % (block * world)
  }

  predicate IsLocal(position: nat, block: nat, interleave: nat, world: nat, rank: nat)
    requires block > 0 && interleave > 0 && world > 0
  {
    RankOf(VirtualOffset(position, block, world), interleave, world) == rank
  }

  /** Offset of a position in its rank's block. */
  function BlockOffset(position: nat, block: nat, interleave: nat, world: nat): int
    requires block > 0 && interleave > 0 && world > 0
  {
    OffsetOf(VirtualOffset(position, block, world), interleave, world)
  }

  /** Slot of a position whose physical block is `number`: -1 if it lives on another rank. */
  function Slot(number: int, position: nat, block: nat, interleave: nat, world: nat, rank: nat): int
    requires block > 0 && interleave > 0 && world > 0
  {
    if world == 1 then number * block + position % block
    else if IsLocal(position, block, interleave, world, rank) then number * block + BlockOffset(position, block, interleave, world)
    else -1
  }

  lemma Below(rank: nat, place: nat, interleave: nat, world: nat)
    requires rank < world && place < interleave
    ensures 0 <= rank * interleave + place < world * interleave
  {
    MulLe(rank + 1, world, interleave);
    MulLe(rank, rank, interleave);
    MulLe(0, rank, interleave);
  }

  /** turn * stride + low with low below the stride. */
  lemma TurnDigits(turn: nat, low: nat, stride: nat)
    requires low < stride
    ensures 0 <= turn * stride && (turn * stride + low) / stride == turn && (turn * stride + low) % stride == low
  {
    MulLe(0, turn, stride);
    assert turn * stride == stride * turn;
    DivUnique(turn * stride + low, stride, turn, low);
  }

  /** An offset of the virtual block from its digits. */
  function FromDigits(turn: nat, rank: nat, place: nat, interleave: nat, world: nat): (v: nat) {
    MulLe(0, turn, world * interleave);
    MulLe(0, rank, interleave);
    turn * (world * interleave) + (rank * interleave + place)
  }

  lemma Regroup(turn: nat, rank: nat, interleave: nat, world: nat)
    ensures turn * (world * interleave) + rank * interleave == (turn * world + rank) * interleave
  {
    assert turn * (world * interleave) == (turn * world) * interleave;
    assert (turn * world + rank) * interleave == (turn * world) * interleave + rank * interleave;
  }

  /** Digits determine the rank and the offset. */
  lemma DigitsRead(turn: nat, rank: nat, place: nat, interleave: nat, world: nat)
    requires rank < world && place < interleave
    ensures RankOf(FromDigits(turn, rank, place, interleave, world), interleave, world) == rank
    ensures OffsetOf(FromDigits(turn, rank, place, interleave, world), interleave, world) == turn * interleave + place
  {
    var v := FromDigits(turn, rank, place, interleave, world);
    Below(rank, place, interleave, world);
    TurnDigits(turn, rank * interleave + place, world * interleave);
    Regroup(turn, rank, interleave, world);
    TurnDigits(turn, rank, world);
    TurnDigits(turn * world + rank, place, interleave);
  }

  /** Every offset has digits. */
  lemma DigitsExist(v: nat, interleave: nat, world: nat)
    requires interleave > 0 && world > 0
    ensures world * interleave > 0 && RankOf(v, interleave, world) < world && v / (world * interleave) >= 0
    ensures v == FromDigits(v / (world * interleave), RankOf(v, interleave, world), v % interleave, interleave, world)
  {
    var q := v / interleave;
    var turn, rank, place := q / world, q % world, v % interleave;
    DivMod(v, interleave);
    DivMod(q, world);
    Regroup(turn, rank, interleave, world);
    Below(rank, place, interleave, world);
    TurnDigits(turn, rank * interleave + place, world * interleave);
  }

  lemma DivMod(x: nat, d: nat)
    requires d > 0
    ensures x / d >= 0 && x % d >= 0 && x == x / d * d + x % d
  {
    assert x == d * (x / d) + x % d;
  }

  /** Every position is local to exactly one rank. */
  lemma OneRank(position: nat, block: nat, interleave: nat, world: nat)
    requires block > 0 && interleave > 0 && world > 0
    ensures exists rank: nat :: rank < world && IsLocal(position, block, interleave, world, rank)
    ensures forall r: nat, s: nat :: IsLocal(position, block, interleave, world, r) && IsLocal(position, block, interleave, world, s) ==> r == s
  {
    assert IsLocal(position, block, interleave, world, RankOf(VirtualOffset(position, block, world), interleave, world));
  }

  /** The offset in the virtual block of offset o of a rank's own block. */
  function PositionOf(o: nat, interleave: nat, world: nat, rank: nat): nat
    requires interleave > 0
  {
    FromDigits(o / interleave, rank, o % interleave, interleave, world)
  }

  /** A virtual block is block / interleave turns of world * interleave positions. */
  lemma Turns(block: nat, interleave: nat, world: nat)
    requires interleave > 0 && block % interleave == 0
    ensures block / interleave * interleave == block && block / interleave * (world * interleave) == block * world
  {
    var turns := block / interleave;
    assert block == interleave * turns == turns * interleave;
    assert turns * (world * interleave) == (turns * interleave) * world;
  }

  lemma TurnsBelow(turn: nat, low: nat, stride: nat, turns: nat)
    requires low < stride
    ensures turn < turns <==> turn * stride + low < turns * stride
  {
    if turn < turns {
      MulLe(turn + 1, turns, stride);
      MulLe(turn, turn, stride);
    } else {
      MulLe(turns, turn, stride);
    }
  }

  lemma PositionBelow(block: nat, interleave: nat, world: nat, rank: nat, o: nat)
    requires block > 0 && interleave > 0 && rank < world && block % interleave == 0 && o < block
    ensures PositionOf(o, interleave, world, rank) < block * world
  {
    var turn, place := o / interleave, o % interleave;
    assert o == interleave * turn + place == turn * interleave + place;
    Turns(block, interleave, world);
    TurnsBelow(turn, place, interleave, block / interleave);
    Below(rank, place, interleave, world);
    TurnsBelow(turn, rank * interleave + place, world * interleave, block / interleave);
  }

  /** From an offset of a rank's block to the virtual block and back. */
  lemma OffsetToPosition(block: nat, interleave: nat, world: nat, rank: nat, o: nat)
    requires block > 0 && interleave > 0 && rank < world && block % interleave == 0 && o < block
    ensures PositionOf(o, interleave, world, rank) < block * world
    ensures RankOf(PositionOf(o, interleave, world, rank), interleave, world) == rank
    ensures OffsetOf(PositionOf(o, interleave, world, rank), interleave, world) == o
  {
    var turn, place := o / interleave, o % interleave;
    assert o == interleave * turn + place == turn * interleave + place;
    assert PositionOf(o, interleave, world, rank) < block * world by { PositionBelow(block, interleave, world, rank, o); }
    DigitsRead(turn, rank, place, interleave, world);
  }

  /** From an offset of the virtual block to its rank's block and back. */
  lemma PositionToOffset(block: nat, interleave: nat, world: nat, v: nat)
    requires block > 0 && interleave > 0 && world > 0 && block % interleave == 0 && v < block * world
    ensures RankOf(v, interleave, world) < world && 0 <= OffsetOf(v, interleave, world) < block
    ensures PositionOf(OffsetOf(v, interleave, world), interleave, world, RankOf(v, interleave, world)) == v
  {
    DigitsExist(v, interleave, world);
    var turn, rank, place := v / (world * interleave), RankOf(v, interleave, world), v % interleave;
    Turns(block, interleave, world);
    Below(rank, place, interleave, world);
    TurnsBelow(turn, rank * interleave + place, world * interleave, block / interleave);
    TurnsBelow(turn, place, interleave, block / interleave);
    TurnDigits(turn, place, interleave);
  }

  /**
   When the interleave divides the block size, a rank's positions of a virtual block and the offsets of its
   own block correspond one to one.
   */
  lemma OffsetsBijective(block: nat, interleave: nat, world: nat, rank: nat, o: nat, position: nat)
    requires block > 0 && interleave > 0 && rank < world && block % interleave == 0 && o < block && position < block * world
    ensures var p := PositionOf(o, interleave, world, rank);
            p < block * world && IsLocal(p, block, interleave, world, rank) && BlockOffset(p, block, interleave, world) == o
    ensures IsLocal(position, block, interleave, world, rank) ==>
              && 0 <= BlockOffset(position, block, interleave, world) < block
              && PositionOf(BlockOffset(position, block, interleave, world), interleave, world, rank) == position
  {
    OffsetToPosition(block, interleave, world, rank, o);
    PositionToOffset(block, interleave, world, position);
    Inside(PositionOf(o, interleave, world, rank), block, world);
    Inside(position, block, world);
  }

  lemma Inside(p: nat, block: nat, world: nat)
    requires block > 0 && world > 0 && p < block * world
    ensures VirtualOffset(p, block, world) == p
  {
    DivUnique(p, block * world, 0, p);
  }

  lemma OffsetInRange(p: nat, block: nat, world: nat)
    requires block > 0 && world > 0
    ensures VirtualOffset(p, block, world) < block * world
  {
    assert block * world > 0;
  }

  /** Position turn * (world * interleave) + place, in a last turn that is cut short, has offset `block`. */
  lemma OffsetEscapes(block: nat, interleave: nat, world: nat) returns (position: nat)
    requires block > 0 && interleave > 0 && world > 1 && block % interleave != 0
    ensures BlockOffset(position, block, interleave, world) == block
  {
    var turn, place := block / interleave, block % interleave;
    assert block == interleave * turn + place == turn * interleave + place;
    position := FromDigits(turn, 0, place, interleave, world);
    DigitsRead(turn, 0, place, interleave, world);
    assert block * world == turn * (world * interleave) + place * world by {
      assert block * world == (turn * interleave) * world + place * world;
      assert (turn * interleave) * world == turn * (world * interleave);
    }
    MulLe(2, world, place);
    Inside(position, block, world);
  }

  /**
   The divisibility matters: with several ranks, offsets stay inside the block for all positions exactly when
   the interleave divides the block size.
   */
  lemma OffsetsStayInsideIff(block: nat, interleave: nat, world: nat)
    requires block > 0 && interleave > 0 && world > 1
    ensures (forall position: nat :: BlockOffset(position, block, interleave, world) < block) <==> block % interleave == 0
  {
    if block % interleave == 0 {
      forall position: nat
        ensures BlockOffset(position, block, interleave, world) < block
      {
        OffsetInRange(position, block, world);
        PositionToOffset(block, interleave, world, VirtualOffset(position, block, world));
      }
    } else {
      var position := OffsetEscapes(block, interleave, world);
    }
  }

  /** One rank: context parallelism off and on give the same slots. */
  lemma OneRankIsPlain(position: nat, block: nat, interleave: nat)
    requires block > 0 && interleave > 0
    ensures IsLocal(position, block, interleave, 1, 0) && BlockOffset(position, block, interleave, 1) == position % block
  {
    assert block * 1 == block && 1 * interleave == interleave;
    var v := position % block;
    assert v == interleave * (v / interleave) + v % interleave;
  }

  /** Each pair of ranks has its own total rank, and every total rank belongs to one pair. */
  lemma RankPairs(pcpWorld: nat, dcpWorld: nat, pcpRank: nat, dcpRank: nat)
    requires pcpRank < pcpWorld && dcpRank < dcpWorld
    ensures 0 <= pcpRank * dcpWorld + dcpRank < pcpWorld * dcpWorld
    ensures (pcpRank * dcpWorld + dcpRank) / dcpWorld == pcpRank && (pcpRank * dcpWorld + dcpRank) % dcpWorld == dcpRank
  {
    Below(pcpRank, dcpRank, dcpWorld, pcpWorld);
    DivUnique(pcpRank * dcpWorld + dcpRank, dcpWorld, pcpRank, dcpRank);
  }

  // ----- positions written out -----

  /**
   Position number * (block * world) + turn * (world * interleave) + rank * interleave + place, with a place inside the
   interleave and a turn inside the block, lies in virtual block `number` and belongs to that rank alone, whose slot
   for it is turn * interleave + place places into its physical block.
   */
  lemma PositionWritten(block: nat, interleave: nat, world: nat, number: nat, turn: nat, rank: nat, place: nat, position: nat)
    requires block > 0 && rank < world && place < interleave && block % interleave == 0 && turn * interleave + place < block
    requires position == number * (block * world) + (turn * (world * interleave) + (rank * interleave + place))
    ensures VirtualBlock(position, block, world) == number
    ensures forall n, q: nat :: q < world ==>
      Slot(n, position, block, interleave, world, q) == if q == rank then n * block + (turn * interleave + place) else -1
  {
    var o := turn * interleave + place;
    var low := FromDigits(turn, rank, place, interleave, world);
    DivUnique(o, interleave, turn, place);
    PositionBelow(block, interleave, world, rank, o);
    DigitsRead(turn, rank, place, interleave, world);
    DivUnique(position, block * world, number, low);
    forall n, q: nat | q < world
      ensures Slot(n, position, block, interleave, world, q) == if q == rank then n * block + o else -1
    {
      SlotRead(n, position, block, interleave, world, q, rank, low, o);
    }
  }

  lemma SlotRead(n: int, position: nat, block: nat, interleave: nat, world: nat, q: nat, rank: nat, low: nat, o: nat)
    requires block > 0 && interleave > 0 && rank < world && q < world && VirtualOffset(position, block, world) == low
    requires RankOf(low, interleave, world) == rank && OffsetOf(low, interleave, world) == o && (world == 1 ==> low == o)
    ensures Slot(n, position, block, interleave, world, q) == if q == rank then n * block + o else -1
  {
    if world == 1 {
      assert block * world == block;
    }
  }

  /** Every position can be written so. */
  lemma WriteDown(block: nat, interleave: nat, world: nat, position: nat) returns (number: nat, turn: nat, rank: nat, place: nat)
    requires block > 0 && interleave > 0 && world > 0 && block % interleave == 0
    ensures rank < world && place < interleave && turn * interleave + place < block
    ensures position == number * (block * world) + (turn * (world * interleave) + (rank * interleave + place))
  {
    number := VirtualBlock(position, block, world);
    var v := VirtualOffset(position, block, world);
    OffsetInRange(position, block, world);
    assert position == (block * world) * number + v;
    PositionToOffset(block, interleave, world, v);
    rank := RankOf(v, interleave, world);
    var o := OffsetOf(v, interleave, world);
    turn, place := o / interleave, o % interleave;
    assert o == interleave * turn + place;
  }

  ghost predicate InRun(p: nat, run: nat, w: nat) { run * w <= p < run * w + w }

  lemma InRunIff(p: nat, run: nat, w: nat)
    requires w > 0
    ensures InRun(p, run, w) <==> p / w == run
  {
    assert p == w * (p / w) + p % w && w * (p / w) == (p / w) * w && w * run == run * w;
    if InRun(p, run, w) {
      DivUnique(p, w, run, p - run * w);
    }
  }

  /** Two positions of a request use the same table entry exactly when they lie in the same run of block * world positions. */
  lemma SameEntryIff(p: nat, q: nat, block: nat, world: nat)
    requires block > 0 && world > 0
    ensures VirtualBlock(p, block, world) == VirtualBlock(q, block, world)
       <==> exists run: nat :: InRun(p, run, block * world) && InRun(q, run, block * world)
  {
    var w := block * world;
    InRunIff(p, VirtualBlock(p, block, world), w);
    InRunIff(q, VirtualBlock(p, block, world), w);
    forall run: nat | InRun(p, run, w) && InRun(q, run, w)
      ensures VirtualBlock(p, block, world) == VirtualBlock(q, block, world)
    {
      InRunIff(p, run, w);
      InRunIff(q, run, w);
    }
  }

  // ----- distinct slots -----

  /** Number of the virtual block of a position. */
  function VirtualBlock(position: nat, block: nat, world: nat): nat
    requires block > 0 && world > 0
  {
    assert block * world > 0;
    position / (block * world)
  }

  /**
   Two tokens stored on one rank share a slot only if they share the physical block and the place in the
   virtual block; so tokens in different physical blocks, or at different places of one, never do.
   */
  lemma SlotsDistinct(n: int, p: nat, m: int, q: nat, block: nat, interleave: nat, world: nat, rank: nat)
    requires block > 0 && interleave > 0 && rank < world && block % interleave == 0
    requires IsLocal(p, block, interleave, world, rank) && IsLocal(q, block, interleave, world, rank)
    ensures Slot(n, p, block, interleave, world, rank) == Slot(m, q, block, interleave, world, rank)
       <==> n == m && VirtualOffset(p, block, world) == VirtualOffset(q, block, world)
  {
    OffsetInRange(p, block, world);
    OffsetInRange(q, block, world);
    PositionToOffset(block, interleave, world, VirtualOffset(p, block, world));
    PositionToOffset(block, interleave, world, VirtualOffset(q, block, world));
    SameSlot(n, BlockOffset(p, block, interleave, world), m, BlockOffset(q, block, interleave, world), block);
    if world == 1 {
      OneRankIsPlain(p, block, interleave);
      OneRankIsPlain(q, block, interleave);
    }
  }

  lemma SameSlot(n: int, a: int, m: int, b: int, block: nat)
    requires block > 0 && 0 <= a < block && 0 <= b < block
    ensures n * block + a == m * block + b <==> n == m && a == b
  {
    DivUnique(n * block + a, block, n, a);
    DivUnique(m * block + b, block, m, b);
  }

  // ----- the whole mapping -----

  /** Request of each token: request r, counts[r] times. */
  function RequestIndices(counts: seq<int>): seq<int> { Repeat(seq(|counts|, i => i), counts) }

  /** What a batch needs: one position per token, and a physical block for each. */
  ghost predicate BatchOk(counts: seq<int>, positions: seq<nat>, table: seq<int>, maxBlocks: nat, block: nat, interleave: nat, world: nat) {
    && Counts(counts) && block > 0 && interleave > 0 && world > 0
    && |RequestIndices(counts)| == |positions|
    && forall t :: 0 <= t < |positions| ==> 0 <= TableIndex(counts, positions, maxBlocks, block, world, t) < |table|
  }

  function TableIndex(counts: seq<int>, positions: seq<nat>, maxBlocks: nat, block: nat, world: nat, t: nat): int
    requires block > 0 && world > 0 && t < |positions| == |RequestIndices(counts)|
  {
    RequestIndices(counts)[t] * maxBlocks + VirtualBlock(positions[t], block, world)
  }

  /** `_qaic_compute_slot_mapping`, both branches; places beyond the tokens are padded. */
  method ComputeSlotMapping(counts: seq<int>, positions: seq<nat>, table: seq<int>, maxBlocks: nat, block: nat, interleave: nat,
                            pcpWorld: nat, dcpWorld: nat, pcpRank: nat, dcpRank: nat, slotMapping: array<int>)
    requires pcpRank < pcpWorld && dcpRank < dcpWorld && pcpWorld * dcpWorld > 0
    requires BatchOk(counts, positions, table, maxBlocks, block, interleave, pcpWorld * dcpWorld) && |positions| <= slotMapping.Length
    modifies slotMapping
    ensures forall t :: |positions| <= t < slotMapping.Length ==> slotMapping[t] == PAD_SLOT_ID
    ensures forall t :: 0 <= t < |positions| ==>
              slotMapping[t] == Slot(table[TableIndex(counts, positions, maxBlocks, block, pcpWorld * dcpWorld, t)], positions[t], block,
                                     interleave, pcpWorld * dcpWorld, TotalRank(dcpWorld, pcpRank, dcpRank))
  {
    forall t | |positions| <= t < slotMapping.Length {
      slotMapping[t] := PAD_SLOT_ID;
    }
    var world := pcpWorld * dcpWorld;
    var rank := TotalRank(dcpWorld, pcpRank, dcpRank);
    var requests := RequestIndices(counts);
    var n := |positions|;
    if world > 1 {
      var virtualBlockSize := block * world;
      var indices := seq(n, t requires 0 <= t < n => requests[t] * maxBlocks + positions[t] / virtualBlockSize);
      assert forall t :: 0 <= t < n ==> indices[t] == TableIndex(counts, positions, maxBlocks, block, world, t);
      forall t | 0 <= t < n {
        slotMapping[t] :=
          if IsLocal(positions[t], block, interleave, world, rank) then
            table[indices[t]] * block + BlockOffset(positions[t], block, interleave, world)
          else -1;
      }
    } else {
      assert world == 1 && block * world == block;
      var indices := seq(n, t requires 0 <= t < n => requests[t] * maxBlocks + positions[t] / block);
      assert forall t :: 0 <= t < n ==> indices[t] == TableIndex(counts, positions, maxBlocks, block, world, t);
      forall t | 0 <= t < n {
        slotMapping[t] := table[indices[t]] * block + positions[t] % block;
      }
    }
  }

  function TotalRank(dcpWorld: nat, pcpRank: nat, dcpRank: nat): nat { pcpRank * dcpWorld + dcpRank }

  /** Token j of request r is looked up in that request's row of the block table. */
  lemma TokenOfRequest(counts: seq<int>, positions: seq<nat>, maxBlocks: nat, block: nat, world: nat, r: nat, j: nat)
    requires Counts(counts) && block > 0 && world > 0 && |RequestIndices(counts)| == |positions| && r < |counts| && j < counts[r]
    ensures 0 <= Sum(counts[..r]) + j < |positions|
    ensures TableIndex(counts, positions, maxBlocks, block, world, Sum(counts[..r]) + j)
         == r * maxBlocks + VirtualBlock(positions[Sum(counts[..r]) + j], block, world)
  {
    BlockAt(seq(|counts|, i => i), counts, r, j);
  }

  /**
   The slot of token j of request r, in the request's own terms: the rank that position belongs to finds the physical
   block in entry `number` of the request's row of the table, every other rank gets -1.
   */
  lemma SlotOfToken(counts: seq<int>, positions: seq<nat>, table: seq<int>, maxBlocks: nat, block: nat, interleave: nat,
                    pcpWorld: nat, dcpWorld: nat, pcpRank: nat, dcpRank: nat, r: nat, j: nat, number: nat, turn: nat, rank: nat, place: nat)
    requires pcpRank < pcpWorld && dcpRank < dcpWorld && rank < pcpWorld * dcpWorld && interleave > 0 && block % interleave == 0
    requires BatchOk(counts, positions, table, maxBlocks, block, interleave, pcpWorld * dcpWorld) && r < |counts| && j < counts[r]
    requires 0 <= Sum(counts[..r]) + j < |positions| && place < interleave && turn * interleave + place < block
    requires positions[Sum(counts[..r]) + j] ==
      number * (block * (pcpWorld * dcpWorld)) + (turn * ((pcpWorld * dcpWorld) * interleave) + (rank * interleave + place))
    ensures var world, t: nat := pcpWorld * dcpWorld, Sum(counts[..r]) + j;
            && 0 <= r * maxBlocks + number < |table|
            && Slot(table[TableIndex(counts, positions, maxBlocks, block, world, t)], positions[t], block, interleave, world,
                    TotalRank(dcpWorld, pcpRank, dcpRank))
            == if pcpRank * dcpWorld + dcpRank == rank then table[r * maxBlocks + number] * block + (turn * interleave + place) else -1
  {
    var world, t: nat := pcpWorld * dcpWorld, Sum(counts[..r]) + j;
    PositionWritten(block, interleave, world, number, turn, rank, place, positions[t]);
    TokenOfRequest(counts, positions, maxBlocks, block, world, r, j);
    RankPairs(pcpWorld, dcpWorld, pcpRank, dcpRank);
  }
}
