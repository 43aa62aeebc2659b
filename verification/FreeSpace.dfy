/** How large a VDI an SR is said to have room for (StorageHandlerUtil.py:170-174,
    sm/vhdutil.py:59-76, sm/util.py:90-97). Division is floor division. */
module FreeSpace {
  import opened BlockRanges

  const MIB := 1024 * 1024
  const VHD_BLOCK := 2 * MIB
  const LVM_INCREMENT := 4 * MIB
  const MSIZE := 2 * 1024 * 1024 * MIB      // the largest VDI: 2 TiB
  const SECTOR_BITMAP := 4096               // in front of each block that has been written

  /** roundup */
  function RoundUp(divisor: nat, value: nat): (r: nat)
    requires divisor > 0
    ensures r % divisor == 0 && r >= value && r > 0 && r < (if value == 0 then 1 else value) + divisor
  {
    var v := if value == 0 then 1 else value;
    if v % divisor != 0 then
      var q := v / divisor;
      assert v == divisor * q + v % divisor;
      ModUnique((q + 1) * divisor, divisor, q + 1, 0);
      (q + 1) * divisor
    else v
  }

  function CalcOverheadEmpty(virtualSize: nat): nat {
    var mb := virtualSize / MIB;
    RoundUp(4096, RoundUp(512, 3 * 1024 + (mb / 2) * 4) + (mb / 2) / 8)
  }

  function ActualSrFreeSpace(size: nat): int {
    ((size - LVM_INCREMENT - 4096 - CalcOverheadEmpty(MSIZE)) * VHD_BLOCK) / (4096 + VHD_BLOCK)
  }

  /** The number of blocks a VDI of this size takes when all of it is written. */
  function Blocks(v: nat): nat {
    (v + VHD_BLOCK - 1) / VHD_BLOCK
  }

  /** What a VDI takes on disk when all of it is written. */
  function FullSize(v: nat): nat {
    v + SECTOR_BITMAP * Blocks(v) + CalcOverheadEmpty(v) + LVM_INCREMENT
  }

  /** Rounding up keeps the order: the result is the smallest multiple that is not
      below a value of at least one. */
  lemma RoundUp512Monotone(a: nat, b: nat)
    requires a <= b
    ensures RoundUp(512, a) <= RoundUp(512, b)
  {
  }

  lemma RoundUp4096Monotone(a: nat, b: nat)
    requires a <= b
    ensures RoundUp(4096, a) <= RoundUp(4096, b)
  {
  }

  /** The overhead by whole blocks. */
  function OverheadOf(blocks: nat): nat {
    RoundUp(4096, RoundUp(512, 3 * 1024 + blocks * 4) + blocks / 8)
  }

  lemma OverheadIs(v: nat)
    ensures CalcOverheadEmpty(v) == OverheadOf(v / VHD_BLOCK)
  {
    hide RoundUp;
    assert v / MIB / 2 == v / VHD_BLOCK;
  }

  lemma OverheadOfMonotone(a: nat, b: nat)
    requires a <= b
    ensures OverheadOf(a) <= OverheadOf(b)
  {
    hide RoundUp;
    RoundUp512Monotone(3 * 1024 + a * 4, 3 * 1024 + b * 4);
    RoundUp4096Monotone(RoundUp(512, 3 * 1024 + a * 4) + a / 8, RoundUp(512, 3 * 1024 + b * 4) + b / 8);
  }

  lemma OverheadMonotone(v: nat, w: nat)
    requires v <= w
    ensures CalcOverheadEmpty(v) <= CalcOverheadEmpty(w)
  {
    hide CalcOverheadEmpty, OverheadOf;
    OverheadIs(v);
    OverheadIs(w);
    OverheadOfMonotone(v / VHD_BLOCK, w / VHD_BLOCK);
  }

  /** A VDI of the reported size, or any smaller one, can be written in full. */
  lemma FreeSpaceIsEnough(size: nat, v: nat)
    requires v <= ActualSrFreeSpace(size) && v <= MSIZE
    ensures FullSize(v) <= size
  {
    hide CalcOverheadEmpty;
    OverheadMonotone(v, MSIZE);
    var room := size - LVM_INCREMENT - 4096 - CalcOverheadEmpty(MSIZE);
    var q := (room * VHD_BLOCK) / (4096 + VHD_BLOCK);
    assert q * (4096 + VHD_BLOCK) <= room * VHD_BLOCK;
    assert Blocks(v) * VHD_BLOCK <= v + VHD_BLOCK - 1;
    assert (v + 4096 * Blocks(v)) * VHD_BLOCK < (room + 4096) * VHD_BLOCK;
  }

  /** And no VDI that is larger by more than the overhead of a 2 TiB one can be. */
  lemma FreeSpaceIsClose(size: nat, v: nat)
    requires FullSize(v) <= size
    ensures v <= ActualSrFreeSpace(size) + 4096 + CalcOverheadEmpty(MSIZE)
  {
    hide CalcOverheadEmpty;
    var room := size - LVM_INCREMENT - 4096 - CalcOverheadEmpty(MSIZE);
    var q := (room * VHD_BLOCK) / (4096 + VHD_BLOCK);
    assert (q + 1) * (4096 + VHD_BLOCK) > room * VHD_BLOCK;
    assert Blocks(v) * VHD_BLOCK >= v;
  }

  // ---- Exactly when the report can be used in full ----

  const CYCLE := 4096 + VHD_BLOCK        // a block with its bitmap
  const CHEAP_BLOCKS := 1_048_704        // up to here the overhead is that of 2 TiB
  const NEXT_BLOCKS := 1_049_728         // and up to here 4096 bytes more

  /** What is left of an SR for blocks and their bitmaps, by the code's reckoning. */
  function Room(size: nat): int {
    size - LVM_INCREMENT - 4096 - CalcOverheadEmpty(MSIZE)
  }

  lemma LargestOverhead()
    ensures CalcOverheadEmpty(MSIZE) == 4329472
  {
    assert MSIZE / MIB / 2 == 1048576;
    assert RoundUp(512, 3 * 1024 + 1048576 * 4) == 4197376;
  }

  lemma OverheadSteps()
    ensures OverheadOf(CHEAP_BLOCKS) == 4329472
    ensures OverheadOf(CHEAP_BLOCKS + 1) == OverheadOf(NEXT_BLOCKS) == 4329472 + 4096
    ensures OverheadOf(NEXT_BLOCKS + 1) == 4329472 + 8192
  {
    assert RoundUp(512, 3 * 1024 + CHEAP_BLOCKS * 4) == 4197888;
    assert RoundUp(512, 3 * 1024 + (CHEAP_BLOCKS + 1) * 4) == 4198400;
    assert RoundUp(512, 3 * 1024 + NEXT_BLOCKS * 4) == 4201984;
    assert RoundUp(512, 3 * 1024 + (NEXT_BLOCKS + 1) * 4) == 4202496;
  }

  /** The two steps of the overhead above that of 2 TiB, and where they are. */
  lemma OverheadThresholds(blocks: nat)
    ensures OverheadOf(blocks) <= 4329472 <==> blocks <= CHEAP_BLOCKS
    ensures CHEAP_BLOCKS < blocks <= NEXT_BLOCKS ==> OverheadOf(blocks) == 4329472 + 4096
    ensures blocks > NEXT_BLOCKS ==> OverheadOf(blocks) >= 4329472 + 8192
  {
    hide OverheadOf;
    OverheadSteps();
    if blocks <= CHEAP_BLOCKS {
      OverheadOfMonotone(blocks, CHEAP_BLOCKS);
    } else {
      OverheadOfMonotone(CHEAP_BLOCKS + 1, blocks);
      if blocks <= NEXT_BLOCKS {
        OverheadOfMonotone(blocks, NEXT_BLOCKS);
      } else {
        OverheadOfMonotone(NEXT_BLOCKS + 1, blocks);
      }
    }
  }

  /** The report in whole blocks and what is left over, from the room in whole cycles. */
  lemma ReportIs(size: nat)
    requires Room(size) >= 0
    ensures var p, rest := Room(size) / CYCLE, Room(size) % CYCLE;
            var u := rest * 512 / 513;
            && u < VHD_BLOCK && ActualSrFreeSpace(size) == VHD_BLOCK * p + u
  {
    hide CalcOverheadEmpty;
    var room := Room(size);
    var p, rest := room / CYCLE, room % CYCLE;
    var u := rest * 512 / 513;
    assert room == CYCLE * p + rest;
    assert room * VHD_BLOCK == CYCLE * (VHD_BLOCK * p) + rest * VHD_BLOCK;
    assert 513 * u <= rest * 512 < 513 * (u + 1);
    assert CYCLE * (VHD_BLOCK * p + u) <= room * VHD_BLOCK < CYCLE * (VHD_BLOCK * p + u + 1);
    ModUnique(room * VHD_BLOCK, CYCLE, VHD_BLOCK * p + u, room * VHD_BLOCK - CYCLE * (VHD_BLOCK * p + u));
  }

  lemma RoomIsNatural(size: nat)
    requires ActualSrFreeSpace(size) >= 0
    ensures Room(size) >= 0
  {
    hide CalcOverheadEmpty;
  }

  /** A VDI of the reported size can be written in full exactly when the report is for no
      more than CHEAP_BLOCKS blocks, a little over 2 TiB; or for no more than NEXT_BLOCKS,
      and the room that is left is just short of a whole number of blocks with bitmaps. */
  lemma ReportIsEnoughExactly(size: nat)
    requires ActualSrFreeSpace(size) >= 0
    ensures var room := Room(size);
            && room == size - 8_527_872
            && (FullSize(ActualSrFreeSpace(size)) <= size
                <==> || room < (CHEAP_BLOCKS + 1) * CYCLE
                     || (room < (NEXT_BLOCKS + 1) * CYCLE && (room + 512) % CYCLE < 514))
  {
    hide CalcOverheadEmpty, OverheadOf, ActualSrFreeSpace, FullSize, SlackOf;
    LargestOverhead();
    RoomIsNatural(size);
    FullSizeIs(size);
    var room := Room(size);
    var p, rest := room / CYCLE, room % CYCLE;
    OverheadThresholds(p);
    Slack(rest);
    Split(room, p, rest);
  }

  /** The report written in full, against the size. */
  lemma FullSizeIs(size: nat)
    requires Room(size) >= 0 && ActualSrFreeSpace(size) >= 0
    ensures var p, rest := Room(size) / CYCLE, Room(size) % CYCLE;
            FullSize(ActualSrFreeSpace(size)) - size == OverheadOf(p) - CalcOverheadEmpty(MSIZE) - SlackOf(rest)
  {
    hide CalcOverheadEmpty, OverheadOf, ActualSrFreeSpace, Blocks;
    ReportIs(size);
    var p, rest := Room(size) / CYCLE, Room(size) % CYCLE;
    assert Room(size) == CYCLE * p + rest;
    var u := rest * 512 / 513;
    BlocksOf(p, u);
    OverheadIs(ActualSrFreeSpace(size));
  }

  lemma BlocksOf(p: nat, u: nat)
    requires u < VHD_BLOCK
    ensures Blocks(VHD_BLOCK * p + u) == p + if u > 0 then 1 else 0
    ensures (VHD_BLOCK * p + u) / VHD_BLOCK == p
  {
  }

  /** What the rounding down of the report leaves of the last cycle. */
  function SlackOf(rest: nat): int {
    var u := rest * 512 / 513;
    rest - u + if u > 0 then 0 else 4096
  }

  lemma Slack(rest: nat)
    requires rest < CYCLE
    ensures 0 < SlackOf(rest) < 8192
    ensures SlackOf(rest) >= 4096 <==> rest <= 1 || rest >= CYCLE - 512
  {
  }

  lemma Split(room: nat, p: nat, rest: nat)
    requires p == room / CYCLE && rest == room % CYCLE
    ensures (room + 512) % CYCLE < 514 <==> rest <= 1 || rest >= CYCLE - 512
    ensures room < (CHEAP_BLOCKS + 1) * CYCLE <==> p <= CHEAP_BLOCKS
    ensures room < (NEXT_BLOCKS + 1) * CYCLE <==> p <= NEXT_BLOCKS
  {
    assert room == CYCLE * p + rest;
  }

  /** Above that the report can be too large: of an SR of 4 TiB more is said to be free
      than is. */
  lemma LargeSrIsOverstated()
    ensures var size := 2 * MSIZE; FullSize(ActualSrFreeSpace(size)) > size
  {
    LargestOverhead();
    hide CalcOverheadEmpty;
    assert Room(2 * MSIZE) == 4_398_037_983_232;
    ReportIsEnoughExactly(2 * MSIZE);
  }
}
