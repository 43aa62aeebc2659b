/** Ranges of whole blocks (sm/srmetadata.py:121-135). */
module BlockRanges {

  /** The start of the block that `offset` is in. */
  function BlockStart(block: nat, offset: nat): (lower: nat)
    requires block > 0
    ensures lower == block * (offset / block) && lower <= offset < lower + block
  {
    if offset % block == 0 then offset else offset - offset % block
  }

  /** `upper` is as few whole blocks behind `lower` as hold `length` bytes, but at least one. */
  ghost predicate WholeBlocks(block: nat, lower: nat, upper: nat, length: nat, n: nat) {
    n > 0 && upper == lower + n * block && length <= n * block && (n == 1 || (n - 1) * block < length)
  }

  /** getBlockAlignedRange */
  method AlignedRange(block: nat, offset: nat, length: nat) returns (lower: nat, upper: nat)
    requires block > 0
    ensures lower == BlockStart(block, offset) && lower <= offset < upper
    ensures exists n: nat :: WholeBlocks(block, lower, upper, length, n)
  {
    hide BlockStart;
    lower := BlockStart(block, offset);
    upper := lower + block;
    ghost var n: nat := 1;
    while upper < lower + length
      invariant n > 0 && upper == lower + n * block >= lower + block
      invariant n == 1 || (n - 1) * block < length
      decreases lower + length - upper
    {
      upper := upper + block;
      n := n + 1;
    }
    assert WholeBlocks(block, lower, upper, length, n);
  }

  /** The range has room for `length` bytes at `offset` exactly when the first block has
      no more bytes in front of `offset` than the last has left over. It is not always
      so: 512 bytes at 511 do not fit into the one block of their range. */
  lemma RangeHasRoomExactly(block: nat, offset: nat, length: nat, upper: nat, n: nat)
    requires block > 0 && WholeBlocks(block, BlockStart(block, offset), upper, length, n)
    ensures offset + length <= upper
            <==> length == 0 || (offset % block) <= (if length % block == 0 then 0 else block - length % block)
  {
    var lower := BlockStart(block, offset);
    assert offset == lower + offset % block;
    if length > 0 {
      LastBlock(block, length, n);
    } else {
      OneBlock(block, n);
    }
  }

  lemma OneBlock(block: nat, n: nat)
    requires block > 0 && n > 0 && (n == 1 || (n - 1) * block < 0)
    ensures n == 1
  {
  }

  lemma LastBlock(block: nat, length: nat, n: nat)
    requires block > 0 && n > 0 && 0 < length <= n * block && (n == 1 || (n - 1) * block < length)
    ensures n * block - length == if length % block == 0 then 0 else block - length % block
  {
    var s := length - (n - 1) * block;
    assert n * block == (n - 1) * block + block;
    if s == block {
      ModUnique(length, block, n, 0);
    } else {
      ModUnique(length, block, n - 1, s);
    }
  }

  lemma ModUnique(a: nat, b: nat, q: nat, r: nat)
    requires b > 0 && a == q * b + r && r < b
    ensures a % b == r
  {
    var q' := a / b;
    assert a == b * q' + a % b;
    Multiples(b, q, q', r, a % b);
  }

  lemma AtLeastOne(k: int, b: int)
    requires b > 0
    ensures k >= 1 ==> k * b >= b
  {
  }

  lemma Multiples(b: int, q: int, q': int, r: int, r': int)
    requires 0 <= r < b && 0 <= r' < b && q * b + r == b * q' + r'
    ensures r == r'
  {
    AtLeastOne(q - q', b);
    AtLeastOne(q' - q, b);
    assert (q - q') * b == r' - r;
  }
}
