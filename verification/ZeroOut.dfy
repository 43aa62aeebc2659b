/** zeroOut: zeros over a range of bytes, whole blocks at a time where it can
    (sm/util.py:371-408). */
module ZeroOut {

  const BLOCK := 4096

  /** What has been done to a range: nothing outside it, and inside it zeros or nothing. */
  ghost predicate OnlyZeroed(before: seq<bv8>, after: seq<bv8>, lo: int, hi: int) {
    && |before| == |after|
    && forall i :: 0 <= i < |after| ==> after[i] == before[i] || (lo <= i < hi && after[i] == 0)
  }

  ghost predicate ZeroAt(s: seq<bv8>, i: int) {
    0 <= i < |s| && s[i] == 0
  }

  ghost predicate AllZero(s: seq<bv8>, lo: int, hi: int) {
    forall i :: lo <= i < hi ==> ZeroAt(s, i)
  }

  /** `after` is `before` with zeros from `lo` up to `hi`, and nothing else. */
  ghost predicate ExactlyZeroed(before: seq<bv8>, after: seq<bv8>, lo: int, hi: int) {
    OnlyZeroed(before, after, lo, hi) && AllZero(after, lo, hi)
  }

  lemma ZeroedInTurn(a: seq<bv8>, b: seq<bv8>, c: seq<bv8>, lo: int, mid: int, hi: int)
    requires ExactlyZeroed(a, b, lo, mid) && OnlyZeroed(b, c, mid, hi) && lo <= mid <= hi
    ensures OnlyZeroed(a, c, lo, hi)
    ensures AllZero(c, mid, hi) ==> ExactlyZeroed(a, c, lo, hi)
  {
    forall i | 0 <= i < |c| ensures c[i] == a[i] || (lo <= i < hi && c[i] == 0) {
      assert c[i] == b[i] || (mid <= i < hi && c[i] == 0);
      assert b[i] == a[i] || (lo <= i < mid && b[i] == 0);
    }
    if AllZero(c, mid, hi) {
      forall i | lo <= i < hi ensures ZeroAt(c, i) {
        assert i < mid ==> ZeroAt(b, i);
      }
    }
  }

  lemma OneMore(a: seq<bv8>, b: seq<bv8>, c: seq<bv8>, lo: int, at: int)
    requires ExactlyZeroed(a, b, lo, at) && 0 <= lo <= at < |b| && c == b[at := 0]
    ensures ExactlyZeroed(a, c, lo, at + 1)
  {
    forall i | lo <= i < at + 1 ensures ZeroAt(c, i) {
      assert i < at ==> ZeroAt(b, i);
    }
  }

  class Disk {
    const data: array<bv8>

    constructor (bytes: array<bv8>)
      ensures data == bytes
    {
      data := bytes;
    }

    /** dd if=/dev/zero bs= seek= count=, which fails when it comes to byte `limit` of
        its output, or to the end of the device. */
    method Dd(bs: nat, seek: nat, count: nat, limit: nat) returns (ok: bool)
      modifies data
      ensures OnlyZeroed(old(data[..]), data[..], seek * bs, seek * bs + count * bs)
      ensures ok ==> AllZero(data[..], seek * bs, seek * bs + count * bs)
      ensures ok <==> Runs(seek * bs, count * bs, limit, data.Length)
    {
      hide OnlyZeroed, AllZero;
      var start, total := seek * bs, count * bs;
      NothingZeroed(data[..], start);
      var k := 0;
      while k < total
        invariant 0 <= k <= total && Runs(start, k, limit, data.Length)
        invariant ExactlyZeroed(old(data[..]), data[..], start, start + k)
      {
        if k >= limit || start + k >= data.Length {
          Widen(old(data[..]), data[..], start, start + k, start + total);
          return false;
        }
        label before:
        data[start + k] := 0;
        OneMore(old(data[..]), old@before(data[..]), data[..], start, start + k);
        k := k + 1;
      }
      ok := true;
    }

    /** The bytes in front of the first whole block; that block, and what is left. */
    method ZeroHead(fromByte: nat, bytes: nat, limit: nat) returns (ok: bool, fromBlock: nat, left: nat)
      modifies data
      ensures OnlyZeroed(old(data[..]), data[..], fromByte, fromByte + Head(fromByte, bytes))
      ensures ok ==> AllZero(data[..], fromByte, fromByte + Head(fromByte, bytes))
      ensures ok <==> Runs(fromByte, Head(fromByte, bytes), limit, data.Length)
      ensures left == bytes - Head(fromByte, bytes) >= 0
      ensures left > 0 ==> fromBlock * BLOCK == fromByte + Head(fromByte, bytes)
    {
      hide OnlyZeroed, AllZero, Head;
      HeadIs(fromByte, bytes);
      ok := true;
      left := bytes;
      fromBlock := fromByte / BLOCK;
      NothingZeroed(data[..], fromByte);
      if fromByte % BLOCK != 0 {
        fromBlock := fromBlock + 1;
        var bytesBefore := fromBlock * BLOCK - fromByte;
        if bytesBefore > left {
          bytesBefore := left;
        }
        left := left - bytesBefore;
        ok := Dd(1, fromByte, bytesBefore, limit);
      }
    }

    /** When it returns True the range is zero and all else is as it was; when it
        returns False, nothing outside the range has changed. It returns True exactly
        when none of the commands it needs fails. */
    method ZeroOut(fromByte: nat, bytes: nat, limits: nat -> nat) returns (ok: bool)
      modifies data
      ensures OnlyZeroed(old(data[..]), data[..], fromByte, fromByte + bytes)
      ensures ok ==> ExactlyZeroed(old(data[..]), data[..], fromByte, fromByte + bytes)
      ensures ok <==> NoneFails(fromByte, bytes, limits, data.Length)
    {
      hide OnlyZeroed, AllZero, Head, Whole, Runs, NoneFails;
      WholeIs(fromByte, bytes);
      NoneFailsIs(fromByte, bytes, limits, data.Length);
      var fromBlock, left;
      ok, fromBlock, left := ZeroHead(fromByte, bytes, limits(0));
      ghost var end := fromByte + bytes;
      ghost var mid := end - left;
      if !ok {
        Widen(old(data[..]), data[..], fromByte, mid, end);
        return;
      }
      label head:
      var blocks := left / BLOCK;
      left := left - blocks * BLOCK;
      var tail := (fromBlock + blocks) * BLOCK;
      if blocks != 0 {
        ok := Dd(BLOCK, fromBlock, blocks, limits(1));
        ZeroedInTurn(old(data[..]), old@head(data[..]), data[..], fromByte, mid, mid + blocks * BLOCK);
        if !ok {
          Widen(old(data[..]), data[..], fromByte, mid + blocks * BLOCK, end);
          return;
        }
      }
      label body:
      if left != 0 {
        ok := Dd(1, tail, left, limits(2));
        ZeroedInTurn(old(data[..]), old@body(data[..]), data[..], fromByte, end - left, end);
      }
    }
  }

  // ---- The commands it needs ----

  /** A command for `total` bytes from `start` on is not cut short. */
  predicate Runs(start: nat, total: nat, limit: nat, size: nat) {
    total <= limit && (total > 0 ==> start + total <= size)
  }

  /** The bytes in front of the first whole block of the range. */
  function Head(fromByte: nat, bytes: nat): nat {
    var gap := (BLOCK - fromByte % BLOCK) % BLOCK;
    if gap < bytes then gap else bytes
  }

  /** The bytes of whole blocks. */
  function Whole(fromByte: nat, bytes: nat): nat {
    (bytes - Head(fromByte, bytes)) / BLOCK * BLOCK
  }

  /** The range is on the device, and none of the commands for its head, its whole
      blocks and its tail fails before it is done. */
  predicate NoneFails(fromByte: nat, bytes: nat, limits: nat -> nat, size: nat) {
    && (bytes > 0 ==> fromByte + bytes <= size)
    && Head(fromByte, bytes) <= limits(0)
    && Whole(fromByte, bytes) <= limits(1)
    && bytes - Head(fromByte, bytes) - Whole(fromByte, bytes) <= limits(2)
  }

  lemma HeadIs(fromByte: nat, bytes: nat)
    ensures Head(fromByte, bytes) <= bytes
    ensures fromByte % BLOCK == 0 ==> Head(fromByte, bytes) == 0
    ensures fromByte % BLOCK != 0 ==>
              var gap := (fromByte / BLOCK + 1) * BLOCK - fromByte;
              Head(fromByte, bytes) == if gap > bytes then bytes else gap
  {
  }

  lemma WholeIs(fromByte: nat, bytes: nat)
    ensures Whole(fromByte, bytes) == (bytes - Head(fromByte, bytes)) / BLOCK * BLOCK <= bytes - Head(fromByte, bytes)
  {
  }

  lemma NoneFailsIs(fromByte: nat, bytes: nat, limits: nat -> nat, size: nat)
    ensures var h, w := Head(fromByte, bytes), Whole(fromByte, bytes);
            NoneFails(fromByte, bytes, limits, size)
            <==> && Runs(fromByte, h, limits(0), size)
                 && Runs(fromByte + h, w, limits(1), size)
                 && h + w <= bytes && Runs(fromByte + h + w, bytes - h - w, limits(2), size)
    ensures var h, w := Head(fromByte, bytes), Whole(fromByte, bytes);
            && (h == 0 ==> Runs(fromByte, h, limits(0), size))
            && (w == 0 ==> Runs(fromByte + h, w, limits(1), size))
            && (h + w == bytes ==> Runs(fromByte + h + w, bytes - h - w, limits(2), size))
  {
    hide Head, Whole;
    HeadIs(fromByte, bytes);
    WholeIs(fromByte, bytes);
  }

  lemma NothingZeroed(s: seq<bv8>, at: int)
    ensures ExactlyZeroed(s, s, at, at)
  {
  }

  lemma Widen(a: seq<bv8>, b: seq<bv8>, lo: int, hi: int, end: int)
    requires OnlyZeroed(a, b, lo, hi) && hi <= end
    ensures OnlyZeroed(a, b, lo, end)
  {
  }
}
