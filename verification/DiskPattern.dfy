/** The disk pattern tester: diskdatatest/fdpattern.c, the transfer loop of
    diskdatatest/atomicio.c, and the test that drives both
    (StorageHandlerUtil.disk_data_test).

    A sector is 32 slices of two 64-bit words. The device is the sequence of its
    slices; what a read or write call answers and when the time is up are the
    environment's choice. */
module DiskPattern {
  import opened Options

  const TWO64 := 0x1_0000_0000_0000_0000
  const SLICES := 32        // HEADERS_OF_SECTION
  const SLICE_BYTES := 16   // two words of eight bytes

  type U64 = x: int | 0 <= x < TWO64

  datatype Slice = Slice(sect: U64, iter: U64)

  /** The slices of a sector are its 512 bytes. */
  lemma SlicesFillSector()
    ensures SLICES * SLICE_BYTES == 512
  {
  }

  function Wrap(x: nat): U64 {
    x % TWO64
  }

  // ---- The pattern ----

  /** Slice `j` of sector `s`. */
  function InSector(s: U64, j: nat, iter0: nat): Slice {
    Slice(s, Wrap(iter0 + (SLICES * s + j)))
  }

  lemma PatternInSector(s: U64, j: nat, iter0: nat)
    requires j < SLICES
    ensures (SLICES * s + j) / SLICES == s && Pattern(SLICES * s + j, iter0) == InSector(s, j, iter0)
  {
  }

  /** Slice `k` of the device in closed form: its sector number, and an iterator
      that counts the slices of the whole device modulo 2^64. */
  function Pattern(k: nat, iter0: nat): Slice
    requires k / SLICES < TWO64
  {
    Slice(k / SLICES, Wrap(iter0 + k))
  }

  /** Sector `s` of the device holds the pattern of a run that started at `iter0`. */
  ghost predicate Good(dev: seq<Slice>, s: nat, iter0: nat) {
    && s < TWO64 && SLICES * s + SLICES <= |dev|
    && forall k :: SLICES * s <= k < SLICES * s + SLICES ==> dev[k] == Pattern(k, iter0)
  }

  /** Slices `lo` up to `hi` hold the pattern. */
  ghost predicate Holds(dev: seq<Slice>, lo: nat, hi: nat, iter0: nat) {
    && hi <= |dev| && hi <= SLICES * TWO64
    && forall k :: lo <= k < hi ==> dev[k] == Pattern(k, iter0)
  }

  /** Nothing but slices `lo` up to `hi` has changed. */
  ghost predicate SameOutside(dev: seq<Slice>, dev': seq<Slice>, lo: nat, hi: nat) {
    && |dev| == |dev'|
    && forall k :: 0 <= k < |dev| && !(lo <= k < hi) ==> dev'[k] == dev[k]
  }

  lemma OneMoreBlock(dev0: seq<Slice>, dev: seq<Slice>, dev': seq<Slice>, lo: nat, hi: nat, iter0: nat)
    requires SameOutside(dev0, dev, 0, lo) && SameOutside(dev, dev', lo, hi) && lo <= hi
    ensures SameOutside(dev0, dev', 0, hi)
    ensures Holds(dev, 0, lo, iter0) && Holds(dev', lo, hi, iter0) ==> Holds(dev', 0, hi, iter0)
  {
  }

  lemma HeldSectorsAreGood(dev: seq<Slice>, n: nat, held: nat, iter0: nat)
    requires Holds(dev, 0, SLICES * held, iter0) && n <= held
    ensures BadSectors(dev, n, iter0) == 0
  {
    forall s: nat | s < n ensures Good(dev, s, iter0) {
    }
    NoErrorsExactly(dev, n, iter0);
  }

  /** The number of sectors below `n` that do not hold the pattern. */
  ghost function BadSectors(dev: seq<Slice>, n: nat, iter0: nat): nat {
    if n == 0 then 0 else BadSectors(dev, n - 1, iter0) + if Good(dev, n - 1, iter0) then 0 else 1
  }

  lemma {:induction false} NoErrorsExactly(dev: seq<Slice>, n: nat, iter0: nat)
    ensures BadSectors(dev, n, iter0) <= n
    ensures BadSectors(dev, n, iter0) == 0 <==> forall s: nat :: s < n ==> Good(dev, s, iter0)
  {
    if n > 0 {
      NoErrorsExactly(dev, n - 1, iter0);
      if forall s: nat :: s < n - 1 ==> Good(dev, s, iter0) {
      } else {
        var s: nat :| s < n - 1 && !Good(dev, s, iter0);
        assert s < n;
      }
    }
  }

  /** Only sector `s` differs between two contents. */
  ghost predicate SameBut(dev: seq<Slice>, dev': seq<Slice>, s: nat) {
    && |dev| == |dev'|
    && forall k :: 0 <= k < |dev| && !(SLICES * s <= k < SLICES * s + SLICES) ==> dev[k] == dev'[k]
  }

  /** A corrupt sector is counted once and does not disturb the others. */
  lemma {:induction false} CorruptionIsLocal(dev: seq<Slice>, dev': seq<Slice>, s: nat, n: nat, iter0: nat)
    requires SameBut(dev, dev', s)
    ensures BadSectors(dev', n, iter0) - BadSectors(dev, n, iter0)
            == if s < n && Good(dev, s, iter0) && !Good(dev', s, iter0) then 1
               else if s < n && !Good(dev, s, iter0) && Good(dev', s, iter0) then -1
               else 0
  {
    if n > 0 {
      CorruptionIsLocal(dev, dev', s, n - 1, iter0);
      if s != n - 1 {
        OtherSectorsSame(dev, dev', s, n - 1, iter0);
      }
    }
  }

  lemma OtherSectorsSame(dev: seq<Slice>, dev': seq<Slice>, s: nat, t: nat, iter0: nat)
    requires SameBut(dev, dev', s) && s != t
    ensures Good(dev, t, iter0) == Good(dev', t, iter0)
  {
    if t < TWO64 && SLICES * t + SLICES <= |dev| {
      forall k | SLICES * t <= k < SLICES * t + SLICES ensures dev[k] == dev'[k] {
      }
    }
  }

  /** Two runs make the same sector exactly when their initial iterators agree
      modulo 2^64. */
  lemma ForeignRunExactly(dev: seq<Slice>, s: nat, iter0: nat, iter1: nat)
    requires Good(dev, s, iter1)
    ensures Good(dev, s, iter0) <==> Wrap(iter0) == Wrap(iter1)
  {
    forall k | SLICES * s <= k < SLICES * s + SLICES
      ensures dev[k] == Pattern(k, iter0) <==> Wrap(iter0) == Wrap(iter1)
    {
      assert dev[k] == Pattern(k, iter1);
      ShiftWrap(iter0, iter1, k);
    }
    assert SLICES * s < SLICES * s + SLICES;
    assert Good(dev, s, iter0) ==> dev[SLICES * s] == Pattern(SLICES * s, iter0);
  }

  lemma ShiftWrap(a: nat, b: nat, d: nat)
    ensures Wrap(a + d) == Wrap(b + d) <==> Wrap(a) == Wrap(b)
  {
  }

  /** What was written for one sector and is found in the place of another is
      always counted, whatever the iterators. */
  lemma MisplacedSectorIsBad(dev: seq<Slice>, s: nat, t: nat, iter0: nat, iter1: nat)
    requires s != t && t < TWO64 && SLICES * s + SLICES <= |dev|
    requires forall k :: SLICES * s <= k < SLICES * s + SLICES ==> dev[k] == Pattern(k - SLICES * s + SLICES * t, iter1)
    ensures !Good(dev, s, iter0)
  {
    var k := SLICES * s;
    assert dev[k].sect == t;
    assert s < TWO64 ==> Pattern(k, iter0).sect == s;
  }

  // ---- atomicio ----

  /** The answer of one read or write call. */
  datatype Io = Interrupted | Failed | Moved(count: nat)

  function Min(a: int, b: int): int {
    if a < b then a else b
  }

  /** What the calls do to a transfer of `n` that has come to `pos`: the result, and how
      much has been moved. When `answers` ends the next call meets the end of the file. */
  function Transfer(answers: seq<Io>, pos: nat, n: nat): (r: (nat, nat))
    requires pos <= n
    ensures r.0 <= r.1 <= n && pos <= r.1
    decreases |answers|
  {
    if pos == n || answers == [] then (pos, pos)
    else match answers[0]
      case Interrupted => Transfer(answers[1..], pos, n)
      case Failed => (0, pos)
      case Moved(count) => if count == 0 then (pos, pos) else Transfer(answers[1..], pos + Min(count, n - pos), n)
  }

  /** How much the first `k` calls move, none of them failing or meeting the end. */
  function Moves(answers: seq<Io>, k: nat): Option<nat>
    requires k <= |answers|
  {
    if k == 0 then Some(0)
    else match Moves(answers, k - 1)
      case None => None
      case Some(m) =>
        match answers[k - 1]
        case Interrupted => Some(m)
        case Failed => None
        case Moved(count) => if count == 0 then None else Some(m + count)
  }

  /** Some first calls, without an error or the end of the file, move all there is. */
  ghost predicate Complete(answers: seq<Io>, n: nat) {
    exists k :: 0 <= k <= |answers| && MovesAll(answers, k, n)
  }

  ghost predicate MovesAll(answers: seq<Io>, k: nat, n: nat)
    requires k <= |answers|
  {
    Moves(answers, k).Some? && Moves(answers, k).value >= n
  }

  lemma {:induction false} MovesFirst(answers: seq<Io>, k: nat)
    requires 0 < k <= |answers|
    ensures Moves(answers, k)
            == match answers[0]
               case Interrupted => Moves(answers[1..], k - 1)
               case Failed => None
               case Moved(count) =>
                 if count == 0 || Moves(answers[1..], k - 1).None? then None
                 else Some(count + Moves(answers[1..], k - 1).value)
  {
    if k > 1 {
      MovesFirst(answers, k - 1);
      assert answers[1..][k - 2] == answers[k - 1];
    } else {
      assert Moves(answers, 0) == Some(0);
    }
  }

  /** A transfer comes to its end exactly when the calls before any failure move enough. */
  lemma {:induction false} TransferCompleteExactly(answers: seq<Io>, pos: nat, n: nat)
    requires pos <= n
    ensures Transfer(answers, pos, n).0 == n <==> Complete(answers, n - pos)
    decreases |answers|
  {
    if pos == n {
      assert MovesAll(answers, 0, 0);
    } else if answers == [] {
      assert Moves(answers, 0) == Some(0);
    } else {
      var rest := answers[1..];
      var next := match answers[0]
                  case Moved(count) => pos + Min(count, n - pos)
                  case _ => pos;
      TransferCompleteExactly(rest, next, n);
      assert !MovesAll(answers, 0, n - pos);
      if Complete(answers, n - pos) {
        var k :| 0 <= k <= |answers| && MovesAll(answers, k, n - pos);
        MovesFirst(answers, k);
        assert MovesAll(rest, k - 1, n - next);
      }
      if !answers[0].Failed? && answers[0] != Moved(0) && Complete(rest, n - next) {
        var k :| 0 <= k <= |rest| && MovesAll(rest, k, n - next);
        MovesFirst(answers, k + 1);
        assert MovesAll(answers, k + 1, n - pos);
      }
    }
  }

  /** After `k` calls that have all gone on, the transfer has moved all there is, or the next
      call fails, or meets the end of the file. */
  ghost predicate EndsAfter(answers: seq<Io>, k: nat, pos: nat, n: nat, result: nat, moved: nat) {
    && k <= |answers| && Moves(answers, k).Some?
    && var m := pos + Moves(answers, k).value;
       if m >= n then moved == n && result == n
       else
         && moved == m
         && if k == |answers| || answers[k] == Moved(0) then result == m
            else answers[k].Failed? && result == 0
  }

  /** The result is zero when the call that ends the transfer fails, and otherwise what the
      calls before it have moved, up to all there is. */
  lemma {:induction false} TransferEndsExactly(answers: seq<Io>, pos: nat, n: nat)
    requires pos <= n
    ensures exists k: nat :: EndsAfter(answers, k, pos, n, Transfer(answers, pos, n).0, Transfer(answers, pos, n).1)
    decreases |answers|
  {
    var r := Transfer(answers, pos, n);
    if pos == n || answers == [] || answers[0].Failed? || answers[0] == Moved(0) {
      assert Moves(answers, 0) == Some(0);
      assert EndsAfter(answers, 0, pos, n, r.0, r.1);
    } else {
      var rest := answers[1..];
      var next := match answers[0]
                  case Moved(count) => pos + Min(count, n - pos)
                  case _ => pos;
      TransferEndsExactly(rest, next, n);
      var k: nat :| EndsAfter(rest, k, next, n, r.0, r.1);
      MovesFirst(answers, k + 1);
      assert k < |rest| ==> rest[k] == answers[k + 1];
      assert EndsAfter(answers, k + 1, pos, n, r.0, r.1);
    }
  }

  /** atomicio: repeats the call until everything has been moved from `src` to `dst`. A
      call moves at most what it was asked for. After an error the result is zero, even
      if something had been moved. */
  method Atomicio(src: array<Slice>, from: nat, dst: array<Slice>, to: nat, n: nat, answers: seq<Io>)
    returns (done: nat)
    requires src != dst && from + n <= src.Length && to + n <= dst.Length
    modifies dst
    ensures done == Transfer(answers, 0, n).0 <= n
    ensures var moved := Transfer(answers, 0, n).1;
            && (forall i :: to <= i < to + moved ==> dst[i] == src[from + (i - to)])
            && (forall i :: 0 <= i < dst.Length && !(to <= i < to + moved) ==> dst[i] == old(dst[i]))
  {
    var pos := 0;
    var k := 0;
    assert answers[0..] == answers;
    while n > pos
      invariant 0 <= pos <= n && k <= |answers|
      invariant Transfer(answers[k..], pos, n) == Transfer(answers, 0, n)
      invariant forall i :: to <= i < to + pos ==> dst[i] == src[from + (i - to)]
      invariant forall i :: 0 <= i < dst.Length && !(to <= i < to + pos) ==> dst[i] == old(dst[i])
      decreases n - pos, |answers| - k
    {
      if k == |answers| {
        return pos;
      }
      var answer := answers[k];
      assert answers[k..][0] == answer && answers[k..][1..] == answers[k + 1..];
      k := k + 1;
      match answer {
        case Interrupted =>
        case Failed => return 0;
        case Moved(count) =>
          if count == 0 {
            return pos;
          }
          var moved := Min(count, n - pos);
          forall i | to + pos <= i < to + pos + moved {
            dst[i] := src[from + (i - to)];
          }
          pos := pos + moved;
      }
    }
    return pos;
  }

  // ---- The tester ----

  /** The environment of one block: does lseek work, what do the calls answer, is
      the time up afterwards. */
  datatype BlockIo = BlockIo(seekOk: bool, answers: seq<Io>, timeUp: bool)

  /** The block is reached and moved in full. */
  ghost predicate Goes(io: BlockIo, size: nat) {
    io.seekOk && Complete(io.answers, size)
  }

  /** How many blocks a run of at most `n` has before the time is up. */
  function InTime(env: nat -> BlockIo, i: nat, n: nat): (r: nat)
    requires i < n
    ensures i < r <= n
    decreases n - i
  {
    if env(i).timeUp || i + 1 == n then i + 1 else InTime(env, i + 1, n)
  }

  lemma {:induction false} TimeIsUpFrom(env: nat -> BlockIo, i: nat, j: nat, n: nat)
    requires i < n && i <= j < InTime(env, i, n)
    ensures j + 1 == InTime(env, i, n) <==> env(j).timeUp || j + 1 == n
    decreases n - i
  {
    if i < j {
      TimeIsUpFrom(env, i + 1, j, n);
    }
  }

  /** The run goes on behind block `i` exactly when there is time and a block left. */
  lemma TimeIsUpExactly(env: nat -> BlockIo, i: nat, n: nat)
    requires i < n && i < InTime(env, 0, n)
    ensures i + 1 == InTime(env, 0, n) <==> env(i).timeUp || i + 1 == n
    ensures i + 1 <= InTime(env, 0, n) <= n
  {
    TimeIsUpFrom(env, 0, i, n);
  }

  /** The first `i` blocks all go. */
  ghost predicate FirstGo(env: nat -> BlockIo, i: nat, size: nat) {
    forall j :: 0 <= j < i ==> Goes(env(j), size)
  }

  /** Every block of the run goes. */
  ghost predicate AllGo(env: nat -> BlockIo, n: nat, size: nat)
    requires n > 0
  {
    FirstGo(env, InTime(env, 0, n), size)
  }

  lemma OneMoreGoes(env: nat -> BlockIo, i: nat, size: nat)
    ensures FirstGo(env, 0, size)
    ensures FirstGo(env, i + 1, size) <==> FirstGo(env, i, size) && Goes(env(i), size)
  {
    hide Goes;
  }

  lemma StoppedBy(env: nat -> BlockIo, i: nat, n: nat, size: nat)
    requires i < n && i < InTime(env, 0, n) && !Goes(env(i), size)
    ensures !AllGo(env, n, size)
  {
    hide Goes;
  }

  /** The slices of a block from `at` on hold the pattern of sector `s`. */
  ghost predicate SectorAt(block: seq<Slice>, at: nat, s: nat, iter0: nat) {
    && at + SLICES <= |block| && s < TWO64
    && forall k :: at <= k < at + SLICES ==> block[k] == Pattern(SLICES * s + (k - at), iter0)
  }

  lemma SectorBySlices(block: seq<Slice>, at: nat, s: U64, iter0: nat)
    requires at + SLICES <= |block|
    ensures SectorAt(block, at, s, iter0) <==> forall j :: 0 <= j < SLICES ==> block[at + j] == InSector(s, j, iter0)
  {
    hide Pattern, InSector;
    if SectorAt(block, at, s, iter0) {
      forall j | 0 <= j < SLICES ensures block[at + j] == InSector(s, j, iter0) {
        PatternInSector(s, j, iter0);
        var k := at + j;
        assert block[k] == Pattern(SLICES * s + (k - at), iter0);
      }
    } else {
      var k :| at <= k < at + SLICES && block[k] != Pattern(SLICES * s + (k - at), iter0);
      PatternInSector(s, k - at, iter0);
      var j := k - at;
      assert block[at + j] != InSector(s, j, iter0);
    }
  }

  lemma NextIter(iter0: nat, k: nat)
    ensures Wrap(Wrap(iter0 + k) + 1) == Wrap(iter0 + k + 1)
  {
  }

  class Tester {
    const sectsOfBlock: nat
    const maxBlocks: nat
    const block: array<Slice>
    ghost const iter0: U64
    var sect: U64
    var iter: U64
    var sectErrors: nat

    constructor (sectsOfBlock: nat, maxBlocks: nat, iter0: U64)
      requires sectsOfBlock >= 1
      ensures this.sectsOfBlock == sectsOfBlock && this.maxBlocks == maxBlocks && this.iter0 == iter0
      ensures fresh(block) && block.Length == SLICES * sectsOfBlock
      ensures sect == 0 && iter == iter0 && sectErrors == 0
    {
      this.sectsOfBlock, this.maxBlocks, this.iter0 := sectsOfBlock, maxBlocks, iter0;
      sect, iter, sectErrors := 0, iter0, 0;
      block := new Slice[SLICES * sectsOfBlock](_ => Slice(0, 0));
    }

    /** The iterator is where the closed form says, before slice `j` of sector `sect`. */
    ghost predicate InStep(j: nat)
      reads this
    {
      iter == Wrap(iter0 + (SLICES * sect + j))
    }

    /** update_sect on the sector that starts at slice `at` of the block. */
    method UpdateSect(at: nat)
      requires InStep(0) && at + SLICES <= block.Length
      modifies block, this`iter
      ensures InStep(SLICES)
      ensures forall i :: at <= i < at + SLICES ==> block[i] == Pattern(SLICES * sect + (i - at), iter0)
      ensures forall i :: 0 <= i < block.Length && !(at <= i < at + SLICES) ==> block[i] == old(block[i])
    {
      hide Pattern, Wrap;
      for i := 0 to SLICES
        invariant InStep(i)
        invariant forall j :: 0 <= j < i ==> block[at + j] == InSector(sect, j, iter0)
        invariant forall k :: 0 <= k < block.Length && !(at <= k < at + SLICES) ==> block[k] == old(block[k])
      {
        block[at + i] := Slice(sect, iter);
        NextIter(iter0, SLICES * sect + i);
        iter := Wrap(iter + 1);
      }
      forall i | at <= i < at + SLICES ensures block[i] == Pattern(SLICES * sect + (i - at), iter0) {
        PatternInSector(sect, i - at, iter0);
        assert block[at + (i - at)] == InSector(sect, i - at, iter0);
      }
    }

    /** update_block: the next block of the pattern. */
    method UpdateBlock()
      requires InStep(0) && sect + sectsOfBlock < TWO64
      requires block.Length == SLICES * sectsOfBlock
      modifies block, this`iter, this`sect
      ensures sect == old(sect) + sectsOfBlock && InStep(0)
      ensures forall i :: 0 <= i < block.Length ==> block[i] == Pattern(SLICES * old(sect) + i, iter0)
    {
      for i := 0 to sectsOfBlock
        invariant sect == old(sect) + i && InStep(0)
        invariant forall k :: 0 <= k < SLICES * i ==> block[k] == Pattern(SLICES * old(sect) + k, iter0)
      {
        UpdateSect(SLICES * i);
        sect := sect + 1;
      }
    }

    /** verify_sect: one error for a sector, however many of its words differ. */
    method VerifySect(at: nat)
      requires InStep(0) && at + SLICES <= block.Length
      modifies this`iter, this`sectErrors
      ensures InStep(SLICES)
      ensures sectErrors == old(sectErrors) + if SectorAt(block[..], at, sect, iter0) then 0 else 1
    {
      hide Pattern, Wrap;
      var sectError := false;
      for i := 0 to SLICES
        invariant InStep(i) && sectErrors == old(sectErrors)
        invariant sectError <==> exists j :: 0 <= j < i && block[at + j] != InSector(sect, j, iter0)
      {
        var hdr := block[at + i];
        if hdr.sect != sect {
          sectError := true;
        }
        if hdr.iter != iter {
          sectError := true;
        }
        assert InSector(sect, i, iter0) == Slice(sect, iter);
        assert block[at + i] != InSector(sect, i, iter0) ==> sectError;
        NextIter(iter0, SLICES * sect + i);
        iter := Wrap(iter + 1);
      }
      SectorBySlices(block[..], at, sect, iter0);
      if sectError {
        sectErrors := sectErrors + 1;
      }
    }

    /** verify_block, on a block that was read from sector `sect` of the device. */
    method VerifyBlock(ghost dev: seq<Slice>)
      requires InStep(0) && sect + sectsOfBlock < TWO64
      requires block.Length == SLICES * sectsOfBlock && SLICES * (sect + sectsOfBlock) <= |dev|
      requires forall i :: 0 <= i < block.Length ==> block[i] == dev[SLICES * sect + i]
      requires sectErrors == BadSectors(dev, sect, iter0)
      modifies this`iter, this`sect, this`sectErrors
      ensures sect == old(sect) + sectsOfBlock && InStep(0)
      ensures sectErrors == BadSectors(dev, sect, iter0)
    {
      hide Good, SectorAt;
      for i := 0 to sectsOfBlock
        invariant sect == old(sect) + i && InStep(0)
        invariant sectErrors == BadSectors(dev, sect, iter0)
      {
        BlockSectorGood(block[..], dev, old(sect), i, iter0);
        VerifySect(SLICES * i);
        sect := sect + 1;
      }
    }

    /** The first slice of block `i`. */
    function Start(i: nat): nat
      reads this
    {
      SLICES * (i * sectsOfBlock)
    }

    ghost predicate Ready(device: array<Slice>, i: nat)
      reads this, block
    {
      && block.Length == SLICES * sectsOfBlock && device != block
      && sect == i * sectsOfBlock && InStep(0)
      && Start(i) + SLICES * sectsOfBlock <= device.Length && i * sectsOfBlock + sectsOfBlock < TWO64
    }

    /** The body of the loop when writing. */
    method WriteBlock(device: array<Slice>, i: nat, io: BlockIo) returns (ok: bool)
      requires Ready(device, i)
      modifies this`iter, this`sect, block, device
      ensures SameOutside(old(device[..]), device[..], Start(i), Start(i) + SLICES * sectsOfBlock)
      ensures ok <==> Goes(io, SLICES * sectsOfBlock)
      ensures ok ==>
                && sect == old(sect) + sectsOfBlock && InStep(0)
                && Holds(device[..], Start(i), Start(i) + SLICES * sectsOfBlock, iter0)
    {
      if !io.seekOk {
        return false;
      }
      UpdateBlock();
      TransferCompleteExactly(io.answers, 0, SLICES * sectsOfBlock);
      var len := Atomicio(block, 0, device, Start(i), SLICES * sectsOfBlock, io.answers);
      if len < SLICES * sectsOfBlock {
        return false;
      }
      return true;
    }

    /** The body of the loop when verifying. */
    method CheckBlock(device: array<Slice>, i: nat, io: BlockIo) returns (ok: bool)
      requires Ready(device, i)
      requires sectErrors == BadSectors(device[..], sect, iter0)
      modifies this`iter, this`sect, this`sectErrors, block
      ensures ok <==> Goes(io, SLICES * sectsOfBlock)
      ensures ok ==>
                && sect == old(sect) + sectsOfBlock && InStep(0)
                && sectErrors == BadSectors(device[..], sect, iter0)
    {
      hide BadSectors;
      if !io.seekOk {
        return false;
      }
      TransferCompleteExactly(io.answers, 0, SLICES * sectsOfBlock);
      var len := Atomicio(device, Start(i), block, 0, SLICES * sectsOfBlock, io.answers);
      if len < SLICES * sectsOfBlock {
        return false;
      }
      VerifyBlock(device[..]);
      return true;
    }

    /** check_file_size */
    method CheckFileSize(sizeSects: nat) returns (ok: bool)
      requires sectsOfBlock >= 1
      ensures ok <==> maxBlocks * sectsOfBlock <= sizeSects
    {
      var fileBlocks := sizeSects / sectsOfBlock;
      BlocksFit(maxBlocks, sectsOfBlock, sizeSects);
      return maxBlocks <= fileBlocks;
    }

    /** The device when `i` blocks have been written or verified. */
    ghost predicate Done(was: seq<Slice>, now: seq<Slice>, write: bool, i: nat)
      reads this
    {
      && sect == i * sectsOfBlock && InStep(0)
      && SameOutside(was, now, 0, Start(i))
      && if write then sectErrors == 0 && Holds(now, 0, Start(i), iter0)
         else now == was && sectErrors == BadSectors(now, sect, iter0)
    }

    lemma DoneAtFirst(was: seq<Slice>, write: bool)
      requires sect == 0 && iter == iter0 && sectErrors == 0
      ensures Done(was, was, write, 0)
    {
      assert InStep(0);
      hide InStep;
      NothingHeld(was, iter0);
      NoSectorsNoErrors(was, iter0);
    }

    lemma Further(was: seq<Slice>, now: seq<Slice>, i: nat)
      requires SameOutside(was, now, 0, Start(i)) && i <= maxBlocks
      ensures SameOutside(was, now, 0, Start(maxBlocks))
    {
      LastStart(i, maxBlocks, sectsOfBlock);
    }

    lemma EndsInside(length: nat, i: nat)
      requires i <= maxBlocks && maxBlocks * sectsOfBlock <= length / SLICES
      ensures Start(i) <= length
    {
      LastStart(i, maxBlocks, sectsOfBlock);
    }

    lemma DoneAtLast(was: seq<Slice>, now: seq<Slice>, write: bool, i: nat)
      requires Done(was, now, write, i) && i <= maxBlocks
      ensures SameOutside(was, now, 0, Start(i)) && SameOutside(was, now, 0, Start(maxBlocks))
      ensures !write ==> now == was
      ensures if write then sectErrors == 0 && Holds(now, 0, Start(i), iter0)
              else sectErrors == BadSectors(now, i * sectsOfBlock, iter0)
      ensures sect == i * sectsOfBlock && InStep(0)
    {
      hide InStep, BadSectors, Holds;
      LastStart(i, maxBlocks, sectsOfBlock);
    }

    lemma ReadyFor(was: seq<Slice>, device: array<Slice>, write: bool, i: nat)
      requires Done(was, device[..], write, i) && i < maxBlocks
      requires block.Length == SLICES * sectsOfBlock && device != block && device.Length < TWO64
      requires maxBlocks * sectsOfBlock <= device.Length / SLICES
      ensures Ready(device, i)
    {
      hide InStep, BadSectors, Holds, SameOutside;
      NextStart(i, maxBlocks, sectsOfBlock);
    }

    /** One block of the loop. */
    method DoBlock(device: array<Slice>, write: bool, i: nat, io: BlockIo, ghost was: seq<Slice>) returns (ok: bool)
      requires Ready(device, i) && Done(was, device[..], write, i)
      modifies this`iter, this`sect, this`sectErrors, block, device
      ensures ok <==> Goes(io, SLICES * sectsOfBlock)
      ensures ok ==> Done(was, device[..], write, i + 1)
      ensures SameOutside(was, device[..], 0, Start(i + 1)) && (!write ==> device[..] == was)
    {
      hide BadSectors, Good, Holds, SameOutside, InStep, Goes;
      ghost var before := device[..];
      LastStart(i, i + 1, sectsOfBlock);
      if write {
        ok := WriteBlock(device, i, io);
        OneMoreBlock(was, before, device[..], Start(i), Start(i) + SLICES * sectsOfBlock, iter0);
      } else {
        ok := CheckBlock(device, i, io);
        Wider(was, device[..], Start(i), Start(i + 1));
      }
    }

    /** op_testpattern in a process that has just started: the exit code, and the
        number of blocks written or verified. A written prefix is the closed-form
        pattern, whenever the time runs out; a verified prefix is counted exactly. */
    method OpTestPattern(device: array<Slice>, write: bool, env: nat -> BlockIo) returns (rc: int, opBlocks: nat)
      requires sectsOfBlock >= 1 && maxBlocks >= 1
      requires block.Length == SLICES * sectsOfBlock && device != block
      requires sect == 0 && iter == iter0 && sectErrors == 0
      requires device.Length < TWO64
      modifies this`iter, this`sect, this`sectErrors, block, device
      ensures rc == 0 || rc == 1
      ensures rc == 0 <==> maxBlocks * sectsOfBlock <= device.Length / SLICES
                           && AllGo(env, maxBlocks, SLICES * sectsOfBlock)
      ensures maxBlocks * sectsOfBlock > device.Length / SLICES ==> device[..] == old(device[..])
      ensures !write ==> device[..] == old(device[..])
      ensures SameOutside(old(device[..]), device[..], 0, Start(maxBlocks))
      ensures rc == 0 ==> opBlocks == InTime(env, 0, maxBlocks) && Start(opBlocks) <= device.Length
      ensures rc == 0 && write ==>
                && sectErrors == 0
                && Holds(device[..], 0, Start(opBlocks), iter0)
                && SameOutside(old(device[..]), device[..], 0, Start(opBlocks))
      ensures rc == 0 && !write ==> sectErrors == BadSectors(device[..], opBlocks * sectsOfBlock, iter0)
    {
      assert InStep(0);
      hide BadSectors, Good, Holds, SameOutside, InStep, Goes, FirstGo, InTime, Done, Ready;
      opBlocks := 0;
      ghost var was := device[..];
      Wider(was, was, 0, 0);
      Further(was, was, 0);
      var fits := CheckFileSize(device.Length / SLICES);
      if !fits {
        return 1, 0;
      }
      DoneAtFirst(was, write);
      OneMoreGoes(env, 0, SLICES * sectsOfBlock);
      var i := 0;
      while i < maxBlocks
        invariant 0 <= i <= maxBlocks && opBlocks == i && Done(was, device[..], write, i)
        invariant i <= InTime(env, 0, maxBlocks) && FirstGo(env, i, SLICES * sectsOfBlock)
        invariant if i < maxBlocks then i < InTime(env, 0, maxBlocks) else i == InTime(env, 0, maxBlocks)
      {
        TimeIsUpExactly(env, i, maxBlocks);
        OneMoreGoes(env, i, SLICES * sectsOfBlock);
        ReadyFor(was, device, write, i);
        var ok := DoBlock(device, write, i, env(i), was);
        if !ok {
          StoppedBy(env, i, maxBlocks, SLICES * sectsOfBlock);
          Further(was, device[..], i + 1);
          return 1, i;
        }
        i := i + 1;
        opBlocks := i;
        if env(i - 1).timeUp {
          break;
        }
      }
      DoneAtLast(was, device[..], write, i);
      EndsInside(device.Length, i);
      return 0, opBlocks;
    }
  }

  lemma Wider(dev: seq<Slice>, dev': seq<Slice>, hi: nat, hi': nat)
    requires hi <= hi' && (dev == dev' || SameOutside(dev, dev', 0, hi))
    ensures SameOutside(dev, dev', 0, hi')
  {
  }

  lemma NothingHeld(dev: seq<Slice>, iter0: nat)
    ensures Holds(dev, 0, 0, iter0)
  {
  }

  lemma NoSectorsNoErrors(dev: seq<Slice>, iter0: nat)
    ensures BadSectors(dev, 0, iter0) == 0
  {
  }

  lemma BlocksFit(blocks: nat, size: nat, sects: nat)
    requires size >= 1
    ensures blocks <= sects / size <==> blocks * size <= sects
  {
    var q, r := sects / size, sects % size;
    assert sects == q * size + r;
    if blocks <= q {
      assert blocks * size <= q * size;
    } else {
      assert blocks * size >= (q + 1) * size;
    }
  }

  lemma NextStart(i: nat, n: nat, size: nat)
    requires i < n
    ensures (i + 1) * size == i * size + size <= n * size
  {
    LastStart(i + 1, n, size);
  }

  lemma LastStart(i: nat, n: nat, size: nat)
    requires i <= n
    ensures i * size <= n * size
  {
    assert n * size == i * size + (n - i) * size;
  }

  lemma BlockSectorGood(block: seq<Slice>, dev: seq<Slice>, s0: nat, i: nat, iter0: nat)
    requires SLICES * i + SLICES <= |block| && s0 + i < TWO64 && SLICES * s0 + |block| <= |dev|
    requires forall k :: 0 <= k < |block| ==> block[k] == dev[SLICES * s0 + k]
    ensures Good(dev, s0 + i, iter0)
            <==> SectorAt(block, SLICES * i, s0 + i, iter0)
  {
    forall k | SLICES * (s0 + i) <= k < SLICES * (s0 + i) + SLICES
      ensures dev[k] == block[k - SLICES * s0]
    {
    }
    forall k | SLICES * i <= k < SLICES * i + SLICES
      ensures block[k] == dev[SLICES * s0 + k]
    {
    }
  }

  // ---- disk_data_test ----

  datatype TestResult =
    | WriteError
    | VerifyError
    | SectorErrors(count: nat)
    | Report(totalBlocks: nat, writeBlocks: nat, verifyBlocks: nat)

  /** The verifier started with another block size than the writer, and on any part
      of what the writer finished, finds nothing wrong. */
  lemma AnyBlockSizeVerifies(dev: seq<Slice>, iter0: nat, written: nat, blocks: nat, size: nat)
    requires Holds(dev, 0, SLICES * written, iter0) && blocks * size <= written
    ensures BadSectors(dev, blocks * size, iter0) == 0
  {
    HeldSectorsAreGood(dev, blocks * size, written, iter0);
  }

  /** The first `n` sectors all hold the pattern. */
  ghost predicate AllGood(dev: seq<Slice>, n: nat, iter0: nat) {
    forall s: nat :: s < n ==> Good(dev, s, iter0)
  }

  /** More sectors to test than the device has. */
  predicate TooLarge(blocks: nat, size: nat, slices: nat) {
    blocks * size > slices / SLICES
  }

  lemma LeftByWriter(was: seq<Slice>, now: seq<Slice>, end: nat, iter0: nat)
    requires Holds(now, 0, end, iter0) && SameOutside(was, now, 0, end) && |now| < TWO64
    ensures end <= |now| == |was|
    ensures forall k :: 0 <= k < |now| ==> now[k] == if k < end then Pattern(k, iter0) else was[k]
  {
    hide Pattern;
  }

  lemma KeptBehind(was: seq<Slice>, now: seq<Slice>, end: nat)
    requires SameOutside(was, now, 0, end)
    ensures |now| == |was| && forall k :: 0 <= k < |now| && k >= end ==> now[k] == was[k]
  {
  }

  /** disk_data_test; `meddle` is what happens to the device between the two runs.
      Wherever the writer is stopped, the verifier is given the number of blocks it
      had written: the test raises with the exact number of bad sectors it has come
      across, reports only sectors that are all right, and never raises about
      sectors when the device has kept what was written. */
  method DiskDataTest(device: array<Slice>, testBlocks: nat, sectOfBlock: nat, iterStart: U64,
                      writeEnv: nat -> BlockIo, verifyEnv: nat -> BlockIo, meddle: map<nat, Slice>)
    returns (r: TestResult, ghost verified: nat)
    requires sectOfBlock >= 1 && testBlocks >= 1 && device.Length < TWO64
    modifies device
    ensures r.WriteError? <==> TooLarge(testBlocks, sectOfBlock, device.Length)
                               || !AllGo(writeEnv, testBlocks, SLICES * sectOfBlock)
    ensures r.VerifyError? <==> !r.WriteError?
                                && !AllGo(verifyEnv, InTime(writeEnv, 0, testBlocks), SLICES * sectOfBlock)
    ensures r.SectorErrors? || r.Report? ==> verified == InTime(verifyEnv, 0, InTime(writeEnv, 0, testBlocks))
    ensures r.SectorErrors? ==> r.count == BadSectors(device[..], verified * sectOfBlock, iterStart) > 0
    ensures r.Report? ==>
              && r.totalBlocks == testBlocks && r.writeBlocks == InTime(writeEnv, 0, testBlocks)
              && r.verifyBlocks == verified
              && AllGood(device[..], verified * sectOfBlock, iterStart)
    ensures meddle == map[] ==> !r.SectorErrors?
    ensures !r.WriteError? ==>
              var end := SLICES * (InTime(writeEnv, 0, testBlocks) * sectOfBlock);
              && end <= device.Length
              && forall k :: 0 <= k < device.Length ==>
                   device[k] == if k in meddle then meddle[k]
                                else if k < end then Pattern(k, iterStart)
                                else old(device[k])
    ensures r.WriteError? ==>
              forall k :: 0 <= k < device.Length && k >= SLICES * (testBlocks * sectOfBlock) ==>
                device[k] == old(device[k])
  {
    hide BadSectors, Holds, SameOutside, Good, AllGo, Pattern;
    verified := 0;
    var writer := new Tester(sectOfBlock, testBlocks, iterStart);
    var rc, writeBlocks := writer.OpTestPattern(device, true, writeEnv);
    if rc != 0 {
      KeptBehind(old(device[..]), device[..], SLICES * (testBlocks * sectOfBlock));
      return WriteError, verified;
    }
    ghost var written := device[..];
    LeftByWriter(old(device[..]), written, SLICES * (writeBlocks * sectOfBlock), iterStart);
    forall k | 0 <= k < device.Length && k in meddle {
      device[k] := meddle[k];
    }
    assert meddle == map[] ==> device[..] == written;
    var verifier := new Tester(sectOfBlock, writeBlocks, iterStart);
    var rc', verifyBlocks := verifier.OpTestPattern(device, false, verifyEnv);
    if rc' != 0 {
      return VerifyError, verified;
    }
    verified := verifyBlocks;
    LastStart(verifyBlocks, writeBlocks, sectOfBlock);
    NoErrorsExactly(device[..], verifyBlocks * sectOfBlock, iterStart);
    if meddle == map[] {
      AnyBlockSizeVerifies(device[..], iterStart, writeBlocks * sectOfBlock, verifyBlocks, sectOfBlock);
    }
    if verifier.sectErrors != 0 {
      return SectorErrors(verifier.sectErrors), verified;
    }
    return Report(testBlocks, writeBlocks, verifyBlocks), verified;
  }
}
