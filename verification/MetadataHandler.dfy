/** LVMMetadataHandler on its device: each operation makes exactly the writes that
    TableOps says (sm/srmetadata.py:95-118, 181-209, 213-444, 497-523). */
module MetadataHandler {
  import opened Options
  import opened BlockRanges
  import opened Dicts
  import opened SlotCodec
  import opened SrHeader
  import opened SlotTable
  import opened LiveView
  import opened TableOps
  import opened TableTheorems
  import opened TableLimits
  import opened TableRuns
  import opened TableScan
  import opened SpaceCheck

  /** Python's s[lo:hi], which takes what there is. */
  function Slice(s: string, lo: nat, hi: nat): string
    requires lo <= hi
  {
    if hi <= |s| then s[lo..hi] else if lo <= |s| then s[lo..] else ""
  }

  /** Slot `i` of whatever is in front of `length`. */
  function SlotAt(dev: Device, length: nat, i: nat): Option<Dict> {
    ParseSlot(Slice(Slice(dev, 0, length), Place(i), Place(i) + SLOT))
  }

  /** The KeyErrors of a scan: it reads the deleted mark unless it takes dead records and
      looks for a uuid, and the uuid of what it takes. */
  predicate Lacks(p: Params, d: Dict) {
    || ((!p.includeDeleted || (p.uuid.None? && p.firstDeleted)) && !Has(d, DELETED))
    || (p.uuid.Some? && !Skips(p, d) && !Has(d, UUID))
  }

  /** What the two scans of the operations need of a record. */
  lemma ScansNeed(d: Dict, uuid: string)
    ensures Lacks(ByUuid(uuid), d) <==> !Has(d, DELETED) || (Value(d, DELETED) != "1" && !Has(d, UUID))
    ensures Lacks(FIRST_DELETED, d) <==> !Has(d, DELETED)
  {
    hide Has, Value;
  }

  /** Slot `i` ends a scan with an error. */
  predicate FailsAt(dev: Device, length: nat, p: Params, i: nat) {
    var d := SlotAt(dev, length, i);
    d.None? || Lacks(p, d.value)
  }

  /** Slot `i` is the last that a scan takes. */
  predicate StopsAt(dev: Device, length: nat, p: Params, i: nat) {
    var d := SlotAt(dev, length, i);
    d.Some? && Stops(p, d.value)
  }

  /** Slot `i` fails, and no slot in front of it keeps a scan from reading it. */
  ghost predicate FailsUnstopped(dev: Device, length: nat, p: Params, i: nat) {
    && Place(i) < length && FailsAt(dev, length, p, i)
    && forall j: nat :: j < i ==> !StopsAt(dev, length, p, j)
  }

  ghost predicate ScanFails(dev: Device, p: Params) {
    || LengthOf(dev).None?
    || exists i: nat :: FailsUnstopped(dev, LengthOf(dev).value, p, i)
  }

  /** The state of a scan that has read the first `i` slots of the table. */
  ghost predicate ScanAt(t: Table, p: Params, length: nat, i: nat, r: Scanned) {
    && i <= |t| && length == Place(|t|) && r.vdis == Entries(t, p, i)
    && match r.offset
       case None => i <= StopAt(t, p) && r.upper == length && r.lower == 0 && !r.foundDeleted
       case Some(o) =>
         && i == StopAt(t, p) + 1 && o == r.lower == Place(i - 1) && r.upper == Place(i)
         && r.foundDeleted == p.uuid.None?
  }

  lemma ScanEnds(t: Table, p: Params, length: nat, i: nat, r: Scanned)
    requires ScanAt(t, p, length, i, r) && Place(i) >= r.upper
    ensures r == Expected(t, p)
  {
    hide Entries, StopAt;
    if r.offset.None? {
      assert i == |t|;
      assert StopAt(t, p) == |t|;
    }
  }

  /** One more slot: skipped, taken, or taken and the last. */
  lemma ScanStep(t: Table, p: Params, length: nat, i: nat, r: Scanned, r': Scanned)
    requires ScanAt(t, p, length, i, r) && r.offset.None? && i < |t|
    requires Skips(p, t[i]) ==> r' == r
    requires !Skips(p, t[i]) ==> r'.vdis == r.vdis + [Entry(Place(i), InMemory(t[i], i))]
    requires !Skips(p, t[i]) && Stops(p, t[i]) ==>
               r' == Scanned(Place(i), Place(i + 1), Some(Place(i)), p.uuid.None?, r'.vdis)
    requires !Skips(p, t[i]) && !Stops(p, t[i]) ==> r' == r.(vdis := r'.vdis)
    ensures ScanAt(t, p, length, i + 1, r')
  {
    hide InMemory, Skips, Stops;
    if Skips(p, t[i]) {
      assert !Stops(p, t[i]) by { NoStop(p, t[i]); }
      assert StopAt(t, p) != i;
    } else if !Stops(p, t[i]) {
      assert StopAt(t, p) != i;
    } else {
      assert StopAt(t, p) == i;
    }
  }

  lemma NoStop(p: Params, d: Dict)
    requires Skips(p, d)
    ensures !Stops(p, d)
  {
  }

  /** What an operation did: whether it got through, and each of its writes in order. */
  ghost predicate Did(dev: Device, images: seq<Device>, e: Effect, ok: bool, dev': Device, images': seq<Device>) {
    ok == e.ok && dev' == Last(dev, e) && images' == images + e.images
  }

  lemma HeldLength(dev: Device, t: Table)
    requires ReadsAs(dev, t)
    ensures LengthOf(dev) == Some(Place(|t|)) && SECTOR <= |dev| < MAX_LENGTH && Place(|t|) <= |dev|
  {
  }

  /** What a scan is expected to find, as the operations use it. */
  lemma ExpectedIs(t: Table, p: Params)
    ensures var s := StopAt(t, p);
            var e := Expected(t, p);
            && (s < |t| ==>
                  && e.offset == Some(Place(s)) && e.lower == Place(s) && e.upper == Place(s + 1)
                  && e.foundDeleted == p.uuid.None?
                  && var k := FirstFrom(e.vdis, e.lower);
                     k < |e.vdis| && e.vdis[k] == Entry(Place(s), InMemory(t[s], s)) && k + 1 == |e.vdis|)
            && (s == |t| ==>
                  && e.offset == None && !e.foundDeleted
                  && forall x :: x in e.vdis ==> x.offset != Place(|t|))
  {
    hide InMemory, StopAt, Entries, FirstFrom, Skips;
    var s := StopAt(t, p);
    if s < |t| {
      LastEntry(t, p);
    } else {
      EntriesAre(t, p, |t|);
    }
  }

  /** The record a dictionary keyed by offset has at `offset`. */
  function At(vs: seq<Entry>, offset: nat): Option<Dict> {
    if vs == [] then None else if vs[0].offset == offset then Some(vs[0].record) else At(vs[1..], offset)
  }

  lemma {:induction false} AtFirstFrom(vs: seq<Entry>, offset: nat)
    requires var k := FirstFrom(vs, offset); k < |vs| && vs[k].offset == offset
    ensures At(vs, offset) == Some(vs[FirstFrom(vs, offset)].record)
  {
    if vs[0].offset < offset {
      AtFirstFrom(vs[1..], offset);
    }
  }

  /** The record that delete hands to update is written to the same slot as a tombstone. */
  lemma DeadRecord(dev: Device, t: Table, i: nat, uuid: string, d: Dict)
    requires Sound(t) && i == FindLive(t, uuid) < |t| && d == Set(InMemory(t[i], i), DELETED, "1")
    ensures UpdateEffect(dev, t, d)
         == match WriteRecord(dev, i, Tombstone(t, i))
            case None => Effect(false, [])
            case Some(first) => Effect(true, [first])
  {
    hide WriteRecord, Merge, FindLive;
    TagsKept(t[i], i);
    OtherTag(InMemory(t[i], i), DELETED, "1", UUID);
    assert Value(d, UUID) == uuid by { FoundHas(t, uuid); }
    SetHas(t[i], OFFSET, Dec(Place(i)), UUID);
    SetHas(InMemory(t[i], i), DELETED, "1", UUID);
  }

  /** What delete finds, and what its update does. */
  lemma FoundForDelete(dev: Device, t: Table, uuid: string)
    requires Sound(t)
    ensures var i, e := FindLive(t, uuid), Expected(t, ByUuid(uuid));
            if i == |t| then e.offset.None?
            else
              && e.offset == Some(Place(i)) && At(e.vdis, Place(i)) == Some(InMemory(t[i], i))
              && var w := WriteRecord(dev, i, Tombstone(t, i));
                 && UpdateEffect(dev, t, Set(InMemory(t[i], i), DELETED, "1"))
                    == (if w.None? then Effect(false, []) else Effect(true, [w.value]))
                 && (w.Some? ==> LengthOf(w.value) == LengthOf(dev) && |w.value| == |dev|)
  {
    hide Sound, Expected, FindLive, StopAt, InMemory, Set, FirstFrom, UpdateEffect, WriteRecord, Tombstone,
         LengthOf, At;
    var i, p := FindLive(t, uuid), ByUuid(uuid);
    ScansFind(t, uuid);
    ExpectedIs(t, p);
    if i < |t| {
      AtFirstFrom(Expected(t, p).vdis, Place(i));
      DeadRecord(dev, t, i, uuid, Set(InMemory(t[i], i), DELETED, "1"));
      if WriteRecord(dev, i, Tombstone(t, i)).Some? {
        RecordKeepsHeader(dev, i, Tombstone(t, i));
      }
    }
  }

  /** What add finds: the first dead slot, or nothing at the end of the table. */
  lemma FoundForAdd(t: Table, d: Dict)
    ensures var i, e := FirstDead(t), Expected(t, FIRST_DELETED);
            if i < |t| then
              && e.offset == Some(Place(i)) && e.lower == Place(i) && e.upper == Place(i + 1) && e.foundDeleted
              && var k := FirstFrom(e.vdis, e.lower);
                 && k < |e.vdis| && e.vdis[k].offset == Place(i)
                 && Merge(e.vdis[k].record, Set(d, DELETED, "0")) == AddRecord(t, d)
            else
              && !e.foundDeleted && AddRecord(t, d) == Set(d, DELETED, "0")
              && forall x :: x in e.vdis ==> x.offset != Place(|t|)
  {
    hide Expected, Merge, FirstFrom, FirstDead, StopAt, InMemory, Set;
    ScansFind(t, "");
    ExpectedIs(t, FIRST_DELETED);
  }

  lemma FoundHas(t: Table, uuid: string)
    requires FindLive(t, uuid) < |t|
    ensures Value(t[FindLive(t, uuid)], UUID) == uuid
  {
  }

  lemma SetHas(d: Dict, tag: string, value: string, other: string)
    requires Has(d, other)
    ensures Has(Set(d, tag, value), other)
  {
    var i :| 0 <= i < |d| && d[i].tag == other;
    assert Set(d, tag, value)[i].tag == other;
  }

  /** A write behind the SR's own sectors leaves the header alone. */
  lemma HeaderKept(dev: Device, at: nat, text: string)
    requires FIRST <= at && at + |Padded(text)| <= |dev|
    ensures LengthOf(Write(dev, at, text)) == LengthOf(dev)
  {
    hide Padded, ParseLength;
    assert Write(dev, at, text)[..SECTOR] == dev[..SECTOR];
  }

  lemma RecordKeepsHeader(dev: Device, i: nat, d: Dict)
    requires WriteRecord(dev, i, d).Some?
    ensures LengthOf(WriteRecord(dev, i, d).value) == LengthOf(dev)
    ensures |WriteRecord(dev, i, d).value| == |dev|
  {
    hide Render, Write, LengthOf;
    HeaderKept(dev, Place(i), Render(d).value);
    SlotTakesRoom(dev, i, d);
  }

  lemma NothingLacks(p: Params, d: Dict)
    requires Has(d, DELETED) && Has(d, UUID)
    ensures !Lacks(p, d)
  {
  }

  lemma SlotAtIs(dev: Device, length: nat, i: nat)
    ensures SlotAt(dev, length, i) == ParseSlot(Slice(Slice(dev, 0, length), Place(i), Place(i) + SLOT))
  {
  }

  lemma InMemoryStops(p: Params, d: Dict, i: nat)
    ensures Stops(p, InMemory(d, i)) <==> Stops(p, d)
  {
    hide InMemory, Value;
    TagsKept(d, i);
  }

  /** A scan that has come to an end has not failed. */
  lemma ScanSucceeds(dev: Device, length: nat, p: Params, i: nat, offset: Option<nat>)
    requires LengthOf(dev) == Some(length)
    requires forall j: nat :: j < i ==> !FailsAt(dev, length, p, j)
    requires if offset.None? then Place(i) >= length else i > 0 && StopsAt(dev, length, p, i - 1)
    ensures !ScanFails(dev, p)
  {
    hide StopsAt, FailsAt, LengthOf;
  }

  /** A table in order never makes a scan fail, and a slot that cannot be read does, for a
      uuid that no live slot in front of it has. */
  lemma HiddenUuid(dev: Device, w: Device, t: Table, i: nat, uuid: string)
    requires ReadsAs(dev, t) && i == FirstDead(t) < |t| && uuid !in LiveUuids(t)
    requires |w| == |dev| && LengthOf(w) == Some(Place(|t|)) && ParseSlot(SlotText(w, i)) == None
    requires forall j: nat :: j < i ==> SlotText(w, j) == SlotText(dev, j)
    ensures ScanFails(w, ByUuid(uuid))
  {
    hide ParseSlot, LengthOf, SlotText, Value, Dead, ReadsAs, LiveUuids;
    HeldHeader(dev, t);
    var n, p := Place(|t|), ByUuid(uuid);
    SlotInTable(w, |t|, i);
    forall j: nat | j < i ensures !StopsAt(w, n, p, j) {
      SlotInTable(w, |t|, j);
      HeldSlot(dev, t, j);
      LiveIsIn(t, j);
    }
    assert FailsUnstopped(w, n, p, i);
  }

  lemma LiveIsIn(t: Table, j: nat)
    requires j < |t| && !Dead(t[j])
    ensures Value(t[j], UUID) in LiveUuids(t)
  {
  }

  lemma SlotInTable(w: Device, n: nat, j: nat)
    requires j < n && Place(n) <= |w|
    ensures SlotAt(w, Place(n), j) == ParseSlot(SlotText(w, j))
  {
    hide ParseSlot;
    assert Slice(Slice(w, 0, Place(n)), Place(j), Place(j) + SLOT) == SlotText(w, j);
  }

  /** When the dummy has been written over a dead slot that it does not fit, the scan for
      it fails. */
  lemma DummyIsHidden(v: Volume, uuid: string)
    requires Good(v) && GoodUuid(uuid) && uuid !in LiveUuids(v.table) && Fits(v)
    requires AddEffect(v.dev, v.table, Dummy(uuid)).ok && !SpaceLeft(v, uuid)
    ensures ScanFails(Last(v.dev, AddEffect(v.dev, v.table, Dummy(uuid))), ByUuid(uuid))
  {
    hide Dummy, ReadsAs, Sound, Unique, LiveUuids, AddRecord, Storable, WriteRecord, SetLength, SpaceLeft, GoodUuid,
         ScanFails, LengthOf, ParseSlot, SlotText, Clean;
    var dev, t := v.dev, v.table;
    var i, r := FirstDead(t), AddRecord(t, Dummy(uuid));
    SpaceCheckLosesExactly(v, uuid);
    DummyIsClean(t, uuid);
    WrittenSlot(dev, i, r);
    var first := WriteRecord(dev, i, r).value;
    var w := SetLength(first, Place(|t|));
    LengthReads(first, Place(|t|));
    SlotIsKept(first, w, i);
    forall j: nat | j < i ensures SlotText(w, j) == SlotText(dev, j) {
      FrontKept(dev, i, r, Place(|t|), j);
    }
    HiddenUuid(dev, w, t, i, uuid);
  }

  lemma SlotIsKept(dev: Device, w: Device, i: nat)
    requires Place(i + 1) <= |dev| == |w|
    requires forall lo, hi :: SECTOR <= lo <= hi <= |dev| ==> w[lo..hi] == dev[lo..hi]
    ensures SlotText(w, i) == SlotText(dev, i)
  {
  }

  lemma DummyIsClean(t: Table, uuid: string)
    requires Sound(t) && GoodUuid(uuid)
    ensures Clean(AddRecord(t, Dummy(uuid)))
  {
    hide Dummy, Sound, GoodUuid, AddRecord, Clean;
    AddedDummy(t, uuid);
  }

  /** The two halves of the space check. */
  lemma SpaceCheckIs(v: Volume, uuid: string)
    requires Good(v) && GoodUuid(uuid) && uuid !in LiveUuids(v.table)
    ensures ReadsAs(v.dev, v.table) && Sound(v.table) && Fits(v)
    ensures var e := AddEffect(v.dev, v.table, Dummy(uuid));
            if SpaceLeft(v, uuid) then
              var w := AddTo(v, Dummy(uuid));
              e.ok && ReadsAs(w.dev, w.table) && Sound(w.table) && Fits(w) && DeleteEffect(w.dev, w.table, uuid).ok
            else if e.ok then Lost(Last(v.dev, e)) && ScanFails(Last(v.dev, e), ByUuid(uuid))
            else Last(v.dev, e) == v.dev
  {
    hide Dummy, AddTable, DeleteTable, AddEffect, DeleteEffect, CanAdd, CanDelete, CanMark, ReadsAs, Sound, Unique,
         LiveUuids, Live, Lost, SpaceLeft, GoodUuid, ScanFails, Storable, WriteRecord, AddRecord;
    var dev, t, d := v.dev, v.table, Dummy(uuid);
    HeldLength(dev, t);
    SpaceCheckAllowedExactly(v, uuid);
    SpaceCheckLosesExactly(v, uuid);
    if SpaceLeft(v, uuid) {
      AddIsAtomic(dev, t, d);
      CheckSpaceKeeps(v, uuid);
      MarkIsEnough(AddTo(v, d).dev, AddTable(t, d), uuid);
      DeleteIsAtomic(AddTo(v, d).dev, AddTable(t, d), uuid);
    } else if AddEffect(dev, t, d).ok {
      DummyIsHidden(v, uuid);
    }
  }

  class Handler {
    const fd: array<char>
    ghost var images: seq<Device>   // the device after each write so far

    constructor (device: array<char>)
      ensures fd == device && images == []
    {
      fd := device;
      images := [];
    }

    /** file_write_wrapper: the text, padded to whole blocks. */
    method FileWrite(offset: nat, data: string) returns (ok: bool)
      modifies fd, this`images
      ensures ok == (offset + |Padded(data)| <= fd.Length)
      ensures ok ==> fd[..] == Write(old(fd[..]), offset, data) && images == old(images) + [fd[..]]
      ensures !ok ==> fd[..] == old(fd[..]) && images == old(images)
    {
      var toWrite := Padded(data);
      ok := offset + |toWrite| <= fd.Length;
      if ok {
        hide Padded;
        ghost var was := fd[..];
        for k := 0 to |toWrite|
          invariant images == old(images)
          invariant forall j :: 0 <= j < fd.Length ==>
                      fd[j] == if offset <= j < offset + k then toWrite[j - offset] else was[j]
        {
          fd[offset + k] := toWrite[k];
        }
        assert fd[..] == Write(was, offset, data);
        images := images + [fd[..]];
      }
    }

    /** getMetadataLength */
    method GetLength() returns (length: Option<nat>)
      ensures length == LengthOf(fd[..])
    {
      length := if fd.Length < SECTOR then None else ParseLength(fd[..SECTOR]);
      assert fd.Length >= SECTOR ==> fd[..][..SECTOR] == fd[..SECTOR];
    }

    /** updateLengthInHeader */
    method UpdateLength(length: nat) returns (ok: bool)
      modifies fd, this`images
      ensures SECTOR <= fd.Length && length < MAX_LENGTH ==>
                ok && fd[..] == SetLength(old(fd[..]), length) && images == old(images) + [fd[..]]
    {
      hide BuildHeader, Write;
      var header := BuildHeader(length);
      if length < MAX_LENGTH {
        HeaderLength(length);
        assert |Padded(header)| == SECTOR;
      }
      ok := FileWrite(0, header);
    }

    /** The body of the scan's loop, for a record that has been read at `offset`. */
    method Consider(p: Params, found: Scanned, record: Dict, offset: nat,
                    ghost t: Table, ghost length: nat, ghost i: nat)
      returns (result: Scanned)
      requires offset == Place(i) && found.offset.None?
      ensures result.offset.Some? ==> result.upper == offset + SLOT
      ensures result.offset.None? ==> result.upper == found.upper
      ensures result.offset.Some? <==> Stops(p, record)
      ensures i < |t| && record == InMemory(t[i], i) && ScanAt(t, p, length, i, found)
              ==> ScanAt(t, p, length, i + 1, result)
    {
      hide InMemory, Entries, StopAt, ScanAt, Value, BlockStart, WholeBlocks;
      var dead := Value(record, DELETED) == "1";
      result := found;
      if p.includeDeleted || !dead {
        result := result.(vdis := found.vdis + [Entry(offset, record)]);
        if if p.uuid.Some? then Value(record, UUID) == p.uuid.value else p.firstDeleted && dead {
          var lower, upper := AlignedRange(SECTOR, offset, SLOT);
          ghost var n :| WholeBlocks(SECTOR, lower, upper, SLOT, n);
          SlotRange(i, lower, upper, n);
          result := Scanned(lower, upper, Some(offset), p.uuid.None?, result.vdis);
        }
      }
      if i < |t| && record == InMemory(t[i], i) && ScanAt(t, p, length, i, found) {
        TagsKept(t[i], i);
        ScanStep(t, p, length, i, found, result);
      }
    }

    /** getMetadataInternal. On a device that holds a table it returns what the scan
        of that table is expected to find. On any device it fails exactly when the length
        cannot be read or a slot fails that no slot in front of it keeps the scan from. */
    method Scan(p: Params, ghost t: Table) returns (r: Option<Scanned>)
      ensures ReadsAs(fd[..], t) && Sound(t) ==> r == Some(Expected(t, p))
      ensures r.None? <==> ScanFails(fd[..], p)
      ensures r.Some? && r.value.offset.None? ==>
                LengthOf(fd[..]).Some?
                && forall i: nat :: Place(i) < LengthOf(fd[..]).value ==> !FailsAt(fd[..], LengthOf(fd[..]).value, p, i)
    {
      hide SlotAt, ParseSlot, LengthOf, ReadsAs, Sound, Entries, StopAt, Skips, Stops, ScanAt, Lacks;
      var found := GetLength();
      if ReadsAs(fd[..], t) {
        HeldLength(fd[..], t);
      }
      if found.None? {
        return None;
      }
      var length := found.value;
      var text := Slice(fd[..], 0, length);
      var result := Scanned(0, length, None, false, []);
      var offset := FIRST;
      ghost var i := 0;
      ghost var good := ReadsAs(fd[..], t) && Sound(t);
      if good {
        ScanStart(t, p, length);
      }
      while offset < result.upper
        invariant offset == Place(i)
        invariant good ==> ScanAt(t, p, length, i, result)
        invariant result.offset.None? ==> result.upper == length
        invariant forall j: nat :: j < i ==> !FailsAt(fd[..], length, p, j)
        invariant result.offset.None? ==> forall j: nat :: j < i ==> !StopsAt(fd[..], length, p, j)
        invariant result.offset.Some? ==> i > 0 && offset >= result.upper
        invariant result.offset.Some? ==> StopsAt(fd[..], length, p, i - 1)
        decreases result.offset.None?, result.upper - offset
      {
        var parsed := ParseSlot(Slice(text, offset, offset + SLOT));
        SlotAtIs(fd[..], length, i);
        if good {
          InScan(t, p, length, i, result);
          SlotIsRead(fd[..], t, length, i);
          NothingLacks(p, t[i]);
        }
        if parsed.None? || Lacks(p, parsed.value) {
          assert FailsUnstopped(fd[..], length, p, i);
          return None;
        }
        InMemoryStops(p, parsed.value, i);
        result := Consider(p, result, Set(parsed.value, OFFSET, Dec(offset)), offset, t, length, i);
        offset := offset + SLOT;
        i := i + 1;
      }
      if good {
        ScanEnds(t, p, length, i, result);
      }
      ScanSucceeds(fd[..], length, p, i, result.offset);
      r := Some(result);
    }

    /** updateVdi. A table that cannot be scanned is left as it is. */
    method UpdateVdi(d: Dict, ghost t: Table) returns (ok: bool)
      modifies fd, this`images
      ensures ReadsAs(old(fd[..]), t) && Sound(t) ==>
                Did(old(fd[..]), old(images), UpdateEffect(old(fd[..]), t, d), ok, fd[..], images)
      ensures ScanFails(old(fd[..]), ByUuid(Value(d, UUID))) ==> !ok && fd[..] == old(fd[..]) && images == old(images)
    {
      hide ScanFails, Sound, ReadsAs, Expected, Render, Value, Write, Merge, FirstFrom, FindLive, StopAt, InMemory,
           Has, Padded;
      if !Has(d, UUID) {
        return false;
      }
      var md := Scan(ByUuid(Value(d, UUID)), t);
      ScansFind(t, Value(d, UUID));
      ExpectedIs(t, ByUuid(Value(d, UUID)));
      if md.None? || md.value.offset.None? {
        return false;
      }
      var text, _ := GenerateVdis(md.value.vdis, md.value.lower, md.value.upper, d, md.value.offset.value);
      if text.None? {
        return false;
      }
      ok := FileWrite(md.value.lower, text.value);
    }

    /** addVdiInternal: the slot is written first, the length after it. A table that cannot
        be scanned is left as it is. `left` is what becomes of the dictionary. */
    method AddVdi(d: Dict, ghost t: Table) returns (ok: bool, left: Dict)
      modifies fd, this`images
      ensures ReadsAs(old(fd[..]), t) && Sound(t) ==>
                Did(old(fd[..]), old(images), AddEffect(old(fd[..]), t, d), ok, fd[..], images)
                && (ok ==> left == LeftBy(t, d))
      ensures ScanFails(old(fd[..]), FIRST_DELETED) ==> !ok && fd[..] == old(fd[..]) && images == old(images)
    {
      hide ScanFails, Sound, ReadsAs, Expected, Render, Write, Merge, LengthOf, SetLength, BlockStart, WholeBlocks,
           FirstFrom, FirstDead, InMemory, Padded, Set, AddRecord, Escaped;
      var record := Set(d, DELETED, "0");
      left := record;
      var length := GetLength();
      var md := Scan(FIRST_DELETED, t);
      FoundForAdd(t, d);
      if ReadsAs(fd[..], t) {
        HeldLength(fd[..], t);
      }
      if length.None? || md.None? {
        return false, left;
      }
      var lower, upper, offset := md.value.lower, md.value.upper, length.value;
      var reuse := md.value.foundDeleted && md.value.offset.Some?;
      if reuse {
        offset := md.value.offset.value;
      } else {
        lower, upper := AlignedRange(SECTOR, offset, SLOT);
        ghost var n :| WholeBlocks(SECTOR, lower, upper, SLOT, n);
        if offset == Place(|t|) {
          SlotRange(|t|, lower, upper, n);
        }
      }
      var text;
      text, left := GenerateVdis(md.value.vdis, lower, upper, record, offset);
      if text.None? {
        return false, left;
      }
      ghost var i := FirstDead(t);
      assert ReadsAs(old(fd[..]), t) && Sound(t) ==> lower == Place(i) && text == Render(AddRecord(t, d));
      ok := FileWrite(lower, text.value);
      if ok {
        if ReadsAs(old(fd[..]), t) && Sound(t) {
          SlotTakesRoom(old(fd[..]), i, AddRecord(t, d));
        }
        ok := UpdateLength(if reuse then length.value else length.value + SLOT);
      }
    }

    /** deleteVdi: a tombstone first; the last slot is then cut off. Nothing to do, and
        no error, when the uuid is not there. A table that cannot be scanned is left as it
        is. */
    method DeleteVdi(uuid: string, ghost t: Table) returns (ok: bool)
      modifies fd, this`images
      ensures ReadsAs(old(fd[..]), t) && Sound(t) ==>
                Did(old(fd[..]), old(images), DeleteEffect(old(fd[..]), t, uuid), ok, fd[..], images)
      ensures ScanFails(old(fd[..]), ByUuid(uuid)) ==> !ok && fd[..] == old(fd[..]) && images == old(images)
    {
      hide ScanFails, Sound, ReadsAs, Expected, FindLive, InMemory, Set, UpdateEffect, WriteRecord, Tombstone,
           LengthOf, SetLength, At;
      ghost var dev := fd[..];
      ghost var good := ReadsAs(dev, t) && Sound(t);
      var md := Scan(ByUuid(uuid), t);
      if good {
        HeldLength(dev, t);
        FoundForDelete(dev, t, uuid);
      }
      if md.None? {
        return false;
      }
      if md.value.offset.None? {
        return true;
      }
      var offset := md.value.offset.value;
      var record := At(md.value.vdis, offset);
      if record.None? {
        return false;
      }
      ok := UpdateVdi(Set(record.value, DELETED, "1"), t);
      if !ok {
        return;
      }
      var length := GetLength();
      if length.None? {
        return false;
      }
      if length.value == offset + SLOT {
        ok := UpdateLength(length.value - SLOT);
      }
    }

    /** spaceAvailableForVdis: a VDI is added under a new uuid and deleted again. It gets
        through exactly when there is room, and then the device is that of adding the dummy
        and deleting it. Otherwise either nothing is written, or the dummy is, over a dead
        slot that it does not fit, and no table is left. */
    method SpaceAvailable(uuid: string, ghost t: Table) returns (ok: bool)
      modifies fd, this`images
      ensures Good(Volume(old(fd[..]), t)) && GoodUuid(uuid) && uuid !in LiveUuids(t) ==>
                var v := Volume(old(fd[..]), t);
                && (ok <==> SpaceLeft(v, uuid))
                && Fits(v)
                && (ok ==> Fits(AddTo(v, Dummy(uuid))) && fd[..] == DeleteFrom(AddTo(v, Dummy(uuid)), uuid).dev)
                && (!ok ==> fd[..] == Last(v.dev, AddEffect(v.dev, t, Dummy(uuid))))
                && (!ok ==> fd[..] == old(fd[..]) || Lost(fd[..]))
    {
      hide Dummy, AddTable, DeleteTable, AddEffect, DeleteEffect, Good, ReadsAs, Sound, LiveUuids, Lost, SpaceLeft,
           GoodUuid, ScanFails, Fits;
      ghost var v := Volume(fd[..], t);
      if Good(v) && GoodUuid(uuid) && uuid !in LiveUuids(t) {
        SpaceCheckIs(v, uuid);
      }
      var left;
      ok, left := AddVdi(Dummy(uuid), t);
      if ok {
        ok := DeleteVdi(uuid, AddTable(t, Dummy(uuid)));
      }
    }
  }

  lemma ScanStart(t: Table, p: Params, length: nat)
    requires length == Place(|t|)
    ensures ScanAt(t, p, length, 0, Scanned(0, length, None, false, []))
  {
  }

  lemma InScan(t: Table, p: Params, length: nat, i: nat, r: Scanned)
    requires ScanAt(t, p, length, i, r) && Place(i) < r.upper
    ensures i < |t| && r.offset.None?
  {
  }

  lemma SlotIsRead(dev: Device, t: Table, length: nat, i: nat)
    requires ReadsAs(dev, t) && Sound(t) && length == Place(|t|) && i < |t|
    ensures ParseSlot(Slice(Slice(dev, 0, length), Place(i), Place(i) + SLOT)) == Some(t[i])
    ensures Has(t[i], DELETED) && Has(t[i], UUID)
  {
    hide ParseSlot;
    assert Slice(Slice(dev, 0, length), Place(i), Place(i) + SLOT) == SlotText(dev, i);
  }

  /** The tag for the place does not hide the others. */
  lemma TagsKept(d: Dict, i: nat)
    ensures Value(InMemory(d, i), DELETED) == Value(d, DELETED)
    ensures Value(InMemory(d, i), UUID) == Value(d, UUID)
  {
    OtherTag(d, OFFSET, Dec(Place(i)), DELETED);
    OtherTag(d, OFFSET, Dec(Place(i)), UUID);
  }
}
