/** Exactly when add, update and delete do what they are meant to do, and that the whole
    table is lost when the record that is written does not fit its slot
    (sm/srmetadata.py:253-337, 351-444). */
module TableLimits {
  import opened Options
  import opened Dicts
  import opened SlotCodec
  import opened SlotCuts
  import opened SrHeader
  import opened SlotTable
  import opened LiveView
  import opened TableOps
  import opened TableTheorems
  import opened TableRuns
  import opened SlotGrowth

  /** The device holds no table at all. */
  ghost predicate Lost(dev: Device) {
    forall t :: !ReadsAs(dev, t)
  }

  /** One slot that cannot be read is enough. */
  lemma UnreadableIsLost(dev: Device, n: nat, i: nat)
    requires Place(n) <= |dev| && LengthOf(dev) == Some(Place(n)) && i < n
    requires ParseSlot(SlotText(dev, i)) == None
    ensures Lost(dev)
  {
    hide ParseSlot, LengthOf, SlotText, ReadsAs;
    forall t ensures !ReadsAs(dev, t) {
      if ReadsAs(dev, t) {
        HeldHeader(dev, t);
        HeldSlot(dev, t, i);
      }
    }
  }

  lemma HeldSlot(dev: Device, t: Table, i: nat)
    requires ReadsAs(dev, t) && i < |t|
    ensures Place(i + 1) <= |dev| && ParseSlot(SlotText(dev, i)) == Some(t[i])
  {
    hide ParseSlot, LengthOf, SlotText;
  }

  /** What a slot reads as when a record has been written to it. */
  lemma WrittenSlot(dev: Device, i: nat, d: Dict)
    requires Clean(d) && WriteRecord(dev, i, d).Some?
    ensures var w := WriteRecord(dev, i, d).value;
            && Place(i + 1) <= |w| == |dev| && LengthOf(w) == LengthOf(dev)
            && ParseSlot(SlotText(w, i)) == if Storable(d) then Some(Stored(d)) else None
  {
    hide Clean, Storable, Stored, Render, ParseSlot, ParseLength, Write;
    var text := Render(d).value;
    var w := WriteRecord(dev, i, d).value;
    SlotTakesRoom(dev, i, d);
    SlotReadsExactly(d);
    WriteIsLocal(dev, Place(i), text);
    assert w[0..SECTOR] == dev[0..SECTOR];
    SlotIsWritten(w, Place(i), text);
  }

  lemma SlotIsWritten(w: Device, at: nat, text: string)
    requires |text| >= SLOT && at + |Padded(text)| <= |w| && w[at..at + |Padded(text)|] == Padded(text)
    ensures w[at..at + SLOT] == text[..SLOT]
  {
    assert w[at..at + SLOT] == w[at..at + |Padded(text)|][..SLOT];
    assert Padded(text)[..SLOT] == text[..SLOT];
  }

  /** A record written to slot `i` of a table of `n` that does not fit: all is lost. */
  lemma OverrunIsLost(dev: Device, n: nat, i: nat, d: Dict)
    requires Clean(d) && !Storable(d) && WriteRecord(dev, i, d).Some? && i < n
    requires SECTOR <= |dev| < MAX_LENGTH && Place(n) <= |dev|
    ensures var w := WriteRecord(dev, i, d).value;
            && |w| == |dev|
            && (LengthOf(dev) == Some(Place(n)) ==> Lost(w))
            && Lost(SetLength(w, Place(n)))
  {
    hide Clean, Storable, WriteRecord, ParseSlot, LengthOf, SetLength, Lost;
    WrittenSlot(dev, i, d);
    var w := WriteRecord(dev, i, d).value;
    LengthReads(w, Place(n));
    assert SlotText(SetLength(w, Place(n)), i) == SlotText(w, i);
    UnreadableIsLost(SetLength(w, Place(n)), n, i);
    if LengthOf(dev) == Some(Place(n)) {
      UnreadableIsLost(w, n, i);
    }
  }

  /** The slots in front of the one that is written are as they were. */
  lemma FrontKept(dev: Device, i: nat, d: Dict, length: nat, j: nat)
    requires WriteRecord(dev, i, d).Some? && SECTOR <= |dev| && length < MAX_LENGTH && j < i
    ensures var w := WriteRecord(dev, i, d).value;
            && Place(j + 1) <= |w| == |dev| == |SetLength(w, length)|
            && SlotText(SetLength(w, length), j) == SlotText(w, j) == SlotText(dev, j)
  {
    hide Render, Padded, Write, LengthOf, SetLength;
    WriteIsLocal(dev, Place(i), Render(d).value);
    LengthReads(WriteRecord(dev, i, d).value, length);
  }

  lemma HeldIsNotLost(dev: Device, t: Table)
    requires ReadsAs(dev, t)
    ensures !Lost(dev)
  {
  }

  lemma HeldHeader(dev: Device, t: Table)
    requires ReadsAs(dev, t)
    ensures LengthOf(dev) == Some(Place(|t|)) && SECTOR <= Place(|t|) <= |dev| < MAX_LENGTH
  {
  }

  // ---- Add ----

  /** A record that can be rendered has both names. */
  lemma AddedIsClean(t: Table, d: Dict)
    requires Sound(t) && Distinct(d) && GoodFields(d) && Render(AddRecord(t, d)).Some?
    ensures Clean(AddRecord(t, d))
  {
    hide PlainField, Merge, Set, ToMap;
    AddRecordMap(t, d);
    if FirstDead(t) == |t| {
      SetMap(d, DELETED, "0");
      MarkIsPlain("0");
      SetGood(d, DELETED, "0");
    }
  }

  /** Add does what it is meant to do exactly when the record can be stored, the uuid is
      new, and there is room; otherwise it fails with the device as it was, or gives a
      table with the uuid twice, or, exactly for a record that cannot be stored, leaves no
      table behind. */
  lemma AddWorksExactly(dev: Device, t: Table, d: Dict)
    requires Holds(dev, t) && Distinct(d) && GoodFields(d) && Has(d, UUID)
    ensures SECTOR <= |dev| < MAX_LENGTH && Place(|t|) <= |dev|
    ensures var e := AddEffect(dev, t, d);
            && (e.ok && Holds(Last(dev, e), AddTable(t, d)) <==> CanAdd(dev, t, d))
            && (Lost(Last(dev, e)) <==> e.ok && !Storable(AddRecord(t, d)))
            && (!e.ok ==> Last(dev, e) == dev)
  {
    hide AddRecord, AddTable, Storable, Has, LiveUuids, GoodFields, WriteRecord, SetLength, ReadsAs, Unique, Sound,
         Lost, Render, Clean, LengthOf;
    HeldHeader(dev, t);
    HeldIsNotLost(dev, t);
    var e, i, r := AddEffect(dev, t, d), FirstDead(t), AddRecord(t, d);
    if e.ok {
      AddRoom(dev, t, d);
      AddedIsClean(t, d);
      if Storable(r) {
        AddReads(dev, t, d);
        HeldIsNotLost(Last(dev, e), AddTable(t, d));
        UniqueAfterAddExactly(t, d);
        if Value(d, UUID) !in LiveUuids(t) {
          AddIsAtomic(dev, t, d);
        }
      } else {
        OverrunIsLost(dev, if i < |t| then |t| else |t| + 1, i, r);
        LostHoldsNothing(Last(dev, e), AddTable(t, d));
      }
    } else if CanAdd(dev, t, d) {
      AddReads(dev, t, d);
    }
  }

  lemma LostHoldsNothing(dev: Device, t: Table)
    requires Lost(dev)
    ensures !ReadsAs(dev, t)
  {
  }

  lemma WrittenIsRendered(dev: Device, i: nat, d: Dict)
    requires WriteRecord(dev, i, d).Some?
    ensures Render(d).Some?
  {
    hide Render;
  }

  lemma AddIsWritten(dev: Device, t: Table, d: Dict)
    requires SECTOR <= |dev| < MAX_LENGTH && Place(|t|) <= |dev| && AddEffect(dev, t, d).ok
    ensures WriteRecord(dev, FirstDead(t), AddRecord(t, d)).Some?
  {
    hide Render, SetLength, WriteRecord, Set, Merge, InMemory, FirstDead;
  }

  lemma AddRoom(dev: Device, t: Table, d: Dict)
    requires SECTOR <= |dev| < MAX_LENGTH && Place(|t|) <= |dev| && AddEffect(dev, t, d).ok
    ensures Render(AddRecord(t, d)).Some? && WriteRecord(dev, FirstDead(t), AddRecord(t, d)).Some?
    ensures Place(FirstDead(t) + 1) <= |dev|
  {
    hide AddEffect, AddRecord, Render, WriteRecord, FirstDead;
    AddIsWritten(dev, t, d);
    SlotTakesRoom(dev, FirstDead(t), AddRecord(t, d));
    WrittenIsRendered(dev, FirstDead(t), AddRecord(t, d));
  }

  // ---- Update ----

  /** Update does what it is meant to do exactly when the uuid is live and the record can
      be stored; a record that cannot be stored leaves no table behind. */
  lemma UpdateWorksExactly(dev: Device, t: Table, d: Dict)
    requires Holds(dev, t) && Distinct(d) && GoodFields(d) && Has(d, UUID) && Value(d, DELETED) != "1"
    ensures var e := UpdateEffect(dev, t, d);
            && (e.ok && Holds(Last(dev, e), UpdateTable(t, d)) <==> CanUpdate(t, d))
            && (Lost(Last(dev, e)) <==> e.ok && !CanUpdate(t, d))
            && (!e.ok ==> Last(dev, e) == dev)
  {
    hide UpdateRecord, UpdateTable, Storable, Has, GoodFields, WriteRecord, ReadsAs, Unique, Sound, Lost, Clean,
         LengthOf;
    HeldHeader(dev, t);
    HeldIsNotLost(dev, t);
    var e, i := UpdateEffect(dev, t, d), FindLive(t, Value(d, UUID));
    if CanUpdate(t, d) {
      UpdateIsAtomic(dev, t, d);
      HeldIsNotLost(Last(dev, e), UpdateTable(t, d));
    } else if e.ok {
      UpdateRecordMap(t, i, d);
      OverrunIsLost(dev, |t|, i, UpdateRecord(t, i, d));
      LostHoldsNothing(Last(dev, e), UpdateTable(t, d));
    }
  }

  // ---- Delete ----

  /** Delete does what it is meant to do exactly when the tombstone can be stored, or is
      that of the last slot and can be written: then it is cut off. A tombstone that is
      written and neither stored nor cut off leaves no table behind. */
  lemma DeleteWorksExactly(dev: Device, t: Table, uuid: string)
    requires Holds(dev, t)
    ensures SECTOR <= |dev| < MAX_LENGTH && Place(|t|) <= |dev|
    ensures var e := DeleteEffect(dev, t, uuid);
            && (e.ok && Holds(Last(dev, e), DeleteTable(t, uuid)) <==> CanDelete(dev, t, uuid))
            && (Lost(Last(dev, e)) <==> e.ok && !CanDelete(dev, t, uuid))
            && (!e.ok ==> Last(dev, e) == dev)
  {
    hide Tombstone, DeleteTable, Storable, WriteRecord, SetLength, ReadsAs, Unique, Sound, Lost, Clean, LengthOf, Live;
    HeldHeader(dev, t);
    HeldIsNotLost(dev, t);
    var e, i := DeleteEffect(dev, t, uuid), FindLive(t, uuid);
    if CanDelete(dev, t, uuid) {
      DeleteIsAtomic(dev, t, uuid);
      HeldIsNotLost(Last(dev, e), DeleteTable(t, uuid));
    }
    if e.ok && !CanDelete(dev, t, uuid) {
      MarkIsLost(dev, t, uuid);
      LostHoldsNothing(Last(dev, e), DeleteTable(t, uuid));
    }
  }

  lemma MarkIsLost(dev: Device, t: Table, uuid: string)
    requires Holds(dev, t) && !CanMark(t, uuid)
    requires WriteRecord(dev, FindLive(t, uuid), Tombstone(t, FindLive(t, uuid))).Some?
    ensures Lost(WriteRecord(dev, FindLive(t, uuid), Tombstone(t, FindLive(t, uuid))).value)
  {
    hide Tombstone, Storable, WriteRecord, ReadsAs, Unique, Sound, Lost, Clean, LengthOf;
    var i := FindLive(t, uuid);
    HeldHeader(dev, t);
    TombstoneMap(t, i);
    OverrunIsLost(dev, |t|, i, Tombstone(t, i));
  }

  /** The device holds a table with one uuid less. */
  ghost predicate HoldsLess(dev: Device, t: Table, uuid: string) {
    exists t1 :: Holds(dev, t1) && Live(t1) == Live(t) - {uuid}
  }

  /** What delete means is there after each of its writes exactly when the tombstone can
      be stored. */
  lemma DeleteIsAtomicExactly(dev: Device, t: Table, uuid: string)
    requires Holds(dev, t) && CanDelete(dev, t, uuid)
    ensures SECTOR <= |dev| < MAX_LENGTH && Place(|t|) <= |dev|
    ensures var e := DeleteEffect(dev, t, uuid);
            (forall k :: 0 <= k < |e.images| ==> HoldsLess(e.images[k], t, uuid)) <==> CanMark(t, uuid)
  {
    hide Tombstone, Storable, WriteRecord, SetLength, ReadsAs, Unique, Sound, Lost, Clean, LengthOf, Live;
    HeldHeader(dev, t);
    var e := DeleteEffect(dev, t, uuid);
    if CanMark(t, uuid) {
      DeleteIsAtomic(dev, t, uuid);
    } else {
      MarkIsLost(dev, t, uuid);
      forall t1 ensures !Holds(e.images[0], t1) {
        LostHoldsNothing(e.images[0], t1);
      }
      assert !HoldsLess(e.images[0], t, uuid);
    }
  }

  // ---- Delete, in runs ----

  /** The numbers that decide whether a record can be deleted. */
  predicate RoomToDelete(dev: Device, t: Table, uuid: string) {
    var i := FindLive(t, uuid);
    i < |t| ==>
      && Place(i) + Span(TombstoneLength(t, i)) <= |dev|
      && (i + 1 == |t| || TombstoneLength(t, i) <= SECTOR)
  }

  lemma RoomIsEnoughExactly(dev: Device, t: Table, uuid: string)
    requires Holds(dev, t) && Settled(t)
    ensures CanDelete(dev, t, uuid) <==> RoomToDelete(dev, t, uuid)
  {
    hide ReadsAs, Unique, Storable, WriteRecord, Tombstone, TombstoneLength, Span, Clean, Has, NamesFit, SecondText,
         WithDeleted;
    var i := FindLive(t, uuid);
    if i < |t| {
      TombstoneMap(t, i);
      CleanNames(Tombstone(t, i));
      TombstoneLengthIs(t, i);
      WritableExactly(dev, i, Tombstone(t, i));
      TombstoneStorableExactly(t, i);
    }
  }

  /** Whatever has been done to a formatted device, deleting a record works exactly when its
      second sector, with the place and the mark, fits in one sector, or, for the last
      record, fits on the device; a tombstone that fits on the device and not in its slot
      is the end of the table. */
  lemma DeleteWorksInRunsExactly(vs: seq<Volume>, ops: seq<Op>, k: nat, uuid: string)
    requires IsRun(vs, ops) && k <= |ops| && Formatted(vs[0].dev) && vs[0].table == []
    ensures Fits(vs[k])
    ensures var dev, t := vs[k].dev, vs[k].table;
            var e := DeleteEffect(dev, t, uuid);
            && (e.ok && Holds(Last(dev, e), DeleteTable(t, uuid)) <==> RoomToDelete(dev, t, uuid))
            && (Lost(Last(dev, e)) <==> e.ok && !RoomToDelete(dev, t, uuid))
  {
    hide Step, Holds, Settled, DeleteTable, DeleteEffect, RoomToDelete, Formatted, Lost, CanDelete;
    RunSettles(vs, ops, k);
    DeleteWorksExactly(vs[k].dev, vs[k].table, uuid);
    RoomIsEnoughExactly(vs[k].dev, vs[k].table, uuid);
  }
}
