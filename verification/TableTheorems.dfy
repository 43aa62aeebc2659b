/** The table on the device refines a map from uuid to record, at every point where
    a run of operations can be cut short. */
module TableTheorems {
  import opened Dicts
  import opened XmlText
  import opened SlotCodec
  import opened SrHeader
  import opened SlotTable
  import opened LiveView
  import opened TableOps

  /** The device holds the table, and the table is in order. */
  ghost predicate Holds(dev: Device, t: Table) {
    ReadsAs(dev, t) && Sound(t) && Unique(t)
  }

  lemma StoredView(d: Dict)
    requires Clean(d)
    ensures View(Stored(d)) == Shorten(View(d)) && Value(Stored(d), UUID) == Value(d, UUID)
    ensures Dead(Stored(d)) == Dead(d)
    ensures Clean(Stored(d)) && Has(Stored(d), DELETED) && (Has(Stored(d), UUID) <==> Has(d, UUID))
    ensures NamesFit(Stored(d)) && (NamesFit(d) ==> Shorten(View(d)) == View(d))
  {
    hide Clean, Stored, ToMap, Value, WithDeleted, ShortName, Shorten;
    StoredIs(d);
    WithDeletedClean(d);
    CleanIsGood(d);
    CleanIsGood(Stored(d));
    CleanNames(d);
    ValueFromMap(d, UUID);
    ValueFromMap(Stored(d), UUID);
    ValueFromMap(d, DELETED);
    ValueFromMap(Stored(d), DELETED);
    ValueFromMap(d, LABEL);
    ValueFromMap(d, DESCRIPTION);
    TagsApart();
    ShortenedMap(ToMap(d), ToMap(WithDeleted(d)));
    if NamesFit(d) {
      ShortEnough(View(d));
    }
  }

  lemma TagsApart()
    ensures LABEL !in {DELETED, OFFSET, UUID, DESCRIPTION} && DESCRIPTION !in {DELETED, OFFSET, UUID}
    ensures UUID !in {DELETED, OFFSET} && DELETED != OFFSET
  {
  }

  lemma ShortenedMap(m: map<string, string>, w: map<string, string>)
    requires LABEL in m && DESCRIPTION in m && (w == m || w == m[DELETED := "0"])
    ensures var a, b := ShortName(m[LABEL], m[DESCRIPTION]), ShortName(m[DESCRIPTION], m[LABEL]);
            w[LABEL := a][DESCRIPTION := b] - {DELETED, OFFSET} == Shorten(m - {DELETED, OFFSET})
  {
    hide ShortName;
    TagsApart();
  }

  lemma SoundAfter(t: Table, i: nat, d: Dict)
    requires Sound(t) && i <= |t| && Clean(d) && Has(d, UUID)
    ensures i < |t| ==> Sound(t[i := Stored(d)])
    ensures Sound(t + [Stored(d)]) && Sound(t[..i])
  {
    hide Clean, Stored, View, Shorten, Value, Dead, Has;
    StoredView(d);
  }

  // ---- Add ----

  function AddTable(t: Table, d: Dict): Table {
    var i := FirstDead(t);
    if i < |t| then t[i := Stored(AddRecord(t, d))] else t + [Stored(AddRecord(t, d))]
  }

  /** What the caller of add can check beforehand. */
  ghost predicate CanAdd(dev: Device, t: Table, d: Dict) {
    && Distinct(d) && GoodFields(d) && Has(d, UUID)
    && Value(d, UUID) !in LiveUuids(t)
    && Storable(AddRecord(t, d))
    && (FirstDead(t) == |t| ==> Place(|t| + 1) <= |dev|)
  }

  lemma AddedRecord(t: Table, d: Dict)
    requires Sound(t) && Distinct(d) && GoodFields(d) && Has(d, UUID) && Clean(AddRecord(t, d))
    ensures var r := AddRecord(t, d);
            !Dead(r) && Has(r, UUID) && Value(r, UUID) == Value(d, UUID)
  {
    hide Clean, ToMap, Value, AddRecord, GoodFields;
    var r := AddRecord(t, d);
    AddRecordMap(t, d);
    CleanIsGood(r);
    FindIsHas(d, UUID);
    ValueFromMap(d, UUID);
    ValueFromMap(r, UUID);
    ValueFromMap(r, DELETED);
    assert UUID != DELETED;
  }

  /** The record of a new VDI is exactly what was passed in, unless a dead slot is
      reused whose record had a tag the new one does not set: that tag stays. */
  lemma AddedRecordIsGivenExactly(t: Table, d: Dict)
    requires Sound(t) && Distinct(d) && GoodFields(d)
    ensures View(AddRecord(t, d)) == View(d)
            <==> FirstDead(t) == |t| || ToMap(t[FirstDead(t)]).Keys <= ToMap(d).Keys + {OFFSET, DELETED}
  {
    hide Clean, ToMap, AddRecord, GoodFields;
    AddRecordMap(t, d);
    var i := FirstDead(t);
    var added := ToMap(d)[DELETED := "0"];
    if i < |t| {
      var kept := ToMap(t[i])[OFFSET := Dec(Place(i))];
      assert View(AddRecord(t, d)) == (kept + added) - {DELETED, OFFSET};
      if ToMap(t[i]).Keys <= ToMap(d).Keys + {OFFSET, DELETED} {
        assert (kept + added) - {DELETED, OFFSET} == View(d);
      } else {
        var k :| k in ToMap(t[i]).Keys && k !in ToMap(d).Keys + {OFFSET, DELETED};
        assert k in View(AddRecord(t, d)) && k !in View(d);
      }
    } else {
      assert View(AddRecord(t, d)) == added - {DELETED, OFFSET} == View(d);
    }
  }

  lemma {:induction false} EscapesExactly(s: string)
    ensures |Escape(s)| >= |s|
    ensures Escape(s) == s <==> '&' !in s && '<' !in s && '>' !in s
  {
    if s != "" {
      EscapesExactly(s[1..]);
      assert s == [s[0]] + s[1..];
    }
  }

  predicate HasMarkup(s: string) {
    '&' in s || '<' in s || '>' in s
  }

  /** What add leaves in the dictionary it is given: the mark and, unless a dead slot is
      reused, the names as they are written. */
  lemma AddLeaves(t: Table, d: Dict)
    requires Clean(d)
    ensures var (l, n) := Shown(Escape(Value(d, LABEL)), Escape(Value(d, DESCRIPTION)));
            ToMap(LeftBy(t, d)) == if FirstDead(t) < |t| then ToMap(d)[DELETED := "0"]
                                   else ToMap(d)[DELETED := "0"][LABEL := l][DESCRIPTION := n]
  {
    hide Clean, Shown, Escape, ToMap, Value, Set;
    MarkIsPlain("0");
    SetClean(d, DELETED, "0");
    TagsApart();
    OtherTag(d, DELETED, "0", LABEL);
    OtherTag(d, DELETED, "0", DESCRIPTION);
    if FirstDead(t) == |t| {
      MarkIsThere(d);
      EscapedMap(Set(d, DELETED, "0"), Value(d, LABEL), Value(d, DESCRIPTION));
    }
  }

  lemma MarkIsThere(d: Dict)
    ensures Has(Set(d, DELETED, "0"), DELETED)
  {
    var e := Set(d, DELETED, "0");
    assert e[Find(d, DELETED)].tag == DELETED;
  }

  /** Names that fit are as they were exactly when a dead slot is reused or there is no
      markup in them: otherwise using the dictionary again escapes them once more. */
  lemma AddLeavesNamesExactly(t: Table, d: Dict)
    requires Clean(d) && NamesFit(d)
    ensures ToMap(LeftBy(t, d)) == ToMap(d)[DELETED := "0"]
            <==> FirstDead(t) < |t| || (!HasMarkup(Value(d, LABEL)) && !HasMarkup(Value(d, DESCRIPTION)))
  {
    hide Clean, Escape, ToMap, Value, HasMarkup, LeftBy;
    var title, description := Value(d, LABEL), Value(d, DESCRIPTION);
    AddLeaves(t, d);
    TagsApart();
    CleanIsGood(d);
    CleanNames(d);
    ValueFromMap(d, LABEL);
    ValueFromMap(d, DESCRIPTION);
    NotTooLong(d);
    EscapedExactly(title);
    EscapedExactly(description);
    SameNames(ToMap(d)[DELETED := "0"], Escape(title), Escape(description));
  }

  lemma NotTooLong(d: Dict)
    requires NamesFit(d)
    ensures var l, n := Escape(Value(d, LABEL)), Escape(Value(d, DESCRIPTION)); Shown(l, n) == (l, n)
  {
    hide Escape, Value;
  }

  lemma EscapedExactly(s: string)
    ensures Escape(s) == s <==> !HasMarkup(s)
  {
    EscapesExactly(s);
  }

  lemma SameNames(m: map<string, string>, title: string, description: string)
    requires LABEL in m && DESCRIPTION in m
    ensures m[LABEL := title][DESCRIPTION := description] == m <==> m[LABEL] == title && m[DESCRIPTION] == description
  {
    TagsApart();
    var m1 := m[LABEL := title][DESCRIPTION := description];
    assert m1[LABEL] == title && m1[DESCRIPTION] == description;
  }

  lemma EscapedMap(d: Dict, title: string, description: string)
    requires Clean(d) && Has(d, DELETED) && Value(d, LABEL) == title && Value(d, DESCRIPTION) == description
    ensures var (l, n) := Shown(Escape(title), Escape(description));
            ToMap(Escaped(d)) == ToMap(d)[LABEL := l][DESCRIPTION := n]
  {
    hide Escape, ToMap, Value, Set;
    CleanIsGood(d);
    var (l, n) := Shown(Escape(title), Escape(description));
    SetMap(d, LABEL, l);
    var d1 := Set(d, LABEL, l);
    SetMap(d1, DESCRIPTION, n);
    HasInMap(d, Set(d1, DESCRIPTION, n), DELETED);
  }

  lemma AddTableLive(t: Table, d: Dict)
    requires Sound(t) && Unique(t) && Distinct(d) && GoodFields(d) && Has(d, UUID)
    requires Value(d, UUID) !in LiveUuids(t) && Clean(AddRecord(t, d))
    ensures Sound(AddTable(t, d)) && Unique(AddTable(t, d))
    ensures Live(AddTable(t, d)) == Live(t)[Value(d, UUID) := Shorten(View(AddRecord(t, d)))]
    ensures NamesFit(AddRecord(t, d)) ==> Live(AddTable(t, d)) == Live(t)[Value(d, UUID) := View(AddRecord(t, d))]
  {
    hide Clean, Stored, AddRecord, Live, View, Value, Dead, LiveUuids, GoodFields, NamesFit;
    var r := AddRecord(t, d);
    AddedRecord(t, d);
    StoredView(r);
    var i := FirstDead(t);
    SoundAfter(t, i, r);
    if i < |t| {
      PutLive(t, i, Stored(r));
    } else {
      AppendLive(t, Stored(r));
    }
  }

  /** Adding keeps the live uuids apart exactly when the new one is not live already:
      add itself does not look. */
  lemma UniqueAfterAddExactly(t: Table, d: Dict)
    requires Sound(t) && Unique(t) && Distinct(d) && GoodFields(d) && Has(d, UUID) && Clean(AddRecord(t, d))
    ensures Unique(AddTable(t, d)) <==> Value(d, UUID) !in LiveUuids(t)
  {
    hide Clean, Stored, AddRecord, Live, View, Value, Dead, GoodFields;
    var u := Value(d, UUID);
    if u !in LiveUuids(t) {
      AddTableLive(t, d);
    } else {
      AddedRecord(t, d);
      StoredView(AddRecord(t, d));
      var a :| 0 <= a < |t| && !Dead(t[a]) && Value(t[a], UUID) == u;
      var i, t1 := FirstDead(t), AddTable(t, d);
      assert a != i && t1[a] == t[a] && t1[i] == Stored(AddRecord(t, d));
      assert if a < i then LivePair(t1, a, i) else LivePair(t1, i, a);
    }
  }

  /** Add: two writes. Cut after the first, the table is the old one when the record
      goes behind the end, and already the new one when it goes into a dead slot. Names
      that fit are stored whole. */
  lemma AddIsAtomic(dev: Device, t: Table, d: Dict)
    requires Holds(dev, t) && CanAdd(dev, t, d)
    ensures var e := AddEffect(dev, t, d);
            && e.ok && |e.images| == 2
            && Holds(e.images[0], if FirstDead(t) < |t| then AddTable(t, d) else t)
            && Holds(e.images[1], AddTable(t, d)) && |e.images[1]| == |dev|
            && OtherSlotsKept(dev, e.images[1], |t|, FirstDead(t))
    ensures Live(AddTable(t, d)) == Live(t)[Value(d, UUID) := Shorten(View(AddRecord(t, d)))]
    ensures NamesFit(AddRecord(t, d)) ==> Live(AddTable(t, d)) == Live(t)[Value(d, UUID) := View(AddRecord(t, d))]
  {
    hide AddRecord, Stored, Live, LiveUuids, View, Value, Dead, Clean, GoodFields, NamesFit, RestFits,
         WriteRecord, SetLength, ReadsAs, Unique, Sound, OtherSlotsKept;
    AddTableLive(t, d);
    AddReads(dev, t, d);
  }

  /** What the device reads as after each write of add. */
  lemma AddReads(dev: Device, t: Table, d: Dict)
    requires ReadsAs(dev, t) && Storable(AddRecord(t, d)) && (FirstDead(t) == |t| ==> Place(|t| + 1) <= |dev|)
    ensures var e := AddEffect(dev, t, d);
            && e.ok && |e.images| == 2
            && ReadsAs(e.images[0], if FirstDead(t) < |t| then AddTable(t, d) else t)
            && ReadsAs(e.images[1], AddTable(t, d)) && |e.images[1]| == |dev|
            && OtherSlotsKept(dev, e.images[1], |t|, FirstDead(t))
  {
    hide AddRecord, Stored, Storable, WriteRecord, SetLength, ReadsAs, OtherSlotsKept;
    var r := AddRecord(t, d);
    var i := FirstDead(t);
    SizeOfHeld(dev, t);
    if i < |t| {
      RecordReads(dev, t, i, r);
      var first := WriteRecord(dev, i, r).value;
      RecordSize(dev, i, r);
      ShrinkReads(first, t[i := Stored(r)], |t|);
      assert t[i := Stored(r)][..|t|] == t[i := Stored(r)];
      SetLengthSize(first, Place(|t|));
      LengthKeepsSlots(dev, first, |t|, i, Place(|t|));
    } else {
      RecordBehindReads(dev, t, r);
      var first := WriteRecord(dev, i, r).value;
      GrowReads(first, t, Stored(r));
      SetLengthSize(first, Place(|t| + 1));
      LengthKeepsSlots(dev, first, |t|, i, Place(|t| + 1));
    }
  }

  lemma SizeOfHeld(dev: Device, t: Table)
    requires ReadsAs(dev, t)
    ensures SECTOR <= Place(|t|) <= |dev| < MAX_LENGTH
  {
  }

  lemma RecordSize(dev: Device, i: nat, d: Dict)
    requires WriteRecord(dev, i, d).Some?
    ensures |WriteRecord(dev, i, d).value| == |dev|
  {
    hide Render;
  }

  lemma SetLengthSize(dev: Device, length: nat)
    requires SECTOR <= |dev| && length < MAX_LENGTH
    ensures |SetLength(dev, length)| == |dev|
  {
    LengthReads(dev, length);
  }

  // ---- Update ----

  ghost predicate CanUpdate(t: Table, d: Dict) {
    && GoodFields(d) && Distinct(d) && Has(d, UUID)
    && Value(d, DELETED) != "1"
    && var i := FindLive(t, Value(d, UUID)); i < |t| && Storable(UpdateRecord(t, i, d))
  }

  function UpdateTable(t: Table, d: Dict): Table {
    var i := FindLive(t, Value(d, UUID));
    if i < |t| then t[i := Stored(UpdateRecord(t, i, d))] else t
  }

  lemma UpdatedRecord(t: Table, i: nat, d: Dict)
    requires Sound(t) && i < |t| && !Dead(t[i]) && Value(t[i], UUID) == Value(d, UUID)
    requires GoodFields(d) && Distinct(d) && Has(d, UUID) && Value(d, DELETED) != "1"
    ensures var r := UpdateRecord(t, i, d);
            && !Dead(r) && Has(r, UUID) && Value(r, UUID) == Value(d, UUID) && Clean(r)
            && View(r) == View(t[i]) + (ToMap(d) - {DELETED, OFFSET})
  {
    hide Clean, ToMap, Value, UpdateRecord, GoodFields;
    var r := UpdateRecord(t, i, d);
    UpdateRecordMap(t, i, d);
    CleanIsGood(r);
    assert Clean(t[i]);
    CleanIsGood(t[i]);
    FindIsHas(d, UUID);
    ValueFromMap(d, UUID);
    ValueFromMap(r, UUID);
    ValueFromMap(d, DELETED);
    ValueFromMap(t[i], DELETED);
    ValueFromMap(r, DELETED);
    assert UUID != DELETED && OFFSET != DELETED && OFFSET != UUID;
    assert View(r) == View(t[i]) + (ToMap(d) - {DELETED, OFFSET});
  }

  /** Update: one write, which changes the live view at one uuid only, tag by tag,
      and not a character of any other slot. Names that fit are stored whole. */
  lemma UpdateIsAtomic(dev: Device, t: Table, d: Dict)
    requires Holds(dev, t) && CanUpdate(t, d)
    ensures var e := UpdateEffect(dev, t, d);
            var u := Value(d, UUID);
            && e.ok && |e.images| == 1 && |e.images[0]| == |dev|
            && Holds(e.images[0], UpdateTable(t, d))
            && u in Live(t)
            && Live(UpdateTable(t, d)) == Live(t)[u := Shorten(Live(t)[u] + (ToMap(d) - {DELETED, OFFSET}))]
            && (NamesFit(UpdateRecord(t, FindLive(t, u), d))
                ==> Live(UpdateTable(t, d)) == Live(t)[u := Live(t)[u] + (ToMap(d) - {DELETED, OFFSET})])
            && OtherSlotsKept(dev, e.images[0], |t|, FindLive(t, u))
  {
    hide UpdateRecord, Stored, Live, LiveUuids, View, Value, Dead, Clean, GoodFields, NamesFit, RestFits,
         WriteRecord, ReadsAs, ToMap, OtherSlotsKept;
    var u := Value(d, UUID);
    var i := FindLive(t, u);
    var r := UpdateRecord(t, i, d);
    UpdatedRecord(t, i, d);
    StoredView(r);
    SoundAfter(t, i, r);
    SizeOfHeld(dev, t);
    LiveAt(t, i);
    PutLive(t, i, Stored(r));
    RecordReads(dev, t, i, r);
    RecordSize(dev, i, r);
  }

  // ---- Delete ----

  function DeleteTable(t: Table, uuid: string): Table {
    var i := FindLive(t, uuid);
    if i == |t| then t
    else if i + 1 == |t| then t[..i]
    else t[i := Stored(Tombstone(t, i))]
  }

  /** The tombstone can be read. */
  ghost predicate CanMark(t: Table, uuid: string) {
    var i := FindLive(t, uuid);
    i < |t| ==> Storable(Tombstone(t, i))
  }

  /** The tombstone can be written, and can be read or is cut off at once. */
  ghost predicate CanDelete(dev: Device, t: Table, uuid: string) {
    var i := FindLive(t, uuid);
    i < |t| ==> WriteRecord(dev, i, Tombstone(t, i)).Some? && (i + 1 == |t| || CanMark(t, uuid))
  }

  lemma MarkIsEnough(dev: Device, t: Table, uuid: string)
    requires ReadsAs(dev, t) && CanMark(t, uuid)
    ensures CanDelete(dev, t, uuid)
  {
    hide Tombstone, Storable, WriteRecord, ReadsAs, CanMark;
    if FindLive(t, uuid) < |t| {
      MarkedReads(dev, t, uuid);
    }
  }

  lemma TombstoneRecord(t: Table, i: nat)
    requires Sound(t) && i < |t|
    ensures var c := Stored(Tombstone(t, i));
            Dead(c) && Clean(c) && Has(c, DELETED) && Has(c, UUID)
  {
    hide Clean, ToMap, Value, Stored, Tombstone, Dead;
    TombstoneMap(t, i);
    StoredView(Tombstone(t, i));
    FindIsHas(t[i], UUID);
    FindIsHas(Tombstone(t, i), UUID);
  }

  /** Delete: the tombstone goes first, so that a run cut before the header is rewritten
      has the new live view too, if the tombstone can be read. */
  lemma DeleteIsAtomic(dev: Device, t: Table, uuid: string)
    requires Holds(dev, t) && CanDelete(dev, t, uuid)
    ensures Live(DeleteTable(t, uuid)) == Live(t) - {uuid}
    ensures var e := DeleteEffect(dev, t, uuid);
            && e.ok && |Last(dev, e)| == |dev| && OtherSlotsKept(dev, Last(dev, e), |t|, FindLive(t, uuid))
            && Holds(Last(dev, e), DeleteTable(t, uuid))
            && (CanMark(t, uuid) ==>
                  forall k :: 0 <= k < |e.images| ==>
                    exists t1 :: Holds(e.images[k], t1) && Live(t1) == Live(t) - {uuid})
  {
    hide Tombstone, Stored, Live, LiveUuids, View, Value, Dead, Clean, WriteRecord, Storable,
         SetLength, ReadsAs, Unique, Sound, OtherSlotsKept;
    var i := FindLive(t, uuid);
    SizeOfHeld(dev, t);
    if i == |t| {
      NotLive(t, uuid);
      AllKept(dev, |t|, i);
    } else {
      DeletedTable(t, uuid);
      RecordSize(dev, i, Tombstone(t, i));
      SetLengthSize(WriteRecord(dev, i, Tombstone(t, i)).value, Place(i));
      var e := DeleteEffect(dev, t, uuid);
      if CanMark(t, uuid) {
        MarkedReads(dev, t, uuid);
        assert Holds(e.images[0], t[i := Stored(Tombstone(t, i))]);
      }
      if i + 1 == |t| {
        CutOffReads(dev, t, Tombstone(t, i));
        LengthKeepsSlots(dev, e.images[0], |t|, i, Place(i));
        assert Holds(e.images[1], t[..i]);
      }
    }
  }

  /** The table with a tombstone, and without the last slot, have one uuid less. */
  lemma DeletedTable(t: Table, uuid: string)
    requires Sound(t) && Unique(t) && FindLive(t, uuid) < |t|
    ensures var i := FindLive(t, uuid);
            var t1 := t[i := Stored(Tombstone(t, i))];
            && Sound(t1) && Unique(t1) && Live(t1) == Live(t) - {uuid}
            && (i + 1 == |t| ==> Sound(t[..i]) && Unique(t[..i]) && Live(t[..i]) == Live(t) - {uuid})
  {
    hide Tombstone, Stored, Live, LiveUuids, View, Value, Dead, Clean, Unique;
    var i := FindLive(t, uuid);
    var r := Tombstone(t, i);
    TombstoneMap(t, i);
    TombstoneRecord(t, i);
    FoundIsLive(t, uuid);
    var t1 := t[i := Stored(r)];
    PutDead(t, i, Stored(r));
    if i + 1 == |t| {
      DropDead(t1);
      assert t1[..i] == t[..i] == t1[..|t1| - 1];
    }
  }

  lemma FoundIsLive(t: Table, uuid: string)
    requires FindLive(t, uuid) < |t|
    ensures !Dead(t[FindLive(t, uuid)]) && Value(t[FindLive(t, uuid)], UUID) == uuid
  {
  }

  lemma MarkedReads(dev: Device, t: Table, uuid: string)
    requires ReadsAs(dev, t) && CanMark(t, uuid) && FindLive(t, uuid) < |t|
    ensures var i := FindLive(t, uuid);
            var w := WriteRecord(dev, i, Tombstone(t, i));
            && w.Some? && ReadsAs(w.value, t[i := Stored(Tombstone(t, i))]) && OtherSlotsKept(dev, w.value, |t|, i)
  {
    hide Tombstone, Stored, Storable, WriteRecord, ReadsAs, OtherSlotsKept;
    RecordReads(dev, t, FindLive(t, uuid), Tombstone(t, FindLive(t, uuid)));
  }

  lemma AllKept(dev: Device, n: nat, i: nat)
    requires Place(n) <= |dev|
    ensures OtherSlotsKept(dev, dev, n, i)
  {
  }

  lemma NotLive(t: Table, uuid: string)
    requires FindLive(t, uuid) == |t|
    ensures Live(t) == Live(t) - {uuid}
  {
    FoundExactly(t, uuid);
  }
}
