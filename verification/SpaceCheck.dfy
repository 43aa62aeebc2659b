/** When spaceAvailableForVdis gets through: with room for one more slot the dummy it adds
    fits, and so does its tombstone; over a dead slot that depends on what is left there, and
    the table is lost when it does not fit (sm/srmetadata.py:497-523). */
module SpaceCheck {
  import opened Dicts
  import opened XmlText
  import opened SlotCodec
  import opened SrHeader
  import opened SlotTable
  import opened LiveView
  import opened TableOps
  import opened TableTheorems
  import opened TableRuns
  import opened TableLimits
  import opened SlotGrowth

  const UUID_LENGTH := 36

  predicate GoodUuid(uuid: string) {
    |uuid| <= UUID_LENGTH && PlainField(Field(UUID, uuid))
  }

  /** The dummy as it is written. */
  function Marked(uuid: string): Dict {
    Dummy(uuid) + [Field(DELETED, "0")]
  }

  lemma MarkedIs(uuid: string)
    ensures Set(Dummy(uuid), DELETED, "0") == Marked(uuid)
  {
    var d := Dummy(uuid);
    assert forall i :: 0 <= i < |d| ==> d[i].tag != DELETED;
  }

  lemma MarkedLength(uuid: string)
    requires |uuid| <= UUID_LENGTH
    ensures |SecondText(Marked(uuid))| <= 287
  {
    hide Elements, Others, Element;
    var d := Marked(uuid);
    NoElements();
    assert d[12..] == [];
    Tail(d, 11);
    assert |Elements(Others(d[11..]))| == 20;
    Tail(d, 10);
    assert |Elements(Others(d[10..]))| == 57;
    Tail(d, 9);
    assert |Elements(Others(d[9..]))| == 77;
    Tail(d, 8);
    assert |Elements(Others(d[8..]))| == 101;
    Tail(d, 7);
    assert |Elements(Others(d[7..]))| == 125;
    Tail(d, 6);
    assert |Elements(Others(d[6..]))| == 142;
    Tail(d, 5);
    assert |Elements(Others(d[5..]))| == 173;
    Tail(d, 4);
    assert |Elements(Others(d[4..]))| == 200;
    Tail(d, 3);
    assert |Elements(Others(d[3..]))| == 232;
    Tail(d, 2);
    assert |Elements(Others(d[2..]))| == 232;
    Tail(d, 1);
    assert |Elements(Others(d[1..]))| == 232;
    Tail(d, 0);
    assert |Elements(Others(d[0..]))| <= 281;
    assert d[0..] == d;
  }

  lemma MarkedDistinct(uuid: string)
    ensures Distinct(Marked(uuid))
  {
    var d := Marked(uuid);
    forall i, j | 0 <= i < j < |d| ensures d[i].tag != d[j].tag {
      assert |d[i].tag| != |d[j].tag| || d[i].tag[0] != d[j].tag[0];
    }
  }

  lemma MarkedTags(uuid: string)
    ensures var d := Marked(uuid);
            && |d| == 12 && Has(d, UUID) && Has(d, DELETED) && Has(d, LABEL) && Has(d, DESCRIPTION)
            && Find(d, OFFSET) == |d| && Find(d, LABEL) == 1 && Find(d, DESCRIPTION) == 2
            && Value(d, LABEL) == Value(d, DESCRIPTION) == "dummy vdi for space check"
  {
    var d := Marked(uuid);
    assert d[0].tag == UUID && d[1].tag == LABEL && d[2].tag == DESCRIPTION && d[11].tag == DELETED;
    assert Find(d, LABEL) == 1;
    assert Find(d, DESCRIPTION) == 2;
    forall i | 0 <= i < |d| ensures d[i].tag != OFFSET {
      assert |d[i].tag| != 6;
    }
  }

  lemma MarkedClean(uuid: string)
    requires GoodUuid(uuid)
    ensures Clean(Marked(uuid)) && Has(Marked(uuid), DELETED) && Has(Marked(uuid), UUID) && NamesFit(Marked(uuid))
    ensures Find(Marked(uuid), OFFSET) == |Marked(uuid)| && Value(Marked(uuid), DELETED) == "0"
    ensures Value(Marked(uuid), LABEL) == Value(Marked(uuid), DESCRIPTION) == "dummy vdi for space check"
  {
    hide Marked, GoodUuid, PlainField, Trimmed, Find, Value, Escape, Distinct;
    var d := Marked(uuid);
    MarkedDistinct(uuid);
    MarkedTags(uuid);
    DeletedIsLast(uuid);
    ShortDummyName();
    forall i | 0 <= i < |d| ensures if IsName(d[i].tag) then Trimmed(d[i].value) else PlainField(d[i]) {
      PlainDummy(uuid, i);
    }
  }

  lemma DeletedIsLast(uuid: string)
    ensures Value(Marked(uuid), DELETED) == "0"
  {
    var d := Dummy(uuid);
    assert forall i :: 0 <= i < |d| ==> d[i].tag != DELETED;
    LastField(d, Field(DELETED, "0"));
  }

  lemma LastField(d: Dict, f: Field)
    requires forall i :: 0 <= i < |d| ==> d[i].tag != f.tag
    ensures Value(d + [f], f.tag) == f.value
  {
    assert (d + [f])[|d|] == f;
    var i := Find(d + [f], f.tag);
    assert i <= |d|;
  }

  lemma ShortDummyName()
    ensures |Escape("dummy vdi for space check")| <= 222
  {
    EscapeIsShort("dummy vdi for space check");
  }

  lemma {:induction false} EscapeIsShort(s: string)
    ensures |Escape(s)| <= 5 * |s|
  {
    if s != "" {
      EscapeIsShort(s[1..]);
    }
  }

  predicate Letters(tag: string) {
    tag != "" && forall k :: 0 <= k < |tag| ==> 'a' <= tag[k] <= 'z' || tag[k] == '_'
  }

  lemma PlainTag(tag: string, value: string)
    requires Letters(tag) && tag[0] != '_' && value in ["", "0", "user", "vhd"]
    ensures PlainField(Field(tag, value))
  {
    NoMarkupIsPlain(value);
  }

  lemma PlainDummy(uuid: string, i: nat)
    requires GoodUuid(uuid) && i < 12
    ensures var f := Marked(uuid)[i];
            if IsName(f.tag) then Trimmed(f.value) else PlainField(f)
  {
    hide PlainField;
    if i >= 3 {
      var f := Marked(uuid)[i];
      assert Letters(f.tag) && f.tag[0] != '_';
      PlainTag(f.tag, f.value);
    }
  }

  const DUMMY_NAME := "dummy vdi for space check"

  /** A record as the check writes it: marked as live, under the dummy's names. */
  ghost predicate DummyLike(r: Dict) {
    Clean(r) && Has(r, DELETED) && Value(r, DELETED) == "0" && Value(r, LABEL) == Value(r, DESCRIPTION) == DUMMY_NAME
  }

  /** The names fit, so the record is stored as it is. */
  lemma DummyLikeStays(r: Dict)
    requires DummyLike(r)
    ensures NamesFit(r) && NamesReadable(r) && Stored(r) == Canon(r)
    ensures WithDeleted(r) == r && (Storable(r) <==> |SecondText(r)| <= SECTOR)
  {
    hide Clean, Value, Escape;
    ShortDummyName();
    FittingNamesStay(r);
  }

  /** What the slot holds afterwards has the same length, names and place. */
  lemma CanonOfDummy(r: Dict)
    requires DummyLike(r)
    ensures var c := Canon(r);
            && SecondText(c) == SecondText(r) && DummyLike(c)
            && (Has(c, OFFSET) <==> Has(r, OFFSET)) && Value(c, OFFSET) == Value(r, OFFSET)
  {
    hide Clean, ToMap, Elements, PlainField, Value, Find;
    CanonIsSame(r);
    CleanIsGood(r);
    CleanIsGood(Canon(r));
    OthersOfNames(Value(r, LABEL), Value(r, DESCRIPTION), r);
    SameValues(r, Canon(r), DELETED);
    SameValues(r, Canon(r), LABEL);
    SameValues(r, Canon(r), DESCRIPTION);
    SameValues(r, Canon(r), OFFSET);
  }

  lemma SameValues(a: Dict, b: Dict, tag: string)
    requires Distinct(a) && Distinct(b) && ToMap(a) == ToMap(b)
    ensures Value(a, tag) == Value(b, tag) && (Has(a, tag) <==> Has(b, tag))
  {
    ValueFromMap(a, tag);
    ValueFromMap(b, tag);
  }

  /** The tombstone of the dummy fits its slot as well, if there is room for the place. */
  lemma TombstoneFits(t: Table, i: nat, r: Dict)
    requires Sound(t) && i < |t| && DummyLike(r) && t[i] == Canon(r)
    requires |SecondText(r)| + PlaceGrowth(r, i) <= SECTOR
    ensures Storable(Tombstone(t, i))
  {
    hide Clean, Canon, ToMap, Elements, Others, Dec, Value, Tombstone, NamesFit, Storable;
    CanonOfDummy(r);
    FindIsHas(r, OFFSET);
    FindIsHas(t[i], OFFSET);
    DummyLikeStays(t[i]);
    TombstoneStorableExactly(t, i);
  }

  lemma ShortUuid(uuid: string)
    requires GoodUuid(uuid)
    ensures |uuid| <= UUID_LENGTH
  {
  }

  lemma PlaceIsShort(i: nat)
    requires Place(i) < MAX_LENGTH
    ensures |Dec(Place(i))| <= 10
  {
    assert Power10(10) == MAX_LENGTH by {
      assert Power10(5) == 100000;
    }
    DecLength(Place(i), 10);
  }

  lemma DummyHasUuid(uuid: string)
    ensures Has(Dummy(uuid), UUID)
  {
    assert Dummy(uuid)[0].tag == UUID;
  }

  lemma DummyGoodFields(uuid: string)
    requires GoodUuid(uuid)
    ensures GoodFields(Dummy(uuid)) && Distinct(Dummy(uuid)) && Has(Dummy(uuid), UUID)
  {
    hide Dummy, PlainField, Trimmed, GoodUuid, IsName, Has;
    var d := Dummy(uuid);
    DummyHasUuid(uuid);
    MarkedDistinct(uuid);
    assert |Marked(uuid)| == 12 by { MarkedTags(uuid); }
    forall i | 0 <= i < |d| ensures if IsName(d[i].tag) then Trimmed(d[i].value) else PlainField(d[i]) {
      PlainDummy(uuid, i);
      assert Marked(uuid)[i] == d[i];
    }
    forall i, j | 0 <= i < j < |d| ensures d[i].tag != d[j].tag {
      assert Marked(uuid)[i] == d[i] && Marked(uuid)[j] == d[j];
    }
  }

  /** What the check writes: into a dead slot, the dummy over what was left there; behind
      the end, the dummy itself. */
  lemma AddedDummy(t: Table, uuid: string)
    requires Sound(t) && GoodUuid(uuid)
    ensures var r := AddRecord(t, Dummy(uuid));
            && DummyLike(r)
            && (FirstDead(t) < |t| ==> Has(r, OFFSET) && Value(r, OFFSET) == Dec(Place(FirstDead(t))))
            && (FirstDead(t) == |t| ==> r == Marked(uuid))
  {
    hide Marked, Dummy, Clean, Value, ToMap, GoodFields, GoodUuid, AddRecord, NamesFit;
    var r := AddRecord(t, Dummy(uuid));
    DummyGoodFields(uuid);
    MarkedClean(uuid);
    MarkedIs(uuid);
    AddRecordMap(t, Dummy(uuid));
    if FirstDead(t) < |t| {
      DummyMap(uuid);
      OverDead(ToMap(t[FirstDead(t)]), Place(FirstDead(t)), ToMap(Dummy(uuid)));
      LikeByMap(r);
    } else {
      AppendedIs(t, Dummy(uuid));
    }
  }

  lemma OverDead(dead: map<string, string>, place: nat, dummy: map<string, string>)
    requires OFFSET !in dummy && LABEL in dummy && DESCRIPTION in dummy
    requires dummy[LABEL] == dummy[DESCRIPTION] == DUMMY_NAME
    ensures var m := dead[OFFSET := Dec(place)] + dummy[DELETED := "0"];
            && OFFSET in m && m[OFFSET] == Dec(place) && DELETED in m && m[DELETED] == "0"
            && LABEL in m && DESCRIPTION in m && m[LABEL] == m[DESCRIPTION] == DUMMY_NAME
  {
    assert OFFSET !in {DELETED, LABEL, DESCRIPTION} && DELETED !in {LABEL, DESCRIPTION};
  }

  lemma LikeByMap(r: Dict)
    requires Clean(r)
    requires var m := ToMap(r);
             && OFFSET in m && DELETED in m && m[DELETED] == "0"
             && LABEL in m && DESCRIPTION in m && m[LABEL] == m[DESCRIPTION] == DUMMY_NAME
    ensures DummyLike(r) && Has(r, OFFSET) && Value(r, OFFSET) == ToMap(r)[OFFSET]
  {
    hide Clean, Value, ToMap;
    CleanIsGood(r);
    ValueFromMap(r, OFFSET);
    ValueFromMap(r, DELETED);
    ValueFromMap(r, LABEL);
    ValueFromMap(r, DESCRIPTION);
  }

  lemma AppendedIs(t: Table, d: Dict)
    requires FirstDead(t) == |t|
    ensures AddRecord(t, d) == Set(d, DELETED, "0")
  {
  }

  lemma DummyMap(uuid: string)
    requires GoodUuid(uuid)
    ensures var m := ToMap(Dummy(uuid));
            && OFFSET !in m && LABEL in m && DESCRIPTION in m
            && m[LABEL] == m[DESCRIPTION] == DUMMY_NAME
  {
    hide Dummy, GoodUuid, ToMap;
    DummyGoodFields(uuid);
    DummyNames(uuid);
    MapAt(Dummy(uuid), 1);
    MapAt(Dummy(uuid), 2);
    MapKeys(Dummy(uuid));
  }

  lemma DummyNames(uuid: string)
    ensures var d := Dummy(uuid);
            && |d| == 11 && d[1] == Field(LABEL, DUMMY_NAME) && d[2] == Field(DESCRIPTION, DUMMY_NAME)
            && !Has(d, OFFSET)
  {
    var d := Dummy(uuid);
    forall i | 0 <= i < |d| ensures d[i].tag != OFFSET {
      assert |d[i].tag| != 6;
    }
  }

  /** There is room for one more slot or, when a dead slot is reused, for the dummy
      together with what was left in that slot. */
  predicate SpaceLeft(v: Volume, uuid: string) {
    var t := v.table;
    if FirstDead(t) < |t| then |SecondText(AddRecord(t, Dummy(uuid)))| <= SECTOR else Place(|t| + 1) <= |v.dev|
  }

  /** With such room the dummy can be added, and its tombstone always fits. */
  lemma SpaceCheckAllowedExactly(v: Volume, uuid: string)
    requires Good(v) && GoodUuid(uuid) && uuid !in LiveUuids(v.table)
    ensures Fits(v)
    ensures Allowed(v, CheckSpace(uuid)) <==> SpaceLeft(v, uuid)
    ensures CanAdd(v.dev, v.table, Dummy(uuid)) <==> SpaceLeft(v, uuid)
    ensures Storable(AddRecord(v.table, Dummy(uuid)))
            <==> FirstDead(v.table) == |v.table| || |SecondText(AddRecord(v.table, Dummy(uuid)))| <= SECTOR
  {
    hide Clean, Marked, Dummy, Canon, Stored, ReadsAs, Sound, Unique, Dead, Value, GoodUuid, NamesReadable, RestFits,
         GoodFields, Live, LiveUuids, Tombstone, FindLive, DummyLike, AddRecord, SecondText, CanMark;
    var t, d := v.table, Dummy(uuid);
    SizeOfHeld(v.dev, t);
    DummyIsGood(uuid);
    DummyGoodFields(uuid);
    AddedDummy(t, uuid);
    DummyLikeStays(AddRecord(t, d));
    ShortUuid(uuid);
    MarkedLength(uuid);
    if CanAdd(v.dev, t, d) {
      DummyCanGo(v, uuid);
    }
  }

  /** The slot the dummy goes to is written before anything is noticed: the whole table is
      lost exactly when what was left in a dead slot does not leave room for the dummy and
      the text can be written all the same. */
  lemma SpaceCheckLosesExactly(v: Volume, uuid: string)
    requires Good(v) && GoodUuid(uuid) && uuid !in LiveUuids(v.table)
    ensures Fits(v)
    ensures var t := v.table;
            var e := AddEffect(v.dev, t, Dummy(uuid));
            && (e.ok <==> WriteRecord(v.dev, FirstDead(t), AddRecord(t, Dummy(uuid))).Some?)
            && (Lost(Last(v.dev, e)) <==> e.ok && !SpaceLeft(v, uuid))
            && (e.ok && !SpaceLeft(v, uuid) ==> FirstDead(t) < |t| && !Storable(AddRecord(t, Dummy(uuid))))
            && (SpaceLeft(v, uuid) ==> e.ok)
            && (!e.ok ==> e.images == [])
  {
    hide Dummy, ReadsAs, Sound, Unique, GoodUuid, Allowed, GoodFields, LiveUuids, AddRecord, SecondText, Lost, Storable,
         CanAdd, WriteRecord, AddEffect, Has, SpaceLeft, FirstDead;
    SpaceCheckAllowedExactly(v, uuid);
    DummyGoodFields(uuid);
    AddWorksExactly(v.dev, v.table, Dummy(uuid));
    AddEnds(v.dev, v.table, Dummy(uuid));
    CanAddEnds(v, uuid);
    if AddEffect(v.dev, v.table, Dummy(uuid)).ok {
      SpaceOrOverrun(v, uuid);
    }
  }

  lemma AddEnds(dev: Device, t: Table, d: Dict)
    requires SECTOR <= |dev| < MAX_LENGTH && Place(|t|) <= |dev|
    ensures var e := AddEffect(dev, t, d);
            && (e.ok <==> WriteRecord(dev, FirstDead(t), AddRecord(t, d)).Some?)
            && (e.ok ==> Place(FirstDead(t) + 1) <= |dev|)
            && (!e.ok ==> e.images == [])
  {
    hide AddRecord, WriteRecord, SetLength, FirstDead;
    if AddEffect(dev, t, d).ok {
      AddRoom(dev, t, d);
    }
  }

  lemma CanAddEnds(v: Volume, uuid: string)
    requires Good(v) && Fits(v)
    ensures CanAdd(v.dev, v.table, Dummy(uuid)) ==> AddEffect(v.dev, v.table, Dummy(uuid)).ok
  {
    hide Dummy, ReadsAs, Sound, Unique, AddRecord, AddEffect, Live, View, CanAdd, AddTable;
    if CanAdd(v.dev, v.table, Dummy(uuid)) {
      AddIsAtomic(v.dev, v.table, Dummy(uuid));
    }
  }

  lemma SpaceOrOverrun(v: Volume, uuid: string)
    requires Place(FirstDead(v.table) + 1) <= |v.dev|
    ensures SpaceLeft(v, uuid)
            <==> FirstDead(v.table) == |v.table| || |SecondText(AddRecord(v.table, Dummy(uuid)))| <= SECTOR
  {
    hide Dummy, AddRecord, SecondText;
  }

  // ---- How long the dummy is in a dead slot ----

  /** What one tag adds to a record that is written over. */
  function Gain(d: Dict, f: Field): int {
    if IsName(f.tag) then 0
    else if Has(d, f.tag) then |f.value| - |Value(d, f.tag)|
    else 2 * |f.tag| + 5 + |f.value|
  }

  function Growth(d: Dict, update: Dict): int {
    if update == [] then 0 else Growth(d, update[..|update| - 1]) + Gain(d, update[|update| - 1])
  }

  lemma SetGains(d: Dict, f: Field)
    ensures |SecondText(Set(d, f.tag, f.value))| == |SecondText(d)| + Gain(d, f)
  {
    hide SecondText, Set, Has;
    if IsName(f.tag) {
      NameIsElsewhere(d, f);
    } else {
      SetGrows(d, f.tag, f.value);
      FindIsHas(d, f.tag);
    }
  }

  lemma {:induction false} NameIsElsewhere(d: Dict, f: Field)
    requires IsName(f.tag)
    ensures |SecondText(Set(d, f.tag, f.value))| == |SecondText(d)|
  {
    hide Elements, IsName;
    NameIsNoOther(d, f);
  }

  lemma {:induction false} NameIsNoOther(d: Dict, f: Field)
    requires IsName(f.tag)
    ensures Others(Set(d, f.tag, f.value)) == Others(d)
  {
    hide IsName;
    if d == [] {
      assert Set(d, f.tag, f.value) == [f] && [f][1..] == [];
    } else if d[0].tag == f.tag {
      assert Set(d, f.tag, f.value) == [f] + d[1..];
    } else {
      NameIsNoOther(d[1..], f);
      assert Set(d, f.tag, f.value) == [d[0]] + Set(d[1..], f.tag, f.value);
    }
  }

  /** A tag that is not in the update is as it was. */
  lemma {:induction false} MergeKeeps(d: Dict, update: Dict, tag: string)
    requires forall i :: 0 <= i < |update| ==> update[i].tag != tag
    ensures Value(Merge(d, update), tag) == Value(d, tag) && (Has(Merge(d, update), tag) <==> Has(d, tag))
  {
    hide Set, Value, Has;
    if update != [] {
      var n := |update| - 1;
      MergeKeeps(d, update[..n], tag);
      OtherTag(Merge(d, update[..n]), update[n].tag, update[n].value, tag);
      OtherHas(Merge(d, update[..n]), update[n], tag);
    }
  }

  lemma OtherHas(d: Dict, f: Field, tag: string)
    requires f.tag != tag
    ensures Has(Set(d, f.tag, f.value), tag) <==> Has(d, tag)
  {
    var e := Set(d, f.tag, f.value);
    if Has(d, tag) {
      var i :| 0 <= i < |d| && d[i].tag == tag;
      assert e[i].tag == tag;
    }
    if Has(e, tag) {
      var i :| 0 <= i < |e| && e[i].tag == tag;
      assert i < |d| && d[i].tag == tag;
    }
  }

  /** Writing over a record makes it longer by what each tag adds. */
  lemma {:induction false} MergeGrows(d: Dict, update: Dict)
    requires Distinct(update)
    ensures |SecondText(Merge(d, update))| == |SecondText(d)| + Growth(d, update)
  {
    hide Set, Value, Has, SecondText, Gain;
    if update != [] {
      var n := |update| - 1;
      var f := update[n];
      MergeGrows(d, update[..n]);
      MergeKeeps(d, update[..n], f.tag);
      SetGains(Merge(d, update[..n]), f);
      SameGain(d, Merge(d, update[..n]), f);
    }
  }

  lemma SameGain(d: Dict, e: Dict, f: Field)
    requires Value(d, f.tag) == Value(e, f.tag) && (Has(d, f.tag) <==> Has(e, f.tag))
    ensures Gain(d, f) == Gain(e, f)
  {
  }

  /** Whether there is room in a dead slot, tag by tag. */
  lemma SpaceLeftInSlot(v: Volume, uuid: string)
    requires FirstDead(v.table) < |v.table|
    ensures var i := FirstDead(v.table);
            var was := InMemory(v.table[i], i);
            && |SecondText(AddRecord(v.table, Dummy(uuid)))| == |SecondText(was)| + Growth(was, Marked(uuid))
            && (SpaceLeft(v, uuid) <==> |SecondText(was)| + Growth(was, Marked(uuid)) <= SECTOR)
  {
    hide Marked, Dummy, SecondText, InMemory, Growth, Set, Merge, FirstDead;
    MarkedIs(uuid);
    MarkedDistinct(uuid);
    MergeGrows(InMemory(v.table[FirstDead(v.table)], FirstDead(v.table)), Marked(uuid));
  }

  lemma DummyCanGo(v: Volume, uuid: string)
    requires Good(v) && GoodUuid(uuid) && CanAdd(v.dev, v.table, Dummy(uuid))
    ensures CanMark(AddTable(v.table, Dummy(uuid)), uuid)
  {
    hide Marked, Dummy, Canon, Stored, ReadsAs, Unique, Dead, Value, GoodUuid, NamesReadable, GoodFields, Live,
         LiveUuids, Tombstone, FindLive, DummyLike, AddRecord, SecondText, Clean;
    var t, d := v.table, Dummy(uuid);
    var r := AddRecord(t, d);
    DummyIsGood(uuid);
    AddedDummy(t, uuid);
    DummyLikeStays(r);
    AddTableLive(t, d);
    NewPlace(v.dev, t, d);
    var t1 := AddTable(t, d);
    var i := FirstDead(t);
    assert t1[i] == Canon(r);
    RoomForPlace(v.dev, t, uuid);
    TombstoneFits(t1, i, r);
  }

  /** The record that has been added is the one its uuid finds. */
  lemma NewPlace(dev: Device, t: Table, d: Dict)
    requires Holds(dev, t) && CanAdd(dev, t, d)
    ensures FirstDead(t) < |AddTable(t, d)| && FindLive(AddTable(t, d), Value(d, UUID)) == FirstDead(t)
  {
    hide Stored, AddRecord, Live, View, Value, Dead, Clean, NamesReadable, RestFits, ReadsAs, GoodFields;
    AddTableLive(t, d);
    AddedRecord(t, d);
    StoredView(AddRecord(t, d));
    LiveAt(AddTable(t, d), FirstDead(t));
  }

  lemma RoomForPlace(dev: Device, t: Table, uuid: string)
    requires Holds(dev, t) && GoodUuid(uuid) && CanAdd(dev, t, Dummy(uuid))
    ensures var r := AddRecord(t, Dummy(uuid)); |SecondText(r)| + PlaceGrowth(r, FirstDead(t)) <= SECTOR
  {
    hide Marked, Dummy, Sound, Unique, Dead, GoodUuid, NamesReadable, GoodFields, LiveUuids, DummyLike, AddRecord,
         SecondText, Clean, Find, Value;
    var i, r := FirstDead(t), AddRecord(t, Dummy(uuid));
    AddedDummy(t, uuid);
    DummyLikeStays(r);
    FindIsHas(r, OFFSET);
    if i == |t| {
      ShortUuid(uuid);
      MarkedLength(uuid);
      MarkedClean(uuid);
      SizeOfHeld(dev, t);
      PlaceIsShort(i);
    }
  }
}
