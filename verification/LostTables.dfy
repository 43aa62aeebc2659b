/** Two runs from a formatted device after which no table is left: a record that just fits
    when it is added is deleted, and the space check meets what such a record has left in a
    dead slot (sm/srmetadata.py:253-337, 497-523). */
module LostTables {
  import opened Dicts
  import opened XmlText
  import opened SlotCodec
  import opened SrHeader
  import opened SlotTable
  import opened LiveView
  import opened TableOps
  import opened TableTheorems
  import opened TableRuns
  import opened TableLimits
  import opened SlotGrowth
  import opened SpaceCheck
  import opened FailingInputs

  /** A record with a value of `n` characters in its second sector, 47 + n characters. */
  function Stuffed(uuid: string, n: nat): Dict {
    Own(uuid, "a", "0", Field("x", Repeat('y', n)))
  }

  lemma StuffedIs(uuid: string, n: nat)
    requires uuid == "u" || uuid == "v"
    ensures var d := Stuffed(uuid, n);
            && Clean(d) && Has(d, DELETED) && Has(d, UUID) && NamesFit(d) && |SecondText(d)| == 47 + n
            && Value(d, DELETED) == "0" && Value(d, UUID) == uuid && !Has(d, OFFSET)
            && Set(d, DELETED, "0") == d
  {
    hide Own, Clean, Has, Value, Repeat, SecondText, Set, NamesFit;
    var extra := Field("x", Repeat('y', n));
    NoMarkupIsPlain(uuid);
    NoMarkupIsPlain(extra.value);
    assert OwnTag("x");
    assert PlainField(extra);
    OwnIsClean(uuid, "a", "0", extra);
    OwnTags(uuid, "a", "0", extra);
    OwnLength(uuid, "a", "0", extra);
    OwnValues(uuid, extra);
  }

  lemma OwnValues(uuid: string, extra: Field)
    requires Distinct(Own(uuid, "a", "0", extra))
    ensures var d := Own(uuid, "a", "0", extra);
            Value(d, UUID) == uuid && Set(d, DELETED, "0") == d && NamesFit(d)
  {
    hide Find, Value, Escape;
    var d := Own(uuid, "a", "0", extra);
    FindAt(d, 0);
    FindAt(d, 1);
    FindAt(d, 2);
    FindAt(d, 3);
    assert d[3 := Field(DELETED, "0")] == d;
    EscapeIsShort("a");
    EscapeIsShort("b");
  }

  /** Adding the record to a table without a dead slot. */
  lemma StuffedIsAdded(v: Volume, uuid: string, n: nat)
    requires uuid == "u" || uuid == "v"
    requires Good(v) && FirstDead(v.table) == |v.table| && uuid !in LiveUuids(v.table)
    requires n <= 465 && Place(|v.table| + 1) <= |v.dev|
    ensures Fits(v) && Step(v, Add(Stuffed(uuid, n)), AddTo(v, Stuffed(uuid, n)))
    ensures var w := AddTo(v, Stuffed(uuid, n));
            && Good(w) && w.table == v.table + [Stored(Stuffed(uuid, n))] && |w.dev| == |v.dev|
            && FirstDead(w.table) == |w.table|
  {
    hide Stuffed, Clean, Has, Value, SecondText, Set, NamesFit, NamesReadable, LiveUuids, GoodFields, Stored, ReadsAs,
         Sound, Unique, AddEffect, Dead;
    var d := Stuffed(uuid, n);
    StuffedIs(uuid, n);
    CleanIsGood(d);
    FittingNamesStay(d);
    HeldHeader(v.dev, v.table);
    AppendedIs(v.table, d);
    assert WithDeleted(d) == d;
    AddIsAtomic(v.dev, v.table, d);
    StoredView(d);
    assert !Dead(d) by { NotDead(d); }
    NoneDead(v.table, Stored(d));
  }

  lemma NotDead(d: Dict)
    requires Value(d, DELETED) == "0"
    ensures !Dead(d)
  {
  }

  lemma NoneDead(t: Table, d: Dict)
    requires FirstDead(t) == |t| && !Dead(d)
    ensures FirstDead(t + [d]) == |t + [d]|
  {
    hide Dead;
    forall j | 0 <= j < |t + [d]| ensures !Dead((t + [d])[j]) {
    }
  }

  // ---- Two records ----

  /** A formatted device to which two records are added. */
  ghost predicate TwoAdded(vs: seq<Volume>, ops: seq<Op>, dev: Device, n: nat) {
    && ops == [Add(Stuffed("u", n)), Add(Stuffed("v", 0))]
    && |vs| == 3 && vs[0] == Volume(dev, []) && IsRun(vs, ops)
    && vs[2].table == [Stored(Stuffed("u", n)), Stored(Stuffed("v", 0))] && |vs[2].dev| == |dev|
    && Good(vs[2])
  }

  lemma TwoCanBeAdded(dev: Device, n: nat) returns (vs: seq<Volume>, ops: seq<Op>)
    requires Formatted(dev) && Place(2) <= |dev| && n <= 465
    ensures TwoAdded(vs, ops, dev, n)
  {
    hide Stuffed, Good, Step, Stored, Formatted, AddTo, LiveUuids;
    var v0 := Volume(dev, []);
    EmptyIsGood(dev);
    NobodyLives();
    StuffedIsAdded(v0, "u", n);
    var v1 := AddTo(v0, Stuffed("u", n));
    assert v1.table == [Stored(Stuffed("u", n))];
    OneLives(n);
    StuffedIsAdded(v1, "v", 0);
    var v2 := AddTo(v1, Stuffed("v", 0));
    vs, ops := [v0, v1, v2], [Add(Stuffed("u", n)), Add(Stuffed("v", 0))];
  }

  lemma NobodyLives()
    ensures LiveUuids([]) == {}
  {
  }

  lemma OneLives(n: nat)
    ensures LiveUuids([Stored(Stuffed("u", n))]) <= {"u"}
  {
    hide Stuffed, Stored, Value, Dead, Clean, Has, NamesFit, SecondText, Set;
    StuffedIs("u", n);
    StoredView(Stuffed("u", n));
  }

  lemma FirstFound(n: nat)
    ensures FindLive([Stored(Stuffed("u", n)), Stored(Stuffed("v", 0))], "u") == 0
  {
    hide Stuffed, Stored, Value, Dead, Clean, Has, NamesFit, SecondText, Set;
    StuffedIs("u", n);
    StoredView(Stuffed("u", n));
    NotDead(Stuffed("u", n));
  }

  lemma StoredTags(n: nat)
    ensures var d := Stored(Stuffed("u", n));
            && |SecondText(d)| == 47 + n && Value(d, DELETED) == "0" && Find(d, OFFSET) == |d|
            && ToMap(d).Keys == {UUID, LABEL, DESCRIPTION, DELETED, "x"} && Value(d, UUID) == "u"
  {
    hide Stuffed, Stored, Clean, Has, NamesFit, SecondText, Set, Value, ToMap;
    var d := Stuffed("u", n);
    StuffedIs("u", n);
    StoredLength(d);
    StoredIs(d);
    StoredView(d);
    assert WithDeleted(d) == d;
    StuffedKeys(n);
    TagsApart();
    CleanIsGood(d);
    CleanIsGood(Stored(d));
    FixedTagsApart();
    ValueFromMap(d, DELETED);
    ValueFromMap(Stored(d), DELETED);
    FindIsHas(Stored(d), OFFSET);
  }

  lemma StuffedKeys(n: nat)
    ensures ToMap(Stuffed("u", n)).Keys == {UUID, LABEL, DESCRIPTION, DELETED, "x"}
    ensures OFFSET !in {UUID, LABEL, DESCRIPTION, DELETED, "x"}
  {
    hide ToMap;
    var d := Stuffed("u", n);
    MapKeys(d);
    assert d[0].tag == UUID && d[1].tag == LABEL && d[2].tag == DESCRIPTION && d[3].tag == DELETED && d[4].tag == "x";
    forall tag ensures Has(d, tag) <==> tag in {UUID, LABEL, DESCRIPTION, DELETED, "x"} {
    }
  }

  /** Its tombstone needs 21 characters more. */
  lemma StuffedTombstone(t: Table, n: nat)
    requires t == [Stored(Stuffed("u", n)), Stored(Stuffed("v", 0))]
    ensures TombstoneLength(t, 0) == 68 + n
  {
    hide Stuffed, Stored, SecondText, Value, Find, Dec;
    StoredTags(n);
    FirstPlace();
  }

  lemma FirstPlace()
    ensures |Dec(Place(0))| == 4
  {
    assert Dec(2) == "2";
    assert Dec(20) == "20";
    assert |Dec(204)| == 3;
  }

  // ---- A record that fits and cannot be deleted ----

  /** On any formatted device with room for two records: one whose second sector takes
      more than 491 and at most 512 characters is added, and another; when the first is
      deleted, delete reports no error and no table is left. */
  lemma FullRecordCannotGo(dev: Device, n: nat) returns (vs: seq<Volume>, ops: seq<Op>)
    requires Formatted(dev) && Place(2) <= |dev| && 444 < n <= 465
    ensures TwoAdded(vs, ops, dev, n) && Fits(vs[2])
    ensures var e := DeleteEffect(vs[2].dev, vs[2].table, "u"); e.ok && Lost(Last(vs[2].dev, e))
  {
    hide Stuffed, Stored, Good, Step, Formatted, DeleteEffect, Lost, FindLive, Place, Span, DeleteTable, Holds,
         TombstoneLength;
    vs, ops := TwoCanBeAdded(dev, n);
    FirstFound(n);
    StuffedTombstone(vs[2].table, n);
    DeleteWorksInRunsExactly(vs, ops, 2, "u");
    TombstoneIsWritten(vs[2], n);
  }

  lemma TombstoneIsWritten(v: Volume, n: nat)
    requires Good(v) && Fits(v) && v.table == [Stored(Stuffed("u", n)), Stored(Stuffed("v", 0))] && n <= 465
    ensures DeleteEffect(v.dev, v.table, "u").ok
  {
    hide Stuffed, Stored, ReadsAs, Unique, FindLive, Tombstone, TombstoneLength, Clean, Has, SecondText, WithDeleted,
         WriteRecord, SetLength;
    var t := v.table;
    FirstFound(n);
    StuffedTombstone(t, n);
    TombstoneMap(t, 0);
    CleanNames(Tombstone(t, 0));
    TombstoneLengthIs(t, 0);
    WritableExactly(v.dev, 0, Tombstone(t, 0));
  }

  // ---- A dead slot that is too full for the dummy ----

  /** A slot that such a record has been deleted from. */
  ghost predicate LeftBehind(d: Dict, n: nat) {
    && |SecondText(d)| == 68 + n && Value(d, UUID) == "u" && Value(d, DELETED) == "1"
    && ToMap(d).Keys == {UUID, LABEL, DESCRIPTION, DELETED, "x", OFFSET} && Value(d, OFFSET) == Dec(Place(0))
  }

  lemma TombstoneIsLeft(t: Table, n: nat)
    requires Sound(t) && t == [Stored(Stuffed("u", n)), Stored(Stuffed("v", 0))]
    ensures LeftBehind(Stored(Tombstone(t, 0)), n)
  {
    hide Stuffed, Stored, Clean, Has, NamesFit, SecondText, Set, Value, ToMap, Tombstone, TombstoneLength, Dec;
    var r := Tombstone(t, 0);
    StoredTags(n);
    StuffedTombstone(t, n);
    TombstoneMap(t, 0);
    TombstoneLengthIs(t, 0);
    StoredLength(r);
    StoredView(r);
    StoredIs(r);
    assert WithDeleted(r) == r;
    CleanIsGood(t[0]);
    CleanIsGood(r);
    CleanIsGood(Stored(r));
    ValueFromMap(t[0], UUID);
    ValueFromMap(r, UUID);
    ValueFromMap(r, DELETED);
    ValueFromMap(Stored(r), DELETED);
    ValueFromMap(Stored(r), OFFSET);
    TagsApart();
  }

  /** Reading the record changes nothing: it has its place already. */
  lemma PlaceIsThere(d: Dict, n: nat)
    requires LeftBehind(d, n)
    ensures InMemory(d, 0) == d
  {
    hide SecondText, ToMap, Dec;
    FindIsHas(d, OFFSET);
    var i := Find(d, OFFSET);
    assert d[i] == Field(OFFSET, Dec(Place(0)));
  }

  lemma GrowthStep(d: Dict, update: Dict, k: nat)
    requires k < |update|
    ensures Growth(d, update[..k + 1]) == Growth(d, update[..k]) + Gain(d, update[k])
  {
    assert update[..k + 1][..k] == update[..k];
  }

  /** What a tag of the dummy adds. */
  lemma DummyGain(d: Dict, n: nat, f: Field)
    requires LeftBehind(d, n)
    ensures f.tag !in {UUID, LABEL, DESCRIPTION, DELETED, "x", OFFSET} ==> Gain(d, f) == 2 * |f.tag| + 5 + |f.value|
    ensures f.tag == UUID ==> Gain(d, f) == |f.value| - 1
    ensures f.tag == DELETED ==> Gain(d, f) == |f.value| - 1
    ensures IsName(f.tag) ==> Gain(d, f) == 0
  {
    hide SecondText, ToMap, Dec, Value;
    FindIsHas(d, f.tag);
    TagsApart();
  }

  lemma DummyGrows(d: Dict, n: nat, uuid: string)
    requires LeftBehind(d, n)
    ensures Growth(d, Marked(uuid)) == |uuid| + 211
  {
    hide LeftBehind, Gain, Growth;
    var m := Marked(uuid);
    assert Growth(d, m[..0]) == 0 by { NoGrowth(d); }
    DummyTags(uuid);
    forall k | 0 <= k < 12 ensures Growth(d, m[..k + 1]) == Growth(d, m[..k]) + Gain(d, m[k]) {
      GrowthStep(d, m, k);
    }
    forall k | 3 <= k < 11 ensures Gain(d, m[k]) == 2 * |m[k].tag| + 5 + |m[k].value| {
      DummyGain(d, n, m[k]);
    }
    DummyGain(d, n, m[0]);
    DummyGain(d, n, m[1]);
    DummyGain(d, n, m[2]);
    DummyGain(d, n, m[11]);
    assert m[..12] == m;
  }

  lemma NoGrowth(d: Dict)
    ensures Growth(d, []) == 0
  {
  }

  lemma DummyTags(uuid: string)
    ensures var m := Marked(uuid);
            && |m| == 12 && m[0] == Field(UUID, uuid) && m[1].tag == LABEL && m[2].tag == DESCRIPTION
            && m[11] == Field(DELETED, "0")
            && (forall k :: 3 <= k < 11 ==> m[k].tag !in {UUID, LABEL, DESCRIPTION, DELETED, "x", OFFSET})
            && 2 * |m[3].tag| + |m[3].value| == 27 && 2 * |m[4].tag| + |m[4].value| == 22
            && 2 * |m[5].tag| + |m[5].value| == 26 && 2 * |m[6].tag| + |m[6].value| == 12
            && 2 * |m[7].tag| + |m[7].value| == 19 && 2 * |m[8].tag| + |m[8].value| == 19
            && 2 * |m[9].tag| + |m[9].value| == 15 && 2 * |m[10].tag| + |m[10].value| == 32
  {
    var m := Marked(uuid);
    forall k | 3 <= k < 11 ensures m[k].tag !in {UUID, LABEL, DESCRIPTION, DELETED, "x", OFFSET} {
      assert |m[k].tag| != 1 && |m[k].tag| != 10 && |m[k].tag| != 6;
      assert |m[k].tag| == 4 || |m[k].tag| == 7 || |m[k].tag| == 16 ==> m[k].tag[0] in {'t', 'm'};
    }
  }

  /** The two records with the first one deleted. */
  ghost predicate OneDeleted(v: Volume, dev: Device, n: nat) {
    && |v.dev| == |dev| && Good(v) && Fits(v) && FirstDead(v.table) == 0 && |v.table| == 2
    && LeftBehind(v.table[0], n) && LiveUuids(v.table) <= {"v"}
  }

  lemma FirstIsDeleted(v: Volume, dev: Device, n: nat)
    requires Good(v) && Fits(v) && v.table == [Stored(Stuffed("u", n)), Stored(Stuffed("v", 0))]
    requires |v.dev| == |dev| && n <= 444
    ensures CanDelete(v.dev, v.table, "u") && OneDeleted(DeleteFrom(v, "u"), dev, n)
  {
    hide Stuffed, Stored, ReadsAs, Unique, FindLive, Tombstone, TombstoneLength, NamesReadable, Clean, WriteRecord,
         SetLength, LeftBehind, Live, LiveUuids, Dead, NamesFit, Value, Storable, DeleteEffect;
    var t := v.table;
    FirstFound(n);
    StuffedTombstone(t, n);
    StuffedFits(n);
    TombstoneStorableExactly(t, 0);
    MarkIsEnough(v.dev, t, "u");
    DeleteIsAtomic(v.dev, t, "u");
    TombstoneIsLeft(t, n);
    TombstoneRecord(t, 0);
    var w := DeleteFrom(v, "u");
    HeldHeader(w.dev, w.table);
    assert w.table == [Stored(Tombstone(t, 0)), Stored(Stuffed("v", 0))];
    FirstIsDead(w.table);
    OtherLives(w.table);
  }

  lemma StuffedFits(n: nat)
    ensures NamesFit(Stored(Stuffed("u", n)))
  {
    hide Stuffed, Stored, Clean, Has, NamesFit, SecondText, Set, Value;
    StuffedIs("u", n);
    StoredIs(Stuffed("u", n));
  }

  lemma OtherLives(t: Table)
    requires |t| == 2 && Dead(t[0]) && t[1] == Stored(Stuffed("v", 0))
    ensures LiveUuids(t) <= {"v"}
  {
    hide Stuffed, Stored, Value, Dead, Clean, Has, NamesFit, SecondText, Set;
    StuffedIs("v", 0);
    StoredView(Stuffed("v", 0));
  }

  /** On any formatted device with room for two records: one whose second sector takes more
      than 280 and at most 491 characters is added, and another, and the first is deleted.
      The space check then writes its dummy over what is left, and no table is left. */
  lemma CrowdedSlotCannotBeChecked(dev: Device, n: nat, uuid: string) returns (vs: seq<Volume>, ops: seq<Op>)
    requires Formatted(dev) && Place(2) <= |dev| && 233 < n <= 444
    requires GoodUuid(uuid) && uuid != "v"
    ensures IsRun(vs, ops) && |vs| == 4 && vs[0] == Volume(dev, [])
    ensures ops == [Add(Stuffed("u", n)), Add(Stuffed("v", 0)), Delete("u")]
    ensures Fits(vs[3]) && !SpaceLeft(vs[3], uuid)
    ensures var e := AddEffect(vs[3].dev, vs[3].table, Dummy(uuid)); e.ok && Lost(Last(vs[3].dev, e))
  {
    hide Stuffed, Stored, Good, Step, Formatted, Lost, CanDelete, OneDeleted, AddEffect, GoodUuid, Dummy, SpaceLeft;
    vs, ops := TwoCanBeAdded(dev, n);
    HeldHeader(vs[2].dev, vs[2].table) by {
      assert ReadsAs(vs[2].dev, vs[2].table) by { GoodReads(vs[2]); }
    }
    FirstIsDeleted(vs[2], dev, n);
    var w := DeleteFrom(vs[2], "u");
    DeleteIsStep(vs[2], "u");
    CrowdedIsLost(w, dev, n, uuid);
    ThreeAreRun(vs, ops, dev, n, w);
    vs, ops := vs + [w], ops + [Delete("u")];
  }

  lemma ThreeAreRun(vs: seq<Volume>, ops: seq<Op>, dev: Device, n: nat, w: Volume)
    requires TwoAdded(vs, ops, dev, n) && Step(vs[2], Delete("u"), w)
    ensures IsRun(vs + [w], ops + [Delete("u")])
    ensures ops + [Delete("u")] == [Add(Stuffed("u", n)), Add(Stuffed("v", 0)), Delete("u")]
  {
    hide Stuffed, Stored, Good, Step;
    var vs1, ops1 := vs + [w], ops + [Delete("u")];
    forall k | 0 <= k < 3 ensures Step(vs1[k], ops1[k], vs1[k + 1]) {
      assert k < 2 ==> Step(vs[k], ops[k], vs[k + 1]);
    }
  }

  lemma GoodReads(v: Volume)
    requires Good(v)
    ensures ReadsAs(v.dev, v.table)
  {
  }

  lemma DeleteIsStep(v: Volume, uuid: string)
    requires Fits(v) && CanDelete(v.dev, v.table, uuid)
    ensures Step(v, Delete(uuid), DeleteFrom(v, uuid))
  {
  }

  lemma CrowdedIsWritten(v: Volume, dev: Device, n: nat, uuid: string)
    requires OneDeleted(v, dev, n) && Place(2) <= |dev| && n <= 444 && GoodUuid(uuid)
    ensures WriteRecord(v.dev, 0, AddRecord(v.table, Dummy(uuid))).Some?
  {
    hide ReadsAs, Unique, LeftBehind, LiveUuids, Marked, Dummy, AddRecord, Growth, FirstDead, SpaceLeft, GoodUuid,
         WriteRecord, Clean, SecondText, Value, Has;
    var d, r := v.table[0], AddRecord(v.table, Dummy(uuid));
    SpaceLeftInSlot(v, uuid);
    PlaceIsThere(d, n);
    DummyGrows(d, n, uuid);
    LeftLength(d, n);
    ShortUuid(uuid);
    AddedDummy(v.table, uuid);
    CleanNames(r);
    WritableExactly(v.dev, 0, r);
  }

  lemma LeftLength(d: Dict, n: nat)
    requires LeftBehind(d, n)
    ensures |SecondText(d)| == 68 + n
  {
  }

  lemma CrowdedIsLost(v: Volume, dev: Device, n: nat, uuid: string)
    requires OneDeleted(v, dev, n) && Place(2) <= |dev| && 233 < n <= 444
    requires GoodUuid(uuid) && uuid != "v"
    ensures Fits(v) && !SpaceLeft(v, uuid)
    ensures var e := AddEffect(v.dev, v.table, Dummy(uuid)); e.ok && Lost(Last(v.dev, e))
  {
    hide Good, Lost, LeftBehind, LiveUuids, Marked, Dummy, AddRecord, Growth, FirstDead, SpaceLeft, GoodUuid,
         WriteRecord, Clean, Storable, AddEffect, SecondText, InMemory;
    var d := v.table[0];
    SpaceLeftInSlot(v, uuid);
    PlaceIsThere(d, n);
    DummyGrows(d, n, uuid);
    LeftLength(d, n);
    SpaceCheckLosesExactly(v, uuid);
    CrowdedIsWritten(v, dev, n, uuid);
  }
}
