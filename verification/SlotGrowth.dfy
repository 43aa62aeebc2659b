/** Records get longer when they are written back: the place they were read from is
    written with them (sm/srmetadata.py:262-263, 391, 436-439, 571-583). */
module SlotGrowth {
  import opened Dicts
  import opened XmlText
  import opened SlotCodec
  import opened SrHeader
  import opened SlotTable
  import opened TableOps

  /** A tag that is set adds its whole element, or the difference to what it had. */
  lemma {:induction false} SetGrows(d: Dict, tag: string, value: string)
    requires !IsName(tag)
    ensures |SecondText(Set(d, tag, value))|
            == |SecondText(d)| + if Find(d, tag) < |d| then |value| - |Value(d, tag)| else 2 * |tag| + 5 + |value|
  {
    hide Element, IsName, CloseTag, Elements, Others;
    ElementLength(tag, value);
    if d == [] {
      var e := [Field(tag, value)];
      assert Set(d, tag, value) == e && e[1..] == d;
      HeadElements(e);
    } else {
      var rest := d[1..];
      if d[0].tag == tag {
        var e := [Field(tag, value)] + rest;
        assert Set(d, tag, value) == e;
        assert e[1..] == rest;
        ElementLength(tag, d[0].value);
        HeadElements(d);
        HeadElements(e);
      } else {
        SetGrows(rest, tag, value);
        var e := [d[0]] + Set(rest, tag, value);
        assert Set(d, tag, value) == e;
        assert e[1..] == Set(rest, tag, value);
        HeadElements(d);
        HeadElements(e);
      }
    }
  }

  lemma ElementLength(tag: string, value: string)
    ensures |Element(tag, value)| == 2 * |tag| + 5 + |value|
  {
  }

  lemma HeadElements(d: Dict)
    requires d != []
    ensures |Elements(Others(d))|
            == |Elements(Others(d[1..]))| + if IsName(d[0].tag) then 0 else |Element(d[0].tag, d[0].value)|
  {
    hide Element, IsName;
    if !IsName(d[0].tag) {
      assert Others(d)[1..] == Others(d[1..]);
    }
  }

  /** How long the elements from tag `k` on are. */
  lemma {:induction false} Tail(d: Dict, k: nat)
    requires k < |d|
    ensures |Elements(Others(d[k..]))|
            == |Elements(Others(d[k + 1..]))| + if IsName(d[k].tag) then 0 else 2 * |d[k].tag| + 5 + |d[k].value|
  {
    HeadElements(d[k..]);
    assert d[k..][1..] == d[k + 1..];
    ElementLength(d[k].tag, d[k].value);
  }

  lemma NoElements()
    ensures Elements(Others([])) == ""
  {
  }

  /** Writing a record over one with the same tags leaves the new one. */
  lemma {:induction false} MergeSameTags(d: Dict, e: Dict, k: nat)
    requires Distinct(d) && |d| == |e| && k <= |d|
    requires forall i :: 0 <= i < |d| ==> d[i].tag == e[i].tag
    ensures Merge(d, e[..k]) == e[..k] + d[k..]
  {
    if k > 0 {
      hide Set;
      MergeSameTags(d, e, k - 1);
      assert e[..k][..k - 1] == e[..k - 1];
      NextSameTag(d, e, k - 1);
    }
  }

  lemma NextSameTag(d: Dict, e: Dict, k: nat)
    requires Distinct(d) && |d| == |e| && k < |d|
    requires forall i :: 0 <= i < |d| ==> d[i].tag == e[i].tag
    ensures Set(e[..k] + d[k..], e[k].tag, e[k].value) == e[..k + 1] + d[k + 1..]
  {
    var m := e[..k] + d[k..];
    forall j | 0 <= j < |m| ensures m[j].tag == d[j].tag {
    }
    assert Find(m, e[k].tag) == k;
    assert Field(e[k].tag, e[k].value) == e[k];
    assert m[k := e[k]] == e[..k + 1] + d[k + 1..];
  }

  lemma TombstoneIs(t: Table, i: nat)
    requires Sound(t) && i < |t|
    ensures Tombstone(t, i) == Set(InMemory(t[i], i), DELETED, "1")
    ensures Find(InMemory(t[i], i), DELETED) < |InMemory(t[i], i)|
  {
    hide Clean, Set, Merge, InMemory;
    var mem := InMemory(t[i], i);
    assert Clean(t[i]);
    InMemoryClean(t[i], i);
    CleanIsGood(mem);
    FindIsHas(t[i], DELETED);
    FindIsHas(mem, DELETED);
    var e := Set(mem, DELETED, "1");
    SetInPlace(mem, DELETED, "1");
    MergeSameTags(mem, e, |mem|);
    assert e[..|mem|] == e && mem[|mem|..] == [];
  }

  lemma SetInPlace(d: Dict, tag: string, value: string)
    requires Find(d, tag) < |d|
    ensures |Set(d, tag, value)| == |d| && forall i :: 0 <= i < |d| ==> Set(d, tag, value)[i].tag == d[i].tag
  {
  }

  /** How many characters the second sector gains when a record is deleted. */
  function PlaceGrowth(d: Dict, i: nat): int {
    if Find(d, OFFSET) < |d| then |Dec(Place(i))| - |Value(d, OFFSET)| else 17 + |Dec(Place(i))|
  }

  /** The length of the second sector's text when a record is deleted. */
  function TombstoneLength(t: Table, i: nat): int
    requires i < |t|
  {
    |SecondText(t[i])| + PlaceGrowth(t[i], i) + 1 - |Value(t[i], DELETED)|
  }

  lemma TombstoneLengthIs(t: Table, i: nat)
    requires Sound(t) && i < |t|
    ensures |SecondText(WithDeleted(Tombstone(t, i)))| == TombstoneLength(t, i)
  {
    hide Clean, Set, InMemory, Elements, Others, Dec, Find, Value, Tombstone;
    var mem := InMemory(t[i], i);
    TombstoneMap(t, i);
    OffsetIsPlain(i);
    MarkIsPlain("1");
    TombstoneIs(t, i);
    MemoryIs(t, i);
    SetGrows(t[i], OFFSET, Dec(Place(i)));
    SetGrows(mem, DELETED, "1");
  }

  /** A record whose names need no cut can be deleted without its tombstone running into the
      next slot exactly when the second sector still has room for the place it was read
      from. A record that just fits when it is added has no such room. */
  lemma TombstoneStorableExactly(t: Table, i: nat)
    requires Sound(t) && i < |t| && NamesFit(t[i])
    ensures Storable(Tombstone(t, i)) <==> TombstoneLength(t, i) <= SECTOR
  {
    hide Clean, Tombstone, Value, SecondText, WithDeleted, NamesReadable, TombstoneLength, Stored;
    TombstoneMap(t, i);
    TombstoneNames(t, i);
    TombstoneLengthIs(t, i);
    FittingNamesStay(Tombstone(t, i));
  }

  lemma TombstoneNames(t: Table, i: nat)
    requires Sound(t) && i < |t|
    ensures Value(Tombstone(t, i), LABEL) == Value(t[i], LABEL)
    ensures Value(Tombstone(t, i), DESCRIPTION) == Value(t[i], DESCRIPTION)
  {
    hide Clean, ToMap, Value, Tombstone;
    TombstoneMap(t, i);
    assert Clean(t[i]);
    CleanIsGood(t[i]);
    CleanIsGood(Tombstone(t, i));
    ValueFromMap(t[i], LABEL);
    ValueFromMap(Tombstone(t, i), LABEL);
    ValueFromMap(t[i], DESCRIPTION);
    ValueFromMap(Tombstone(t, i), DESCRIPTION);
    assert LABEL != OFFSET && LABEL != DELETED && DESCRIPTION != OFFSET && DESCRIPTION != DELETED;
  }

  // ---- Records that are read back ----

  lemma OthersOfNames(title: string, description: string, d: Dict)
    ensures Others(NameFields(title, description) + Others(d)) == Others(d)
  {
    var rest := Others(d);
    var all := NameFields(title, description) + rest;
    assert all[1..] == [Field(DESCRIPTION, description)] + rest && all[1..][1..] == rest;
    OthersIdempotent(d);
  }

  lemma {:induction false} OthersIdempotent(d: Dict)
    ensures Others(Others(d)) == Others(d)
  {
    if d != [] {
      OthersIdempotent(d[1..]);
      if !IsName(d[0].tag) {
        assert Others(d)[1..] == Others(d[1..]);
      }
    }
  }

  /** Reading a record back does not make it longer or shorter. */
  lemma StoredLength(d: Dict)
    ensures SecondText(Stored(d)) == SecondText(WithDeleted(d))
  {
    hide Others, WithDeleted, Value, ShortName, Elements;
    var t, n := Value(d, LABEL), Value(d, DESCRIPTION);
    OthersOfNames(ShortName(t, n), ShortName(n, t), WithDeleted(d));
  }

  // ---- How far a record reaches ----

  /** The characters that are written for a second sector of that length. */
  function Span(length: int): int {
    SECTOR + if length <= SECTOR then SECTOR else (length + SECTOR - 1) / SECTOR * SECTOR
  }

  lemma PaddedLength(text: string, length: nat)
    requires |text| == SECTOR + if length <= SECTOR then SECTOR else length
    ensures |Padded(text)| == Span(length)
  {
  }

  lemma RenderedLengthIs(d: Dict)
    requires Has(d, LABEL) && Has(d, DESCRIPTION)
    ensures var length := |SecondText(WithDeleted(d))|;
            Render(d).Some? && |Render(d).value| == SECTOR + if length <= SECTOR then SECTOR else length
  {
    hide Escape, SecondText, WithDeleted, FirstText, Shown, Value;
    FirstSectorIsOneSector(Escape(Value(d, LABEL)), Escape(Value(d, DESCRIPTION)));
  }

  /** A record can be written exactly when all its blocks are on the device. */
  lemma WritableExactly(dev: Device, i: nat, d: Dict)
    requires Has(d, LABEL) && Has(d, DESCRIPTION)
    ensures WriteRecord(dev, i, d).Some?
            <==> Place(i) + Span(|SecondText(WithDeleted(d))|) <= |dev|
  {
    hide Padded, Render, SecondText, WithDeleted, Span;
    RenderedLengthIs(d);
    PaddedLength(Render(d).value, |SecondText(WithDeleted(d))|);
  }

  lemma MemoryIs(t: Table, i: nat)
    requires i < |t|
    ensures InMemory(t[i], i) == Set(t[i], OFFSET, Dec(Place(i)))
    ensures Value(InMemory(t[i], i), DELETED) == Value(t[i], DELETED)
  {
    assert OFFSET != DELETED;
    OtherTag(t[i], OFFSET, Dec(Place(i)), DELETED);
  }
}
