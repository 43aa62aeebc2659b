/** Inputs at which conditions on the metadata table do not hold, and what then happens;
    LostTables has the runs that end without a table. */
module FailingInputs {
  import opened BlockRanges
  import opened Dicts
  import opened LiveView
  import opened Options
  import opened SlotCodec
  import opened SlotGrowth
  import opened SlotTable
  import opened TableOps
  import opened TableTheorems
  import opened XmlText

  /** The one block from 0 to 512 has no room for 512 bytes at 511. */
  lemma NoRoomInRange(upper: nat, n: nat)
    requires WholeBlocks(512, BlockStart(512, 511), upper, 512, n)
    ensures BlockStart(512, 511) == 0 && upper == 512 < 511 + 512
  {
    RangeHasRoomExactly(512, 511, 512, upper, n);
  }

  // ---- Records with one tag of their own ----

  function Bare(uuid: string): Dict {
    [Field(UUID, uuid), Field(LABEL, "a"), Field(DESCRIPTION, "b")]
  }

  function Own(uuid: string, title: string, mark: string, extra: Field): Dict {
    [Field(UUID, uuid), Field(LABEL, title), Field(DESCRIPTION, "b"), Field(DELETED, mark), extra]
  }

  predicate OwnTag(tag: string) {
    tag !in [UUID, LABEL, DESCRIPTION, DELETED, OFFSET]
  }

  lemma OwnTags(uuid: string, title: string, mark: string, extra: Field)
    requires OwnTag(extra.tag)
    ensures var d := Own(uuid, title, mark, extra);
            && Distinct(d) && Has(d, UUID) && Has(d, LABEL) && Has(d, DESCRIPTION) && Has(d, DELETED)
            && Has(d, extra.tag) && !Has(d, OFFSET) && Value(d, DELETED) == mark && Value(d, LABEL) == title
  {
    var d := Own(uuid, title, mark, extra);
    FixedTagsApart();
    assert d[0].tag == UUID && d[1].tag == LABEL && d[2].tag == DESCRIPTION && d[3].tag == DELETED;
    assert d[4].tag == extra.tag;
    assert Find(d, DELETED) == 3;
    assert Find(d, LABEL) == 1;
  }

  lemma FixedTagsApart()
    ensures UUID !in {LABEL, DESCRIPTION, DELETED, OFFSET} && LABEL !in {DESCRIPTION, DELETED, OFFSET}
    ensures DESCRIPTION !in {DELETED, OFFSET} && DELETED != OFFSET
  {
  }

  lemma OwnIsClean(uuid: string, title: string, mark: string, extra: Field)
    requires OwnTag(extra.tag) && PlainField(extra) && PlainField(Field(UUID, uuid))
    requires (mark == "0" || mark == "1") && Trimmed(title)
    ensures Clean(Own(uuid, title, mark, extra))
  {
    hide PlainField, Has;
    var d := Own(uuid, title, mark, extra);
    OwnTags(uuid, title, mark, extra);
    MarkIsPlain(mark);
    FixedTagsApart();
    forall i | 0 <= i < |d| ensures if IsName(d[i].tag) then Trimmed(d[i].value) else PlainField(d[i]) {
      assert i == 0 || i == 1 || i == 2 || i == 3 || i == 4;
    }
  }

  // ---- A tag that is inherited ----

  const LOCATION := "location"

  function DeadWithLocation(): Dict {
    Own("u", "a", "1", Field(LOCATION, "here"))
  }

  lemma DeadIsClean()
    ensures var d := DeadWithLocation();
            Clean(d) && Has(d, DELETED) && Has(d, UUID) && Dead(d) && LOCATION in ToMap(d)
  {
    hide Own, Clean, Has, Value, ToMap;
    NoMarkupIsPlain("u");
    NoMarkupIsPlain("here");
    assert OwnTag(LOCATION);
    OwnIsClean("u", "a", "1", Field(LOCATION, "here"));
    OwnTags("u", "a", "1", Field(LOCATION, "here"));
    FindIsHas(DeadWithLocation(), LOCATION);
  }

  lemma BareIsGood(uuid: string)
    requires PlainField(Field(UUID, uuid))
    ensures var d := Bare(uuid); Distinct(d) && GoodFields(d) && LOCATION !in ToMap(d)
  {
    hide PlainField;
    var d := Bare(uuid);
    MapKeys(d);
    forall i | 0 <= i < |d| ensures d[i].tag != LOCATION {
      assert |d[i].tag| != 8;
    }
    forall i, j | 0 <= i < j < |d| ensures d[i].tag != d[j].tag {
      assert |d[i].tag| != |d[j].tag|;
    }
  }

  /** A VDI added over a dead one with a location has that location. */
  lemma LocationIsInherited(uuid: string)
    requires PlainField(Field(UUID, uuid))
    ensures var t := [DeadWithLocation()];
            Sound(t) && View(AddRecord(t, Bare(uuid))) != View(Bare(uuid))
  {
    hide Clean, PlainField, Has, Dead, ToMap, DeadWithLocation, Bare, AddRecord, GoodFields;
    var t := [DeadWithLocation()];
    DeadIsClean();
    BareIsGood(uuid);
    assert FirstDead(t) == 0 by { FirstIsDead(t); }
    AddedRecordIsGivenExactly(t, Bare(uuid));
    assert LOCATION !in {OFFSET, DELETED};
  }

  lemma FirstIsDead(t: Table)
    requires t != [] && Dead(t[0])
    ensures FirstDead(t) == 0
  {
  }

  // ---- A name that is cut inside a character ----

  function Repeat(c: char, n: nat): (s: string)
    ensures |s| == n && forall i :: 0 <= i < n ==> s[i] == c
  {
    seq(n, _ => c)
  }

  lemma {:induction false} AmpersandsEscaped(s: string)
    requires forall i :: 0 <= i < |s| ==> s[i] == '&'
    ensures |Escape(s)| == 5 * |s|
  {
    if s != "" {
      AmpersandsEscaped(s[1..]);
    }
  }

  // ---- How long such a record is ----

  lemma OwnLength(uuid: string, title: string, mark: string, extra: Field)
    requires OwnTag(extra.tag)
    ensures |SecondText(Own(uuid, title, mark, extra))| == 43 + |uuid| + |mark| + 2 * |extra.tag| + |extra.value|
  {
    hide Elements, Others, Element;
    var d := Own(uuid, title, mark, extra);
    NoElements();
    FixedTagsApart();
    assert |d| == 5 && d[5..] == [] && d[0..] == d;
    Tail(d, 4);
    Tail(d, 3);
    Tail(d, 2);
    Tail(d, 1);
    Tail(d, 0);
  }

  // ---- Ninety ampersands ----

  function Ampersands(): Dict {
    Own("u", Repeat('&', 90), "0", Field("x", ""))
  }

  lemma AmpersandsAreClean()
    ensures var d := Ampersands();
            Clean(d) && Has(d, DELETED) && |SecondText(d)| <= SECTOR && Value(d, LABEL) == Repeat('&', 90)
  {
    hide Clean, Has, Value, Own, SecondText, PlainField;
    var text, extra := Repeat('&', 90), Field("x", "");
    PlainX();
    assert OwnTag("x");
    OwnIsClean("u", text, "0", extra);
    OwnTags("u", text, "0", extra);
    OwnLength("u", text, "0", extra);
  }

  lemma PlainX()
    ensures PlainField(Field("x", "")) && PlainField(Field(UUID, "u"))
  {
    NoMarkupIsPlain("u");
    NoMarkupIsPlain("");
  }

  lemma AmpersandsAreCut(text: string, other: string)
    requires text == Repeat('&', 90)
    ensures !CutFits(text, other)
  {
    hide Escape;
    AmpersandsEscaped(text);
    var kept := Kept(text, CUT);
    assert kept == text[..|kept|];
    AmpersandsEscaped(kept);
  }

  /** A label of ninety ampersands takes 450 characters when it is escaped, and is cut in
      the middle of the forty-fifth: the slot, and the table, cannot be read. */
  lemma AmpersandsAreUnreadable()
    ensures var d := Ampersands();
            Clean(d) && RestFits(d) && Render(d).Some? && ParseSlot(Render(d).value) == None
  {
    hide Clean, Has, Value, Render, ParseSlot, Own, SecondText, CutFits, Repeat;
    var d := Ampersands();
    AmpersandsAreClean();
    AmpersandsAreCut(Value(d, LABEL), Value(d, DESCRIPTION));
    NamesReadExactly(d);
  }
}
