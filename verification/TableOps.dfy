/** addVdiInternal, updateVdi and deleteVdi as functions: the records they write and
    the images the device goes through, one after each write
    (sm/srmetadata.py:253-337, 430-444, 497-523). */
module TableOps {
  import opened Options
  import opened Dicts
  import opened XmlText
  import opened SlotCodec
  import opened SrHeader
  import opened SlotTable

  /** Whether the operation got through, and the device after each of its writes. */
  datatype Effect = Effect(ok: bool, images: seq<Device>)

  function Last(dev: Device, e: Effect): Device {
    if e.images == [] then dev else e.images[|e.images| - 1]
  }

  // ---- Records ----

  /** What add writes: the first dead slot's record overwritten tag by tag, or the
      new record when there is no dead slot. */
  function AddRecord(t: Table, d: Dict): Dict {
    var marked := Set(d, DELETED, "0");
    var i := FirstDead(t);
    if i < |t| then Merge(InMemory(t[i], i), marked) else marked
  }

  /** What generating a slot leaves in the dictionary it is generated from: the names as they
      are written. */
  function Escaped(d: Dict): Dict {
    var (l, n) := Shown(Escape(Value(d, LABEL)), Escape(Value(d, DESCRIPTION)));
    WithDeleted(Set(Set(d, LABEL, l), DESCRIPTION, n))
  }

  /** What add leaves in the dictionary it is given. */
  function LeftBy(t: Table, d: Dict): Dict {
    var marked := Set(d, DELETED, "0");
    if FirstDead(t) < |t| then marked else Escaped(marked)
  }

  function UpdateRecord(t: Table, i: nat, d: Dict): Dict
    requires i < |t|
  {
    Merge(InMemory(t[i], i), d)
  }

  function Tombstone(t: Table, i: nat): Dict
    requires i < |t|
  {
    UpdateRecord(t, i, Set(InMemory(t[i], i), DELETED, "1"))
  }

  // ---- Images ----

  function WriteRecord(dev: Device, i: nat, d: Dict): Option<Device> {
    match Render(d)
    case None => None
    case Some(text) => if Place(i) + |Padded(text)| <= |dev| then Some(Write(dev, Place(i), text)) else None
  }

  lemma SlotTakesRoom(dev: Device, i: nat, d: Dict)
    requires WriteRecord(dev, i, d).Some?
    ensures Place(i + 1) <= |dev| == |WriteRecord(dev, i, d).value|
  {
    hide Escape, SecondText, WithDeleted, FirstText;
  }

  function AddEffect(dev: Device, t: Table, d: Dict): Effect
    requires SECTOR <= |dev| < MAX_LENGTH && Place(|t|) <= |dev|
  {
    var i := FirstDead(t);
    match WriteRecord(dev, i, AddRecord(t, d))
    case None => Effect(false, [])
    case Some(first) =>
      SlotTakesRoom(dev, i, AddRecord(t, d));
      Effect(true, [first, SetLength(first, if i < |t| then Place(|t|) else Place(|t| + 1))])
  }

  function UpdateEffect(dev: Device, t: Table, d: Dict): Effect {
    var i := FindLive(t, Value(d, UUID));
    if !Has(d, UUID) || i == |t| then Effect(false, [])
    else
      match WriteRecord(dev, i, UpdateRecord(t, i, d))
      case None => Effect(false, [])
      case Some(first) => Effect(true, [first])
  }

  /** Nothing to do, and no error, when the uuid is not there. */
  function DeleteEffect(dev: Device, t: Table, uuid: string): Effect
    requires SECTOR <= |dev| < MAX_LENGTH && Place(|t|) <= |dev|
  {
    var i := FindLive(t, uuid);
    if i == |t| then Effect(true, [])
    else
      match WriteRecord(dev, i, Tombstone(t, i))
      case None => Effect(false, [])
      case Some(first) =>
        if i + 1 == |t| then Effect(true, [first, SetLength(first, Place(i))]) else Effect(true, [first])
  }

  // ---- What the records are ----

  /** Fields that can be written as they are. */
  predicate GoodFields(d: Dict) {
    forall i :: 0 <= i < |d| ==> if IsName(d[i].tag) then Trimmed(d[i].value) else PlainField(d[i])
  }

  lemma OffsetIsPlain(i: nat)
    ensures PlainField(Field(OFFSET, Dec(Place(i)))) && !IsName(OFFSET) && OFFSET != DELETED && OFFSET != UUID
  {
    DecRoundTrip(Place(i));
    NoMarkupIsPlain(Dec(Place(i)));
  }

  lemma MarkIsPlain(mark: string)
    requires mark == "0" || mark == "1"
    ensures PlainField(Field(DELETED, mark)) && !IsName(DELETED) && DELETED != UUID
  {
    NoMarkupIsPlain(mark);
  }

  lemma HasInMap(d: Dict, e: Dict, tag: string)
    requires ToMap(e).Keys >= ToMap(d).Keys && Has(d, tag)
    ensures Has(e, tag)
  {
    FindIsHas(d, tag);
    FindIsHas(e, tag);
  }

  lemma SetClean(d: Dict, tag: string, value: string)
    requires Clean(d) && PlainField(Field(tag, value)) && !IsName(tag)
    ensures Clean(Set(d, tag, value))
    ensures ToMap(Set(d, tag, value)) == ToMap(d)[tag := value]
  {
    hide PlainField, Set;
    var e := Set(d, tag, value);
    SetMap(d, tag, value);
    HasInMap(d, e, LABEL);
    HasInMap(d, e, DESCRIPTION);
    forall i | 0 <= i < |e| ensures if IsName(e[i].tag) then Trimmed(e[i].value) else PlainField(e[i]) {
      SetFields(d, tag, value, e[i]);
    }
  }

  lemma MergeClean(d: Dict, update: Dict)
    requires Clean(d) && GoodFields(update)
    ensures Clean(Merge(d, update))
    ensures ToMap(Merge(d, update)) == ToMap(d) + ToMap(update)
  {
    hide PlainField, Merge;
    var e := Merge(d, update);
    MergeMap(d, update);
    HasInMap(d, e, LABEL);
    HasInMap(d, e, DESCRIPTION);
    forall i | 0 <= i < |e| ensures if IsName(e[i].tag) then Trimmed(e[i].value) else PlainField(e[i]) {
      MergeFields(d, update, e[i]);
    }
  }

  lemma InMemoryClean(d: Dict, i: nat)
    requires Clean(d)
    ensures Clean(InMemory(d, i)) && ToMap(InMemory(d, i)) == ToMap(d)[OFFSET := Dec(Place(i))]
  {
    OffsetIsPlain(i);
    SetClean(d, OFFSET, Dec(Place(i)));
  }

  lemma {:induction false} SetGood(d: Dict, tag: string, value: string)
    requires GoodFields(d) && PlainField(Field(tag, value)) && !IsName(tag)
    ensures GoodFields(Set(d, tag, value))
  {
    hide PlainField, Set;
    var e := Set(d, tag, value);
    forall i | 0 <= i < |e| ensures if IsName(e[i].tag) then Trimmed(e[i].value) else PlainField(e[i]) {
      SetFields(d, tag, value, e[i]);
    }
  }

  lemma ValueFromMap(d: Dict, tag: string)
    requires Distinct(d)
    ensures tag in ToMap(d) <==> Has(d, tag)
    ensures Value(d, tag) == if tag in ToMap(d) then ToMap(d)[tag] else ""
  {
    FindIsHas(d, tag);
    if Has(d, tag) {
      ValueIsMap(d, tag);
    }
  }

  /** What add writes, as a map: the new record over what the dead one had. */
  lemma AddRecordMap(t: Table, d: Dict)
    requires Sound(t) && Distinct(d) && GoodFields(d)
    ensures var i := FirstDead(t);
            var added := ToMap(d)[DELETED := "0"];
            ToMap(AddRecord(t, d)) == if i < |t| then ToMap(t[i])[OFFSET := Dec(Place(i))] + added else added
    ensures FirstDead(t) < |t| ==> Clean(AddRecord(t, d))
  {
    hide PlainField, Merge, Set, ToMap;
    MarkIsPlain("0");
    SetMap(d, DELETED, "0");
    SetGood(d, DELETED, "0");
    var i := FirstDead(t);
    if i < |t| {
      InMemoryClean(t[i], i);
      MergeClean(InMemory(t[i], i), Set(d, DELETED, "0"));
    }
  }

  lemma UpdateRecordMap(t: Table, i: nat, d: Dict)
    requires Sound(t) && GoodFields(d) && i < |t|
    ensures ToMap(UpdateRecord(t, i, d)) == ToMap(t[i])[OFFSET := Dec(Place(i))] + ToMap(d)
    ensures Clean(UpdateRecord(t, i, d))
  {
    hide PlainField, Merge, Set, ToMap;
    InMemoryClean(t[i], i);
    MergeClean(InMemory(t[i], i), d);
  }

  lemma CleanIsGood(d: Dict)
    requires Clean(d)
    ensures GoodFields(d) && Distinct(d)
  {
  }

  lemma TombstoneMap(t: Table, i: nat)
    requires Sound(t) && i < |t|
    ensures ToMap(Tombstone(t, i)) == ToMap(t[i])[OFFSET := Dec(Place(i))][DELETED := "1"]
    ensures Clean(Tombstone(t, i)) && Dead(Tombstone(t, i)) && Has(Tombstone(t, i), DELETED)
  {
    hide PlainField, Merge, Set, ToMap, Value, Clean;
    MarkIsPlain("1");
    assert Clean(t[i]);
    InMemoryClean(t[i], i);
    var mem := InMemory(t[i], i);
    SetClean(mem, DELETED, "1");
    CleanIsGood(Set(mem, DELETED, "1"));
    UpdateRecordMap(t, i, Set(mem, DELETED, "1"));
    assert ToMap(t[i])[OFFSET := Dec(Place(i))] + ToMap(Set(mem, DELETED, "1"))
        == ToMap(t[i])[OFFSET := Dec(Place(i))][DELETED := "1"];
    CleanIsGood(Tombstone(t, i));
    ValueFromMap(Tombstone(t, i), DELETED);
  }

  // ---- What the images read as ----

  /** One record written over a slot of the table. */
  lemma RecordReads(dev: Device, t: Table, i: nat, d: Dict)
    requires ReadsAs(dev, t) && i < |t| && Storable(d)
    ensures WriteRecord(dev, i, d).Some?
    ensures ReadsAs(WriteRecord(dev, i, d).value, t[i := Stored(d)])
    ensures OtherSlotsKept(dev, WriteRecord(dev, i, d).value, |t|, i)
  {
    hide Storable, Render, ParseSlot, Write, Stored;
    RoundTrip(d);
    assert Padded(Render(d).value) == Render(d).value;
    SlotWriteReads(dev, t, i, Render(d).value, Stored(d));
  }

  /** One record written behind the table. */
  lemma RecordBehindReads(dev: Device, t: Table, d: Dict)
    requires ReadsAs(dev, t) && Storable(d) && Place(|t| + 1) <= |dev|
    ensures WriteRecord(dev, |t|, d).Some?
    ensures var w := WriteRecord(dev, |t|, d).value;
            && ReadsAs(w, t) && |w| == |dev| && OtherSlotsKept(dev, w, |t|, |t|)
            && ParseSlot(SlotText(w, |t|)) == Some(Stored(d))
  {
    hide Storable, Render, ParseSlot, Write, Stored, ReadsAs, OtherSlotsKept;
    RoundTrip(d);
    assert Padded(Render(d).value) == Render(d).value;
    SlotBehindReads(dev, t, Render(d).value, Stored(d));
    WriteIsLocal(dev, Place(|t|), Render(d).value);
  }

  /** Whatever is written over the last slot, the table in front of it stays. */
  lemma CutOffReads(dev: Device, t: Table, d: Dict)
    requires ReadsAs(dev, t) && t != [] && WriteRecord(dev, |t| - 1, d).Some?
    ensures var w := WriteRecord(dev, |t| - 1, d).value;
            && |w| == |dev| < MAX_LENGTH && OtherSlotsKept(dev, w, |t|, |t| - 1)
            && ReadsAs(SetLength(w, Place(|t| - 1)), t[..|t| - 1])
  {
    hide Render, Write, ParseSlot, LengthOf, SetLength, Padded;
    var n := |t| - 1;
    var text := Render(d).value;
    WriteIsLocal(dev, Place(n), text);
    var w := WriteRecord(dev, n, d).value;
    LengthReads(w, Place(n));
    var v := SetLength(w, Place(n));
    SlotTakesRoom(dev, n, d);
    forall j | 0 <= j < n ensures ParseSlot(SlotText(v, j)) == Some(t[..n][j]) {
      assert ParseSlot(SlotText(dev, j)) == Some(t[j]);
      assert SlotText(v, j) == SlotText(w, j) == SlotText(dev, j);
    }
  }
}
