/** A slot is 1024 characters. What a reader makes of a record that needs more: the text
    is cut inside an element or inside the closing tag, and nothing can be read
    (sm/srmetadata.py:380-391, 529-584; sm/metadata.py:48-80). */
module SlotCuts {
  import opened Options
  import opened Dicts
  import opened XmlText
  import opened SlotCodec

  /** A run of elements that is cut anywhere, its closing tag included, cannot be read. */
  lemma {:induction false} CutElementsFail(fs: Dict, n: nat, got: Dict)
    requires n < |Elements(fs) + CloseTag(VDI)|
    requires forall i :: 0 <= i < |fs| ==> PlainField(fs[i])
    ensures ParseElements((Elements(fs) + CloseTag(VDI))[..n], VDI, got) == None
    decreases |fs|
  {
    hide ParseElements, Element, PlainField, CloseTag, Set;
    if fs == [] {
      CutCloseFails(n, got);
      assert Elements(fs) + CloseTag(VDI) == CloseTag(VDI);
    } else {
      var f := fs[0];
      var e := Element(f.tag, f.value);
      var after := Elements(fs[1..]) + CloseTag(VDI);
      var s := Elements(fs) + CloseTag(VDI);
      assert s == e + after;
      if n < |e| {
        CutElementFails(f, n, got);
        assert s[..n] == e[..n];
      } else {
        var rest := after[..n - |e|];
        assert s[..n] == e + rest;
        FirstPlainElement(f, rest, got);
        assert forall i :: 0 <= i < |fs[1..]| ==> fs[1..][i] == fs[i + 1];
        CutElementsFail(fs[1..], n - |e|, Set(got, f.tag, f.value));
      }
    }
  }

  lemma CutCloseFails(n: nat, got: Dict)
    requires n < |CloseTag(VDI)|
    ensures ParseElements(CloseTag(VDI)[..n], VDI, got) == None
  {
    hide Set;
    var r := CloseTag(VDI)[..n];
    assert CloseTag(VDI) == "</vdi>";
    if n > 0 {
      assert r[0] == '<';
      assert '>' !in r[1..];
      UntilAll(r[1..], '>');
    }
  }

  lemma CutElementFails(f: Field, n: nat, got: Dict)
    requires PlainField(f) && n < |Element(f.tag, f.value)|
    ensures ParseElements(Element(f.tag, f.value)[..n], VDI, got) == None
  {
    hide Element, Set, PlainField, ParseElement;
    var r := Element(f.tag, f.value)[..n];
    CutElementStart(f, n);
    CutElementIsNone(f, n);
  }

  lemma CutElementStart(f: Field, n: nat)
    requires PlainField(f) && n < |Element(f.tag, f.value)|
    ensures var r := Element(f.tag, f.value)[..n]; SkipBlanks(r) == r && !(CloseTag(VDI) <= r)
  {
    var e := Element(f.tag, f.value);
    assert e[0] == '<' && e[1] == f.tag[0];
    assert CloseTag(VDI)[1] == '/';
  }

  lemma CutElementIsNone(f: Field, n: nat)
    requires PlainField(f) && n < |Element(f.tag, f.value)|
    ensures ParseElement(Element(f.tag, f.value)[..n]) == None
  {
    hide ReadText, TagName, PlainText, Trimmed;
    var tag, text := f.tag, f.value;
    var e := Element(tag, text);
    var r := e[..n];
    TagNameHasNoEnd(tag);
    PlainHasNoMarkup(text);
    if 0 < n <= |tag| + 1 {
      assert r[1..] == tag[..n - 1];
      UntilAll(r[1..], '>');
    } else if n > 0 {
      var m := n - |tag| - 2;
      var back := (text + CloseTag(tag))[..m];
      assert e == Open(tag) + (text + CloseTag(tag));
      assert r[1..] == tag + ['>'] + back;
      hide Element, CloseTag, Until, Open;
      UntilFinds(tag, '>', back);
      assert (['>'] + back)[1..] == back;
      CutBehindText(tag, text, m);
    }
  }

  lemma CutBehindText(tag: string, text: string, m: nat)
    requires '<' !in text && m < |text + CloseTag(tag)|
    ensures !(CloseTag(tag) <= Until((text + CloseTag(tag))[..m], '<').1)
  {
    var back := (text + CloseTag(tag))[..m];
    if m <= |text| {
      assert back == text[..m];
      UntilAll(back, '<');
    } else {
      var k := m - |text|;
      assert back == text + ['<'] + CloseTag(tag)[1..k];
      UntilFinds(text, '<', CloseTag(tag)[1..k]);
      assert |['<'] + CloseTag(tag)[1..k]| == k < |CloseTag(tag)|;
    }
  }

  lemma PlainHasNoMarkup(s: string)
    requires PlainText(s)
    ensures '<' !in s
  {
  }

  /** What a reader of the slot gets, for every record: the record with what is left of
      its names, or nothing when a name is cut inside a character or the rest is cut. */
  lemma SlotReadsExactly(d: Dict)
    requires Clean(d)
    ensures Render(d).Some? && |Render(d).value| >= SLOT
    ensures ParseSlot(Render(d).value[..SLOT]) == if Storable(d) then Some(Stored(d)) else None
  {
    hide Clean, RestFits, NamesReadable, Render, ParseSlot, Stored;
    CleanNames(d);
    SlotLengthExactly(d);
    if RestFits(d) {
      NamesReadExactly(d);
      assert Render(d).value[..SLOT] == Render(d).value;
    } else {
      CutSlotFails(d);
    }
  }

  lemma CutSlotFails(d: Dict)
    requires Clean(d) && !RestFits(d) && Render(d).Some? && |Render(d).value| >= SLOT
    ensures ParseSlot(Render(d).value[..SLOT]) == None
  {
    hide Escape, ReadText, PlainField, ParseSlot, ParseElements, Others, WithDeleted, Elements, CloseTag, Find,
         FirstText, Clean;
    var w := WithDeleted(d);
    var (st, sn) := Shown(Escape(Value(d, LABEL)), Escape(Value(d, DESCRIPTION)));
    ShownHaveNoMarkup(Value(d, LABEL), Value(d, DESCRIPTION));
    FirstSectorIsOneSector(Escape(Value(d, LABEL)), Escape(Value(d, DESCRIPTION)));
    var second := SecondText(w);
    assert GetSector(second) == second;
    assert Render(d).value[..SLOT] == GetSector(FirstText(st, sn)) + second[..SECTOR];
    FirstSectorParses(st, sn, second[..SECTOR]);
    OthersReadable(d);
    if ReadText(st).Some? && ReadText(sn).Some? {
      CutElementsFail(Others(w), SECTOR, NameFields(ReadText(st).value, ReadText(sn).value));
    }
  }

  lemma ShownHaveNoMarkup(title: string, description: string)
    ensures var (l, n) := Shown(Escape(title), Escape(description)); '<' !in l && '<' !in n
  {
    hide Escape;
    EscapedHasNoMarkup(title);
    EscapedHasNoMarkup(description);
  }
}
