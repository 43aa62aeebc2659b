/** A VDI slot of the metadata volume: the two sectors LVMMetadataHandler.getVdiInfo
    generates for a record, and the reader that gets the record back
    (sm/srmetadata.py:52-60, 529-584; sm/metadata.py:48-80). Characters are single bytes. */
module SlotCodec {
  import opened Options
  import opened Dicts
  import opened XmlText

  const SECTOR := 512
  const SLOT := 1024          // VDI_INFO_SIZE_IN_SECTORS sectors
  const NAME_LIMIT := 445     // MAX_VDI_NAME_LABEL_DESC_LENGTH
  const CUT := NAME_LIMIT / 2
  const LABEL := "name_label"
  const DESCRIPTION := "name_description"
  const VDI := "vdi"
  const DELETED := "deleted"

  function Spaces(n: nat): (s: string)
    ensures |s| == n && AllBlank(s)
  {
    seq(n, i => ' ')
  }

  /** "%-512s" % s: padded when shorter, never cut. */
  function GetSector(s: string): (r: string)
    ensures s <= r
  {
    if |s| < SECTOR then s + Spaces(SECTOR - |s|) else s
  }

  // ---- The first sector ----

  /** What is left of a name that is too long, for single-byte characters. */
  function Cut(s: string): string {
    if |s| > CUT then s[..CUT] else s
  }

  /** The names as they are written, from the escaped ones. */
  function Shown(title: string, description: string): (string, string) {
    if |title| + |description| > NAME_LIMIT then (Cut(title), Cut(description)) else (title, description)
  }

  /** VDI_SECTOR_1 % (title, description) */
  function FirstText(title: string, description: string): string {
    Open(VDI) + Element(LABEL, title) + Element(DESCRIPTION, description)
  }

  lemma BeforeNames()
    ensures Open(VDI) + Open(LABEL) == "<vdi><name_label>"
  {
    assert Open(VDI) == "<vdi>";
    assert Open(LABEL) == "<name_label>";
  }

  lemma BetweenNames()
    ensures CloseTag(LABEL) + Open(DESCRIPTION) == "</name_label><name_description>"
  {
    assert CloseTag(LABEL) == "</name_label>";
    assert Open(DESCRIPTION) == "<name_description>";
  }

  lemma BehindNames()
    ensures CloseTag(DESCRIPTION) == "</name_description>"
  {
  }

  /** The first sector, character by character. */
  lemma FirstSectorText(title: string, description: string)
    ensures FirstText(title, description)
            == ("<vdi><name_label>" + title) + ("</name_label><name_description>" + description)
               + "</name_description>"
  {
    hide Open, CloseTag;
    BeforeNames();
    BetweenNames();
    BehindNames();
    Regroup(Open(VDI), Open(LABEL), title, CloseTag(LABEL), Open(DESCRIPTION), description, CloseTag(DESCRIPTION));
  }

  lemma Regroup(a: string, b: string, c: string, d: string, e: string, f: string, g: string)
    ensures a + (b + c + d) + (e + f + g) == ((a + b) + c) + ((d + e) + f) + g
  {
  }

  /** However long the names, the first sector is exactly one sector. */
  lemma FirstSectorIsOneSector(title: string, description: string)
    ensures var (l, d) := Shown(title, description);
            |l| + |d| <= NAME_LIMIT && |FirstText(l, d)| <= SECTOR && |GetSector(FirstText(l, d))| == SECTOR
  {
    var (l, d) := Shown(title, description);
    assert |FirstText(l, d)| == 67 + |l| + |d|;
  }

  // ---- The second sector ----

  predicate IsName(tag: string) {
    tag == LABEL || tag == DESCRIPTION
  }

  function Others(d: Dict): Dict {
    if d == [] then []
    else if IsName(d[0].tag) then Others(d[1..])
    else [d[0]] + Others(d[1..])
  }

  function Elements(d: Dict): string {
    if d == [] then "" else Element(d[0].tag, d[0].value) + Elements(d[1..])
  }

  function SecondText(d: Dict): string {
    Elements(Others(d)) + CloseTag(VDI)
  }

  function WithDeleted(d: Dict): Dict {
    if Has(d, DELETED) then d else d + [Field(DELETED, "0")]
  }

  /** getVdiInfo(d): both sectors; None is the KeyError for a missing name. */
  function Render(d: Dict): Option<string> {
    if !Has(d, LABEL) || !Has(d, DESCRIPTION) then None
    else
      var (l, n) := Shown(Escape(Value(d, LABEL)), Escape(Value(d, DESCRIPTION)));
      Some(GetSector(FirstText(l, n)) + GetSector(SecondText(WithDeleted(d))))
  }

  // ---- The reader ----

  /** The record, when nothing but blanks follows its closing tag. */
  function Closed(parsed: Option<(Dict, string)>): Option<Dict> {
    match parsed
    case None => None
    case Some((d, rest)) => if SkipBlanks(rest) == "" then Some(d) else None
  }

  function ParseSlot(s: string): Option<Dict> {
    var r := SkipBlanks(s);
    if !(Open(VDI) <= r) then None else Closed(ParseElements(r[|VDI| + 2..], VDI, []))
  }

  // ---- Round trip ----

  /** A field that is written as it is and reads back as it is. */
  predicate PlainField(f: Field) {
    TagName(f.tag) && PlainText(f.value) && Trimmed(f.value)
  }

  ghost predicate Clean(d: Dict) {
    && Distinct(d)
    && Has(d, LABEL) && Has(d, DESCRIPTION)
    && forall i :: 0 <= i < |d| ==> if IsName(d[i].tag) then Trimmed(d[i].value) else PlainField(d[i])
  }

  /** Both names, escaped, have room in the first sector. */
  predicate NamesFit(d: Dict) {
    |FirstText(Escape(Value(d, LABEL)), Escape(Value(d, DESCRIPTION)))| <= SECTOR
  }

  /** The limit on names is the room in the first sector: they are cut exactly when they do
      not fit it. */
  lemma LimitIsRoom(title: string, description: string)
    ensures TooLong(title, description) <==> |FirstText(Escape(title), Escape(description))| > SECTOR
  {
    hide Escape;
    FirstLength(Escape(title), Escape(description));
  }

  lemma FirstLength(title: string, description: string)
    ensures |FirstText(title, description)| == |FirstText("", "")| + |title| + |description|
    ensures |FirstText("", "")| == SECTOR - NAME_LIMIT
  {
  }

  /** Names that fit the first sector are written whole; of names that do not, each is
      written up to half of the room. */
  lemma NamesWrittenExactly(title: string, description: string)
    ensures var (l, n) := Shown(title, description);
            var room := SECTOR - |FirstText("", "")|;
            && l <= title && n <= description
            && if |FirstText(title, description)| <= SECTOR then l == title && n == description
               else
                 && |l| == (if |title| <= room / 2 then |title| else room / 2)
                 && |n| == (if |description| <= room / 2 then |description| else room / 2)
  {
    FirstLength(title, description);
  }

  predicate TooLong(title: string, description: string) {
    |Escape(title)| + |Escape(description)| > NAME_LIMIT
  }

  /** As many characters of a name as fit when they are escaped. */
  function Kept(text: string, limit: nat): (r: string)
    ensures r <= text && |Escape(r)| <= limit
    ensures |r| < |text| ==> |Escape(text[..|r| + 1])| > limit
  {
    if |Escape(text)| <= limit then text
    else
      var front := text[..|text| - 1];
      var r := Kept(front, limit);
      assert |r| < |front| ==> front[..|r| + 1] == text[..|r| + 1];
      assert text[..|text|] == text;
      r
  }

  /** What is read back of a name that is written next to another. */
  function ShortName(text: string, other: string): string {
    if TooLong(text, other) then Strip(Kept(text, CUT)) else text
  }

  /** A name is not cut, or cut between two characters. */
  predicate CutFits(text: string, other: string) {
    TooLong(text, other) ==> |Escape(Kept(text, CUT))| == |Cut(Escape(text))|
  }

  predicate NamesReadable(d: Dict) {
    CutFits(Value(d, LABEL), Value(d, DESCRIPTION)) && CutFits(Value(d, DESCRIPTION), Value(d, LABEL))
  }

  predicate RestFits(d: Dict) {
    |SecondText(WithDeleted(d))| <= SECTOR
  }

  /** A record that survives being written. */
  ghost predicate Storable(d: Dict) {
    Clean(d) && NamesReadable(d) && RestFits(d)
  }

  function NameFields(title: string, description: string): Dict {
    [Field(LABEL, title), Field(DESCRIPTION, description)]
  }

  /** The record in the order in which it is read back. */
  function Canon(d: Dict): Dict {
    [Field(LABEL, Value(d, LABEL)), Field(DESCRIPTION, Value(d, DESCRIPTION))] + Others(WithDeleted(d))
  }

  /** The record as it is read back: with the names that are left. */
  function Stored(d: Dict): Dict {
    NameFields(ShortName(Value(d, LABEL), Value(d, DESCRIPTION)), ShortName(Value(d, DESCRIPTION), Value(d, LABEL)))
    + Others(WithDeleted(d))
  }

  /** A slot is one slot long exactly when the second sector holds its text;
      otherwise writing it runs into the next slot. */
  lemma SlotLengthExactly(d: Dict)
    requires Has(d, LABEL) && Has(d, DESCRIPTION)
    ensures Render(d).Some? && |Render(d).value| >= SLOT
    ensures |Render(d).value| == SLOT <==> RestFits(d)
  {
    FindIsHas(d, LABEL);
    FindIsHas(d, DESCRIPTION);
    hide FirstText, Shown, Escape;
    FirstSectorIsOneSector(Escape(Value(d, LABEL)), Escape(Value(d, DESCRIPTION)));
  }

  lemma ElementHead(tag: string, text: string, rest: string)
    requires TagName(tag)
    ensures var s := Element(tag, text) + rest;
            s != "" && SkipBlanks(s) == s && !(CloseTag(VDI) <= s) && |s| > |rest|
  {
    var s := Element(tag, text) + rest;
    assert s[0] == '<' && s[1] == tag[0];
    assert CloseTag(VDI)[1] == '/';
  }

  /** A run of plain elements is read back in order, one field each. */
  lemma {:induction false} ElementsParse(fs: Dict, rest: string, got: Dict)
    requires Distinct(got + fs)
    requires forall i :: 0 <= i < |fs| ==> PlainField(fs[i])
    ensures ParseElements(Elements(fs) + CloseTag(VDI) + rest, VDI, got) == Some((got + fs, rest))
    decreases |fs|
  {
    hide ParseElements, Element, Distinct, PlainField, CloseTag, Set;
    if fs == [] {
      NoMoreElements(rest, got);
      assert got + fs == got;
    } else {
      var f := fs[0];
      var after := Elements(fs[1..]) + CloseTag(VDI) + rest;
      assert Elements(fs) + CloseTag(VDI) + rest == Element(f.tag, f.value) + after;
      FirstPlainElement(f, after, got);
      SetNew(got, f, fs);
      assert forall i :: 0 <= i < |fs[1..]| ==> fs[1..][i] == fs[i + 1];
      ElementsParse(fs[1..], rest, got + [f]);
      assert got + [f] + fs[1..] == got + fs;
    }
  }

  lemma NoMoreElements(rest: string, got: Dict)
    ensures ParseElements(Elements([]) + CloseTag(VDI) + rest, VDI, got) == Some((got, rest))
  {
    var s := Elements([]) + CloseTag(VDI) + rest;
    assert s == CloseTag(VDI) + rest;
    assert s[0] == '<' && SkipBlanks(s) == s;
    assert s[..|VDI| + 3] == CloseTag(VDI) && CloseTag(VDI) <= s;
    assert s[|VDI| + 3..] == rest;
  }

  lemma FirstPlainElement(f: Field, after: string, got: Dict)
    requires PlainField(f)
    ensures ParseElements(Element(f.tag, f.value) + after, VDI, got)
            == ParseElements(after, VDI, Set(got, f.tag, f.value))
  {
    hide Element, Unescape, ReadText, Strip, TagName, Trimmed, Set, ParseElements;
    PlainMeansItself(f.value);
    TrimmedReads(f.value, f.value);
    FirstElement(f.tag, f.value, after, got);
  }

  /** Reading goes on behind an element exactly when its text makes sense. */
  lemma FirstElement(tag: string, text: string, after: string, got: Dict)
    requires TagName(tag) && '<' !in text
    ensures ParseElements(Element(tag, text) + after, VDI, got)
            == match ReadText(text)
               case Some(value) => ParseElements(after, VDI, Set(got, tag, value))
               case None => None
  {
    hide Element, ReadText, TagName, Set;
    ElementHead(tag, text, after);
    ElementParses(tag, text, after);
  }

  lemma SetNew(got: Dict, f: Field, fs: Dict)
    requires fs != [] && fs[0] == f && Distinct(got + fs)
    ensures Set(got, f.tag, f.value) == got + [f]
    ensures Distinct(got + [f] + fs[1..])
  {
    assert got + [f] + fs[1..] == got + fs;
    forall i | 0 <= i < |got| ensures got[i].tag != f.tag {
      assert (got + fs)[i] == got[i] && (got + fs)[|got|] == f;
    }
  }

  lemma PaddingIsSkipped(pad: string, s: string, got: Dict)
    requires AllBlank(pad)
    ensures ParseElements(pad + s, VDI, got) == ParseElements(s, VDI, got)
  {
    SkipPadding(pad, s);
  }

  function TwoSectors(title: string, description: string, others: Dict): string {
    GetSector(FirstText(title, description)) + GetSector(Elements(others) + CloseTag(VDI))
  }

  /** What the reader makes of the first sector, whatever is behind it. */
  lemma FirstSectorParses(title: string, description: string, second: string)
    requires '<' !in title && '<' !in description
    ensures ParseSlot(GetSector(FirstText(title, description)) + second)
            == match ReadText(title)
               case None => None
               case Some(t) => match ReadText(description)
                 case None => None
                 case Some(d) => Closed(ParseElements(second, VDI, NameFields(t, d)))
  {
    hide Element, ReadText, ParseElements, CloseTag, Set, FirstText, GetSector, SkipBlanks;
    var first := FirstText(title, description);
    var pad := GetSector(first)[|first|..];
    var r2 := pad + second;
    var r1 := Element(DESCRIPTION, description) + r2;
    var r0 := Element(LABEL, title) + r1;
    FirstSectorShape(title, description, second, r0);
    FirstElement(LABEL, title, r1, []);
    if ReadText(title).Some? {
      var t := ReadText(title).value;
      FirstElement(DESCRIPTION, description, r2, Set([], LABEL, t));
      if ReadText(description).Some? {
        NamesSet(t, ReadText(description).value);
        PaddingIsSkipped(pad, second, NameFields(t, ReadText(description).value));
      }
    }
  }

  /** What the reader makes of two generated sectors. */
  lemma TwoSectorsParse(title: string, description: string, others: Dict)
    requires '<' !in title && '<' !in description
    requires Distinct(NameFields("", "") + others)
    requires forall i :: 0 <= i < |others| ==> PlainField(others[i])
    ensures ParseSlot(TwoSectors(title, description, others))
            == match ReadText(title)
               case None => None
               case Some(t) => match ReadText(description)
                 case None => None
                 case Some(d) => Some(NameFields(t, d) + others)
  {
    hide ReadText, PlainField, ParseElements, Distinct, Elements, CloseTag, FirstText, SkipBlanks, ParseSlot;
    var last := Elements(others) + CloseTag(VDI);
    var pad := GetSector(last)[|last|..];
    FirstSectorParses(title, description, GetSector(last));
    if ReadText(title).Some? && ReadText(description).Some? {
      var t, d := ReadText(title).value, ReadText(description).value;
      SameTags(NameFields("", "") + others, NameFields(t, d) + others);
      ElementsParse(others, pad, NameFields(t, d));
      assert GetSector(last) == last + pad;
      SectorPadding(last);
      BlankRest(pad);
    }
  }

  lemma SectorPadding(s: string)
    ensures AllBlank(GetSector(s)[|s|..])
  {
  }

  lemma BlankRest(pad: string)
    requires AllBlank(pad)
    ensures SkipBlanks(pad) == ""
  {
    SkipPadding(pad, "");
    assert pad + "" == pad;
  }

  lemma NamesSet(t: string, d: string)
    ensures Set(Set([], LABEL, t), DESCRIPTION, d) == NameFields(t, d)
  {
    assert Set([], LABEL, t) == [Field(LABEL, t)];
    assert LABEL != DESCRIPTION;
  }

  lemma SameTags(a: Dict, b: Dict)
    requires Distinct(a) && |a| == |b| && forall i :: 0 <= i < |a| ==> a[i].tag == b[i].tag
    ensures Distinct(b)
  {
  }

  lemma FirstSectorShape(title: string, description: string, second: string, r0: string)
    requires var first := FirstText(title, description);
             r0 == Element(LABEL, title) + (Element(DESCRIPTION, description)
                   + (GetSector(first)[|first|..] + second))
    ensures var s := GetSector(FirstText(title, description)) + second;
            SkipBlanks(s) == s && Open(VDI) <= s && s[|VDI| + 2..] == r0
    ensures AllBlank(GetSector(FirstText(title, description))[|FirstText(title, description)|..])
  {
    hide Element;
    var first := FirstText(title, description);
    assert GetSector(first) == first + GetSector(first)[|first|..];
    assert GetSector(first) + second == Open(VDI) + r0;
  }

  // ---- Records ----

  lemma {:induction false} OthersMembers(d: Dict)
    ensures forall f :: f in Others(d) <==> f in d && !IsName(f.tag)
  {
    if d != [] {
      OthersMembers(d[1..]);
      assert d == [d[0]] + d[1..];
    }
  }

  lemma {:induction false} OthersDistinct(d: Dict)
    requires Distinct(d)
    ensures Distinct(Others(d))
  {
    if d != [] {
      OthersDistinct(d[1..]);
      OthersMembers(d[1..]);
      if !IsName(d[0].tag) {
        var o := Others(d[1..]);
        forall j | 0 <= j < |o| ensures o[j].tag != d[0].tag {
          assert o[j] in d[1..];
          var i :| 0 <= i < |d[1..]| && d[1..][i] == o[j];
          assert d[i + 1] == o[j];
        }
      }
    }
  }

  lemma WithDeletedClean(d: Dict)
    requires Clean(d)
    ensures Clean(WithDeleted(d)) && Has(WithDeleted(d), DELETED)
    ensures ToMap(WithDeleted(d)) == if Has(d, DELETED) then ToMap(d) else ToMap(d)[DELETED := "0"]
    ensures Find(WithDeleted(d), LABEL) == Find(d, LABEL) < |d|
    ensures Find(WithDeleted(d), DESCRIPTION) == Find(d, DESCRIPTION) < |d|
  {
    FindIsHas(d, LABEL);
    FindIsHas(d, DESCRIPTION);
    if !Has(d, DELETED) {
      hide ToMap, PlainField, Find;
      var f := Field(DELETED, "0");
      DeletedIsPlain();
      AppendedMap(d, f);
      FindFront(d, f, LABEL);
      FindFront(d, f, DESCRIPTION);
      AppendedClean(d, f);
    }
  }

  lemma DeletedIsPlain()
    ensures PlainField(Field(DELETED, "0")) && !IsName(DELETED)
  {
  }

  lemma AppendedMap(d: Dict, f: Field)
    ensures ToMap(d + [f]) == ToMap(d)[f.tag := f.value]
  {
    assert (d + [f])[..|d|] == d;
  }

  lemma AppendedClean(d: Dict, f: Field)
    requires Clean(d) && PlainField(f) && !IsName(f.tag) && !Has(d, f.tag)
    ensures Clean(d + [f]) && Has(d + [f], f.tag)
  {
    hide PlainField;
    var w := d + [f];
    assert w[|d|].tag == f.tag;
    var i :| 0 <= i < |d| && d[i].tag == LABEL;
    var j :| 0 <= j < |d| && d[j].tag == DESCRIPTION;
    assert w[i].tag == LABEL && w[j].tag == DESCRIPTION;
    forall k | 0 <= k < |d| ensures d[k].tag != f.tag {
    }
  }

  lemma {:induction false} FindFront(d: Dict, f: Field, tag: string)
    requires Find(d, tag) < |d|
    ensures Find(d + [f], tag) == Find(d, tag)
  {
    if d[0].tag != tag {
      assert (d + [f])[1..] == d[1..] + [f];
      FindFront(d[1..], f, tag);
    }
  }

  /** The fields written behind the names can all be read back. */
  lemma OthersReadable(d: Dict)
    requires Clean(d)
    ensures var fs := Others(WithDeleted(d));
            && (forall i :: 0 <= i < |fs| ==> PlainField(fs[i]))
            && Distinct(NameFields("", "") + fs)
  {
    hide PlainField, WithDeleted, Others;
    var w := WithDeleted(d);
    WithDeletedClean(d);
    var fs := Others(w);
    OthersMembers(w);
    OthersDistinct(w);
    forall i | 0 <= i < |fs| ensures PlainField(fs[i]) && !IsName(fs[i].tag) {
      assert fs[i] in w;
    }
    NamesInFront(fs);
  }

  lemma NamesInFront(fs: Dict)
    requires Distinct(fs) && forall i :: 0 <= i < |fs| ==> !IsName(fs[i].tag)
    ensures Distinct(NameFields("", "") + fs)
  {
    var all := NameFields("", "") + fs;
    assert LABEL != DESCRIPTION;
    forall i, j | 0 <= i < j < |all| ensures all[i].tag != all[j].tag {
      if j >= 2 {
        assert all[j] == fs[j - 2];
      }
      if i >= 2 {
        assert all[i] == fs[i - 2];
      }
    }
  }

  lemma NamesTrimmed(d: Dict)
    requires Clean(d)
    ensures Find(d, LABEL) < |d| && Trimmed(Value(d, LABEL))
    ensures Find(d, DESCRIPTION) < |d| && Trimmed(Value(d, DESCRIPTION))
  {
    FindIsHas(d, LABEL);
    FindIsHas(d, DESCRIPTION);
  }

  // ---- Names that are cut ----

  lemma EscapeGrows(text: string, j: nat, k: nat)
    requires j < k <= |text|
    ensures |Escape(text[..j])| < |Escape(text[..k])|
  {
    assert text[..k] == text[..j] + text[j..k];
    EscapeOfConcat(text[..j], text[j..k]);
    assert text[j..k] != "";
  }

  /** A cut between characters is the one that keeps as many as fit. */
  lemma KeptIs(text: string, limit: nat, k: nat)
    requires k <= |text| && |Escape(text[..k])| == if limit < |Escape(text)| then limit else |Escape(text)|
    ensures Kept(text, limit) == text[..k]
  {
    hide Escape;
    var j := |Kept(text, limit)|;
    assert Kept(text, limit) == text[..j];
    assert text[..|text|] == text;
    if k < j {
      EscapeGrows(text, k, j);
    } else if j + 1 < k {
      EscapeGrows(text, j + 1, k);
    }
  }

  /** What is written of a name can be read exactly when it is not cut inside a
      character, and is then what is left of the name. */
  lemma ShownReads(text: string, other: string)
    requires Trimmed(text)
    ensures var e := Escape(text);
            var shown := if TooLong(text, other) then Cut(e) else e;
            && '<' !in shown
            && (ReadText(shown).Some? <==> CutFits(text, other))
            && (CutFits(text, other) ==> ReadText(shown) == Some(ShortName(text, other)))
            && Trimmed(ShortName(text, other))
  {
    hide Escape, Unescape, Strip, ReadText, Trimmed;
    var e := Escape(text);
    EscapedHasNoMarkup(text);
    if TooLong(text, other) {
      CutReads(text);
    } else {
      EscapeRoundTrip(text);
      TrimmedReads(e, text);
    }
  }

  lemma CutReads(text: string)
    requires Trimmed(text)
    ensures var shown := Cut(Escape(text));
            && (ReadText(shown).Some? <==> |Escape(Kept(text, CUT))| == |shown|)
            && (ReadText(shown).Some? ==> ReadText(shown) == Some(Strip(Kept(text, CUT))))
            && Trimmed(Strip(Kept(text, CUT)))
  {
    hide Escape, Unescape, Strip, Kept;
    var e := Escape(text);
    var shown := Cut(e);
    assert shown == e[..|shown|];
    CutReadsExactly(text, |shown|);
    var kept := Kept(text, CUT);
    assert kept == text[..|kept|];
    if text != "" {
      KeptIsThere(text);
    }
    if Unescape(shown).Some? {
      var k :| 0 <= k <= |text| && |Escape(text[..k])| == |shown|;
      KeptIs(text, CUT, k);
    }
    if kept != "" {
      StripKeepsHead(kept);
    } else {
      StripTrimmed(kept);
    }
  }

  /** Something is left of every name. */
  lemma KeptIsThere(text: string)
    requires text != ""
    ensures Kept(text, CUT) != "" && Kept(text, CUT)[0] == text[0]
  {
    assert text[..1] == [text[0]];
    assert [text[0]][1..] == "";
    assert Escape([text[0]]) == EscapeChar(text[0]) + "";
  }

  /** Writing a record and reading the slot gives the record back, with what is left of
      its names when they are too long. */
  lemma RoundTrip(d: Dict)
    requires Storable(d)
    ensures Render(d).Some? && |Render(d).value| == SLOT
    ensures ParseSlot(Render(d).value) == Some(Stored(d))
  {
    hide Clean, NamesReadable, RestFits, Render, ParseSlot, Stored;
    NamesReadExactly(d);
    CleanNames(d);
    SlotLengthExactly(d);
  }

  lemma CleanNames(d: Dict)
    requires Clean(d)
    ensures Has(d, LABEL) && Has(d, DESCRIPTION)
  {
  }

  /** A slot can be read exactly when neither name is cut inside an escaped character. It
      then has the record with what is left of the names; otherwise the whole table can no
      longer be read. */
  lemma NamesReadExactly(d: Dict)
    requires Clean(d) && RestFits(d)
    ensures Render(d).Some?
    ensures ParseSlot(Render(d).value) == if NamesReadable(d) then Some(Stored(d)) else None
  {
    hide Escape, ReadText, PlainField, ParseSlot, GetSector, Others, WithDeleted, Element, Elements, CloseTag, Find,
         ShortName, TooLong, CutFits;
    SlotLengthExactly(d);
    NamesTrimmed(d);
    var t, n := Value(d, LABEL), Value(d, DESCRIPTION);
    ShownReads(t, n);
    ShownReads(n, t);
    var (st, sn) := Shown(Escape(t), Escape(n));
    ShownIs(t, n);
    OthersReadable(d);
    TwoSectorsParse(st, sn, Others(WithDeleted(d)));
  }

  lemma ShownIs(t: string, n: string)
    ensures Shown(Escape(t), Escape(n))
            == (if TooLong(t, n) then Cut(Escape(t)) else Escape(t),
                if TooLong(n, t) then Cut(Escape(n)) else Escape(n))
  {
  }

  /** Names that fit are not changed. */
  lemma FittingNamesStay(d: Dict)
    requires NamesFit(d)
    ensures NamesReadable(d) && Stored(d) == Canon(d)
  {
    hide Escape, Kept;
    LimitIsRoom(Value(d, LABEL), Value(d, DESCRIPTION));
  }

  /** What is read back is the same map, clean, and marked as deleted or not. */
  lemma CanonIsSame(d: Dict)
    requires Clean(d)
    ensures ToMap(Canon(d)) == ToMap(WithDeleted(d))
    ensures Clean(Canon(d)) && Has(Canon(d), DELETED)
  {
    hide PlainField, Clean, Others, WithDeleted, Find, Value, ToMap, NameFields;
    var w, c := WithDeleted(d), Canon(d);
    CanonDistinct(d);
    WithDeletedClean(d);
    NamesTrimmed(d);
    forall f ensures f in w <==> f in c {
      NameFieldsIn(w, d, f);
    }
    CleanDistinct(w);
    SameFieldsSameMap(w, c);
    SameFieldsClean(w, c);
  }

  lemma TrimmingShortens(s: string)
    ensures |Escape(Strip(s))| <= |Escape(s)|
  {
    hide Escape;
    SkippingShortens(s);
    TrimRightShortens(SkipBlanks(s));
  }

  lemma {:induction false} SkippingShortens(s: string)
    ensures |Escape(SkipBlanks(s))| <= |Escape(s)|
  {
    if s != "" && Blank(s[0]) {
      SkippingShortens(s[1..]);
    }
  }

  lemma {:induction false} TrimRightShortens(s: string)
    ensures |Escape(TrimRight(s))| <= |Escape(s)|
  {
    if s != "" && Blank(s[|s| - 1]) {
      TrimRightShortens(s[..|s| - 1]);
      assert s == s[..|s| - 1] + s[|s| - 1..];
      EscapeOfConcat(s[..|s| - 1], s[|s| - 1..]);
    }
  }

  /** Names that have been cut once are not cut again. */
  lemma ShortNamesFit(title: string, description: string)
    ensures !TooLong(ShortName(title, description), ShortName(description, title))
  {
    hide Escape, Strip, Kept;
    TrimmingShortens(Kept(title, CUT));
    TrimmingShortens(Kept(description, CUT));
  }

  /** What is stored is the same map but for the names, and can be written again: its
      names are not cut a second time. */
  lemma StoredIs(d: Dict)
    requires Clean(d)
    ensures NamesFit(Stored(d))
    ensures var t, n := Value(d, LABEL), Value(d, DESCRIPTION);
            ToMap(Stored(d)) == ToMap(WithDeleted(d))[LABEL := ShortName(t, n)][DESCRIPTION := ShortName(n, t)]
    ensures Clean(Stored(d)) && Has(Stored(d), DELETED)
  {
    hide PlainField, Clean, Others, WithDeleted, Find, Value, ToMap, ShortName;
    var t, n := Value(d, LABEL), Value(d, DESCRIPTION);
    var a, b := ShortName(t, n), ShortName(n, t);
    var c := Canon(d);
    CanonIsSame(d);
    CanonDistinct(d);
    var c1 := c[0 := Field(LABEL, a)];
    ReplacedMap(c, 0, a);
    SameTags(c, c1);
    ReplacedMap(c1, 1, b);
    assert c1[1 := Field(DESCRIPTION, b)] == Stored(d);
    NamesTrimmed(d);
    ShownReads(t, n);
    ShownReads(n, t);
    StoredClean(c, Stored(d));
    ShortNamesFit(t, n);
    NamesInFrontAre(a, b, Others(WithDeleted(d)));
  }

  lemma NamesInFrontAre(title: string, description: string, others: Dict)
    ensures var d := NameFields(title, description) + others;
            Value(d, LABEL) == title && Value(d, DESCRIPTION) == description
  {
    var d := NameFields(title, description) + others;
    assert d[0].tag == LABEL && d[1].tag == DESCRIPTION && LABEL != DESCRIPTION;
    assert Find(d, LABEL) == 0 && Find(d, DESCRIPTION) == 1;
  }

  lemma StoredClean(c: Dict, e: Dict)
    requires Clean(c) && Has(c, DELETED) && |c| == |e| >= 2
    requires c[0].tag == e[0].tag == LABEL && c[1].tag == e[1].tag == DESCRIPTION
    requires Trimmed(e[0].value) && Trimmed(e[1].value)
    requires forall i :: 2 <= i < |c| ==> c[i] == e[i]
    ensures Clean(e) && Has(e, DELETED)
  {
    hide PlainField, Trimmed;
    SameTags(c, e);
    var i :| 0 <= i < |c| && c[i].tag == DELETED;
    assert e[i].tag == DELETED;
    assert e[0].tag == LABEL && e[1].tag == DESCRIPTION;
  }

  lemma CleanDistinct(d: Dict)
    requires Clean(d)
    ensures Distinct(d)
  {
  }

  lemma CanonDistinct(d: Dict)
    requires Clean(d)
    ensures Distinct(Canon(d))
    ensures Canon(d) == NameFields(Value(d, LABEL), Value(d, DESCRIPTION)) + Others(WithDeleted(d))
  {
    hide Clean, PlainField, Others, WithDeleted;
    OthersReadable(d);
    SameTags(NameFields("", "") + Others(WithDeleted(d)), Canon(d));
  }

  lemma SameFieldsClean(w: Dict, c: Dict)
    requires Clean(w) && Has(w, DELETED) && Distinct(c)
    requires forall f :: f in w <==> f in c
    ensures Clean(c) && Has(c, DELETED)
  {
    hide PlainField;
    SameFieldsSameMap(w, c);
    FindIsHas(w, DELETED);
    FindIsHas(c, DELETED);
    FindIsHas(w, LABEL);
    FindIsHas(c, LABEL);
    FindIsHas(w, DESCRIPTION);
    FindIsHas(c, DESCRIPTION);
    forall i | 0 <= i < |c| ensures if IsName(c[i].tag) then Trimmed(c[i].value) else PlainField(c[i]) {
      assert c[i] in w;
    }
  }

  lemma NamesInPlace(d: Dict)
    requires Find(d, LABEL) < |d| && Find(d, DESCRIPTION) < |d|
    ensures var i, j, w := Find(d, LABEL), Find(d, DESCRIPTION), WithDeleted(d);
            && i < |w| && j < |w|
            && w[i] == d[i] == Field(LABEL, Value(d, LABEL))
            && w[j] == d[j] == Field(DESCRIPTION, Value(d, DESCRIPTION))
  {
    hide Find;
  }

  lemma OnlyNames(w: Dict, i: nat, j: nat, f: Field)
    requires Distinct(w) && i < |w| && j < |w| && w[i].tag == LABEL && w[j].tag == DESCRIPTION
    ensures f in w && IsName(f.tag) ==> f == w[i] || f == w[j]
    ensures IsName(w[i].tag) && IsName(w[j].tag)
  {
    if f in w && IsName(f.tag) {
      var k :| 0 <= k < |w| && w[k] == f;
      assert k == i || k == j;
    }
  }

  lemma NameFieldsIn(w: Dict, d: Dict, f: Field)
    requires Clean(d) && w == WithDeleted(d) && Find(d, LABEL) < |d| && Find(d, DESCRIPTION) < |d|
    ensures f in w <==> f in NameFields(Value(d, LABEL), Value(d, DESCRIPTION)) + Others(w)
  {
    hide PlainField, Others, Trimmed, Clean, WithDeleted, Find, Value, IsName, Distinct;
    OthersMembers(w);
    WithDeletedClean(d);
    NamesInPlace(d);
    CleanDistinct(w);
    OnlyNames(w, Find(d, LABEL), Find(d, DESCRIPTION), f);
  }
}
