/** The flat XML the metadata is made of: escaping, elements with text in them,
    and the part of the parser that reads them back (section 2.4 of XML 1.0). */
module XmlText {
  import opened Options
  import opened Dicts

  // ---- Escaping ----

  function EscapeChar(c: char): string {
    if c == '&' then "&amp;" else if c == '<' then "&lt;" else if c == '>' then "&gt;" else [c]
  }

  /** xml.sax.saxutils.escape */
  function Escape(s: string): string {
    if s == "" then "" else EscapeChar(s[0]) + Escape(s[1..])
  }

  /** The three characters that are escaped, and how. */
  lemma MarkupIsEscaped(c: char)
    ensures Escape("&<>") == "&amp;&lt;&gt;"
    ensures c !in "&<>" ==> Escape([c]) == [c]
  {
    assert "&<>"[1..] == "<>" && "<>"[1..] == ">" && ">"[1..] == "";
    assert Escape(">") == "&gt;" + "" && Escape("<>") == "&lt;" + Escape(">");
    assert [c][1..] == "";
    assert "&<>" == ['&', '<', '>'];
  }

  const SECTION_END := "]]>"   // must not stand in text

  /** The text a parser makes of character data; None for a reference it does not know. */
  function Unescape(s: string): Option<string> {
    if s == "" then Some("")
    else if s[0] == '<' || SECTION_END <= s then None
    else
      var (c, n) := if s[0] != '&' then (s[0], 1)
                    else if "&amp;" <= s then ('&', 5)
                    else if "&lt;" <= s then ('<', 4)
                    else if "&gt;" <= s then ('>', 4)
                    else if "&quot;" <= s then ('\"', 6)
                    else if "&apos;" <= s then ('\'', 6)
                    else ('&', 0);
      if n == 0 then None
      else
        match Unescape(s[n..])
        case Some(rest) => Some([c] + rest)
        case None => None
  }

  lemma {:induction false} EscapeRoundTrip(s: string)
    ensures Unescape(Escape(s)) == Some(s)
  {
    if s != "" {
      EscapeRoundTrip(s[1..]);
      var e := Escape(s);
      var n := |EscapeChar(s[0])|;
      assert e[n..] == Escape(s[1..]);
      assert [s[0]] + s[1..] == s;
      assert e[..n] == EscapeChar(s[0]);
      EscapedHasNoMarkup(s[1..]);
      EscapedHead(s[0], Escape(s[1..]));
    }
  }

  lemma NotTheEnd(e: string)
    requires |e| < 3 || e[0] != ']' || e[2] != '>'
    ensures !(SECTION_END <= e)
  {
  }

  lemma EscapedHead(c: char, rest: string)
    requires '>' !in rest
    ensures var e := EscapeChar(c) + rest;
            var n := |EscapeChar(c)|;
            Unescape(e) == match Unescape(rest) case Some(r) => Some([c] + r) case None => None
  {
    var e := EscapeChar(c) + rest;
    assert e[|EscapeChar(c)|..] == rest;
    assert |EscapeChar(c)| == 1 && |e| > 2 ==> e[2] == rest[1] && rest[1] in rest;
    NotTheEnd(e);
    if c == '&' {
      assert e[..5] == "&amp;";
    } else if c == '<' {
      assert e[..4] == "&lt;";
      assert e[1] == 'l';
    } else if c == '>' {
      assert e[..4] == "&gt;";
      assert e[1] == 'g';
    } else {
    }
  }

  lemma {:induction false} EscapedHasNoMarkup(s: string)
    ensures '<' !in Escape(s) && '>' !in Escape(s)
  {
    if s != "" {
      EscapedHasNoMarkup(s[1..]);
    }
  }

  /** Text that can stand as it is: without markup, and without the end of a CDATA section. */
  predicate PlainText(s: string) {
    '<' !in s && '&' !in s && forall i :: 0 <= i < |s| ==> !(SECTION_END <= s[i..])
  }

  lemma NoMarkupIsPlain(s: string)
    requires '<' !in s && '&' !in s && '>' !in s
    ensures PlainText(s)
  {
    forall i | 0 <= i < |s| ensures !(SECTION_END <= s[i..]) {
      assert |s[i..]| > 2 ==> s[i..][2] == s[i + 2] && s[i + 2] in s;
      NotTheEnd(s[i..]);
    }
  }

  /** Text without markup means itself. */
  lemma {:induction false} PlainMeansItself(s: string)
    requires PlainText(s)
    ensures Unescape(s) == Some(s)
  {
    if s != "" {
      assert s[0..] == s;
      forall i | 0 <= i < |s[1..]| ensures !(SECTION_END <= s[1..][i..]) {
        assert s[1..][i..] == s[i + 1..];
      }
      PlainMeansItself(s[1..]);
      assert [s[0]] + s[1..] == s;
    }
  }

  /** Escaped text that has been cut can be read exactly when the cut falls between
      two characters of the original, and it then means the characters before the cut. */
  lemma {:induction false} CutReadsExactly(s: string, n: nat)
    requires n <= |Escape(s)|
    ensures Unescape(Escape(s)[..n]).Some? <==> exists k :: 0 <= k <= |s| && |Escape(s[..k])| == n
    ensures forall k :: 0 <= k <= |s| && |Escape(s[..k])| == n ==> Unescape(Escape(s)[..n]) == Some(s[..k])
  {
    hide Escape, Unescape;
    forall k | 0 <= k <= |s| && |Escape(s[..k])| == n
      ensures Unescape(Escape(s)[..n]) == Some(s[..k])
    {
      EscapeOfConcat(s[..k], s[k..]);
      assert s[..k] + s[k..] == s;
      assert Escape(s)[..n] == Escape(s[..k]);
      EscapeRoundTrip(s[..k]);
    }
    if Unescape(Escape(s)[..n]).Some? {
      var k := CutPoint(s, n);
    }
  }

  lemma {:induction false} EscapeOfConcat(a: string, b: string)
    ensures Escape(a + b) == Escape(a) + Escape(b)
  {
    if a == "" {
      assert a + b == b;
    } else {
      assert (a + b)[1..] == a[1..] + b;
      EscapeOfConcat(a[1..], b);
    }
  }

  lemma {:induction false} CutPoint(s: string, n: nat) returns (k: nat)
    requires n <= |Escape(s)| && Unescape(Escape(s)[..n]).Some?
    ensures k <= |s| && |Escape(s[..k])| == n
    decreases |s|
  {
    if n == 0 {
      k := 0;
    } else {
      var c, rest := s[0], Escape(s[1..]);
      var w := |EscapeChar(c)|;
      var cut := Escape(s)[..n];
      if n < w {
        assert cut == EscapeChar(c)[..n];
        CutReference(c, n);
      } else {
        assert cut == EscapeChar(c) + rest[..n - w];
        EscapedHasNoMarkup(s[1..]);
        EscapedHead(c, rest[..n - w]);
        var j := CutPoint(s[1..], n - w);
        k := j + 1;
        assert s[..k][1..] == s[1..][..j];
        assert s[..k][0] == c;
      }
    }
  }

  /** A reference cut short means nothing. */
  lemma CutReference(c: char, n: nat)
    requires 0 < n < |EscapeChar(c)|
    ensures Unescape(EscapeChar(c)[..n]).None?
  {
    var t := EscapeChar(c)[..n];
    assert t[0] == '&' && |t| < 5;
    if c == '&' {
      assert |t| >= 2 ==> t[1] == 'a';
      assert !("&lt;" <= t) && !("&gt;" <= t);
    } else {
      assert |EscapeChar(c)| == 4;
      assert !("&lt;" <= t) && !("&gt;" <= t);
    }
    assert !("&amp;" <= t) && !("&quot;" <= t) && !("&apos;" <= t);
  }

  // ---- White space ----

  predicate Blank(c: char) {
    c == ' ' || c == '\t' || c == '\n' || c == '\r'
  }

  function SkipBlanks(s: string): (r: string)
    ensures |r| <= |s|
    ensures r != "" ==> !Blank(r[0])
  {
    if s != "" && Blank(s[0]) then SkipBlanks(s[1..]) else s
  }

  function TrimRight(s: string): string {
    if s != "" && Blank(s[|s| - 1]) then TrimRight(s[..|s| - 1]) else s
  }

  /** str.strip */
  function Strip(s: string): string {
    TrimRight(SkipBlanks(s))
  }

  predicate Trimmed(s: string) {
    s != "" ==> !Blank(s[0]) && !Blank(s[|s| - 1])
  }

  predicate AllBlank(s: string) {
    forall i :: 0 <= i < |s| ==> Blank(s[i])
  }

  lemma {:induction false} SkipPadding(pad: string, s: string)
    requires AllBlank(pad)
    ensures SkipBlanks(pad + s) == SkipBlanks(s)
  {
    if pad == "" {
      assert pad + s == s;
    } else {
      assert (pad + s)[1..] == pad[1..] + s;
      SkipPadding(pad[1..], s);
    }
  }

  // ---- Elements ----

  /** Up to the first `c`, and the rest from there on. */
  function Until(s: string, c: char): (r: (string, string))
    ensures r.0 + r.1 == s && c !in r.0
    ensures r.1 != "" ==> r.1[0] == c
  {
    if s == "" || s[0] == c then ("", s)
    else
      var (a, b) := Until(s[1..], c);
      ([s[0]] + a, b)
  }

  lemma {:induction false} UntilFinds(a: string, c: char, b: string)
    requires c !in a
    ensures Until(a + [c] + b, c) == (a, [c] + b)
  {
    var s := a + [c] + b;
    if a == "" {
      assert s == [c] + b;
    } else {
      assert s[1..] == a[1..] + [c] + b;
      UntilFinds(a[1..], c, b);
      assert [a[0]] + a[1..] == a;
    }
  }

  lemma {:induction false} UntilAll(s: string, c: char)
    requires c !in s
    ensures Until(s, c) == (s, "")
  {
    if s != "" {
      UntilAll(s[1..], c);
      assert [s[0]] + s[1..] == s;
    }
  }

  function Open(tag: string): string {
    "<" + tag + ">"
  }

  function CloseTag(tag: string): string {
    "</" + tag + ">"
  }

  /** getXMLTag(tag) % text */
  function Element(tag: string, text: string): string {
    Open(tag) + text + CloseTag(tag)
  }

  predicate NameStart(c: char) {
    'a' <= c <= 'z' || 'A' <= c <= 'Z' || c == '_'
  }

  predicate NameChar(c: char) {
    NameStart(c) || '0' <= c <= '9' || c == '-' || c == '.'
  }

  /** A name of single-byte characters, without a namespace prefix (section 2.3 of XML 1.0). */
  predicate TagName(tag: string) {
    tag != "" && NameStart(tag[0]) && forall i :: 0 <= i < |tag| ==> NameChar(tag[i])
  }

  /** The text of an element, stripped. Blank text that is not empty is None here: the
      reader makes an empty dictionary of it, which is not a value of a record. */
  function ReadText(text: string): Option<string> {
    match Unescape(text)
    case None => None
    case Some(value) => if value != "" && Strip(value) == "" then None else Some(Strip(value))
  }

  /** One element with text in it: its name, the stripped text, and what follows. */
  function ParseElement(s: string): Option<(Field, string)> {
    if s == "" || s[0] != '<' then None
    else
      var (tag, r1) := Until(s[1..], '>');
      if r1 == "" || !TagName(tag) then None
      else
        var (text, r2) := Until(r1[1..], '<');
        if !(CloseTag(tag) <= r2) then None
        else
          match ReadText(text)
          case None => None
          case Some(value) => Some((Field(tag, value), r2[|tag| + 3..]))
  }

  /** An element is read back exactly when its text can be. */
  lemma ElementParses(tag: string, text: string, rest: string)
    requires TagName(tag) && '<' !in text
    ensures ParseElement(Element(tag, text) + rest)
            == match ReadText(text)
               case Some(value) => Some((Field(tag, value), rest))
               case None => None
  {
    hide ReadText, Until, TagName;
    TagNameHasNoEnd(tag);
    var s := Element(tag, text) + rest;
    var close := "/" + tag + ">" + rest;
    var r := text + ['<'] + close;
    ElementShape(tag, text, rest);
    UntilFinds(tag, '>', r);
    assert (['>'] + r)[1..] == r;
    UntilFinds(text, '<', close);
    CloseIsNext(tag, rest);
  }

  lemma TagNameHasNoEnd(tag: string)
    requires TagName(tag)
    ensures '>' !in tag
  {
  }

  lemma ElementShape(tag: string, text: string, rest: string)
    ensures var s := Element(tag, text) + rest;
            s != "" && s[0] == '<' && s[1..] == tag + ['>'] + (text + ['<'] + ("/" + tag + ">" + rest))
  {
  }

  lemma CloseIsNext(tag: string, rest: string)
    ensures var r := ['<'] + ("/" + tag + ">" + rest);
            CloseTag(tag) <= r && r[|tag| + 3..] == rest
  {
    assert ['<'] + ("/" + tag + ">" + rest) == CloseTag(tag) + rest;
  }

  /** Text without blanks at its ends is read as it is meant. */
  lemma TrimmedReads(text: string, value: string)
    requires Unescape(text) == Some(value) && Trimmed(value)
    ensures ReadText(text) == Some(value)
  {
    StripTrimmed(value);
  }

  /** What begins with something other than a blank is not blank. */
  lemma {:induction false} StripKeepsHead(s: string)
    requires s != "" && !Blank(s[0])
    ensures Strip(s) != "" && Trimmed(Strip(s))
  {
    TrimRightKeepsHead(s);
  }

  lemma {:induction false} TrimRightKeepsHead(s: string)
    requires s != "" && !Blank(s[0])
    ensures var r := TrimRight(s); r != "" && r[0] == s[0] && !Blank(r[|r| - 1])
  {
    if Blank(s[|s| - 1]) {
      TrimRightKeepsHead(s[..|s| - 1]);
    }
  }

  lemma StripTrimmed(s: string)
    requires Trimmed(s)
    ensures Strip(s) == s
  {
  }

  /** The elements up to the closing tag `end`, and what follows it. A later element
      of the same name replaces an earlier one. */
  function ParseElements(s: string, end: string, got: Dict): Option<(Dict, string)>
    decreases |s|
  {
    var r := SkipBlanks(s);
    if CloseTag(end) <= r then Some((got, r[|end| + 3..]))
    else
      match ParseElement(r)
      case None => None
      case Some((f, rest)) =>
        if |rest| < |r| then ParseElements(rest, end, Set(got, f.tag, f.value)) else None
  }
}
