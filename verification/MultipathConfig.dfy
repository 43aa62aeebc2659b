/** parse_multipathd_config: the two-level format that multipathd prints
    (StorageHandlerUtil.py:700-755). */
module MultipathConfig {
  import opened Options
  import opened XmlText

  /** A line of output: a newline only at its end. */
  type Line = s: string | forall i :: 0 <= i < |s| - 1 ==> s[i] != '\n'

  datatype Attr = Attr(name: string, value: string)

  /** What a section holds. */
  datatype Entry = Leaf(attr: Attr) | Sub(name: string, attrs: seq<Attr>)

  // ---- The six patterns ----

  datatype Kind =
    | SectionBegin(name: string)
    | SectionAttr(attr: Attr)
    | SubBegin(name: string)
    | SubAttr(attr: Attr)
    | SubEnd
    | SectionEnd
    | Other

  /** [^\t ]+ */
  predicate Word(s: string) {
    s != "" && ' ' !in s && '\t' !in s
  }

  /** A word, a space, and the rest of the line. */
  function WordAndRest(s: string): Option<(string, string)> {
    var (a, b) := Until(s, ' ');
    if Word(a) && b != "" then Some((a, b[1..])) else None
  }

  /** .*[^{] */
  predicate Ends(s: string) {
    s != "" && s[|s| - 1] != '{'
  }

  function Classify(line: Line): Kind {
    if line == "" || line[|line| - 1] != '\n' then Other
    else
      var s := line[..|line| - 1];
      if "\t\t" <= s then
        match WordAndRest(s[2..])
        case Some((name, rest)) => if Ends(rest) then SubAttr(Attr(name, rest)) else Other
        case None => Other
      else if "\t" <= s then
        match WordAndRest(s[1..])
        case Some((name, rest)) =>
          if Ends(rest) then SectionAttr(Attr(name, rest)) else if rest == "{" then SubBegin(name) else Other
        case None => if s[1..] == "}" then SubEnd else Other
      else
        match WordAndRest(s)
        case Some((name, rest)) => if rest == "{" then SectionBegin(name) else Other
        case None => if s == "}" then SectionEnd else Other
  }

  // ---- The parser ----

  /** An entry as it is kept while parsing: a subsection is a reference to its list. */
  datatype Item = AttrItem(attr: Attr) | SubItem(name: string, list: nat)

  /** The variables of the loop. Lists are kept by number: the last of each kind is the
      current one, and is there as soon as one has begun. */
  datatype State = State(
    dict: map<string, nat>, lists: seq<seq<Item>>, subLists: seq<seq<Attr>>, section: string, subsection: string)

  const START := State(map[], [], [], "", "")

  function Append<T>(lists: seq<seq<T>>, x: T): (r: seq<seq<T>>)
    requires lists != []
    ensures |r| == |lists|
  {
    lists[|lists| - 1 := lists[|lists| - 1] + [x]]
  }

  /** One line; None is the error for a variable that has no value yet. */
  function Step(st: State, line: Line): Option<State> {
    match Classify(line)
    case SectionBegin(name) => Some(st.(section := name, lists := st.lists + [[]]))
    case SectionAttr(a) => if st.lists == [] then None else Some(st.(lists := Append(st.lists, AttrItem(a))))
    case SubBegin(name) => Some(st.(subsection := name, subLists := st.subLists + [[]]))
    case SubAttr(a) => if st.subLists == [] then None else Some(st.(subLists := Append(st.subLists, a)))
    case SubEnd =>
      if st.lists == [] || st.subLists == [] then None
      else Some(st.(lists := Append(st.lists, SubItem(st.subsection, |st.subLists| - 1))))
    case SectionEnd =>
      if st.lists == [] then None else Some(st.(dict := st.dict[st.section := |st.lists| - 1]))
    case Other => Some(st)
  }

  function Run(st: State, lines: seq<Line>): Option<State> {
    if lines == [] then Some(st)
    else match Run(st, lines[..|lines| - 1])
      case None => None
      case Some(st1) => Step(st1, lines[|lines| - 1])
  }

  function Entries(items: seq<Item>, subLists: seq<seq<Attr>>): seq<Entry> {
    seq(|items|, i requires 0 <= i < |items| =>
      match items[i]
      case AttrItem(a) => Leaf(a)
      case SubItem(name, k) => Sub(name, if k < |subLists| then subLists[k] else []))
  }

  function Result(st: State): map<string, seq<Entry>> {
    map name | name in st.dict ::
      if st.dict[name] < |st.lists| then Entries(st.lists[st.dict[name]], st.subLists) else []
  }

  function Parsed(lines: seq<Line>): Option<map<string, seq<Entry>>> {
    match Run(START, lines) case None => None case Some(st) => Some(Result(st))
  }

  /** parse_multipathd_config */
  method ParseMultipathdConfig(lines: seq<Line>) returns (r: Option<map<string, seq<Entry>>>)
    ensures r == Parsed(lines)
  {
    hide Classify, Step, Result;
    var st := START;
    var i := 0;
    while i < |lines|
      invariant 0 <= i <= |lines| && Run(START, lines[..i]) == Some(st)
    {
      assert lines[..i + 1][..i] == lines[..i];
      var next := Step(st, lines[i]);
      if next.None? {
        RunFails(START, lines, i + 1);
        return None;
      }
      st := next.value;
      i := i + 1;
    }
    assert lines[..|lines|] == lines;
    r := Some(Result(st));
  }

  lemma {:induction false} RunFails(st: State, lines: seq<Line>, n: nat)
    requires n <= |lines| && Run(st, lines[..n]) == None
    ensures Run(st, lines) == None
  {
    hide Step;
    if n == |lines| {
      assert lines[..n] == lines;
    } else {
      assert lines[..|lines| - 1][..n] == lines[..n];
      RunFails(st, lines[..|lines| - 1], n);
    }
  }

  lemma {:induction false} RunConcat(st: State, a: seq<Line>, b: seq<Line>)
    ensures Run(st, a + b) == match Run(st, a) case None => None case Some(st1) => Run(st1, b)
  {
    hide Step;
    if b == [] {
      assert a + b == a;
    } else {
      var n := |b| - 1;
      assert (a + b)[..|a + b| - 1] == a + b[..n];
      RunConcat(st, a, b[..n]);
    }
  }

  // ---- Lines that match nothing ----

  function Kept(lines: seq<Line>): seq<Line> {
    if lines == [] then []
    else Kept(lines[..|lines| - 1]) + if Classify(lines[|lines| - 1]).Other? then [] else [lines[|lines| - 1]]
  }

  /** Lines that match none of the patterns have no effect, wherever they are. */
  lemma {:induction false} OtherLinesDoNothing(st: State, lines: seq<Line>)
    ensures Run(st, lines) == Run(st, Kept(lines))
  {
    hide Classify;
    if lines != [] {
      var n := |lines| - 1;
      OtherLinesDoNothing(st, lines[..n]);
      if Classify(lines[n]).Other? {
        assert Kept(lines) == Kept(lines[..n]);
      } else {
        assert Kept(lines) == Kept(lines[..n]) + [lines[n]];
        assert Kept(lines)[..|Kept(lines)| - 1] == Kept(lines[..n]);
      }
    }
  }

  // ---- When parsing fails, and what is shared ----

  predicate NeedsSection(k: Kind) {
    k.SectionAttr? || k.SubEnd? || k.SectionEnd?
  }

  predicate NeedsSub(k: Kind) {
    k.SubAttr? || k.SubEnd?
  }

  predicate NoSection(lines: seq<Line>) {
    forall i :: 0 <= i < |lines| ==> !Classify(lines[i]).SectionBegin?
  }

  predicate NoSub(lines: seq<Line>) {
    forall i :: 0 <= i < |lines| ==> !Classify(lines[i]).SubBegin?
  }

  /** Line `k` is about a section or a subsection when none has begun. */
  predicate TooEarly(lines: seq<Line>, k: nat) {
    && k < |lines|
    && ((NeedsSection(Classify(lines[k])) && NoSection(lines[..k]))
        || (NeedsSub(Classify(lines[k])) && NoSub(lines[..k])))
  }

  lemma {:induction false} RunsUnlessTooEarly(lines: seq<Line>)
    ensures Run(START, lines).None? <==> exists k: nat :: TooEarly(lines, k)
    ensures Run(START, lines).Some? ==>
              var st := Run(START, lines).value;
              (st.lists == [] <==> NoSection(lines)) && (st.subLists == [] <==> NoSub(lines))
  {
    hide Classify, Append;
    if lines == [] {
      assert Run(START, []) == Some(START);
    } else {
      var n := |lines| - 1;
      var front := lines[..n];
      RunsUnlessTooEarly(front);
      if exists k: nat :: TooEarly(front, k) {
        var k: nat :| TooEarly(front, k);
        assert front[..k] == lines[..k];
        assert TooEarly(lines, k);
      } else {
        forall k: nat | k < n ensures !TooEarly(lines, k) {
          assert front[..k] == lines[..k];
          assert !TooEarly(front, k);
        }
        StepUnlessTooEarly(lines, Run(START, front).value);
      }
    }
  }

  lemma StepUnlessTooEarly(lines: seq<Line>, st: State)
    requires lines != []
    requires var front := lines[..|lines| - 1];
             (st.lists == [] <==> NoSection(front)) && (st.subLists == [] <==> NoSub(front))
    ensures var n := |lines| - 1;
            var next := Step(st, lines[n]);
            && (next.None? <==> TooEarly(lines, n))
            && (next.Some? ==>
                  (next.value.lists == [] <==> NoSection(lines)) && (next.value.subLists == [] <==> NoSub(lines)))
  {
    hide Classify, Append;
    var n := |lines| - 1;
    assert NoSection(lines) <==> NoSection(lines[..n]) && !Classify(lines[n]).SectionBegin?;
    assert NoSub(lines) <==> NoSub(lines[..n]) && !Classify(lines[n]).SubBegin?;
  }

  /** Parsing fails exactly when a line is about a section or a subsection before any has
      begun. */
  lemma ParseFailsExactly(lines: seq<Line>)
    ensures Parsed(lines).None? <==> exists k: nat :: TooEarly(lines, k)
  {
    hide Run, TooEarly;
    RunsUnlessTooEarly(lines);
  }

  /** A subsection that has ended is still the one that attributes go to, wherever it has
      been put: it is shared, not copied. */
  lemma LateAttribute(st: State, line: Line, a: Attr, name: string, i: nat)
    requires Classify(line) == SubAttr(a) && st.subLists != [] && name in st.dict && st.dict[name] < |st.lists|
    requires var items := st.lists[st.dict[name]];
             i < |items| && items[i].SubItem? && items[i].list == |st.subLists| - 1
    ensures Step(st, line).Some? && name in Result(st) && name in Result(Step(st, line).value)
    ensures var was, now := Result(st)[name], Result(Step(st, line).value)[name];
            && |now| == |was| > i && was[i].Sub? && now[i] == Sub(was[i].name, was[i].attrs + [a])
            && was[i].name == st.lists[st.dict[name]][i].name
  {
    hide Classify;
  }

  /** So is a section: what comes behind its end still goes to it, until another begins. */
  lemma LateEntry(st: State, line: Line, a: Attr, name: string)
    requires Classify(line) == SectionAttr(a) && st.lists != [] && name in st.dict && st.dict[name] == |st.lists| - 1
    ensures Step(st, line).Some? && name in Result(st) && name in Result(Step(st, line).value)
    ensures Result(Step(st, line).value)[name] == Result(st)[name] + [Leaf(a)]
  {
    hide Classify;
    var st1 := Step(st, line).value;
    assert st1.lists[|st.lists| - 1] == st.lists[|st.lists| - 1] + [AttrItem(a)];
  }

  // ---- Rendering ----

  type Config = seq<(string, seq<Entry>)>

  predicate Text(s: string) {
    '\n' !in s
  }

  predicate GoodName(s: string) {
    Word(s) && Text(s)
  }

  predicate GoodAttr(a: Attr) {
    GoodName(a.name) && Text(a.value) && Ends(a.value)
  }

  predicate GoodEntry(e: Entry) {
    match e
    case Leaf(a) => GoodAttr(a)
    case Sub(name, attrs) => GoodName(name) && forall i :: 0 <= i < |attrs| ==> GoodAttr(attrs[i])
  }

  predicate GoodSection(s: (string, seq<Entry>)) {
    GoodName(s.0) && forall i :: 0 <= i < |s.1| ==> GoodEntry(s.1[i])
  }

  /** Names without blanks, and values that are not empty and do not end in a brace. */
  predicate GoodConfig(c: Config) {
    forall i :: 0 <= i < |c| ==> GoodSection(c[i])
  }

  function BeginLine(indent: string, name: string): Line
    requires Text(indent) && Text(name)
  {
    indent + name + " " + "{" + "\n"
  }

  function AttrLine(indent: string, a: Attr): Line
    requires Text(indent) && GoodAttr(a)
  {
    indent + a.name + " " + a.value + "\n"
  }

  function AttrLines(attrs: seq<Attr>): seq<Line>
    requires forall i :: 0 <= i < |attrs| ==> GoodAttr(attrs[i])
  {
    if attrs == [] then [] else AttrLines(attrs[..|attrs| - 1]) + [AttrLine("\t\t", attrs[|attrs| - 1])]
  }

  function EntryLines(e: Entry): seq<Line>
    requires GoodEntry(e)
  {
    match e
    case Leaf(a) => [AttrLine("\t", a)]
    case Sub(name, attrs) => [BeginLine("\t", name)] + AttrLines(attrs) + ["\t}\n"]
  }

  function BodyLines(es: seq<Entry>): seq<Line>
    requires forall i :: 0 <= i < |es| ==> GoodEntry(es[i])
  {
    if es == [] then [] else BodyLines(es[..|es| - 1]) + EntryLines(es[|es| - 1])
  }

  function SectionLines(s: (string, seq<Entry>)): seq<Line>
    requires GoodSection(s)
  {
    [BeginLine("", s.0)] + BodyLines(s.1) + ["}\n"]
  }

  function Render(c: Config): seq<Line>
    requires forall i :: 0 <= i < |c| ==> GoodSection(c[i])
  {
    if c == [] then [] else Render(c[..|c| - 1]) + SectionLines(c[|c| - 1])
  }

  /** What the configuration is as a dictionary. */
  function AsMap(c: Config): map<string, seq<Entry>> {
    if c == [] then map[] else AsMap(c[..|c| - 1])[c[|c| - 1].0 := c[|c| - 1].1]
  }

  // ---- Each line is taken for what it is ----

  lemma WordSplits(name: string, rest: string)
    requires Word(name)
    ensures WordAndRest(name + " " + rest) == Some((name, rest))
  {
    assert name + " " + rest == name + [' '] + rest;
    UntilFinds(name, ' ', rest);
    assert ([' '] + rest)[1..] == rest;
  }

  lemma BeginClassified(indent: string, name: string)
    requires GoodName(name) && indent in ["", "\t"]
    ensures Classify(BeginLine(indent, name)) == if indent == "" then SectionBegin(name) else SubBegin(name)
  {
    hide WordAndRest;
    var line := BeginLine(indent, name);
    var s := line[..|line| - 1];
    assert s == indent + (name + " " + "{");
    assert s[|indent|..] == name + " " + "{";
    WordSplits(name, "{");
    if indent == "" {
      assert s[0] == name[0] && !("\t" <= s);
      assert s == name + " " + "{";
    } else {
      assert s[0] == '\t' && s[1] == name[0] && "\t" <= s;
      assert !("\t\t" <= s);
    }
  }

  lemma AttrClassified(indent: string, a: Attr)
    requires GoodAttr(a) && indent in ["\t", "\t\t"]
    ensures Classify(AttrLine(indent, a)) == if indent == "\t" then SectionAttr(a) else SubAttr(a)
  {
    hide WordAndRest;
    var line := AttrLine(indent, a);
    var s := line[..|line| - 1];
    assert s == indent + (a.name + " " + a.value);
    assert s[|indent|..] == a.name + " " + a.value;
    WordSplits(a.name, a.value);
    assert s[|indent|] == a.name[0];
    assert "\t" <= s;
  }

  lemma EndsClassified()
    ensures Classify("\t}\n") == SubEnd && Classify("}\n") == SectionEnd
  {
    assert "\t}\n"[..2] == "\t}" && "\t}"[1..] == "}";
    assert "}\n"[..1] == "}";
    NoBlank("}");
  }

  lemma {:induction false} NoBlank(s: string)
    requires ' ' !in s
    ensures WordAndRest(s) == None
  {
  }

  // ---- Which line is taken for what ----

  /** What each of the six patterns matches. */
  predicate Matches(line: string, k: Kind) {
    match k
    case SectionBegin(name) => Word(name) && line == name + " {\n"
    case SectionAttr(a) => Word(a.name) && Ends(a.value) && line == "\t" + (a.name + " " + a.value) + "\n"
    case SubBegin(name) => Word(name) && line == "\t" + (name + " {") + "\n"
    case SubAttr(a) => Word(a.name) && Ends(a.value) && line == "\t\t" + (a.name + " " + a.value) + "\n"
    case SubEnd => line == "\t}\n"
    case SectionEnd => line == "}\n"
    case Other => false
  }

  lemma WordIs(s: string)
    ensures match WordAndRest(s)
            case Some((name, rest)) => Word(name) && s == name + " " + rest
            case None => true
  {
    var (a, b) := Until(s, ' ');
    if b != "" {
      assert s == a + " " + b[1..];
    }
  }

  lemma Inside(line: Line, s: string)
    requires line == s + "\n"
    ensures line != "" && line[|line| - 1] == '\n' && line[..|line| - 1] == s
  {
  }

  lemma TakenMatches(line: Line)
    ensures !Classify(line).Other? ==> Matches(line, Classify(line))
  {
    hide WordAndRest, Word, Ends;
    if line != "" && line[|line| - 1] == '\n' {
      var s := line[..|line| - 1];
      assert line == s + "\n";
      WordIs(s);
      if "\t" <= s {
        WordIs(s[1..]);
        assert s == "\t" + s[1..];
        BraceBehind(s[1..]);
      }
      if "\t\t" <= s {
        WordIs(s[2..]);
        assert s == "\t\t" + s[2..];
      }
      BraceBehind(s);
    }
  }

  lemma BraceBehind(s: string)
    ensures match WordAndRest(s)
            case Some((name, rest)) => rest == "{" ==> s == name + " {"
            case None => true
  {
    hide WordAndRest;
    WordIs(s);
  }

  lemma MatchedIsTaken(line: Line, k: Kind)
    requires Matches(line, k)
    ensures Classify(line) == k
  {
    hide WordAndRest;
    match k
    case SectionBegin(name) =>
      Inside(line, name + " {");
      BeginTaken("", name);
    case SubBegin(name) =>
      Inside(line, "\t" + (name + " {"));
      BeginTaken("\t", name);
    case SectionAttr(a) =>
      Inside(line, "\t" + (a.name + " " + a.value));
      AttrTaken("\t", a);
    case SubAttr(a) =>
      Inside(line, "\t\t" + (a.name + " " + a.value));
      AttrTaken("\t\t", a);
    case _ => EndsClassified();
  }

  lemma BeginTaken(indent: string, name: string)
    requires Word(name) && indent in ["", "\t"]
    ensures var s := indent + (name + " {");
            && s[|indent|..] == name + " {" && WordAndRest(s[|indent|..]) == Some((name, "{"))
            && !("\t\t" <= s) && ("\t" <= s <==> indent == "\t")
  {
    var s := indent + (name + " {");
    assert s[|indent|] == name[0];
    assert name + " {" == name + " " + "{";
    WordSplits(name, "{");
  }

  lemma AttrTaken(indent: string, a: Attr)
    requires Word(a.name) && indent in ["\t", "\t\t"]
    ensures var s := indent + (a.name + " " + a.value);
            && s[|indent|..] == a.name + " " + a.value && WordAndRest(s[|indent|..]) == Some((a.name, a.value))
            && "\t" <= s && ("\t\t" <= s <==> indent == "\t\t")
  {
    var s := indent + (a.name + " " + a.value);
    assert s[|indent|] == a.name[0];
    WordSplits(a.name, a.value);
  }

  /** A line is taken for what the pattern it matches says, and for nothing exactly when it
      matches none of them. */
  lemma ClassifiedExactly(line: Line, k: Kind)
    ensures !k.Other? ==> (Classify(line) == k <==> Matches(line, k))
    ensures Classify(line).Other? <==> forall x :: !Matches(line, x)
  {
    hide Classify, Matches;
    TakenMatches(line);
    forall x | Matches(line, x) ensures Classify(line) == x && !x.Other? {
      MatchedIsTaken(line, x);
      OtherMatchesNothing(line, x);
    }
  }

  lemma OtherMatchesNothing(line: string, k: Kind)
    requires Matches(line, k)
    ensures !k.Other?
  {
  }

  // ---- What the parser has after the lines of each part ----

  function Subs(es: seq<Entry>): seq<seq<Attr>> {
    if es == [] then []
    else Subs(es[..|es| - 1]) + match es[|es| - 1] case Leaf(_) => [] case Sub(_, attrs) => [attrs]
  }

  function ItemOf(e: Entry, list: nat): Item {
    match e case Leaf(a) => AttrItem(a) case Sub(name, _) => SubItem(name, list)
  }

  function Items(es: seq<Entry>, base: nat): seq<Item> {
    if es == [] then [] else Items(es[..|es| - 1], base) + [ItemOf(es[|es| - 1], base + |Subs(es[..|es| - 1])|)]
  }

  function LastSub(es: seq<Entry>, before: string): string {
    if es == [] then before
    else match es[|es| - 1] case Leaf(_) => LastSub(es[..|es| - 1], before) case Sub(name, _) => name
  }

  function WithItems(st: State, items: seq<Item>): seq<seq<Item>>
    requires st.lists != []
  {
    st.lists[|st.lists| - 1 := st.lists[|st.lists| - 1] + items]
  }

  lemma OneLine(st: State, line: Line)
    ensures Run(st, [line]) == Step(st, line)
  {
    hide Step;
    assert [line][..0] == [];
    assert Run(st, []) == Some(st);
  }

  lemma {:induction false} AttrsRun(st: State, attrs: seq<Attr>)
    requires st.subLists != [] && forall i :: 0 <= i < |attrs| ==> GoodAttr(attrs[i])
    ensures var n := |st.subLists| - 1;
            Run(st, AttrLines(attrs)) == Some(st.(subLists := st.subLists[n := st.subLists[n] + attrs]))
  {
    hide Classify, GoodAttr, Append;
    var n := |st.subLists| - 1;
    if attrs == [] {
      assert st.subLists[n] + [] == st.subLists[n];
      assert st.subLists[n := st.subLists[n]] == st.subLists;
    } else {
      var m := |attrs| - 1;
      AttrsRun(st, attrs[..m]);
      AttrClassified("\t\t", attrs[m]);
      var lines := AttrLines(attrs);
      assert lines[..|lines| - 1] == AttrLines(attrs[..m]);
      assert attrs[..m] + [attrs[m]] == attrs;
      OneAttrMore(st.subLists, attrs[..m], attrs[m]);
    }
  }

  lemma OneAttrMore(lists: seq<seq<Attr>>, attrs: seq<Attr>, a: Attr)
    requires lists != []
    ensures var n := |lists| - 1;
            Append(lists[n := lists[n] + attrs], a) == lists[n := lists[n] + (attrs + [a])]
  {
    var n := |lists| - 1;
    assert lists[n] + attrs + [a] == lists[n] + (attrs + [a]);
  }

  lemma EntryRun(st: State, e: Entry)
    requires st.lists != [] && GoodEntry(e)
    ensures Run(st, EntryLines(e))
            == Some(st.(lists := WithItems(st, [ItemOf(e, |st.subLists|)]),
                        subLists := st.subLists + Subs([e]),
                        subsection := LastSub([e], st.subsection)))
  {
    hide Classify, GoodAttr, Run;
    assert [e][..0] == [];
    match e {
      case Leaf(a) =>
        AttrClassified("\t", a);
        OneLine(st, AttrLine("\t", a));
        assert st.subLists + [] == st.subLists;
      case Sub(name, attrs) =>
        SubRun(st, name, attrs);
    }
  }

  lemma SubRun(st: State, name: string, attrs: seq<Attr>)
    requires st.lists != [] && GoodEntry(Sub(name, attrs))
    ensures var e := Sub(name, attrs);
            Run(st, EntryLines(e))
            == Some(st.(lists := WithItems(st, [ItemOf(e, |st.subLists|)]),
                        subLists := st.subLists + Subs([e]),
                        subsection := LastSub([e], st.subsection)))
  {
    hide Classify, GoodAttr, Run, AttrLines, Subs, LastSub;
    var begin, end := BeginLine("\t", name), "\t}\n";
    BeginClassified("\t", name);
    OneLine(st, begin);
    var st1 := Step(st, begin).value;
    assert st1.subLists == st.subLists + [[]];
    AttrsRun(st1, attrs);
    RunConcat(st, [begin], AttrLines(attrs));
    var st2 := Run(st1, AttrLines(attrs)).value;
    EndsClassified();
    OneLine(st2, end);
    RunConcat(st, [begin] + AttrLines(attrs), [end]);
    assert [] + attrs == attrs;
    OneSub(name, attrs, st.subsection);
    assert st2.subLists == st.subLists + [attrs];
  }

  lemma OneSub(name: string, attrs: seq<Attr>, before: string)
    ensures Subs([Sub(name, attrs)]) == [attrs] && LastSub([Sub(name, attrs)], before) == name
  {
    assert [Sub(name, attrs)][..0] == [];
  }

  lemma {:induction false} BodyRun(st: State, es: seq<Entry>)
    requires st.lists != [] && forall i :: 0 <= i < |es| ==> GoodEntry(es[i])
    ensures Run(st, BodyLines(es))
            == Some(st.(lists := WithItems(st, Items(es, |st.subLists|)),
                        subLists := st.subLists + Subs(es),
                        subsection := LastSub(es, st.subsection)))
  {
    hide GoodEntry, EntryLines, Run;
    if es == [] {
      assert Run(st, []) == Some(st) by { RunNothing(st); }
      assert st.lists[|st.lists| - 1] + [] == st.lists[|st.lists| - 1];
      assert st.subLists + [] == st.subLists;
      assert WithItems(st, []) == st.lists;
    } else {
      var m := |es| - 1;
      BodyRun(st, es[..m]);
      var st1 := Run(st, BodyLines(es[..m])).value;
      EntryRun(st1, es[m]);
      RunConcat(st, BodyLines(es[..m]), EntryLines(es[m]));
      assert [es[m]][..0] == [];
      var last := |st.lists| - 1;
      assert st1.lists[last] + [ItemOf(es[m], |st1.subLists|)] == st.lists[last] + Items(es, |st.subLists|);
      assert WithItems(st1, [ItemOf(es[m], |st1.subLists|)]) == WithItems(st, Items(es, |st.subLists|));
      assert st1.subLists + Subs([es[m]]) == st.subLists + Subs(es);
    }
  }

  lemma RunNothing(st: State)
    ensures Run(st, []) == Some(st)
  {
  }

  lemma SectionRun(st: State, s: (string, seq<Entry>))
    requires GoodSection(s)
    ensures Run(st, SectionLines(s))
            == Some(st.(dict := st.dict[s.0 := |st.lists|],
                        lists := st.lists + [Items(s.1, |st.subLists|)],
                        subLists := st.subLists + Subs(s.1),
                        section := s.0,
                        subsection := LastSub(s.1, st.subsection)))
  {
    hide Classify, GoodEntry, Run, Items, Subs, LastSub, BodyLines;
    var begin, end := BeginLine("", s.0), "}\n";
    BeginClassified("", s.0);
    OneLine(st, begin);
    var st1 := Step(st, begin).value;
    BodyRun(st1, s.1);
    RunConcat(st, [begin], BodyLines(s.1));
    var st2 := Run(st1, BodyLines(s.1)).value;
    EndsClassified();
    OneLine(st2, end);
    RunConcat(st, [begin] + BodyLines(s.1), [end]);
    assert [] + Items(s.1, |st.subLists|) == Items(s.1, |st.subLists|);
    assert st2.lists == st.lists + [Items(s.1, |st.subLists|)];
  }

  // ---- Round trip ----

  predicate Means(item: Item, e: Entry, subLists: seq<seq<Attr>>) {
    match item
    case AttrItem(a) => e == Leaf(a)
    case SubItem(name, k) => k < |subLists| && e == Sub(name, subLists[k])
  }

  ghost predicate MeanAll(items: seq<Item>, es: seq<Entry>, subLists: seq<seq<Attr>>) {
    |items| == |es| && forall i :: 0 <= i < |es| ==> Means(items[i], es[i], subLists)
  }

  lemma {:induction false} ItemsMean(es: seq<Entry>, subLists: seq<seq<Attr>>, rest: seq<seq<Attr>>)
    ensures MeanAll(Items(es, |subLists|), es, subLists + Subs(es) + rest)
  {
    if es != [] {
      var m := |es| - 1;
      var last := match es[m] case Leaf(_) => [] case Sub(_, attrs) => [attrs];
      var all := subLists + Subs(es) + rest;
      ItemsMean(es[..m], subLists, last + rest);
      assert subLists + Subs(es[..m]) + (last + rest) == all;
      forall i | 0 <= i < |es| ensures Means(Items(es, |subLists|)[i], es[i], all) {
        assert i < m ==> Means(Items(es[..m], |subLists|)[i], es[..m][i], all);
      }
    }
  }

  lemma MeansMore(items: seq<Item>, es: seq<Entry>, subLists: seq<seq<Attr>>, more: seq<seq<Attr>>)
    requires MeanAll(items, es, subLists)
    ensures MeanAll(items, es, subLists + more)
  {
    forall i | 0 <= i < |es| ensures Means(items[i], es[i], subLists + more) {
      assert Means(items[i], es[i], subLists);
    }
  }

  lemma MeaningIsEntries(items: seq<Item>, es: seq<Entry>, subLists: seq<seq<Attr>>)
    requires MeanAll(items, es, subLists)
    ensures Entries(items, subLists) == es
  {
    forall i | 0 <= i < |es| ensures Entries(items, subLists)[i] == es[i] {
      assert Means(items[i], es[i], subLists);
    }
  }

  /** The state of the parser when these sections have been read. */
  ghost predicate Built(st: State, c: Config) {
    && |st.lists| == |c|
    && (forall i :: 0 <= i < |c| ==> MeanAll(st.lists[i], c[i].1, st.subLists))
    && st.dict.Keys == AsMap(c).Keys
    && forall name :: name in st.dict ==> st.dict[name] < |c| && AsMap(c)[name] == c[st.dict[name]].1
  }

  lemma BuiltMore(st: State, c: Config, s: (string, seq<Entry>), items: seq<Item>, st': State)
    requires Built(st, c)
    requires st'.dict == st.dict[s.0 := |c|] && st'.lists == st.lists + [items]
    requires st'.subLists == st.subLists + Subs(s.1) && MeanAll(items, s.1, st'.subLists)
    ensures Built(st', c + [s])
  {
    hide MeanAll, Subs;
    var d := c + [s];
    assert d[..|d| - 1] == c;
    forall i | 0 <= i < |d| ensures MeanAll(st'.lists[i], d[i].1, st'.subLists) {
      if i < |c| {
        assert d[i] == c[i];
        MeansMore(st.lists[i], c[i].1, st.subLists, Subs(s.1));
      }
    }
  }

  lemma {:induction false} ConfigRun(c: Config)
    requires GoodConfig(c)
    ensures Run(START, Render(c)).Some? && Built(Run(START, Render(c)).value, c)
  {
    hide SectionLines, GoodSection, Run, MeanAll, Items, Subs, LastSub, Built;
    if c == [] {
      RunNothing(START);
      NothingBuilt();
    } else {
      var m := |c| - 1;
      ConfigRun(c[..m]);
      var st := Run(START, Render(c[..m])).value;
      SectionRun(st, c[m]);
      RunConcat(START, Render(c[..m]), SectionLines(c[m]));
      var st' := Run(st, SectionLines(c[m])).value;
      ItemsMean(c[m].1, st.subLists, []);
      assert st.subLists + Subs(c[m].1) + [] == st'.subLists;
      BuiltSize(st, c[..m]);
      BuiltMore(st, c[..m], c[m], Items(c[m].1, |st.subLists|), st');
      assert c[..m] + [c[m]] == c;
    }
  }

  lemma NothingBuilt()
    ensures Built(START, [])
  {
  }

  lemma BuiltSize(st: State, c: Config)
    requires Built(st, c)
    ensures |st.lists| == |c|
  {
  }

  /** The last section of a name counts. */
  lemma {:induction false} MapOf(c: Config, name: string)
    ensures name in AsMap(c) <==> exists i: nat :: LastNamed(c, i, name)
    ensures forall i: nat :: LastNamed(c, i, name) ==> name in AsMap(c) && i < |c| && AsMap(c)[name] == c[i].1
  {
    hide AsMap, LastNamed;
    if c == [] {
      NothingNamed(name);
    } else {
      var m := |c| - 1;
      MapOf(c[..m], name);
      AsMapMore(c);
      forall i: nat ensures LastNamed(c, i, name) <==> if c[m].0 == name then i == m else LastNamed(c[..m], i, name) {
        NamedMore(c, i, name);
      }
      if c[m].0 == name {
        assert LastNamed(c, m, name);
      }
    }
  }

  lemma NothingNamed(name: string)
    ensures name !in AsMap([]) && forall i: nat :: !LastNamed([], i, name)
  {
  }

  lemma AsMapMore(c: Config)
    requires c != []
    ensures var m := |c| - 1; AsMap(c) == AsMap(c[..m])[c[m].0 := c[m].1]
  {
  }

  lemma NamedMore(c: Config, i: nat, name: string)
    requires c != []
    ensures var m := |c| - 1;
            LastNamed(c, i, name) <==> if c[m].0 == name then i == m else LastNamed(c[..m], i, name)
  {
  }

  /** Section `i` is the last of that name. */
  ghost predicate LastNamed(c: Config, i: nat, name: string) {
    i < |c| && c[i].0 == name && forall j :: i < j < |c| ==> c[j].0 != name
  }

  lemma BuiltIsMap(st: State, c: Config)
    requires Built(st, c)
    ensures Result(st) == AsMap(c)
  {
    hide Entries, AsMap, MeanAll;
    forall name | name in st.dict ensures Result(st)[name] == AsMap(c)[name] {
      MeaningIsEntries(st.lists[st.dict[name]], c[st.dict[name]].1, st.subLists);
    }
  }

  /** Parsing what has been rendered gives the configuration back, with lines that
      match nothing put in anywhere. */
  lemma ParseInvertsRender(c: Config, lines: seq<Line>)
    requires GoodConfig(c) && Kept(lines) == Render(c)
    ensures Parsed(lines) == Some(AsMap(c))
  {
    hide Run, Result, Built, AsMap;
    OtherLinesDoNothing(START, lines);
    ConfigRun(c);
    BuiltIsMap(Run(START, Render(c)).value, c);
  }
}
