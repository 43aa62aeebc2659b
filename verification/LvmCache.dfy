/** LVMCache of sm/lock.py: the cached volumes of a volume group and the index
    of their tags. */
module LvmCache {
  import opened Options

  const HIDDEN := "hidden"

  datatype LvInfo = LvInfo(size: nat, active: bool, open: int, readonly: bool, tags: seq<string>)

  /** One line of the output of lvs. */
  datatype Line = Line(name: string, size: nat, active: bool, open: bool, readonly: bool, tags: seq<string>)

  /** What an LVM command answers: the cache is changed only after a success. */
  datatype Outcome = Success | CommandException | KeyError | ValueError

  type Lvs = map<string, LvInfo>
  type Index = map<string, seq<string>>

  // ---- The two indexes ----

  function TagsOf(lvs: Lvs, lv: string): seq<string> {
    if lv in lvs then lvs[lv].tags else []
  }

  function Tagged(tags: Index, tag: string): seq<string> {
    if tag in tags then tags[tag] else []
  }

  predicate AgreeAt(lvs: Lvs, tags: Index, tag: string, lv: string) {
    multiset(Tagged(tags, tag))[lv] == multiset(TagsOf(lvs, lv))[tag]
  }

  /** A volume is listed under a tag as often as the tag is on the volume. */
  ghost predicate Agree(lvs: Lvs, tags: Index) {
    forall tag, lv :: AgreeAt(lvs, tags, tag, lv)
  }

  function FirstAt(s: seq<string>, x: string): (i: nat)
    requires x in s
    ensures i < |s| && s[i] == x
    ensures forall j :: 0 <= j < i ==> s[j] != x
  {
    if s[0] == x then 0 else 1 + FirstAt(s[1..], x)
  }

  /** list.remove: the first occurrence goes. */
  function RemoveFirst(s: seq<string>, x: string): (r: seq<string>)
    requires x in s
    ensures multiset(r) == multiset(s) - multiset{x}
    ensures |r| == |s| - 1
  {
    var i := FirstAt(s, x);
    assert s == s[..i] + [x] + s[i + 1..];
    s[..i] + s[i + 1..]
  }

  function AddedTo(lvs: Lvs, lv: string, tag: string): Lvs
    requires lv in lvs
  {
    lvs[lv := lvs[lv].(tags := lvs[lv].tags + [tag])]
  }

  function RemovedFrom(lvs: Lvs, lv: string, tag: string): Lvs
    requires lv in lvs && tag in lvs[lv].tags
  {
    lvs[lv := lvs[lv].(tags := RemoveFirst(lvs[lv].tags, tag))]
  }

  lemma AddedToFresh(lvs: Lvs, lv: string, info: LvInfo, tag: string)
    ensures AddedTo(lvs[lv := info], lv, tag) == lvs[lv := info.(tags := info.tags + [tag])]
  {
  }

  lemma AddingAgrees(lvs: Lvs, tags: Index, lv: string, tag: string)
    requires Agree(lvs, tags) && lv in lvs
    ensures Agree(AddedTo(lvs, lv, tag), tags[tag := Tagged(tags, tag) + [lv]])
  {
    var lvs1 := AddedTo(lvs, lv, tag);
    var tags1 := tags[tag := Tagged(tags, tag) + [lv]];
    forall t, x ensures AgreeAt(lvs1, tags1, t, x) {
      assert AgreeAt(lvs, tags, t, x);
    }
  }

  lemma RemovingAgrees(lvs: Lvs, tags: Index, lv: string, tag: string)
    requires Agree(lvs, tags) && lv in lvs && tag in lvs[lv].tags
    ensures lv in Tagged(tags, tag)
    ensures Agree(RemovedFrom(lvs, lv, tag), tags[tag := RemoveFirst(Tagged(tags, tag), lv)])
  {
    assert AgreeAt(lvs, tags, tag, lv);
    assert multiset(Tagged(tags, tag))[lv] > 0 by { assert tag in multiset(lvs[lv].tags); }
    hide RemoveFirst;
    var lvs1 := RemovedFrom(lvs, lv, tag);
    var tags1 := tags[tag := RemoveFirst(Tagged(tags, tag), lv)];
    forall t, x ensures AgreeAt(lvs1, tags1, t, x) {
      assert AgreeAt(lvs, tags, t, x);
      OneLess(Tagged(tags, tag), lv, x);
      OneLess(lvs[lv].tags, tag, t);
    }
  }

  lemma OneLess(s: seq<string>, x: string, y: string)
    requires x in s
    ensures multiset(RemoveFirst(s, x))[y] == multiset(s)[y] - if x == y then 1 else 0
  {
    hide RemoveFirst;
    assert x in multiset(s);
  }

  // ---- Exactly when an operation keeps them in step ----

  /** create overwrites what the cache had under the name. */
  lemma OverwritingAgreesExactly(lvs: Lvs, tags: Index, lv: string, info: LvInfo)
    requires Agree(lvs, tags) && info.tags == []
    ensures Agree(lvs[lv := info], tags) <==> TagsOf(lvs, lv) == []
  {
    var lvs1 := lvs[lv := info];
    if TagsOf(lvs, lv) == [] {
      forall t, x ensures AgreeAt(lvs1, tags, t, x) {
        assert AgreeAt(lvs, tags, t, x);
      }
    } else {
      var t := TagsOf(lvs, lv)[0];
      assert t in multiset(TagsOf(lvs, lv));
      assert AgreeAt(lvs, tags, t, lv);
      assert !AgreeAt(lvs1, tags, t, lv);
    }
  }

  function Renamed(lvs: Lvs, lv: string, newName: string): Lvs
    requires lv in lvs
  {
    (lvs - {lv})[newName := lvs[lv]]
  }

  /** rename moves the volume and leaves the tag index as it is. */
  lemma RenamingAgreesExactly(lvs: Lvs, tags: Index, lv: string, newName: string)
    requires Agree(lvs, tags) && lv in lvs
    ensures Agree(Renamed(lvs, lv, newName), tags)
            <==> newName == lv || (TagsOf(lvs, lv) == [] && TagsOf(lvs, newName) == [])
  {
    var lvs1 := Renamed(lvs, lv, newName);
    if newName == lv {
      assert lvs1 == lvs;
    } else if TagsOf(lvs, lv) == [] && TagsOf(lvs, newName) == [] {
      forall t, x ensures AgreeAt(lvs1, tags, t, x) {
        assert AgreeAt(lvs, tags, t, x);
      }
    } else if TagsOf(lvs, lv) != [] {
      var t := TagsOf(lvs, lv)[0];
      assert t in multiset(TagsOf(lvs, lv));
      assert AgreeAt(lvs, tags, t, lv);
      assert !AgreeAt(lvs1, tags, t, lv);
    } else {
      var t := TagsOf(lvs, newName)[0];
      assert t in multiset(TagsOf(lvs, newName));
      assert AgreeAt(lvs, tags, t, newName);
      assert !AgreeAt(lvs1, tags, t, newName);
    }
  }

  /** Dropping a volume from the cache while its tags are still indexed. */
  lemma DroppingAgreesExactly(lvs: Lvs, tags: Index, lv: string)
    requires Agree(lvs, tags)
    ensures Agree(lvs - {lv}, tags) <==> TagsOf(lvs, lv) == []
  {
    if TagsOf(lvs, lv) == [] {
      forall t, x ensures AgreeAt(lvs - {lv}, tags, t, x) {
        assert AgreeAt(lvs, tags, t, x);
      }
    } else {
      var t := TagsOf(lvs, lv)[0];
      assert t in multiset(TagsOf(lvs, lv));
      assert AgreeAt(lvs, tags, t, lv);
      assert !AgreeAt(lvs - {lv}, tags, t, lv);
    }
  }

  // ---- The loop of remove ----

  /** The tags at the first `n` odd positions. */
  function Skipped(tags: seq<string>, n: nat): multiset<string>
    requires 2 * n <= |tags|
  {
    if n == 0 then multiset{} else Skipped(tags, n - 1) + multiset{tags[2 * n - 1]}
  }

  /** Where the loop of remove is after `i` rounds, on a list that was `was`. */
  ghost predicate Swept(was: seq<string>, left: seq<string>, i: nat) {
    if 2 * i <= |was| then
      |left| == |was| - i && left[i..] == was[2 * i..] && multiset(left[..i]) == Skipped(was, i)
    else
      2 * i == |was| + 1 && |left| == i - 1 && multiset(left) == Skipped(was, i - 1)
  }

  lemma Cancel(m: multiset<string>, n: multiset<string>, x: string)
    requires m + multiset{x} == n + multiset{x}
    ensures m == n
  {
    assert m == (m + multiset{x}) - multiset{x};
    assert n == (n + multiset{x}) - multiset{x};
  }

  lemma SameElements(a: seq<string>, x: string, b: seq<string>, s: seq<string>)
    requires a + [x] + b == s + [x]
    ensures multiset(a + b) == multiset(s)
  {
    assert multiset(a + [x] + b) == multiset(a) + multiset{x} + multiset(b);
    assert multiset(s + [x]) == multiset(s) + multiset{x};
    assert multiset(a + b) == multiset(a) + multiset(b);
    Cancel(multiset(a + b), multiset(s), x);
  }

  lemma CutOut(s: seq<string>, f: nat, i: nat)
    requires f <= i < |s| && s[f] == s[i]
    ensures var r := s[..f] + s[f + 1..];
            r[i..] == s[i + 1..] && multiset(r[..i]) == multiset(s[..i])
  {
    var a, b, c := s[..f], s[f + 1..i + 1], s[i + 1..];
    assert s[f + 1..] == b + c;
    assert s[..f] + s[f + 1..] == (a + b) + c;
    assert |a + b| == i;
    assert ((a + b) + c)[..i] == a + b && ((a + b) + c)[i..] == c;
    assert a + [s[f]] + b == s[..i] + [s[i]];
    SameElements(a, s[f], b, s[..i]);
  }

  lemma RemovedFront(s: seq<string>, i: nat)
    requires i < |s|
    ensures var r := RemoveFirst(s, s[i]);
            r[i..] == s[i + 1..] && multiset(r[..i]) == multiset(s[..i])
  {
    CutOut(s, FirstAt(s, s[i]), i);
  }

  lemma SweptMore(was: seq<string>, left: seq<string>, i: nat)
    requires Swept(was, left, i) && i < |left|
    ensures Swept(was, RemoveFirst(left, left[i]), i + 1)
  {
    hide RemoveFirst, FirstAt;
    RemovedFront(left, i);
    var r := RemoveFirst(left, left[i]);
    assert multiset(r[..i]) == Skipped(was, i);
    if 2 * (i + 1) <= |was| {
      assert r[i..] == left[i + 1..] && left[i + 1] == left[i..][1] == was[2 * i + 1];
      assert r[..i + 1] == r[..i] + [was[2 * i + 1]];
      assert r[i + 1..] == r[i..][1..] == left[i..][2..] == was[2 * i..][2..] == was[2 * (i + 1)..];
    } else {
      assert r[..i] == r;
    }
  }

  lemma SweptAll(was: seq<string>, left: seq<string>, i: nat)
    requires Swept(was, left, i) && i >= |left|
    ensures multiset(left) == Skipped(was, |was| / 2) && |left| == |was| / 2
  {
    hide Skipped;
    var n := |was| / 2;
    assert 2 * n <= |was| <= 2 * n + 1;
    if 2 * i <= |was| {
      assert i == n && left[..i] == left;
    } else {
      assert i == n + 1;
    }
  }

  /** The index still lists a removed volume under the tags the loop has skipped, and
      is in step for every other volume. */
  ghost predicate LeftBehind(lvs: Lvs, tags: Index, lv: string, was: seq<string>) {
    && (forall tag :: multiset(Tagged(tags, tag))[lv] == Skipped(was, |was| / 2)[tag])
    && (forall tag, x :: x != lv ==> AgreeAt(lvs, tags, tag, x))
  }

  lemma NothingSwept(was: seq<string>)
    ensures Swept(was, was, 0)
  {
  }

  /** What dropping a volume leaves in the index of tags. */
  lemma DropSwept(lvs: Lvs, tags: Index, lv: string, was: seq<string>)
    requires Agree(lvs, tags) && lv in lvs
    requires multiset(lvs[lv].tags) == Skipped(was, |was| / 2) && |lvs[lv].tags| == |was| / 2
    ensures Agree(lvs - {lv}, tags) <==> |was| <= 1
    ensures LeftBehind(lvs - {lv}, tags, lv, was)
  {
    hide Skipped, Agree, LeftBehind;
    DroppingAgreesExactly(lvs, tags, lv);
    StillListed(lvs, tags, lv, was);
  }

  lemma StillListed(lvs: Lvs, tags: Index, lv: string, was: seq<string>)
    requires Agree(lvs, tags) && lv in lvs && multiset(lvs[lv].tags) == Skipped(was, |was| / 2)
    ensures LeftBehind(lvs - {lv}, tags, lv, was)
  {
    hide Skipped;
    forall tag ensures multiset(Tagged(tags, tag))[lv] == Skipped(was, |was| / 2)[tag] {
      assert AgreeAt(lvs, tags, tag, lv);
    }
    forall tag, x | x != lv ensures AgreeAt(lvs - {lv}, tags, tag, x) {
      assert AgreeAt(lvs, tags, tag, x);
    }
  }

  /** getTagged and getHidden tell the same story. */
  lemma HiddenIsTagged(lvs: Lvs, tags: Index, lv: string)
    requires Agree(lvs, tags)
    ensures HIDDEN in TagsOf(lvs, lv) <==> lv in Tagged(tags, HIDDEN)
  {
    assert AgreeAt(lvs, tags, HIDDEN, lv);
    assert HIDDEN in TagsOf(lvs, lv) <==> HIDDEN in multiset(TagsOf(lvs, lv));
    assert lv in Tagged(tags, HIDDEN) <==> lv in multiset(Tagged(tags, HIDDEN));
  }

  function FromLine(line: Line): LvInfo {
    LvInfo(line.size, line.active, if line.open then 1 else 0, line.readonly, line.tags)
  }

  /** The volumes that lvs lists; a later line of the same name counts. */
  function Loaded(lines: seq<Line>): Lvs {
    if lines == [] then map[]
    else Loaded(lines[..|lines| - 1])[lines[|lines| - 1].name := FromLine(lines[|lines| - 1])]
  }

  /** lvs lists a volume once. */
  ghost predicate Distinct(lines: seq<Line>) {
    forall i, j :: 0 <= i < j < |lines| ==> lines[i].name != lines[j].name
  }

  function Names(lines: seq<Line>): set<string> {
    set i | 0 <= i < |lines| :: lines[i].name
  }

  lemma OneMoreName(lines: seq<Line>)
    requires lines != []
    ensures Names(lines) == Names(lines[..|lines| - 1]) + {lines[|lines| - 1].name}
  {
    var n := |lines| - 1;
    forall name | name in Names(lines[..n]) ensures name in Names(lines) {
      var i :| 0 <= i < n && lines[..n][i].name == name;
      assert lines[i].name == name;
    }
    assert lines[n].name in Names(lines);
    forall name | name in Names(lines) ensures name in Names(lines[..n]) + {lines[n].name} {
      var i :| 0 <= i < |lines| && lines[i].name == name;
      assert i < n ==> lines[..n][i].name == name;
    }
  }

  /** The cached volume says of itself what the line says of it. */
  predicate Shows(info: LvInfo, line: Line) {
    && info.size == line.size && info.tags == line.tags
    && (info.active <==> line.active) && (info.open > 0 <==> line.open) && (info.readonly <==> line.readonly)
  }

  /** No later line has the name. */
  ghost predicate LastOfName(lines: seq<Line>, i: nat) {
    i < |lines| && forall j :: i < j < |lines| ==> lines[j].name != lines[i].name
  }

  /** A volume for each name that is listed, as the last line with that name says. */
  lemma {:induction false} LoadedAre(lines: seq<Line>)
    ensures Loaded(lines).Keys == Names(lines)
    ensures forall i: nat :: LastOfName(lines, i) ==>
              lines[i].name in Loaded(lines) && Shows(Loaded(lines)[lines[i].name], lines[i])
  {
    hide Names, Shows, FromLine;
    if lines != [] {
      var n := |lines| - 1;
      LoadedAre(lines[..n]);
      OneMoreName(lines);
      forall i: nat | LastOfName(lines, i)
        ensures lines[i].name in Loaded(lines) && Shows(Loaded(lines)[lines[i].name], lines[i])
      {
        if i < n {
          assert lines[..n][i] == lines[i];
          assert LastOfName(lines[..n], i);
        } else {
          LineShows(lines[n]);
        }
      }
    } else {
      assert Names(lines) == {} by { NoNames(); }
    }
  }

  lemma LineShows(line: Line)
    ensures Shows(FromLine(line), line)
  {
  }

  lemma NoNames()
    ensures Names([]) == {}
  {
  }

  lemma NewLine(lines: seq<Line>, i: nat)
    requires i < |lines|
    ensures Distinct(lines) ==> TagsOf(Loaded(lines[..i]), lines[i].name) == []
  {
    LoadedAre(lines[..i]);
  }

  class Cache {
    var lvs: Lvs
    var tags: Index
    var initialized: bool

    constructor ()
      ensures lvs == map[] && tags == map[] && !initialized && Consistent()
    {
      lvs, tags, initialized := map[], map[], false;
    }

    ghost predicate Consistent()
      reads this
    {
      Agree(lvs, tags)
    }

    /** _addTag */
    method AddTag(lv: string, tag: string)
      requires lv in lvs
      modifies this`lvs, this`tags
      ensures lvs == AddedTo(old(lvs), lv, tag)
      ensures tags == old(tags)[tag := Tagged(old(tags), tag) + [lv]]
      ensures old(Consistent()) ==> Consistent()
    {
      if Agree(lvs, tags) {
        AddingAgrees(lvs, tags, lv, tag);
      }
      lvs := lvs[lv := lvs[lv].(tags := lvs[lv].tags + [tag])];
      if tag in tags && tags[tag] != [] {
        tags := tags[tag := tags[tag] + [lv]];
      } else {
        assert Tagged(tags, tag) == [] && [] + [lv] == [lv];
        tags := tags[tag := [lv]];
      }
    }

    /** _removeTag of a tag the volume has, in step with the index. */
    method RemoveTag(lv: string, tag: string)
      requires Consistent() && lv in lvs && tag in lvs[lv].tags
      modifies this`lvs, this`tags
      ensures Consistent()
      ensures lvs == RemovedFrom(old(lvs), lv, tag)
    {
      RemovingAgrees(lvs, tags, lv, tag);
      lvs := lvs[lv := lvs[lv].(tags := RemoveFirst(lvs[lv].tags, tag))];
      tags := tags[tag := RemoveFirst(tags[tag], lv)];
    }

    /** The part of refresh that one line of output is for. */
    method AddLine(line: Line)
      modifies this`lvs, this`tags
      ensures lvs == old(lvs)[line.name := FromLine(line)]
      ensures old(Consistent()) && TagsOf(old(lvs), line.name) == [] ==> Consistent()
    {
      hide Agree, AddedTo, TagsOf, Tagged;
      var bare := LvInfo(line.size, line.active, if line.open then 1 else 0, line.readonly, []);
      if Agree(lvs, tags) {
        OverwritingAgreesExactly(lvs, tags, line.name, bare);
      }
      lvs := lvs[line.name := bare];
      ghost var before := lvs;
      ghost var good := Agree(lvs, tags);
      for k := 0 to |line.tags|
        invariant good ==> Consistent()
        invariant lvs == before[line.name := bare.(tags := line.tags[..k])]
      {
        AddedToFresh(before, line.name, bare.(tags := line.tags[..k]), line.tags[k]);
        AddTag(line.name, line.tags[k]);
        assert line.tags[..k] + [line.tags[k]] == line.tags[..k + 1];
      }
      assert line.tags[..|line.tags|] == line.tags;
    }

    /** refresh: the whole cache is rebuilt from the output of lvs. */
    method Refresh(output: Option<seq<Line>>) returns (r: Outcome)
      modifies this
      ensures output.None? ==>
                r == CommandException && lvs == old(lvs) && tags == old(tags) && initialized == old(initialized)
      ensures output.Some? ==> r == Success && initialized && lvs == Loaded(output.value)
      ensures output.Some? && Distinct(output.value) ==>
                Consistent()
      ensures output.Some? ==>
                && lvs.Keys == Names(output.value)
                && forall i: nat :: LastOfName(output.value, i) ==>
                     output.value[i].name in lvs && Shows(lvs[output.value[i].name], output.value[i])
    {
      if output.None? {
        return CommandException;
      }
      hide Agree, TagsOf, Distinct, LastOfName, Shows;
      var lines := output.value;
      lvs, tags := map[], map[];
      NothingAgrees();
      for i := 0 to |lines|
        invariant lvs == Loaded(lines[..i]) && (Distinct(lines) ==> Consistent())
      {
        NewLine(lines, i);
        AddLine(lines[i]);
        assert lines[..i + 1][..i] == lines[..i];
      }
      assert lines[..|lines|] == lines;
      LoadedAre(lines);
      initialized := true;
      return Success;
    }

    method Create(lv: string, size: nat, tag: Option<string>, ok: bool) returns (r: Outcome)
      modifies this`lvs, this`tags
      ensures !ok ==> r == CommandException && lvs == old(lvs) && tags == old(tags)
      ensures ok ==>
                && r == Success
                && lvs == old(lvs)[lv := LvInfo(size, true, 0, false,
                                                if tag.Some? && tag.value != "" then [tag.value] else [])]
      ensures ok && old(Consistent()) ==> (Consistent() <==> TagsOf(old(lvs), lv) == [])
    {
      if !ok {
        return CommandException;
      }
      var info := LvInfo(size, true, 0, false, []);
      hide Agree, AddedTo;
      if Agree(lvs, tags) {
        OverwritingAgreesExactly(lvs, tags, lv, info);
      }
      lvs := lvs[lv := info];
      if tag.Some? && tag.value != "" {
        UntaggingBack(lvs, tags, lv, tag.value);
        AddedToFresh(old(lvs), lv, info, tag.value);
        AddTag(lv, tag.value);
        assert [] + [tag.value] == [tag.value];
      }
      return Success;
    }

    /** The loop of remove: for tag in tags, while each round shortens the list. */
    method SweepTags(lv: string)
      requires Consistent() && lv in lvs
      modifies this`lvs, this`tags
      ensures Consistent() && lv in lvs && lvs - {lv} == old(lvs) - {lv}
      ensures multiset(lvs[lv].tags) == Skipped(old(lvs)[lv].tags, |old(lvs)[lv].tags| / 2)
      ensures |lvs[lv].tags| == |old(lvs)[lv].tags| / 2
    {
      hide Agree, RemoveFirst, Swept, Skipped;
      ghost var was := lvs[lv].tags;
      var i := 0;
      NothingSwept(was);
      while i < |lvs[lv].tags|
        invariant Consistent() && lv in lvs && Swept(was, lvs[lv].tags, i)
        invariant lvs - {lv} == old(lvs) - {lv}
        decreases |lvs[lv].tags|
      {
        SweptMore(was, lvs[lv].tags, i);
        RemoveTag(lv, lvs[lv].tags[i]);
        i := i + 1;
      }
      SweptAll(was, lvs[lv].tags, i);
    }

    /** remove: the loop over the tags skips every second one, because each round
        shortens the list it walks over; the volume stays listed under those. */
    method Remove(lv: string, ok: bool) returns (r: Outcome)
      requires Consistent()
      modifies this`lvs, this`tags
      ensures !ok ==> r == CommandException && lvs == old(lvs) && tags == old(tags)
      ensures ok && lv !in old(lvs) ==> r == KeyError && lvs == old(lvs) && tags == old(tags)
      ensures ok && lv in old(lvs) ==>
                && r == Success && lvs == old(lvs) - {lv} && (Consistent() <==> |old(lvs)[lv].tags| <= 1)
                && LeftBehind(lvs, tags, lv, old(lvs)[lv].tags)
    {
      if !ok {
        return CommandException;
      }
      if lv !in lvs {
        return KeyError;
      }
      hide Agree, LeftBehind;
      ghost var was := lvs[lv].tags;
      SweepTags(lv);
      DropSwept(lvs, tags, lv, was);
      lvs := lvs - {lv};
      return Success;
    }

    method Rename(lv: string, newName: string, ok: bool) returns (r: Outcome)
      modifies this`lvs
      ensures !ok ==> r == CommandException && lvs == old(lvs)
      ensures ok && lv !in old(lvs) ==> r == KeyError && lvs == old(lvs)
      ensures ok && lv in old(lvs) ==>
                && r == Success && lvs == Renamed(old(lvs), lv, newName)
                && newName in lvs && lvs[newName] == old(lvs)[lv] && (lv in lvs <==> newName == lv)
                && lvs - {lv, newName} == old(lvs) - {lv, newName}
      ensures r == Success && old(Consistent()) ==>
                (Consistent() <==> newName == lv || (TagsOf(old(lvs), lv) == [] && TagsOf(old(lvs), newName) == []))
    {
      if !ok {
        return CommandException;
      }
      if lv !in lvs {
        return KeyError;
      }
      if Agree(lvs, tags) {
        RenamingAgreesExactly(lvs, tags, lv, newName);
      }
      var info := lvs[lv];
      lvs := lvs - {lv};
      lvs := lvs[newName := info];
      return Success;
    }

    method SetHidden(lv: string, hidden: bool, ok: bool) returns (r: Outcome)
      requires Consistent()
      modifies this`lvs, this`tags
      ensures Consistent()
      ensures r == if !ok then CommandException else if lv !in old(lvs) then KeyError
                   else if !hidden && HIDDEN !in old(lvs)[lv].tags then ValueError else Success
      ensures r != Success ==> lvs == old(lvs) && tags == old(tags)
      ensures r == Success ==>
                && lvs == (if hidden then AddedTo(old(lvs), lv, HIDDEN) else RemovedFrom(old(lvs), lv, HIDDEN))
                && lvs - {lv} == old(lvs) - {lv} && lv in lvs && lvs[lv] == old(lvs)[lv].(tags := lvs[lv].tags)
                && multiset(lvs[lv].tags)
                   == (if hidden then multiset(old(lvs)[lv].tags) + multiset{HIDDEN}
                       else multiset(old(lvs)[lv].tags) - multiset{HIDDEN})
    {
      if !ok {
        return CommandException;
      }
      if lv !in lvs {
        return KeyError;
      }
      if hidden {
        AddTag(lv, HIDDEN);
      } else {
        if HIDDEN !in lvs[lv].tags {
          return ValueError;
        }
        RemoveTag(lv, HIDDEN);
      }
      return Success;
    }

    method GetHidden(lv: string) returns (hidden: Option<bool>)
      requires Consistent()
      ensures hidden.None? <==> lv !in lvs
      ensures hidden.Some? ==> (hidden.value <==> lv in Tagged(tags, HIDDEN))
    {
      if lv !in lvs {
        return None;
      }
      HiddenIsTagged(lvs, tags, lv);
      return Some(HIDDEN in lvs[lv].tags);
    }

    method GetTagged(tag: string) returns (names: seq<string>)
      requires Consistent()
      ensures forall lv :: multiset(names)[lv] == multiset(TagsOf(lvs, lv))[tag]
    {
      if tag !in tags || tags[tag] == [] {
        names := [];
      } else {
        names := tags[tag];
      }
      forall lv ensures multiset(names)[lv] == multiset(TagsOf(lvs, lv))[tag] {
        assert AgreeAt(lvs, tags, tag, lv);
      }
    }
  }

  lemma NothingAgrees()
    ensures Agree(map[], map[])
  {
  }

  /** Adding a tag cannot repair indexes that are out of step. */
  lemma UntaggingBack(lvs: Lvs, tags: Index, lv: string, tag: string)
    requires lv in lvs
    ensures Agree(AddedTo(lvs, lv, tag), tags[tag := Tagged(tags, tag) + [lv]]) ==> Agree(lvs, tags)
  {
    var lvs1 := AddedTo(lvs, lv, tag);
    var tags1 := tags[tag := Tagged(tags, tag) + [lv]];
    if Agree(lvs1, tags1) {
      forall t, x ensures AgreeAt(lvs, tags, t, x) {
        assert AgreeAt(lvs1, tags1, t, x);
      }
    }
  }
}
