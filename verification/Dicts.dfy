/** Python's ordered dictionaries of strings, as the metadata code uses them. */
module Dicts {

  datatype Field = Field(tag: string, value: string)

  type Dict = seq<Field>

  function ToMap(d: Dict): map<string, string> {
    if d == [] then map[] else ToMap(d[..|d| - 1])[d[|d| - 1].tag := d[|d| - 1].value]
  }

  predicate Has(d: Dict, tag: string) {
    exists i :: 0 <= i < |d| && d[i].tag == tag
  }

  /** No tag occurs twice. */
  ghost predicate Distinct(d: Dict) {
    forall i, j :: 0 <= i < j < |d| ==> d[i].tag != d[j].tag
  }

  /** The position of a tag; the length when it is not there. */
  function Find(d: Dict, tag: string): (i: nat)
    ensures i <= |d|
    ensures i < |d| ==> d[i].tag == tag
    ensures forall j :: 0 <= j < i ==> d[j].tag != tag
  {
    if d == [] then 0 else if d[0].tag == tag then 0 else 1 + Find(d[1..], tag)
  }

  /** d[tag] = value: a present tag keeps its place, a new one goes to the end. */
  function Set(d: Dict, tag: string, value: string): Dict {
    var i := Find(d, tag);
    if i < |d| then d[i := Field(tag, value)] else d + [Field(tag, value)]
  }

  /** for key in update: d[key] = update[key] */
  function Merge(d: Dict, update: Dict): Dict {
    if update == [] then d
    else Set(Merge(d, update[..|update| - 1]), update[|update| - 1].tag, update[|update| - 1].value)
  }

  /** d[tag]; empty when it is not there. */
  function Value(d: Dict, tag: string): string {
    var i := Find(d, tag);
    if i < |d| then d[i].value else ""
  }

  // ---- What they mean as maps ----

  lemma {:induction false} MapKeys(d: Dict)
    ensures forall tag :: tag in ToMap(d) <==> Has(d, tag)
  {
    if d != [] {
      var n := |d| - 1;
      MapKeys(d[..n]);
      forall tag ensures tag in ToMap(d) <==> Has(d, tag) {
        if Has(d, tag) && tag != d[n].tag {
          var i :| 0 <= i < |d| && d[i].tag == tag;
          assert d[..n][i].tag == tag;
        }
        if Has(d[..n], tag) {
          var i :| 0 <= i < n && d[..n][i].tag == tag;
          assert d[i].tag == tag;
        }
        if tag == d[n].tag {
          assert d[n].tag == tag;
        }
      }
    }
  }

  lemma {:induction false} MapAt(d: Dict, i: nat)
    requires Distinct(d) && i < |d|
    ensures d[i].tag in ToMap(d) && ToMap(d)[d[i].tag] == d[i].value
  {
    var n := |d| - 1;
    if i < n {
      MapAt(d[..n], i);
    }
  }

  lemma FindIsHas(d: Dict, tag: string)
    ensures Find(d, tag) < |d| <==> Has(d, tag)
    ensures Has(d, tag) <==> tag in ToMap(d)
  {
    if Has(d, tag) {
      var i :| 0 <= i < |d| && d[i].tag == tag;
      assert Find(d, tag) <= i;
    }
    MapKeys(d);
  }

  lemma FindAt(d: Dict, i: nat)
    requires Distinct(d) && i < |d|
    ensures Find(d, d[i].tag) == i && Value(d, d[i].tag) == d[i].value
  {
  }

  lemma ValueIsMap(d: Dict, tag: string)
    requires Distinct(d) && Find(d, tag) < |d|
    ensures tag in ToMap(d) && ToMap(d)[tag] == Value(d, tag)
  {
    MapAt(d, Find(d, tag));
  }

  lemma {:induction false} ReplacedMap(d: Dict, i: nat, value: string)
    requires Distinct(d) && i < |d|
    ensures ToMap(d[i := Field(d[i].tag, value)]) == ToMap(d)[d[i].tag := value]
  {
    var n := |d| - 1;
    var e := d[i := Field(d[i].tag, value)];
    if i < n {
      ReplacedMap(d[..n], i, value);
      assert e[..n] == d[..n][i := Field(d[i].tag, value)];
      assert d[i].tag != d[n].tag;
    } else {
      assert e[..n] == d[..n];
    }
  }

  lemma SetMap(d: Dict, tag: string, value: string)
    requires Distinct(d)
    ensures Distinct(Set(d, tag, value))
    ensures ToMap(Set(d, tag, value)) == ToMap(d)[tag := value]
  {
    var i := Find(d, tag);
    if i < |d| {
      ReplacedMap(d, i, value);
    } else {
      assert (d + [Field(tag, value)])[..|d|] == d;
    }
  }

  lemma {:induction false} MergeMap(d: Dict, update: Dict)
    requires Distinct(d)
    ensures Distinct(Merge(d, update))
    ensures ToMap(Merge(d, update)) == ToMap(d) + ToMap(update)
  {
    hide Set;
    if update != [] {
      var n := |update| - 1;
      MergeMap(d, update[..n]);
      SetMap(Merge(d, update[..n]), update[n].tag, update[n].value);
    }
  }

  /** Setting one tag leaves the others alone. */
  lemma OtherTag(d: Dict, tag: string, value: string, other: string)
    requires tag != other
    ensures Value(Set(d, tag, value), other) == Value(d, other)
  {
    hide Find;
    var e := Set(d, tag, value);
    var i, j := Find(d, other), Find(e, other);
    assert forall k :: 0 <= k < |d| ==> e[k].tag == d[k].tag;
    assert j < |d| ==> d[j].tag == other;
    assert i < |d| ==> e[i].tag == other;
  }

  /** Every field of a merged dictionary comes from one of the two. */
  lemma {:induction false} MergeFields(d: Dict, update: Dict, f: Field)
    requires f in Merge(d, update)
    ensures f in d || f in update
  {
    if update != [] {
      var n := |update| - 1;
      var front := Merge(d, update[..n]);
      if f in front {
        MergeFields(d, update[..n], f);
        assert f in update[..n] ==> f in update;
      } else {
        SetFields(front, update[n].tag, update[n].value, f);
        assert f == update[n];
      }
    }
  }

  lemma SetFields(d: Dict, tag: string, value: string, f: Field)
    requires f in Set(d, tag, value)
    ensures f in d || f == Field(tag, value)
  {
  }

  /** Dictionaries with the same fields are the same map, in whatever order. */
  lemma SameFieldsSameMap(a: Dict, b: Dict)
    requires Distinct(a) && Distinct(b)
    requires forall f :: f in a <==> f in b
    ensures ToMap(a) == ToMap(b)
  {
    MapKeys(a);
    MapKeys(b);
    forall tag | tag in ToMap(a) ensures tag in ToMap(b) && ToMap(a)[tag] == ToMap(b)[tag] {
      var i :| 0 <= i < |a| && a[i].tag == tag;
      assert a[i] in b;
      var j :| 0 <= j < |b| && b[j] == a[i];
      MapAt(a, i);
      MapAt(b, j);
    }
    forall tag | tag in ToMap(b) ensures tag in ToMap(a) {
      var j :| 0 <= j < |b| && b[j].tag == tag;
      assert b[j] in a;
      var i :| 0 <= i < |a| && a[i] == b[j];
      MapAt(a, i);
    }
  }
}
