/** What the table means: a map from the uuids of the live VDIs to their records,
    and what adding, updating and deleting do to it (sm/srmetadata.py:253-337, 430-444). */
module LiveView {
  import opened Dicts
  import opened SlotCodec
  import opened SlotTable

  type Record = map<string, string>

  /** A record without the two tags that are about its slot. */
  function View(d: Dict): Record {
    ToMap(d) - {DELETED, OFFSET}
  }

  /** A record with what is left of its names when it has been written. */
  function Shorten(r: Record): Record {
    if LABEL in r && DESCRIPTION in r then
      r[LABEL := ShortName(r[LABEL], r[DESCRIPTION])][DESCRIPTION := ShortName(r[DESCRIPTION], r[LABEL])]
    else r
  }

  lemma ShortEnough(r: Record)
    requires LABEL in r && DESCRIPTION in r && !TooLong(r[LABEL], r[DESCRIPTION])
    ensures Shorten(r) == r
  {
  }

  function LiveUuids(t: Table): set<string> {
    set i | 0 <= i < |t| && !Dead(t[i]) :: Value(t[i], UUID)
  }

  function Live(t: Table): map<string, Record> {
    map u | u in LiveUuids(t) :: if FindLive(t, u) < |t| then View(t[FindLive(t, u)]) else map[]
  }

  predicate LivePair(t: Table, i: int, j: int) {
    0 <= i < j < |t| && !Dead(t[i]) && !Dead(t[j])
  }

  /** No two live records have the same uuid. */
  ghost predicate Unique(t: Table) {
    forall i, j :: LivePair(t, i, j) ==> Value(t[i], UUID) != Value(t[j], UUID)
  }

  lemma FoundExactly(t: Table, uuid: string)
    ensures FindLive(t, uuid) < |t| <==> uuid in LiveUuids(t)
  {
    if uuid in LiveUuids(t) {
      var i :| 0 <= i < |t| && !Dead(t[i]) && Value(t[i], UUID) == uuid;
      assert FindLive(t, uuid) <= i;
    }
  }

  lemma LiveLookup(t: Table, u: string)
    requires FindLive(t, u) < |t|
    ensures u in Live(t) && Live(t)[u] == View(t[FindLive(t, u)])
  {
    hide View, Dead, Value;
    FoundExactly(t, u);
  }

  /** With unique uuids the view has every live record under its own. */
  lemma LiveAt(t: Table, i: nat)
    requires Unique(t) && i < |t| && !Dead(t[i])
    ensures FindLive(t, Value(t[i], UUID)) == i
    ensures Value(t[i], UUID) in Live(t) && Live(t)[Value(t[i], UUID)] == View(t[i])
  {
    hide View, Dead, Value;
    var u := Value(t[i], UUID);
    assert u in LiveUuids(t);
    FoundExactly(t, u);
    hide Live, LiveUuids;
    LiveLookup(t, u);
    var j := FindLive(t, u);
    assert !LivePair(t, j, i) && !LivePair(t, i, j);
  }

  /** Two views are the same when they have the same live records. */
  lemma LiveIs(t: Table, m: map<string, Record>)
    requires Unique(t)
    requires m.Keys == LiveUuids(t)
    requires forall i :: 0 <= i < |t| && !Dead(t[i]) ==> m[Value(t[i], UUID)] == View(t[i])
    ensures Live(t) == m
  {
    forall u | u in m ensures Live(t)[u] == m[u] {
      var i :| 0 <= i < |t| && !Dead(t[i]) && Value(t[i], UUID) == u;
      LiveAt(t, i);
    }
  }

  // ---- One slot replaced ----

  /** A slot whose record was dead, or had the same uuid, takes a live record. */
  lemma PutLive(t: Table, i: nat, d: Dict)
    requires Unique(t) && i < |t| && !Dead(d)
    requires if Dead(t[i]) then Value(d, UUID) !in LiveUuids(t) else Value(t[i], UUID) == Value(d, UUID)
    ensures Unique(t[i := d])
    ensures Live(t[i := d]) == Live(t)[Value(d, UUID) := View(d)]
  {
    hide View, Dead, Value;
    var t1 := t[i := d];
    var u := Value(d, UUID);
    forall a, b | LivePair(t1, a, b) ensures Value(t1[a], UUID) != Value(t1[b], UUID) {
      if a != i && b != i {
        assert LivePair(t, a, b);
      } else {
        OtherUuid(t, i, d, if a == i then b else a);
      }
    }
    forall v ensures v in LiveUuids(t1) <==> v in LiveUuids(t) + {u} {
      PutUuids(t, i, d, v);
    }
    forall a | 0 <= a < |t1| && !Dead(t1[a]) ensures Live(t)[u := View(d)][Value(t1[a], UUID)] == View(t1[a]) {
      if a != i {
        OtherUuid(t, i, d, a);
        LiveAt(t, a);
      }
    }
    LiveIs(t1, Live(t)[u := View(d)]);
  }

  lemma OtherUuid(t: Table, i: nat, d: Dict, a: nat)
    requires Unique(t) && i < |t| && a < |t| && a != i && !Dead(t[a])
    requires if Dead(t[i]) then Value(d, UUID) !in LiveUuids(t) else Value(t[i], UUID) == Value(d, UUID)
    ensures Value(t[a], UUID) != Value(d, UUID)
  {
    hide Dead, Value;
    if Dead(t[i]) {
      assert Value(t[a], UUID) in LiveUuids(t);
    } else if a < i {
      assert LivePair(t, a, i);
    } else {
      assert LivePair(t, i, a);
    }
  }

  lemma PutUuids(t: Table, i: nat, d: Dict, v: string)
    requires i < |t| && !Dead(d)
    requires !Dead(t[i]) ==> Value(t[i], UUID) == Value(d, UUID)
    ensures v in LiveUuids(t[i := d]) <==> v in LiveUuids(t) || v == Value(d, UUID)
  {
    hide Dead, Value;
    var t1 := t[i := d];
    if v in LiveUuids(t1) {
      var a :| 0 <= a < |t1| && !Dead(t1[a]) && Value(t1[a], UUID) == v;
      assert a != i ==> t1[a] == t[a];
    }
    if v in LiveUuids(t) {
      var a :| 0 <= a < |t| && !Dead(t[a]) && Value(t[a], UUID) == v;
      assert a != i ==> t1[a] == t[a];
    }
    assert t1[i] == d;
  }

  /** A live record behind the end. */
  lemma AppendLive(t: Table, d: Dict)
    requires Unique(t) && !Dead(d) && Value(d, UUID) !in LiveUuids(t)
    ensures Unique(t + [d])
    ensures Live(t + [d]) == Live(t)[Value(d, UUID) := View(d)]
  {
    hide View, Dead, Value;
    var t1 := t + [d];
    var u := Value(d, UUID);
    forall a, b | LivePair(t1, a, b) ensures Value(t1[a], UUID) != Value(t1[b], UUID) {
      if b < |t| {
        assert LivePair(t, a, b);
      } else {
        assert Value(t[a], UUID) in LiveUuids(t);
      }
    }
    forall v ensures v in LiveUuids(t1) <==> v in LiveUuids(t) + {u} {
      if v in LiveUuids(t) {
        var a :| 0 <= a < |t| && !Dead(t[a]) && Value(t[a], UUID) == v;
        assert t1[a] == t[a];
      }
      assert t1[|t|] == d;
    }
    forall a | 0 <= a < |t1| && !Dead(t1[a]) ensures Live(t)[u := View(d)][Value(t1[a], UUID)] == View(t1[a]) {
      if a < |t| {
        assert Value(t[a], UUID) in LiveUuids(t);
        LiveAt(t, a);
      }
    }
    LiveIs(t1, Live(t)[u := View(d)]);
  }

  /** A live record is replaced by a dead one. */
  lemma PutDead(t: Table, i: nat, d: Dict)
    requires Unique(t) && i < |t| && !Dead(t[i]) && Dead(d)
    ensures Unique(t[i := d])
    ensures Live(t[i := d]) == Live(t) - {Value(t[i], UUID)}
  {
    hide View, Dead, Value;
    var t1 := t[i := d];
    var u := Value(t[i], UUID);
    forall a, b | LivePair(t1, a, b) ensures Value(t1[a], UUID) != Value(t1[b], UUID) {
      assert LivePair(t, a, b);
    }
    forall a | 0 <= a < |t| && a != i && !Dead(t[a]) ensures Value(t[a], UUID) != u && t1[a] == t[a] {
      if a < i {
        assert LivePair(t, a, i);
      } else {
        assert LivePair(t, i, a);
      }
    }
    forall v ensures v in LiveUuids(t1) <==> v in LiveUuids(t) - {u} {
    }
    forall a | 0 <= a < |t1| && !Dead(t1[a]) ensures (Live(t) - {u})[Value(t1[a], UUID)] == View(t1[a]) {
      LiveAt(t, a);
    }
    LiveIs(t1, Live(t) - {u});
  }

  /** Dead slots at the end can be dropped. */
  lemma DropDead(t: Table)
    requires Unique(t) && t != [] && Dead(t[|t| - 1])
    ensures Unique(t[..|t| - 1])
    ensures Live(t[..|t| - 1]) == Live(t)
  {
    hide View, Dead, Value;
    var t1 := t[..|t| - 1];
    forall a, b | LivePair(t1, a, b) ensures Value(t1[a], UUID) != Value(t1[b], UUID) {
      assert LivePair(t, a, b);
    }
    forall v ensures v in LiveUuids(t1) <==> v in LiveUuids(t) {
      if v in LiveUuids(t) {
        var a :| 0 <= a < |t| && !Dead(t[a]) && Value(t[a], UUID) == v;
        assert t1[a] == t[a];
      }
    }
    forall a | 0 <= a < |t1| && !Dead(t1[a]) ensures Live(t)[Value(t1[a], UUID)] == View(t1[a]) {
      LiveAt(t, a);
    }
    LiveIs(t1, Live(t));
  }
}
