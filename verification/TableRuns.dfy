/** Whole runs of table operations: the live view is what the operations mean on a map,
    and the table is never longer than the largest number of VDIs that were live at one
    time (sm/srmetadata.py:253-337, 430-444, 497-523). */
module TableRuns {
  import opened Options
  import opened Dicts
  import opened SlotCodec
  import opened SrHeader
  import opened SlotTable
  import opened LiveView
  import opened TableOps
  import opened TableTheorems

  datatype Op =
    | Add(d: Dict)
    | Update(d: Dict)
    | Delete(uuid: string)
    | CheckSpace(uuid: string)

  /** The device, and the table it holds. */
  datatype Volume = Volume(dev: Device, table: Table)

  ghost predicate Good(v: Volume) {
    Holds(v.dev, v.table)
  }

  /** What spaceAvailableForVdis adds and deletes again, under a uuid of its own. */
  function Dummy(uuid: string): Dict {
    [Field(UUID, uuid), Field(LABEL, "dummy vdi for space check"), Field(DESCRIPTION, "dummy vdi for space check"),
     Field("is_a_snapshot", "0"), Field("snapshot_of", ""), Field("snapshot_time", ""), Field("type", "user"),
     Field("vdi_type", "vhd"), Field("read_only", "0"), Field("managed", "0"), Field("metadata_of_pool", "")]
  }

  /** What callers can check before each operation. */
  ghost predicate Allowed(v: Volume, op: Op) {
    match op
    case Add(d) => CanAdd(v.dev, v.table, d)
    case Update(d) => CanUpdate(v.table, d)
    case Delete(uuid) => CanDelete(v.dev, v.table, uuid)
    case CheckSpace(uuid) => CanAdd(v.dev, v.table, Dummy(uuid)) && CanMark(AddTable(v.table, Dummy(uuid)), uuid)
  }

  ghost predicate Fits(v: Volume) {
    SECTOR <= |v.dev| < MAX_LENGTH && Place(|v.table|) <= |v.dev|
  }

  function AddTo(v: Volume, d: Dict): Volume
    requires Fits(v)
  {
    Volume(Last(v.dev, AddEffect(v.dev, v.table, d)), AddTable(v.table, d))
  }

  function UpdateIn(v: Volume, d: Dict): Volume {
    Volume(Last(v.dev, UpdateEffect(v.dev, v.table, d)), UpdateTable(v.table, d))
  }

  function DeleteFrom(v: Volume, uuid: string): Volume
    requires Fits(v)
  {
    Volume(Last(v.dev, DeleteEffect(v.dev, v.table, uuid)), DeleteTable(v.table, uuid))
  }

  ghost predicate Step(v: Volume, op: Op, v': Volume) {
    && Fits(v) && Allowed(v, op)
    && match op
       case Add(d) => v' == AddTo(v, d)
       case Update(d) => v' == UpdateIn(v, d)
       case Delete(uuid) => v' == DeleteFrom(v, uuid)
       case CheckSpace(uuid) => var w := AddTo(v, Dummy(uuid)); Fits(w) && v' == DeleteFrom(w, uuid)
  }

  ghost predicate IsRun(vs: seq<Volume>, ops: seq<Op>) {
    && |vs| == |ops| + 1
    && forall k :: 0 <= k < |ops| ==> Step(vs[k], ops[k], vs[k + 1])
  }

  /** The tags a new record finds in the slot it goes to. */
  function Leftover(t: Table): Record {
    var i := FirstDead(t);
    if i < |t| then View(t[i]) else map[]
  }

  /** What an operation means for a map from uuid to record. Adding goes on top of
      what was left in the slot; checking for space means nothing. */
  function Meaning(m: map<string, Record>, op: Op, left: Record): map<string, Record> {
    match op
    case Add(d) => m[Value(d, UUID) := Shorten(left + (ToMap(d) - {DELETED, OFFSET}))]
    case Update(d) =>
      var u := Value(d, UUID);
      if u in m then m[u := Shorten(m[u] + (ToMap(d) - {DELETED, OFFSET}))] else m
    case Delete(uuid) => m - {uuid}
    case CheckSpace(uuid) => m
  }

  // ---- One operation ----

  lemma DummyIsGood(uuid: string)
    ensures Value(Dummy(uuid), UUID) == uuid
  {
  }

  function Max(a: nat, b: nat): nat {
    if a < b then b else a
  }

  /** The number of slots when none of them is dead. */
  lemma {:induction false} AllLive(t: Table)
    requires Unique(t) && forall i :: 0 <= i < |t| ==> !Dead(t[i])
    ensures |LiveUuids(t)| == |t|
  {
    hide Value, Dead;
    if t == [] {
      assert LiveUuids(t) == {};
    } else {
      var n := |t| - 1;
      var front := t[..n];
      forall i, j | LivePair(front, i, j) ensures Value(front[i], UUID) != Value(front[j], UUID) {
        assert LivePair(t, i, j);
      }
      AllLive(front);
      var u := Value(t[n], UUID);
      forall i | 0 <= i < n ensures Value(front[i], UUID) != u {
        assert LivePair(t, i, n);
      }
      forall v ensures v in LiveUuids(t) <==> v in LiveUuids(front) + {u} {
        if v in LiveUuids(front) {
          var i :| 0 <= i < n && !Dead(front[i]) && Value(front[i], UUID) == v;
          assert t[i] == front[i];
        }
        if v in LiveUuids(t) {
          var i :| 0 <= i < |t| && !Dead(t[i]) && Value(t[i], UUID) == v;
          assert i < n ==> front[i] == t[i];
        }
        assert t[n] == t[n];
      }
      assert LiveUuids(t) == LiveUuids(front) + {u};
    }
  }

  /** A slot is added only when every slot is live. */
  lemma AddedSlotIsLive(t: Table, d: Dict)
    requires Sound(t) && Unique(t) && Distinct(d) && GoodFields(d) && Has(d, UUID)
    requires Value(d, UUID) !in LiveUuids(t) && Clean(AddRecord(t, d))
    ensures |AddTable(t, d)| <= Max(|t|, |Live(AddTable(t, d))|)
  {
    hide Clean, Stored, AddRecord, View, Value, Dead, GoodFields, Live, LiveUuids, Unique, Sound;
    AddTableLive(t, d);
    if FirstDead(t) == |t| {
      AllLive(t);
      LiveKeys(t);
      assert |Live(AddTable(t, d)).Keys| == |t| + 1;
    }
  }

  lemma LiveKeys(t: Table)
    ensures Live(t).Keys == LiveUuids(t)
  {
  }

  /** Each operation keeps the volume in order and does to the live view what it
      means. The table gets longer only when all its slots are live. */
  lemma StepRefines(v: Volume, op: Op, v': Volume)
    requires Good(v) && Step(v, op, v')
    ensures Good(v') && |v'.dev| == |v.dev|
    ensures Live(v'.table) == Meaning(Live(v.table), op, Leftover(v.table))
    ensures |v'.table| <= Max(|v.table|, |Live(v'.table)|)
    ensures !op.Add? ==> |v'.table| <= |v.table|
  {
    hide Holds, CanAdd, CanUpdate, CanDelete, CanMark, AddTable, UpdateTable, DeleteTable, Live, View, Value, AddEffect,
         UpdateEffect, DeleteEffect, OtherSlotsKept, AddRecord, ToMap, Dummy, Leftover;
    match op {
      case Add(d) =>
        AddKeeps(v.dev, v.table, d);
      case Update(d) =>
        UpdateIsAtomic(v.dev, v.table, d);
        UpdateSize(v.table, d);
      case Delete(uuid) =>
        DeleteIsAtomic(v.dev, v.table, uuid);
        DeleteSize(v.table, uuid);
      case CheckSpace(uuid) =>
        CheckSpaceKeeps(v, uuid);
    }
  }

  /** The record that is added: the given tags over what was left in the slot. */
  lemma AddedView(t: Table, d: Dict)
    requires Sound(t) && Distinct(d) && GoodFields(d)
    ensures View(AddRecord(t, d)) == Leftover(t) + (ToMap(d) - {DELETED, OFFSET})
  {
    hide Clean, ToMap, AddRecord, GoodFields;
    AddRecordMap(t, d);
    var i := FirstDead(t);
    if i < |t| {
      assert (ToMap(t[i])[OFFSET := Dec(Place(i))] + ToMap(d)[DELETED := "0"]) - {DELETED, OFFSET}
          == View(t[i]) + (ToMap(d) - {DELETED, OFFSET});
    } else {
      assert ToMap(d)[DELETED := "0"] - {DELETED, OFFSET} == map[] + (ToMap(d) - {DELETED, OFFSET});
    }
  }

  lemma AddKeeps(dev: Device, t: Table, d: Dict)
    requires Holds(dev, t) && CanAdd(dev, t, d)
    requires SECTOR <= |dev| < MAX_LENGTH && Place(|t|) <= |dev|
    ensures var w := Last(dev, AddEffect(dev, t, d));
            && |w| == |dev| && Holds(w, AddTable(t, d)) && Place(|AddTable(t, d)|) <= |w|
    ensures Live(AddTable(t, d)) == Live(t)[Value(d, UUID) := Shorten(Leftover(t) + (ToMap(d) - {DELETED, OFFSET}))]
    ensures |AddTable(t, d)| <= Max(|t|, |Live(AddTable(t, d))|)
  {
    hide AddTable, Live, View, Value, AddRecord, AddEffect, Clean, GoodFields, NamesFit, RestFits,
         Unique, Sound, OtherSlotsKept, Leftover, ToMap;
    AddIsAtomic(dev, t, d);
    AddedView(t, d);
    AddedSlotIsLive(t, d);
    SizeOfHeld(Last(dev, AddEffect(dev, t, d)), AddTable(t, d));
  }

  lemma UpdateSize(t: Table, d: Dict)
    ensures |UpdateTable(t, d)| == |t|
  {
    hide UpdateRecord;
  }

  lemma DeleteSize(t: Table, uuid: string)
    ensures |DeleteTable(t, uuid)| <= |t|
    ensures FindLive(t, uuid) + 1 == |t| ==> |DeleteTable(t, uuid)| == |t| - 1
  {
    hide Tombstone;
  }

  lemma CheckSpaceKeeps(v: Volume, uuid: string)
    requires Good(v) && Fits(v) && Allowed(v, CheckSpace(uuid))
    ensures var w := AddTo(v, Dummy(uuid));
            && Fits(w)
            && var v' := DeleteFrom(w, uuid);
               && Good(v') && |v'.dev| == |v.dev|
               && Live(v'.table) == Live(v.table) && |v'.table| <= |v.table|
  {
    hide AddTable, DeleteTable, Live, View, AddEffect, DeleteEffect, CanDelete, CanMark, AddRecord, Dummy, Leftover,
         ToMap, GoodFields, Storable, Value, ReadsAs, Sound, Unique;
    var d := Dummy(uuid);
    DummyIsGood(uuid);
    AddKeeps(v.dev, v.table, d);
    var w := AddTo(v, d);
    MarkIsEnough(w.dev, w.table, uuid);
    DeleteIsAtomic(w.dev, w.table, uuid);
    DeleteSize(w.table, uuid);
    NewUuid(v.table, uuid);
    assert Live(v.table)[uuid := Shorten(Leftover(v.table) + (ToMap(d) - {DELETED, OFFSET}))] - {uuid} == Live(v.table);
    NewSize(v.dev, v.table, d);
  }

  lemma NewUuid(t: Table, u: string)
    requires u !in LiveUuids(t)
    ensures u !in Live(t)
  {
  }

  /** A record behind the end is the one its uuid finds. */
  lemma NewSize(dev: Device, t: Table, d: Dict)
    requires Holds(dev, t) && CanAdd(dev, t, d)
    ensures FirstDead(t) < |t| ==> |AddTable(t, d)| == |t|
    ensures FirstDead(t) == |t| ==> FindLive(AddTable(t, d), Value(d, UUID)) == |t| && |AddTable(t, d)| == |t| + 1
  {
    hide Stored, AddRecord, Live, View, Value, Dead, Clean, NamesFit, RestFits, ReadsAs, GoodFields;
    var t1 := AddTable(t, d);
    AddTableLive(t, d);
    AddedRecord(t, d);
    StoredView(AddRecord(t, d));
    if FirstDead(t) == |t| {
      LiveAt(t1, |t|);
    }
  }

  /** The names of every record have been cut before, if at all. */
  ghost predicate Settled(t: Table) {
    forall i :: 0 <= i < |t| ==> NamesFit(t[i])
  }

  /** Each operation keeps the names of the table short enough to be written whole. */
  lemma StepSettles(v: Volume, op: Op, v': Volume)
    requires Good(v) && Step(v, op, v') && Settled(v.table)
    ensures Settled(v'.table)
  {
    hide CanAdd, CanUpdate, CanDelete, CanMark, AddEffect, UpdateEffect, DeleteEffect, AddTable, UpdateTable,
         DeleteTable, Dummy, ReadsAs, Unique, NamesFit;
    match op {
      case Add(d) =>
        AddSettles(v, d);
      case Update(d) =>
        UpdateSettles(v.table, d);
      case Delete(uuid) =>
        DeleteSettles(v.table, uuid);
      case CheckSpace(uuid) =>
        var d := Dummy(uuid);
        AddSettles(v, d);
        AddTableInOrder(v, d);
        DeleteSettles(AddTable(v.table, d), uuid);
    }
  }

  lemma AddTableInOrder(v: Volume, d: Dict)
    requires Good(v) && CanAdd(v.dev, v.table, d)
    ensures Sound(AddTable(v.table, d))
  {
    hide AddTable, GoodFields, NamesReadable, RestFits, AddRecord, Sound, Unique, ReadsAs, Live, LiveUuids, Clean;
    AddTableLive(v.table, d);
  }

  lemma StoredFits(d: Dict)
    requires Clean(d)
    ensures NamesFit(Stored(d))
  {
    hide Clean, Stored, NamesFit;
    StoredIs(d);
  }

  lemma AddSettles(v: Volume, d: Dict)
    requires CanAdd(v.dev, v.table, d) && Settled(v.table)
    ensures Settled(AddTable(v.table, d))
  {
    hide GoodFields, NamesFit, NamesReadable, RestFits, AddRecord, Stored, Clean, LiveUuids;
    StoredFits(AddRecord(v.table, d));
  }

  lemma UpdateSettles(t: Table, d: Dict)
    requires CanUpdate(t, d) && Settled(t)
    ensures Settled(UpdateTable(t, d))
  {
    hide GoodFields, NamesFit, NamesReadable, RestFits, UpdateRecord, Stored, Clean;
    StoredFits(UpdateRecord(t, FindLive(t, Value(d, UUID)), d));
  }

  lemma DeleteSettles(t: Table, uuid: string)
    requires Sound(t) && Settled(t)
    ensures Settled(DeleteTable(t, uuid))
  {
    hide NamesFit, Tombstone, Stored, Clean;
    var i := FindLive(t, uuid);
    if i < |t| {
      TombstoneMap(t, i);
      StoredFits(Tombstone(t, i));
    }
  }

  // ---- Runs ----

  /** A freshly formatted volume: the header says there is nothing behind the SR's own
      sectors. */
  predicate Formatted(dev: Device) {
    FIRST <= |dev| < MAX_LENGTH && LengthOf(dev) == Some(FIRST)
  }

  lemma EmptyIsGood(dev: Device)
    requires Formatted(dev)
    ensures Good(Volume(dev, [])) && Live([]) == map[]
  {
    hide LengthOf;
    assert LiveUuids([]) == {};
  }

  /** Over any run the device holds a table in order, its header says 2048 and 1024 for
      each slot, and every operation does to the live view what it means. */
  lemma {:induction false} RunRefines(vs: seq<Volume>, ops: seq<Op>, k: nat)
    requires IsRun(vs, ops) && Good(vs[0]) && k <= |ops|
    ensures Good(vs[k]) && |vs[k].dev| == |vs[0].dev|
    ensures LengthOf(vs[k].dev) == Some(2048 + 1024 * |vs[k].table|)
    ensures k < |ops| ==>
              Live(vs[k + 1].table) == Meaning(Live(vs[k].table), ops[k], Leftover(vs[k].table))
  {
    hide Step, Live, LengthOf, Leftover, Meaning, Unique, Sound;
    if k > 0 {
      RunRefines(vs, ops, k - 1);
      assert Step(vs[k - 1], ops[k - 1], vs[k]);
      StepRefines(vs[k - 1], ops[k - 1], vs[k]);
    }
    if k < |ops| {
      assert Step(vs[k], ops[k], vs[k + 1]);
      StepRefines(vs[k], ops[k], vs[k + 1]);
    }
  }

  /** Starting from a formatted device, no name is ever cut twice: the names of every
      record that is written back are written whole. */
  lemma {:induction false} RunSettles(vs: seq<Volume>, ops: seq<Op>, k: nat)
    requires IsRun(vs, ops) && k <= |ops|
    requires Formatted(vs[0].dev) && vs[0].table == []
    ensures Good(vs[k]) && Settled(vs[k].table)
  {
    hide Step, Good, Formatted, Settled;
    EmptyIsGood(vs[0].dev);
    assert vs[0] == Volume(vs[0].dev, []);
    if k == 0 {
      assert Settled([]) by { NothingToSettle(); }
    } else {
      RunSettles(vs, ops, k - 1);
      assert Step(vs[k - 1], ops[k - 1], vs[k]);
      StepRefines(vs[k - 1], ops[k - 1], vs[k]);
      StepSettles(vs[k - 1], ops[k - 1], vs[k]);
    }
  }

  lemma NothingToSettle()
    ensures Settled([])
  {
  }

  /** Starting from a formatted device, there are never more slots than VDIs were live at
      some time before. */
  lemma {:induction false} SlotsAreBounded(vs: seq<Volume>, ops: seq<Op>, k: nat)
    requires IsRun(vs, ops) && k <= |ops|
    requires Formatted(vs[0].dev) && vs[0].table == []
    ensures exists j :: 0 <= j <= k && |vs[k].table| <= |Live(vs[j].table)|
  {
    hide Step, Live, Good, Formatted;
    EmptyIsGood(vs[0].dev);
    assert vs[0] == Volume(vs[0].dev, []);
    if k == 0 {
      assert |vs[0].table| <= |Live(vs[0].table)|;
    } else {
      SlotsAreBounded(vs, ops, k - 1);
      var j :| 0 <= j <= k - 1 && |vs[k - 1].table| <= |Live(vs[j].table)|;
      RunRefines(vs, ops, k - 1);
      assert Step(vs[k - 1], ops[k - 1], vs[k]);
      StepRefines(vs[k - 1], ops[k - 1], vs[k]);
      assert |vs[k].table| <= |Live(vs[if |vs[k].table| <= |vs[k - 1].table| then j else k].table)|;
    }
  }
}
