/** The scan of the table and the text that is written back, for one slot at a time
    (sm/srmetadata.py:278-302, 351-427, 525-584). */
module TableScan {
  import opened Options
  import opened BlockRanges
  import opened Dicts
  import opened XmlText
  import opened SlotCodec
  import opened SlotTable
  import opened TableOps

  /** A slot is a range of its own. */
  lemma SlotRange(i: nat, lower: nat, upper: nat, n: nat)
    requires lower == BlockStart(SECTOR, Place(i)) && WholeBlocks(SECTOR, lower, upper, SLOT, n)
    ensures lower == Place(i) && upper == Place(i + 1)
  {
  }

  // ---- What a scan finds ----

  /** The parameters of getMetadataInternal that the operations use. */
  datatype Params = Params(uuid: Option<string>, firstDeleted: bool, includeDeleted: bool)

  datatype Entry = Entry(offset: nat, record: Dict)

  datatype Scanned = Scanned(lower: nat, upper: nat, offset: Option<nat>, foundDeleted: bool, vdis: seq<Entry>)

  predicate Skips(p: Params, d: Dict) {
    !p.includeDeleted && Dead(d)
  }

  predicate Stops(p: Params, d: Dict) {
    !Skips(p, d) && if p.uuid.Some? then Value(d, UUID) == p.uuid.value else p.firstDeleted && Dead(d)
  }

  function StopAt(t: Table, p: Params): (i: nat)
    ensures i <= |t|
    ensures i < |t| ==> Stops(p, t[i])
    ensures forall j :: 0 <= j < i ==> !Stops(p, t[j])
  {
    if t == [] then 0 else if Stops(p, t[0]) then 0 else 1 + StopAt(t[1..], p)
  }

  function Entries(t: Table, p: Params, n: nat): seq<Entry>
    requires n <= |t|
  {
    if n == 0 then []
    else Entries(t, p, n - 1) + if Skips(p, t[n - 1]) then [] else [Entry(Place(n - 1), InMemory(t[n - 1], n - 1))]
  }

  function Expected(t: Table, p: Params): Scanned {
    var s := StopAt(t, p);
    if s < |t| then Scanned(Place(s), Place(s + 1), Some(Place(s)), p.uuid.None?, Entries(t, p, s + 1))
    else Scanned(0, Place(|t|), None, false, Entries(t, p, |t|))
  }

  function ByUuid(uuid: string): Params {
    Params(Some(uuid), false, false)
  }

  const FIRST_DELETED := Params(None, true, true)

  /** The scan for a uuid stops at the live record the table has for it, and the scan
      for a deleted record at the first dead one. */
  lemma ScansFind(t: Table, uuid: string)
    ensures StopAt(t, ByUuid(uuid)) == FindLive(t, uuid)
    ensures StopAt(t, FIRST_DELETED) == FirstDead(t)
  {
    var i, j := StopAt(t, ByUuid(uuid)), FindLive(t, uuid);
    assert j < |t| ==> Stops(ByUuid(uuid), t[j]);
    assert i < |t| ==> !Dead(t[i]) && Value(t[i], UUID) == uuid;
    var k, l := StopAt(t, FIRST_DELETED), FirstDead(t);
    assert l < |t| ==> Stops(FIRST_DELETED, t[l]);
  }

  /** Without a uuid and without asking for a deleted record, everything that is not
      skipped is found: each live record, and no dead one unless asked for. */
  lemma {:induction false} EntriesAre(t: Table, p: Params, n: nat)
    requires n <= |t|
    ensures forall i :: 0 <= i < n && !Skips(p, t[i]) ==> Entry(Place(i), InMemory(t[i], i)) in Entries(t, p, n)
    ensures forall e :: e in Entries(t, p, n) ==>
              exists i :: 0 <= i < n && !Skips(p, t[i]) && e == Entry(Place(i), InMemory(t[i], i))
  {
    hide Skips, InMemory;
    if n > 0 {
      EntriesAre(t, p, n - 1);
    }
  }

  /** The record a scan stops at is the last it returns; those before it are in front. */
  lemma LastEntry(t: Table, p: Params)
    requires StopAt(t, p) < |t|
    ensures var s := StopAt(t, p);
            var vs := Entries(t, p, s + 1);
            && vs != [] && vs[|vs| - 1] == Entry(Place(s), InMemory(t[s], s))
            && (forall j :: 0 <= j < |vs| - 1 ==> vs[j].offset < Place(s))
            && FirstFrom(vs, Place(s)) == |vs| - 1
  {
    hide InMemory, StopAt;
    var s := StopAt(t, p);
    EntriesAre(t, p, s);
    var front := Entries(t, p, s);
    forall j | 0 <= j < |front| ensures front[j].offset < Place(s) {
      assert front[j] in front;
    }
  }

  /** The first entry at or behind `lower`. */
  function FirstFrom(vs: seq<Entry>, lower: nat): (k: nat)
    ensures k <= |vs|
    ensures k < |vs| ==> vs[k].offset >= lower
    ensures forall j :: 0 <= j < k ==> vs[j].offset < lower
  {
    if vs == [] then 0 else if vs[0].offset >= lower then 0 else 1 + FirstFrom(vs[1..], lower)
  }

  // ---- What is written back ----

  /** getVdiInfo for one of the two sectors. */
  function Sector(d: Dict, n: nat): Option<string> {
    if n != 1 then Some(GetSector(SecondText(WithDeleted(d))))
    else if !Has(d, LABEL) || !Has(d, DESCRIPTION) then None
    else
      var (l, s) := Shown(Escape(Value(d, LABEL)), Escape(Value(d, DESCRIPTION)));
      Some(GetSector(FirstText(l, s)))
  }

  /** for key in update: record[key] = update[key] */
  method Overwrite(record: Dict, update: Dict) returns (r: Dict)
    ensures r == Merge(record, update)
  {
    r := record;
    for k := 0 to |update|
      invariant r == Merge(record, update[..k])
    {
      assert update[..k + 1][..k] == update[..k];
      r := Set(r, update[k].tag, update[k].value);
    }
    assert update[..|update|] == update;
  }

  /** Each of the two by itself makes up the slot, and the first is always one sector. */
  lemma SectorsAreSlot(d: Dict)
    ensures Sector(d, 1).Some? ==> |Sector(d, 1).value| == SECTOR
    ensures Sector(d, 2).Some?
    ensures Render(d) == if Sector(d, 1).Some? then Some(Sector(d, 1).value + Sector(d, 2).value) else None
  {
    hide Escape, Value, SecondText, WithDeleted, Shown, FirstText;
    FirstSectorIsOneSector(Escape(Value(d, LABEL)), Escape(Value(d, DESCRIPTION)));
  }

  /** Both sectors of a record are appended as long as there is room for a character. */
  method AppendSectors(value: string, record: Dict, room: int) returns (r: Option<string>)
    ensures |value| >= room ==> r == Some(value)
    ensures value == "" && room == SLOT ==> r == Render(record)
  {
    hide Sector, Render;
    SectorsAreSlot(record);
    var text := value;
    for i := 1 to 3
      invariant |value| >= room ==> text == value
      invariant value == "" && room == SLOT && i == 1 ==> text == ""
      invariant value == "" && room == SLOT && i == 2 ==> Sector(record, 1) == Some(text)
      invariant value == "" && room == SLOT && i == 3 ==> Render(record) == Some(text)
    {
      if |text| < room {
        match Sector(record, i) {
          case None =>
            return None;
          case Some(s) =>
            assert "" + s == s;
            text := text + s;
        }
      }
    }
    r := Some(text);
  }

  /** generateVDIsForRange. When the range is the slot of the record to be updated, the
      text is that record, overwritten tag by tag; when no record is at the offset, it
      is the new record, and `left` is what becomes of its dictionary. */
  method GenerateVdis(vdis: seq<Entry>, lower: nat, upper: nat, update: Dict, offset: nat)
    returns (r: Option<string>, left: Dict)
    ensures (forall e :: e in vdis ==> e.offset != offset) ==>
              r == Render(update) && (r.Some? ==> left == Escaped(update))
    ensures var k := FirstFrom(vdis, lower);
            k < |vdis| && vdis[k].offset == lower == offset && upper == lower + SLOT
            ==> r == Render(Merge(vdis[k].record, update)) && left == update
  {
    hide Render, Merge, FirstFrom, Escaped;
    if !(exists e :: e in vdis && e.offset == offset) {
      return Render(update), Escaped(update);
    }
    left := update;
    ghost var k := FirstFrom(vdis, lower);
    ghost var own := k < |vdis| && vdis[k].offset == lower == offset && upper == lower + SLOT;
    var value := "";
    var j := 0;
    while j < |vdis|
      invariant 0 <= j <= |vdis|
      invariant own && j <= k ==> value == ""
      invariant own && j > k ==> Render(Merge(vdis[k].record, update)) == Some(value) && |value| >= SLOT
    {
      var e := vdis[j];
      if e.offset >= lower {
        if |value| >= upper - lower {
          break;
        }
        var record := e.record;
        if e.offset == offset {
          record := Overwrite(record, update);
        }
        var t := AppendSectors(value, record, upper - lower);
        match t {
          case None =>
            return None, update;
          case Some(text) =>
            RenderedLength(record);
            value := text;
        }
      }
      j := j + 1;
    }
    r := Some(value);
  }

  lemma RenderedLength(d: Dict)
    ensures Render(d).Some? ==> |Render(d).value| >= SLOT
  {
    hide Escape, Value, SecondText, WithDeleted, Shown, FirstText;
  }
}
