/** The device as the metadata code reads it, and what each write does to that
    reading (sm/srmetadata.py:95-135, 181-209, 351-443). */
module SlotTable {
  import opened Options
  import opened Dicts
  import opened SlotCodec
  import opened SrHeader

  const FIRST := 2048        // SR_INFO_SIZE_IN_SECTORS sectors
  const UUID := "uuid"
  const OFFSET := "offset"

  type Device = seq<char>

  /** The records of the table, in slot order, as they are stored. */
  type Table = seq<Dict>

  function Place(i: nat): nat {
    FIRST + SLOT * i
  }

  // ---- Reading ----

  function LengthOf(dev: Device): Option<nat> {
    if |dev| < SECTOR then None else ParseLength(dev[..SECTOR])
  }

  function SlotText(dev: Device, i: nat): string
    requires Place(i + 1) <= |dev|
  {
    dev[Place(i)..Place(i + 1)]
  }

  /** The device holds exactly this table. */
  ghost predicate ReadsAs(dev: Device, t: Table) {
    && Place(|t|) <= |dev| < MAX_LENGTH
    && LengthOf(dev) == Some(Place(|t|))
    && forall i :: 0 <= i < |t| ==> ParseSlot(SlotText(dev, i)) == Some(t[i])
  }

  /** A device holds at most one table. */
  lemma ReadsOneWay(dev: Device, t: Table, t': Table)
    requires ReadsAs(dev, t) && ReadsAs(dev, t')
    ensures t == t'
  {
    forall i | 0 <= i < |t| ensures t[i] == t'[i] {
      assert ParseSlot(SlotText(dev, i)) == Some(t[i]);
    }
  }

  predicate Dead(d: Dict) {
    Value(d, DELETED) == "1"
  }

  /** Every record can be written again and carries the tags the code relies on. */
  ghost predicate Sound(t: Table) {
    forall i :: 0 <= i < |t| ==> Clean(t[i]) && Has(t[i], DELETED) && Has(t[i], UUID)
  }

  /** A record as getMetadataInternal hands it out. */
  function InMemory(d: Dict, i: nat): Dict {
    Set(d, OFFSET, Dec(Place(i)))
  }

  function FirstDead(t: Table): (i: nat)
    ensures i <= |t|
    ensures i < |t| ==> Dead(t[i])
    ensures forall j :: 0 <= j < i ==> !Dead(t[j])
  {
    if t == [] then 0 else if Dead(t[0]) then 0 else 1 + FirstDead(t[1..])
  }

  function FindLive(t: Table, uuid: string): (i: nat)
    ensures i <= |t|
    ensures i < |t| ==> !Dead(t[i]) && Value(t[i], UUID) == uuid
    ensures forall j :: 0 <= j < i ==> Dead(t[j]) || Value(t[j], UUID) != uuid
  {
    if t == [] then 0
    else if !Dead(t[0]) && Value(t[0], UUID) == uuid then 0
    else 1 + FindLive(t[1..], uuid)
  }

  // ---- Writing ----

  /** file_write_wrapper: padded to whole sectors. */
  function Padded(text: string): string {
    if |text| % SECTOR == 0 then text else text + Spaces(SECTOR - |text| % SECTOR)
  }

  function Write(dev: Device, at: nat, text: string): Device
    requires at + |Padded(text)| <= |dev|
  {
    dev[..at] + Padded(text) + dev[at + |Padded(text)|..]
  }

  lemma WriteIsLocal(dev: Device, at: nat, text: string)
    requires at + |Padded(text)| <= |dev|
    ensures var w := Write(dev, at, text);
            && |w| == |dev|
            && w[at..at + |Padded(text)|] == Padded(text)
            && (forall lo, hi :: 0 <= lo <= hi <= at ==> w[lo..hi] == dev[lo..hi])
            && (forall lo, hi :: at + |Padded(text)| <= lo <= hi <= |dev| ==> w[lo..hi] == dev[lo..hi])
  {
    var w := Write(dev, at, text);
    forall lo, hi | at + |Padded(text)| <= lo <= hi <= |dev| ensures w[lo..hi] == dev[lo..hi] {
      assert forall k :: lo <= k < hi ==> w[k] == dev[k];
    }
  }

  /** updateLengthInHeader */
  function SetLength(dev: Device, length: nat): Device
    requires SECTOR <= |dev| && length < MAX_LENGTH
  {
    HeaderLength(length);
    Write(dev, 0, BuildHeader(length))
  }

  /** Of the first `n` slots only slot `i` may have changed. */
  ghost predicate OtherSlotsKept(dev: Device, dev': Device, n: nat, i: nat) {
    && Place(n) <= |dev| == |dev'|
    && forall j :: 0 <= j < n && j != i ==> SlotText(dev', j) == SlotText(dev, j)
  }

  lemma SlotWriteReads(dev: Device, t: Table, i: nat, text: string, d: Dict)
    requires ReadsAs(dev, t) && i < |t| && |text| == SLOT && ParseSlot(text) == Some(d)
    ensures ReadsAs(Write(dev, Place(i), text), t[i := d])
    ensures OtherSlotsKept(dev, Write(dev, Place(i), text), |t|, i)
  {
    hide ParseSlot, ParseLength, Write;
    assert Padded(text) == text;
    WriteIsLocal(dev, Place(i), text);
    var w := Write(dev, Place(i), text);
    assert w[0..SECTOR] == dev[0..SECTOR];
    forall j | 0 <= j < |t| ensures ParseSlot(SlotText(w, j)) == Some(t[i := d][j]) {
      assert ParseSlot(SlotText(dev, j)) == Some(t[j]);
    }
  }

  /** A slot written behind the end is not seen before the header says so. */
  lemma SlotBehindReads(dev: Device, t: Table, text: string, d: Dict)
    requires ReadsAs(dev, t) && |text| == SLOT && ParseSlot(text) == Some(d)
    requires Place(|t| + 1) <= |dev|
    ensures ReadsAs(Write(dev, Place(|t|), text), t)
    ensures OtherSlotsKept(dev, Write(dev, Place(|t|), text), |t|, |t|)
    ensures ParseSlot(SlotText(Write(dev, Place(|t|), text), |t|)) == Some(d)
  {
    hide ParseSlot, ParseLength, Write;
    assert Padded(text) == text;
    WriteIsLocal(dev, Place(|t|), text);
    var w := Write(dev, Place(|t|), text);
    assert w[0..SECTOR] == dev[0..SECTOR];
    forall j | 0 <= j < |t| ensures ParseSlot(SlotText(w, j)) == Some(t[j]) {
      assert ParseSlot(SlotText(dev, j)) == Some(t[j]);
    }
  }

  lemma LengthReads(dev: Device, length: nat)
    requires SECTOR <= |dev| && length < MAX_LENGTH
    ensures var w := SetLength(dev, length);
            && |w| == |dev| && LengthOf(w) == Some(length)
            && forall lo, hi :: SECTOR <= lo <= hi <= |dev| ==> w[lo..hi] == dev[lo..hi]
  {
    hide ParseLength, Write, BuildHeader;
    HeaderLength(length);
    var h := BuildHeader(length);
    WriteIsLocal(dev, 0, h);
    assert |Padded(h)| == SECTOR;
    HeaderRoundTrip(length, Spaces(SECTOR - |h|));
    var w := SetLength(dev, length);
    assert w[..SECTOR] == w[0..SECTOR];
  }

  lemma LengthKeepsSlots(dev: Device, dev': Device, n: nat, i: nat, length: nat)
    requires OtherSlotsKept(dev, dev', n, i) && SECTOR <= |dev| && length < MAX_LENGTH
    ensures OtherSlotsKept(dev, SetLength(dev', length), n, i)
  {
    hide LengthOf, SetLength;
    LengthReads(dev', length);
  }

  /** The header cuts the table off behind any slot. */
  lemma ShrinkReads(dev: Device, t: Table, n: nat)
    requires ReadsAs(dev, t) && n <= |t|
    ensures ReadsAs(SetLength(dev, Place(n)), t[..n])
  {
    hide ParseSlot, SetLength, LengthOf;
    LengthReads(dev, Place(n));
    var w := SetLength(dev, Place(n));
    forall j | 0 <= j < n ensures ParseSlot(SlotText(w, j)) == Some(t[..n][j]) {
      assert ParseSlot(SlotText(dev, j)) == Some(t[j]);
    }
  }

  /** The header takes in a slot that has been written behind the end. */
  lemma GrowReads(dev: Device, t: Table, d: Dict)
    requires ReadsAs(dev, t) && Place(|t| + 1) <= |dev|
    requires ParseSlot(SlotText(dev, |t|)) == Some(d)
    ensures ReadsAs(SetLength(dev, Place(|t| + 1)), t + [d])
  {
    hide ParseSlot, SetLength, LengthOf;
    LengthReads(dev, Place(|t| + 1));
    var w := SetLength(dev, Place(|t| + 1));
    forall j | 0 <= j < |t| + 1 ensures ParseSlot(SlotText(w, j)) == Some((t + [d])[j]) {
      if j < |t| {
        assert ParseSlot(SlotText(dev, j)) == Some(t[j]);
      }
    }
  }
}
