/** What one whole LVMCache.activate or deactivate call means for the counts of
    a reference and for its logical volume, taken as one atomic event
    (sm/lock.py:643-698). ActivationProtocol.dfy proves that the interleaved steps
    of any number of processes amount to a sequence of such events. */
module Activation {
  import opened RefPairs

  /** Counts of a reference and the state of the LV it names. */
  datatype LvRef = LvRef(pair: Pair, active: bool)

  datatype Outcome =
    | Counted                // only the count changed, no LVM command was run
    | Done                   // the LVM command succeeded
    | Failed(leftOn: bool)   // activate: command failed, the count was put back;
                             // leftOn when the LV came up all the same
    | GaveUp                 // deactivate: LV unknown, open, or still there after a failure
    | Reverted               // deactivate: command failed, the count was taken again

  datatype Event = Activate(binary: bool, out: Outcome) | Deactivate(binary: bool, out: Outcome)

  /** The outcomes the code can reach from `s`. */
  predicate Possible(s: LvRef, e: Event) {
    match e
    case Activate(b, out) =>
      if Total(Get(s.pair, b)) == 1 then out.Done? || out.Failed? else out.Counted?
    case Deactivate(b, out) =>
      if Total(Put(s.pair, b)) > 0 then out.Counted? else out.Done? || out.GaveUp? || out.Reverted?
  }

  function Effect(s: LvRef, e: Event): LvRef {
    match e
    case Activate(b, out) =>
      var up := Get(s.pair, b);
      (match out
       case Failed(leftOn) => LvRef(Put(up, b), s.active || leftOn)
       case Done => LvRef(up, true)
       case _ => LvRef(up, s.active))
    case Deactivate(b, out) =>
      var down := Put(s.pair, b);
      (match out
       case Reverted => LvRef(Get(down, b), s.active)
       case Done => LvRef(down, false)
       case _ => LvRef(down, s.active))
  }

  /** The state after the first `k` events of the history. */
  function Replay(s: LvRef, log: seq<Event>, k: nat): LvRef
    requires k <= |log|
  {
    if k == 0 then s else Effect(Replay(s, log, k - 1), log[k - 1])
  }

  lemma {:induction false} ReplayPrefix(s: LvRef, log: seq<Event>, more: seq<Event>, k: nat)
    requires k <= |log|
    ensures Replay(s, log + more, k) == Replay(s, log, k)
  {
    if k > 0 {
      ReplayPrefix(s, log, more, k - 1);
    }
  }

  predicate PossibleAt(s: LvRef, log: seq<Event>, k: nat) {
    k < |log| ==> Possible(Replay(s, log, k), log[k])
  }

  ghost predicate PossibleLog(s: LvRef, log: seq<Event>) {
    forall k: nat :: PossibleAt(s, log, k)
  }

  /** A counted reference has its volume active. */
  predicate Safe(s: LvRef) {
    Total(s.pair) > 0 ==> s.active
  }

  // ---- Safety, and exactly when it is lost ----

  /** A deactivation that was not owed anything: nothing was counted and the LV
      was off, but the stale cache said it was on, so the failed command made the
      code take a count that nobody had given up. */
  predicate UnderflowRevert(s: LvRef, e: Event) {
    e.Deactivate? && e.out.Reverted? && Total(s.pair) == 0 && !s.active
  }

  predicate UnderflowAt(s: LvRef, log: seq<Event>, k: nat) {
    k < |log| && UnderflowRevert(Replay(s, log, k), log[k])
  }

  predicate SafeAt(s: LvRef, log: seq<Event>, k: nat) {
    k <= |log| ==> Safe(Replay(s, log, k))
  }

  /** No call of a history gave up a count that did not exist while its cache was stale. */
  ghost predicate NoUnderflow(s: LvRef, log: seq<Event>) {
    forall k: nat :: !UnderflowAt(s, log, k)
  }

  /** Every point of a history is safe. */
  ghost predicate AlwaysSafe(s: LvRef, log: seq<Event>) {
    forall k: nat :: SafeAt(s, log, k)
  }

  lemma EventKeepsSafeExactly(s: LvRef, e: Event)
    requires Safe(s) && Proper(s.pair) && Possible(s, e)
    ensures Safe(Effect(s, e)) <==> !UnderflowRevert(s, e)
    ensures Proper(Effect(s, e).pair)
  {
    match e {
      case Activate(binary, out) =>
        ActivateKeepsSafe(s, binary, out);
      case Deactivate(binary, out) =>
        DeactivateKeepsSafe(s, binary, out);
    }
  }

  lemma ActivateKeepsSafe(s: LvRef, binary: bool, out: Outcome)
    requires Safe(s) && Proper(s.pair) && Possible(s, Activate(binary, out))
    ensures Safe(Effect(s, Activate(binary, out))) && Proper(Effect(s, Activate(binary, out)).pair)
  {
    if out.Failed? {
      FailedIsUncounted(s, binary, out);
    } else {
      Counts(s.pair, binary);
    }
  }

  /** lvchange -ay runs for the first reference only, so nothing is counted when it fails. */
  lemma FailedIsUncounted(s: LvRef, binary: bool, out: Outcome)
    requires Proper(s.pair) && out.Failed? && Possible(s, Activate(binary, out))
    ensures Effect(s, Activate(binary, out)).pair == ZERO
  {
    var up := Get(s.pair, binary);
    if binary {
      assert up == Pair(s.pair.normal, 1) && s.pair.normal == 0;
    } else {
      assert up == Pair(s.pair.normal + 1, s.pair.binary) && s.pair == ZERO;
    }
  }

  lemma DeactivateKeepsSafe(s: LvRef, binary: bool, out: Outcome)
    requires Safe(s) && Proper(s.pair) && Possible(s, Deactivate(binary, out))
    ensures Safe(Effect(s, Deactivate(binary, out))) <==> !UnderflowRevert(s, Deactivate(binary, out))
    ensures Proper(Effect(s, Deactivate(binary, out)).pair)
  {
    hide Get, Put, Total;
    Counts(s.pair, binary);
    if out.Reverted? {
      NothingCounted(Put(s.pair, binary));
      NothingToGive(ZERO, binary);
      Counts(ZERO, binary);
    }
  }

  /** What get and put do to the total. */
  lemma Counts(p: Pair, binary: bool)
    requires Proper(p)
    ensures Proper(Get(p, binary)) && Proper(Put(p, binary))
    ensures Total(Get(p, binary)) == Total(p) + if binary && p.binary == 1 then 0 else 1
    ensures (if binary then Get(p, binary).binary else Get(p, binary).normal) > 0
    ensures Total(Put(p, binary)) == Total(p) - if (if binary then p.binary else p.normal) == 0 then 0 else 1
  {
    if binary {
      assert Get(p, true) == Pair(p.normal, 1) && Put(p, true) == Pair(p.normal, 0);
    } else {
      assert Get(p, false) == Pair(p.normal + 1, p.binary);
      assert Put(p, false) == Pair(if p.normal == 0 then 0 else p.normal - 1, p.binary);
    }
  }

  lemma NothingCounted(pair: Pair)
    requires Total(pair) == 0
    ensures pair == ZERO
  {
  }

  /** Giving up what is not counted, and taking it back. */
  lemma NothingToGive(pair: Pair, binary: bool)
    requires pair == ZERO
    ensures Put(pair, binary) == ZERO
    ensures Total(pair) == 0 && Total(Get(pair, binary)) == 1
  {
  }

  /** For a caller who does not know the cache: a deactivation is safe whatever the cache
      says and LVM answers exactly when the reference is counted or its volume is on. */
  lemma DeactivateAlwaysSafeExactly(s: LvRef, binary: bool)
    requires Safe(s) && Proper(s.pair)
    ensures (forall out :: Possible(s, Deactivate(binary, out)) ==> Safe(Effect(s, Deactivate(binary, out))))
            <==> (Total(s.pair) > 0 || s.active)
  {
    if Total(s.pair) == 0 && !s.active {
      var e := Deactivate(binary, Reverted);
      assert Possible(s, e) && !Safe(Effect(s, e));
    }
  }

  /** Over a whole history: every point of it is safe exactly when it holds no
      such deactivation. */
  lemma HistorySafeExactly(s: LvRef, log: seq<Event>)
    requires Safe(s) && Proper(s.pair) && PossibleLog(s, log)
    ensures AlwaysSafe(s, log) <==> NoUnderflow(s, log)
  {
    if NoUnderflow(s, log) {
      forall k: nat ensures SafeAt(s, log, k) {
        if k <= |log| {
          SafeUpTo(s, log, k);
        }
      }
    } else {
      var k: nat :| UnderflowAt(s, log, k);
      UnderflowEndsSafety(s, log, k);
    }
  }

  lemma UnderflowEndsSafety(s: LvRef, log: seq<Event>, k: nat)
    requires UnderflowAt(s, log, k) && Proper(s.pair) && PossibleAt(s, log, k)
    ensures !SafeAt(s, log, k) || !SafeAt(s, log, k + 1)
  {
    ProperUpTo(s, log, k);
    if SafeAt(s, log, k) {
      EventKeepsSafeExactly(Replay(s, log, k), log[k]);
    }
  }

  lemma {:induction false} SafeUpTo(s: LvRef, log: seq<Event>, k: nat)
    requires Safe(s) && Proper(s.pair) && PossibleLog(s, log) && k <= |log|
    requires NoUnderflow(s, log)
    ensures Safe(Replay(s, log, k)) && Proper(Replay(s, log, k).pair)
  {
    hide Effect, Possible, Safe, Proper, UnderflowRevert;
    if k > 0 {
      SafeUpTo(s, log, k - 1);
      assert PossibleAt(s, log, k - 1) && !UnderflowAt(s, log, k - 1);
      EventKeepsSafeExactly(Replay(s, log, k - 1), log[k - 1]);
    }
  }

  lemma {:induction false} ProperUpTo(s: LvRef, log: seq<Event>, k: nat)
    requires Proper(s.pair) && k <= |log|
    ensures Proper(Replay(s, log, k).pair)
  {
    hide Effect, Proper;
    if k > 0 {
      ProperUpTo(s, log, k - 1);
      ProperKept(Replay(s, log, k - 1), log[k - 1]);
    }
  }

  lemma ProperKept(s: LvRef, e: Event)
    requires Proper(s.pair)
    ensures Proper(Effect(s, e).pair)
  {
  }

  /** The history that loses it: one process activates and deactivates, another,
      whose cache is older than that, deactivates once more and LVM refuses. */
  lemma StaleDeactivateBreaksSafety()
    ensures var off := LvRef(ZERO, false);
            var log := [Activate(false, Done), Deactivate(false, Done), Deactivate(false, Reverted)];
            && PossibleLog(off, log)
            && Replay(off, log, 3) == LvRef(Pair(1, 0), false)
  {
    var off := LvRef(ZERO, false);
    var log := [Activate(false, Done), Deactivate(false, Done), Deactivate(false, Reverted)];
    assert Replay(off, log, 1) == LvRef(Pair(1, 0), true);
    assert Replay(off, log, 2) == LvRef(ZERO, false);
  }

  // ---- Put back and get back ----

  /** A failed activation restores both counts, except that it loses a binary
      reference which was the only one: get does not count it twice, put removes it. */
  lemma FailedActivateRestoresExactly(s: LvRef, binary: bool, leftOn: bool)
    requires Proper(s.pair) && Possible(s, Activate(binary, Failed(leftOn)))
    ensures Effect(s, Activate(binary, Failed(leftOn))).pair == s.pair
            <==> !(binary && s.pair == Pair(0, 1))
  {
  }

  /** A failed deactivation restores both counts exactly when there was something to give up. */
  lemma RevertedDeactivateRestoresExactly(s: LvRef, binary: bool)
    requires Proper(s.pair) && Possible(s, Deactivate(binary, Reverted))
    ensures Effect(s, Deactivate(binary, Reverted)).pair == s.pair <==> Total(s.pair) > 0
  {
  }

  // ---- Conservation ----

  /** The change an event that sticks makes to the normal count. */
  function Weight(e: Event): int {
    if e.binary then 0
    else match e
      case Activate(_, out) => if out.Failed? then 0 else 1
      case Deactivate(_, out) => if out.Reverted? then 0 else -1
  }

  function Sum(log: seq<Event>, k: nat): int
    requires k <= |log|
  {
    if k == 0 then 0 else Sum(log, k - 1) + Weight(log[k - 1])
  }

  /** The caller gave up a normal reference that was not counted. */
  predicate OverPut(s: LvRef, e: Event) {
    e.Deactivate? && !e.binary && s.pair.normal == 0
  }

  predicate OverPutAt(s: LvRef, log: seq<Event>, k: nat) {
    k < |log| && OverPut(Replay(s, log, k), log[k])
  }

  /** No update is lost: unless somebody gives up a reference that was never
      taken, the normal count is what was taken minus what was given up. */
  lemma {:induction false} CountIsBalance(s: LvRef, log: seq<Event>, k: nat)
    requires k <= |log|
    requires forall j: nat :: j < k ==> !OverPutAt(s, log, j)
    ensures Replay(s, log, k).pair.normal == s.pair.normal + Sum(log, k)
  {
    if k > 0 {
      CountIsBalance(s, log, k - 1);
      assert !OverPutAt(s, log, k - 1);
      WeightIsChange(Replay(s, log, k - 1), log[k - 1]);
    }
  }

  lemma WeightIsChange(s: LvRef, e: Event)
    requires !OverPut(s, e)
    ensures Effect(s, e).pair.normal == s.pair.normal + Weight(e)
  {
    if e.binary {
      match e.out case _ =>
    } else {
      match e.out case _ =>
    }
  }

  /** What a call with the binary flag leaves the binary count at, if it is not binary
      the count stays. */
  lemma BinaryAfter(s: LvRef, e: Event)
    requires Proper(s.pair)
    ensures Effect(s, e).pair.binary == if e.binary then Word(e) else s.pair.binary
  {
  }

  /** What a binary event says: a failed activation takes the reference away. */
  function Word(e: Event): nat {
    if e.Activate? then (if e.out.Failed? then 0 else 1) else (if e.out.Reverted? then 1 else 0)
  }

  /** No event from the `j`th up to the `k`th is about the binary reference. */
  predicate NoBinary(log: seq<Event>, j: nat, k: nat) {
    forall i :: j <= i < k <= |log| ==> !log[i].binary
  }

  /** Over any history the binary count only remembers the last event about the binary
      reference, and what it was at the start when there was none. */
  lemma {:induction false} BinaryIsLastWord(s: LvRef, log: seq<Event>, j: nat, k: nat)
    requires Proper(s.pair) && j <= k <= |log| && NoBinary(log, j, k)
    requires j == 0 || log[j - 1].binary
    ensures Replay(s, log, k).pair.binary == if j == 0 then s.pair.binary else Word(log[j - 1])
  {
    hide Effect, Word;
    if k > 0 {
      ProperUpTo(s, log, k - 1);
      BinaryAfter(Replay(s, log, k - 1), log[k - 1]);
      if j < k {
        BinaryIsLastWord(s, log, j, k - 1);
      }
    }
  }
}
