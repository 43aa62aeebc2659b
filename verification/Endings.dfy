/** How a call of deactivate ends: what the counts, the cache the process has, and the
    answers of lvs and lvchange make of it (sm/lock.py:657-698). */
module Endings {
  import opened Options
  import opened RefPairs
  import opened Activation

  /** What a process's cache says of a volume. */
  datatype Cached = Cached(active: bool, open: bool)

  /** What lvs answers about a volume: None when the command fails, Some(None) when the
      volume is not listed. */
  type Listing = Option<Option<Cached>>

  /** What the cache says after the loop, which refreshes once if it said open. */
  function Looked(cached: Option<Cached>, busy: Listing): Option<Cached> {
    if cached.Some? && cached.value.open && busy.Some? then busy.value else cached
  }

  predicate Closed(cached: Option<Cached>) {
    cached.Some? && !cached.value.open
  }

  /** What comes of an uncounted volume: `cached` is the cache before the command, `fail`
      what lvs answers after it has failed. */
  function Answered(cached: Option<Cached>, fail: Listing, ok: bool): Outcome {
    if !Closed(cached) then GaveUp
    else if ok then Done
    else if fail.Some? && fail.value.Some? && cached.value.active then Reverted
    else GaveUp
  }

  /** How a deactivation ends, from the counts and the cache it finds, what lvs answers when
      it asks, and whether lvchange succeeds in the end. */
  function Ending(was: Pair, binary: bool, cached: Option<Cached>, busy: Listing, fail: Listing, ok: bool): Outcome {
    if Total(Put(was, binary)) > 0 then Counted else Answered(Looked(cached, busy), fail, ok)
  }

  /** The volume is known to be closed: the cache says so, or it says open and lvs, asked
      again, says closed. */
  predicate KnownClosed(cached: Option<Cached>, busy: Listing, active: bool) {
    || cached == Some(Cached(active, false))
    || (cached.Some? && cached.value.open && busy == Some(Some(Cached(active, false))))
  }

  /** With references left nothing else happens. The last one is given up for good exactly
      when the volume is known to be closed and lvchange succeeds; it is taken back exactly
      when it is known to be closed and on, lvchange fails, and lvs still lists it; in all
      other cases the call gives up and nothing is counted. */
  lemma EndsExactly(was: Pair, binary: bool, cached: Option<Cached>, busy: Listing, fail: Listing, ok: bool)
    ensures var out := Ending(was, binary, cached, busy, fail, ok);
            var left := Total(Put(was, binary)) > 0;
            && (out == Counted <==> left)
            && (out == Done <==> !left && ok && (KnownClosed(cached, busy, true) || KnownClosed(cached, busy, false)))
            && (out == Reverted <==>
                  !left && !ok && KnownClosed(cached, busy, true) && exists c :: fail == Some(Some(c)))
            && out in {Counted, Done, Reverted, GaveUp}
  {
    if fail.Some? && fail.value.Some? {
      assert fail == Some(Some(fail.value.value));
    }
  }

  // ---- Safety ----

  /** lvs says of the volume what is true of it. */
  predicate Truthful(listing: Listing, on: bool) {
    listing.Some? && listing.value.Some? ==> listing.value.value.active == on
  }

  /** Whatever lvs and lvchange answer, the call leaves a counted reference switched on. */
  ghost predicate AlwaysEndsSafe(was: LvRef, binary: bool, cached: Option<Cached>) {
    forall busy, fail, ok :: Truthful(busy, was.active) ==>
      Safe(Effect(was, Event.Deactivate(binary, Ending(was.pair, binary, cached, busy, fail, ok))))
  }

  /** What the caller of deactivate can check: it is safe whatever LVM answers exactly when
      the reference is counted, or its volume is on, or the cache does not say that the
      volume is there, closed and on. */
  lemma DeactivateIsSafeExactly(was: LvRef, binary: bool, cached: Option<Cached>)
    requires Safe(was) && Proper(was.pair)
    ensures AlwaysEndsSafe(was, binary, cached)
            <==> Total(was.pair) > 0 || was.active || cached != Some(Cached(true, false))
  {
    if Total(was.pair) > 0 || was.active || cached != Some(Cached(true, false)) {
      forall busy, fail, ok | Truthful(busy, was.active)
        ensures Safe(Effect(was, Event.Deactivate(binary, Ending(was.pair, binary, cached, busy, fail, ok))))
      {
        EndsSafe(was, binary, cached, busy, fail, ok);
      }
    } else {
      var listed := Some(Some(Cached(false, false)));
      RefusalReverts(was, binary, listed);
      assert Truthful(None, was.active);
      assert !Safe(Effect(was, Event.Deactivate(binary, Ending(was.pair, binary, cached, None, listed, false))));
    }
  }

  lemma EndsSafe(was: LvRef, binary: bool, cached: Option<Cached>, busy: Listing, fail: Listing, ok: bool)
    requires Safe(was) && Proper(was.pair) && Truthful(busy, was.active)
    requires Total(was.pair) > 0 || was.active || cached != Some(Cached(true, false))
    ensures Safe(Effect(was, Event.Deactivate(binary, Ending(was.pair, binary, cached, busy, fail, ok))))
  {
    var out := Ending(was.pair, binary, cached, busy, fail, ok);
    if out.Reverted? {
      assert was.active;
    }
  }

  lemma RefusalReverts(was: LvRef, binary: bool, listed: Listing)
    requires Total(was.pair) == 0 && !was.active && listed == Some(Some(Cached(false, false)))
    ensures Ending(was.pair, binary, Some(Cached(true, false)), None, listed, false) == Reverted
    ensures !Safe(Effect(was, Event.Deactivate(binary, Reverted)))
  {
    hide Ending, Get, Put, Total;
    NothingCounted(was.pair);
    NothingToGive(was.pair, binary);
    EndsExactly(was.pair, binary, Some(Cached(true, false)), None, listed, false);
    assert listed == Some(Some(Cached(false, false)));
  }
}
