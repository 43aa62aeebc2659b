/** How each call of the protocol ends is decided by what its process is told: the counts
    it finds, its cache, and what lvs and lvchange answer it, whatever others do in the
    meantime. And what its cache says afterwards (sm/lock.py:643-711). */
module Outcomes {
  import opened Options
  import opened RefPairs
  import opened Activation
  import opened Endings
  import opened ActivationProtocol
  import opened ActivationProofs
  import opened ActivationTheorems
  import opened StaleCaches

  type Cache = map<Ref, Cached>

  /** What a process has been told since it entered the section: the counts in the file, its
      cache, what lvs listed when it was first asked because of an open volume, the last
      answer of lvchange, and what lvs listed after it failed. */
  datatype Told = Told(pair: Pair, entry: Option<Cache>, busy: Option<Option<Cache>>, answer: Option<bool>,
                       fail: Option<Option<Cache>>)

  const NOTHING := Told(ZERO, None, None, None, None)

  /** lvs lists volumes as they are. */
  function Lists(s: State, c: Choice): Option<Cache> {
    if c.ok then Some(map r | r in c.seen :: Cached(r in s.active, c.seen[r])) else None
  }

  /** What `p` is told by its next step. */
  function Hear(h: Told, s: State, p: L.Pid, c: Choice): Told {
    var pr := ProcOf(s, p);
    match pr.pc
    case WaitRef =>
      if RefLock(pr.call.ref) in s.locks.kernel then h
      else Told(StoredPair(s, pr.call.ref), pr.cache, None, None, None)
    case InLvm(cmd) =>
      (match cmd
       case LvsBusy => if h.busy.None? then h.(busy := Some(Lists(s, c))) else h
       case Lvchange => h.(answer := Some(c.ok))
       case LvsFailed => h.(fail := Some(Lists(s, c))))
    case _ => h
  }

  /** A run, and what `p` has been told in it. */
  function TellRun(s: State, h: Told, p: L.Pid, turns: seq<Turn>): (State, Told)
    decreases turns
  {
    if turns == [] then (s, h)
    else
      var turn := turns[0];
      TellRun(Step(s, turn.pid, turn.choice), if turn.pid == p then Hear(h, s, p, turn.choice) else h, p, turns[1..])
  }

  /** What it has been told about one volume. */
  function Says(cache: Option<Cache>, r: Ref): Option<Cached> {
    if cache.Some? && r in cache.value then Some(cache.value[r]) else None
  }

  function Listed(list: Option<Option<Cache>>, r: Ref): Listing {
    if list.None? || list.value.None? then None else Some(Says(list.value, r))
  }

  /** How it tells the process to end a deactivation. */
  function ToldEnding(call: Call, h: Told): Outcome {
    Ending(h.pair, call.binary, Says(h.entry, call.ref), Listed(h.busy, call.ref), Listed(h.fail, call.ref),
           h.answer == Some(true))
  }

  /** The last cache it was told before lvchange. */
  function Latest(h: Told): Option<Cache> {
    if h.busy.Some? && h.busy.value.Some? then h.busy.value else h.entry
  }

  /** `now` is `was` but for the volume of `r`, which is on or off and otherwise the same. */
  predicate OnlyFlag(was: Option<Cache>, now: Option<Cache>, r: Ref, on: bool) {
    && (was.Some? <==> now.Some?)
    && (was.Some? ==>
          && now.value.Keys == was.value.Keys && now.value - {r} == was.value - {r}
          && (r in was.value ==> now.value[r] == Cached(on, was.value[r].open)))
  }

  /** The cache when a call ends: as it was told, with the volume it has switched. */
  predicate CacheFollows(pr: Proc, h: Told, out: Outcome) {
    if out.Done? then OnlyFlag(Latest(h), pr.cache, pr.call.ref, pr.call.activate)
    else if h.fail.Some? && h.fail.value.Some? then pr.cache == h.fail.value
    else pr.cache == Latest(h)
  }

  /** Nothing has been asked yet. */
  predicate Entered(pr: Proc, h: Told) {
    pr.cache == h.entry && !pr.refreshed && h.busy.None? && h.answer.None? && h.fail.None?
  }

  /** The volume is known to be closed, and the process remembers whether it is on. */
  predicate Decided(pr: Proc, h: Told) {
    && pr.cache == Latest(h)
    && Looked(Says(h.entry, pr.call.ref), Listed(h.busy, pr.call.ref)) == Some(Cached(pr.wasActive, false))
  }

  /** Where a call that switches its volume on is. */
  predicate OnTheWayUp(pr: Proc, h: Told) {
    && pr.cache == h.entry && h.busy.None? && h.fail.None?
    && match pr.pc
       case WaitLvm(cmd) => cmd.Lvchange? && h.answer != Some(true)
       case InLvm(cmd) => cmd.Lvchange? && h.answer != Some(true)
       case _ => h.answer == Some(false)
  }

  /** Where a call that switches its volume off is. */
  predicate OnTheWayDown(pr: Proc, h: Told) {
    match pr.pc
    case WaitLvm(cmd) => Asking(pr, h, cmd)
    case InLvm(cmd) => Asking(pr, h, cmd)
    case _ =>
      Decided(pr.(cache := Latest(h)), h) && h.answer == Some(false) && ToldEnding(pr.call, h) == Reverted
      && h.fail.Some? && h.fail.value.Some? && pr.cache == h.fail.value
  }

  predicate Asking(pr: Proc, h: Told, cmd: Command) {
    match cmd
    case LvsBusy => Entered(pr, h) && Says(h.entry, pr.call.ref).Some? && Says(h.entry, pr.call.ref).value.open
    case Lvchange => Decided(pr, h) && h.answer != Some(true) && h.fail.None?
    case LvsFailed => Decided(pr, h) && h.answer == Some(false) && h.fail.None?
  }

  predicate EndsAsTold(pr: Proc, h: Told, out: Outcome) {
    if pr.call.activate then
      && (out.Counted? <==> Total(Get(h.pair, pr.call.binary)) != 1)
      && (out.Done? <==> Total(Get(h.pair, pr.call.binary)) == 1 && h.answer == Some(true))
    else out == ToldEnding(pr.call, h)
  }

  /** The process does what it has been told. */
  predicate Heeds(pr: Proc, h: Told, was: Pair) {
    InSection(pr.pc) ==>
      && h.pair == was
      && match pr.pc
         case Leaving(e) => EndsAsTold(pr, h, e.out) && CacheFollows(pr, h, e.out)
         case _ =>
           if PhaseOf(pr.pc) == Some(First) then Entered(pr, h)
           else if pr.call.activate then Total(Get(was, pr.call.binary)) == 1 && OnTheWayUp(pr, h)
           else Total(Put(was, pr.call.binary)) == 0 && OnTheWayDown(pr, h)
  }

  // ---- One step of the process itself ----

  /** Before the volume is looked at: with the cache from before, or refreshed because that
      one said open. */
  predicate AtLoop(pr: Proc, h: Told) {
    && !pr.call.activate && Total(Put(h.pair, pr.call.binary)) == 0 && h.answer.None? && h.fail.None?
    && if pr.refreshed then
         && h.busy.Some? && h.busy.value.Some? && pr.cache == h.busy.value
         && Says(h.entry, pr.call.ref).Some? && Says(h.entry, pr.call.ref).value.open
       else Entered(pr, h)
  }

  lemma LoopIsLooked(pr: Proc, h: Told)
    requires AtLoop(pr, h)
    ensures pr.cache == Latest(h)
    ensures Looked(Says(h.entry, pr.call.ref), Listed(h.busy, pr.call.ref)) == Says(pr.cache, pr.call.ref)
            || (!pr.refreshed && Says(pr.cache, pr.call.ref).Some? && Says(pr.cache, pr.call.ref).value.open)
  {
    hide Get, Put, Total, Says;
  }

  lemma InspectHeeds(pr: Proc, h: Told)
    requires AtLoop(pr, h)
    ensures Heeds(Inspect(pr), h, h.pair)
  {
    hide Get, Put, Total, Looked, Listed, Says, Latest, ToldEnding;
    LoopIsLooked(pr, h);
    InspectIs(pr);
    var said := Says(pr.cache, pr.call.ref);
    if said.None? || (said.value.open && pr.refreshed) {
      GivesUpHeeds(pr, h);
    }
  }

  lemma InspectIs(pr: Proc)
    ensures var said := Says(pr.cache, pr.call.ref);
            Inspect(pr) == if said.None? || (said.value.open && pr.refreshed) then Finish(pr, GaveUp)
                           else if said.value.open then pr.(pc := WaitLvm(LvsBusy))
                           else pr.(pc := WaitLvm(Lvchange), wasActive := said.value.active)
  {
  }

  lemma GivesUpHeeds(pr: Proc, h: Told)
    requires AtLoop(pr, h)
    requires var said := Says(pr.cache, pr.call.ref); said.None? || (said.value.open && pr.refreshed)
    ensures Heeds(Finish(pr, GaveUp), h, h.pair)
  {
    hide Get, Put, Total, Listed, Says;
    LoopIsLooked(pr, h);
  }

  /** A count update has been made. */
  lemma UpdateHeeds(pr: Proc, h: Told, ph: Phase, pair: Pair)
    requires Heeds(pr, h, h.pair) && PhaseOf(pr.pc) == Some(ph)
    requires ph.First? ==> pair == Update(pr.call, First, h.pair)
    ensures Heeds(AfterUpdate(pr, ph, pair), h, h.pair)
  {
    hide Get, Put, Total, Inspect, Listed, Says, Looked;
    if ph.First? && !pr.call.activate && Total(pair) == 0 {
      InspectHeeds(pr, h);
    }
  }

  /** Within an update only the place in the code changes. */
  lemma PlaceHeeds(pr: Proc, h: Told, pc: Pc)
    requires Heeds(pr, h, h.pair) && PhaseOf(pr.pc).Some? && PhaseOf(pc) == PhaseOf(pr.pc)
    ensures Heeds(pr.(pc := pc), h, h.pair)
  {
    hide Get, Put, Total, Listed, Says, Looked, ToldEnding;
  }

  lemma LvchangeHeeds(pr: Proc, h: Told, c: Choice)
    requires Heeds(pr, h, h.pair) && pr.pc == InLvm(Lvchange)
    ensures Heeds(AfterLvchange(pr, c), h.(answer := Some(c.ok)), h.pair)
  {
    hide Get, Put, Total, Listed, Looked, Latest;
    MarkFollows(pr.cache, pr.call.ref, pr.call.activate);
    LatestStays(h, Some(c.ok), h.fail);
  }

  lemma MarkFollows(cache: Option<Cache>, r: Ref, on: bool)
    ensures OnlyFlag(cache, Mark(cache, r, on), r, on)
  {
  }

  lemma LatestStays(h: Told, answer: Option<bool>, fail: Option<Option<Cache>>)
    ensures Latest(h.(answer := answer)) == Latest(h)
    ensures Latest(h.(fail := fail)) == Latest(h)
    ensures h.busy.None? ==> Latest(h) == h.entry
  {
  }

  lemma BusyHeeds(pr: Proc, h: Told, list: Option<Cache>)
    requires Heeds(pr, h, h.pair) && pr.pc == InLvm(LvsBusy) && !pr.call.activate
    ensures Heeds(if list.Some? then AfterLvs(pr, LvsBusy, list.value) else Finish(pr, GaveUp),
                  h.(busy := Some(list)), h.pair)
  {
    hide Get, Put, Total, Inspect;
    if list.Some? {
      InspectHeeds(pr.(cache := list, refreshed := true), h.(busy := Some(list)));
    }
  }

  lemma FailHeeds(pr: Proc, h: Told, list: Option<Cache>)
    requires Heeds(pr, h, h.pair) && pr.pc == InLvm(LvsFailed) && !pr.call.activate
    ensures Heeds(if list.Some? then AfterLvs(pr, LvsFailed, list.value) else Finish(pr, GaveUp),
                  h.(fail := Some(list)), h.pair)
  {
    hide Get, Put, Total, Looked, Latest;
    LatestStays(h, h.answer, Some(list));
  }

  // ---- Steps of the protocol ----

  predicate Follows(s: State, p: L.Pid, h: Told) {
    Heeds(ProcOf(s, p), h, Base(s, ProcOf(s, p).call.ref).pair)
  }

  /** What the invariant says of a count update. */
  lemma UpdateIsDue(s: State, p: L.Pid)
    requires Inv(s) && InSection(ProcOf(s, p).pc)
    ensures var pr := ProcOf(s, p);
            var target := Update(pr.call, First, Base(s, pr.call.ref).pair);
            match pr.pc
            case Filling(ph, pair) => ph.First? ==> pair == target
            case RemovingDir(ph) => ph.First? ==> target == ZERO
            case Unlinking(ph) => ph.First? ==> target == ZERO
            case _ => true
  {
    hide Base, L.Inv, RefInv, CountsRight, Stored, VolumeIs, Update;
    assert Local(s, p);
  }

  lemma CountingHeeds(s: State, p: L.Pid, c: Choice, h: Told)
    requires Inv(s) && Follows(s, p, h) && PhaseOf(ProcOf(s, p).pc).Some?
    ensures Heeds(ProcOf(Step(s, p, c), p), h, h.pair)
  {
    hide Inv, Heeds, Base, AfterUpdate, Update;
    var pr := ProcOf(s, p);
    UpdateIsDue(s, p);
    InCall(pr, h, Base(s, pr.call.ref).pair);
    match pr.pc
    case Reading(ph) =>
      CountedPlace(pr, h, ph, ZERO);
      if pr.call.ref in s.files && s.files[pr.call.ref].Counts? {
        CountedPlace(pr, h, ph, s.files[pr.call.ref].pair);
      }
    case Opening(ph, pair) =>
      PlaceHeeds(pr, h, Filling(ph, pair));
      PlaceHeeds(pr, h, MakingDir(ph, pair));
    case MakingDir(ph, pair) => PlaceHeeds(pr, h, Opening(ph, pair));
    case Filling(ph, pair) => UpdateHeeds(pr, h, ph, pair);
    case Unlinking(ph) =>
      PlaceHeeds(pr, h, RemovingDir(ph));
      UpdateHeeds(pr, h, ph, ZERO);
    case RemovingDir(ph) => UpdateHeeds(pr, h, ph, ZERO);
  }

  lemma InCall(pr: Proc, h: Told, was: Pair)
    requires Heeds(pr, h, was) && InSection(pr.pc)
    ensures h.pair == was
  {
    hide OnTheWayUp, OnTheWayDown, EndsAsTold, CacheFollows;
  }

  lemma CountedPlace(pr: Proc, h: Told, ph: Phase, was: Pair)
    requires Heeds(pr, h, h.pair) && pr.pc == Reading(ph)
    ensures Heeds(Computed(pr, ph, was), h, h.pair)
  {
    hide Heeds, Update;
    var pair := Update(pr.call, ph, was);
    PlaceHeeds(pr, h, if pair == ZERO then Unlinking(ph) else Opening(ph, pair));
  }

  lemma WaitingHeeds(pr: Proc, h: Told, cmd: Command)
    requires Heeds(pr, h, h.pair) && pr.pc == WaitLvm(cmd)
    ensures Heeds(pr.(pc := InLvm(cmd)), h, h.pair)
  {
    hide Get, Put, Total, Listed, Says, Looked, Latest, ToldEnding;
  }

  lemma CommandHeeds(s: State, p: L.Pid, c: Choice, h: Told)
    requires Follows(s, p, h) && ProcOf(s, p).pc.InLvm?
    ensures Heeds(ProcOf(Step(s, p, c), p), Hear(h, s, p, c), h.pair)
  {
    hide Heeds, Base, AfterLvs, AfterLvchange, Drop, Finish;
    var pr := ProcOf(s, p);
    InCall(pr, h, Base(s, pr.call.ref).pair);
    match pr.pc.cmd
    case Lvchange => LvchangeHeeds(pr, h, c);
    case LvsBusy =>
      OnlyDown(pr, h);
      KeptFirst(pr, h);
      SnapshotLists(s, c);
      BusyHeeds(pr, h, Lists(s, c));
    case LvsFailed =>
      OnlyDown(pr, h);
      SnapshotLists(s, c);
      FailHeeds(pr, h, Lists(s, c));
  }

  lemma SnapshotLists(s: State, c: Choice)
    ensures Lists(s, c) == if c.ok then Some(Snapshot(s, c.seen)) else None
  {
  }

  lemma OnlyDown(pr: Proc, h: Told)
    requires Heeds(pr, h, h.pair) && pr.pc.InLvm? && !pr.pc.cmd.Lvchange?
    ensures !pr.call.activate
  {
    hide Get, Put, Total, Says, Listed, Looked, Latest, ToldEnding;
  }

  lemma KeptFirst(pr: Proc, h: Told)
    requires Heeds(pr, h, h.pair) && pr.pc == InLvm(LvsBusy)
    ensures h.busy.None?
  {
    hide Get, Put, Total, Says, Listed, Looked, Latest, ToldEnding;
  }

  lemma EnteringHeeds(s: State, p: L.Pid, c: Choice, h: Told)
    requires Inv(s) && ProcOf(s, p).pc.WaitRef?
    ensures Follows(Step(s, p, c), p, Hear(h, s, p, c))
  {
    hide Base, Take, StoredPair, Inv;
    var id := RefLock(ProcOf(s, p).call.ref);
    WaiterCount(s, p);
    TakeFacts(s.locks, p, id);
    HistoryStays(s, p, c);
    if id !in s.locks.kernel {
      SettledIs(s, p);
      BaseStays(s, Step(s, p, c), ProcOf(s, p).call.ref);
    }
  }

  lemma WaiterCount(s: State, p: L.Pid)
    requires Inv(s) && ProcOf(s, p).pc.WaitRef?
    ensures L.Inv(s.locks) && L.CountOf(s.locks, p, RefLock(ProcOf(s, p).call.ref)) == 0
  {
    hide RefInv, L.Inv, Progress;
    assert Local(s, p);
    var id := RefLock(ProcOf(s, p).call.ref);
    assert L.CountOf(s.locks, p, id) == ExpectedCount(ProcOf(s, p), id);
  }

  lemma BaseStays(s: State, t: State, r: Ref)
    requires t.origin == s.origin && LogOf(t, r) == LogOf(s, r)
    ensures Base(t, r) == Base(s, r)
  {
  }

  lemma StepHeeds(s: State, p: L.Pid, c: Choice, h: Told)
    requires Inv(s) && Follows(s, p, h)
    ensures Follows(Step(s, p, c), p, Hear(h, s, p, c))
  {
    hide Inv, Base, Step, InSection, OnTheWayUp, OnTheWayDown, EndsAsTold, CacheFollows;
    var pr := ProcOf(s, p);
    StepLeaves(s, p, c);
    if pr.pc.WaitRef? {
      EnteringHeeds(s, p, c, h);
    } else if PhaseOf(pr.pc).Some? || pr.pc.InLvm? || pr.pc.WaitLvm? {
      BaseStays(s, Step(s, p, c), pr.call.ref);
      CallHeeds(s, p, c, h);
    } else {
      StaysOutside(s, p, c);
    }
  }

  lemma CallHeeds(s: State, p: L.Pid, c: Choice, h: Told)
    requires Inv(s) && Follows(s, p, h)
    requires PhaseOf(ProcOf(s, p).pc).Some? || ProcOf(s, p).pc.InLvm? || ProcOf(s, p).pc.WaitLvm?
    ensures Heeds(ProcOf(Step(s, p, c), p), Hear(h, s, p, c), Base(s, ProcOf(s, p).call.ref).pair)
  {
    hide Inv, Base, Heeds, Take;
    var pr := ProcOf(s, p);
    InCall(pr, h, Base(s, pr.call.ref).pair);
    if pr.pc.InLvm? {
      CommandHeeds(s, p, c, h);
    } else if pr.pc.WaitLvm? {
      WaitingHeeds(pr, h, pr.pc.cmd);
    } else {
      CountingHeeds(s, p, c, h);
    }
  }

  lemma StaysOutside(s: State, p: L.Pid, c: Choice)
    requires ProcOf(s, p).pc.Idle? || ProcOf(s, p).pc.Starting? || ProcOf(s, p).pc.Leaving?
    ensures !InSection(ProcOf(Step(s, p, c), p).pc)
  {
    hide Take, Drop, Snapshot, LogOf;
  }

  /** Others do not change what a process does with what it has been told. */
  lemma OthersLeaveHeed(s: State, p: L.Pid, q: L.Pid, c: Choice, h: Told)
    requires Inv(s) && Follows(s, p, h) && q != p
    ensures Follows(Step(s, q, c), p, h)
  {
    hide Step, Replay, OnTheWayUp, OnTheWayDown, EndsAsTold, CacheFollows;
    StepLeaves(s, q, c);
    var r := ProcOf(s, p).call.ref;
    if InSection(ProcOf(s, p).pc) {
      if ProcOf(s, q).pc.Leaving? && ProcOf(s, q).call.ref == r {
        assert Local(s, p) && Local(s, q);
        OneInSection(s, p, q);
      }
      BaseStays(s, Step(s, q, c), r);
    }
  }

  lemma {:induction false} RunHeeds(s: State, h: Told, p: L.Pid, turns: seq<Turn>)
    requires Inv(s) && Follows(s, p, h)
    ensures var r := TellRun(s, h, p, turns);
            r.0 == Run(s, turns) && Inv(r.0) && Follows(r.0, p, r.1)
    decreases turns
  {
    hide Inv, Step, Follows, Hear;
    if turns != [] {
      var turn := turns[0];
      StepKeepsInv(s, turn.pid, turn.choice);
      if turn.pid == p {
        StepHeeds(s, p, turn.choice, h);
        RunHeeds(Step(s, p, turn.choice), Hear(h, s, p, turn.choice), p, turns[1..]);
      } else {
        OthersLeaveHeed(s, p, turn.pid, turn.choice, h);
        RunHeeds(Step(s, turn.pid, turn.choice), h, p, turns[1..]);
      }
    }
  }

  /** In any run of any processes, a call that is about to give its lock back has found the
      counts that the finished calls left; a deactivation ends as these counts, its cache
      and the answers it has had say, an activation as the counts and the last answer say;
      and the cache is as it was told, with the flag of the volume it has switched. */
  lemma CallsEndAsTold(origin: set<Ref>, turns: seq<Turn>, p: L.Pid)
    ensures var (s, h) := TellRun(Initial(origin), NOTHING, p, turns);
            var pr := ProcOf(s, p);
            && s == Run(Initial(origin), turns)
            && (pr.pc.Leaving? ==>
                  && h.pair == Base(s, pr.call.ref).pair
                  && EndsAsTold(pr, h, pr.pc.event.out)
                  && CacheFollows(pr, h, pr.pc.event.out))
  {
    hide Inv, EndsAsTold, CacheFollows, Base, TellRun, Run;
    InitialInv(origin);
    assert ProcOf(Initial(origin), p) == NOBODY;
    RunHeeds(Initial(origin), NOTHING, p, turns);
  }
}
