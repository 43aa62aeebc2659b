/** What callers can see to so that a counted reference always has its volume on: nobody
    enters the section to deactivate a reference that is not counted, whose volume is off,
    with a cache that says it is there, closed and on (sm/lock.py:657-698). Without such an
    entry no run loses it, whatever LVM answers. */
module StaleCaches {
  import opened Options
  import opened RefPairs
  import opened Activation
  import opened Endings
  import opened ActivationProtocol
  import opened ActivationProofs
  import opened ActivationTheorems

  /** The cache says that the volume is there, closed and on. */
  predicate SaysOn(pr: Proc) {
    pr.cache.Some? && pr.call.ref in pr.cache.value && pr.cache.value[pr.call.ref] == Cached(true, false)
  }

  /** `p` asks for a lock that is free, to deactivate a reference that is not counted and
      whose volume is off, and believes that it is on. */
  predicate Misled(s: State, p: L.Pid) {
    var pr := ProcOf(s, p);
    var r := pr.call.ref;
    && pr.pc.WaitRef? && RefLock(r) !in s.locks.kernel && !pr.call.activate
    && Total(StoredPair(s, r)) == 0 && r !in s.active && SaysOn(pr)
  }

  /** No turn of the run is taken by a process that is misled. */
  predicate NeverMisled(s: State, turns: seq<Turn>)
    decreases turns
  {
    turns != [] ==> !Misled(s, turns[0].pid) && NeverMisled(Step(s, turns[0].pid, turns[0].choice), turns[1..])
  }

  predicate OffAndFree(base: LvRef) {
    Total(base.pair) == 0 && !base.active
  }

  function PhaseOf(pc: Pc): Option<Phase> {
    match pc
    case Reading(ph) => Some(ph)
    case Opening(ph, _) => Some(ph)
    case MakingDir(ph, _) => Some(ph)
    case Filling(ph, _) => Some(ph)
    case Unlinking(ph) => Some(ph)
    case RemovingDir(ph) => Some(ph)
    case _ => None
  }

  /** A deactivation of an uncounted reference whose volume is off will not take a count. */
  predicate Harmless(pr: Proc) {
    match pr.pc
    case WaitLvm(cmd) => cmd.LvsBusy? || !pr.wasActive
    case InLvm(cmd) => cmd.LvsBusy? || !pr.wasActive
    case Leaving(e) => !e.out.Reverted?
    case _ => PhaseOf(pr.pc) == Some(First) && !SaysOn(pr)
  }

  predicate Aware(pr: Proc, base: LvRef) {
    InSection(pr.pc) && !pr.call.activate && OffAndFree(base) ==> Harmless(pr)
  }

  ghost predicate AllAware(s: State) {
    && (forall p :: Aware(ProcOf(s, p), Base(s, ProcOf(s, p).call.ref)))
    && (forall r :: NoUnderflow(LvRef(ZERO, r in s.origin), LogOf(s, r)))
  }

  // ---- One process ----

  lemma InspectIsHarmless(pr: Proc)
    requires !SaysOn(pr)
    ensures Harmless(Inspect(pr))
  {
  }

  lemma UpdateIsHarmless(pr: Proc, pair: Pair)
    requires !pr.call.activate && !SaysOn(pr)
    ensures Harmless(AfterUpdate(pr, First, pair))
  {
    hide Inspect, SaysOn;
    InspectIsHarmless(pr);
  }

  lemma ComputedIsHarmless(pr: Proc, was: Pair)
    requires !SaysOn(pr)
    ensures Harmless(Computed(pr, First, was))
  {
    hide Update;
  }

  lemma LvsIsHarmless(pr: Proc, cmd: Command, cache: map<Ref, Cached>)
    requires !cmd.Lvchange? && (cmd.LvsBusy? || !pr.wasActive)
    requires pr.call.ref in cache ==> !cache[pr.call.ref].active
    ensures Harmless(AfterLvs(pr, cmd, cache))
  {
    hide Inspect;
    InspectIsHarmless(pr.(cache := Some(cache), refreshed := true));
  }

  lemma LvchangeIsHarmless(pr: Proc, c: Choice)
    requires !pr.call.activate && !pr.wasActive
    ensures Harmless(AfterLvchange(pr, c))
  {
    hide Mark;
  }

  /** The volume is off while a deactivation of an uncounted reference with its volume off
      is under way. */
  lemma StaysOff(s: State, p: L.Pid)
    requires Inv(s) && ProcOf(s, p).pc.InLvm? && !ProcOf(s, p).call.activate
    requires OffAndFree(Base(s, ProcOf(s, p).call.ref))
    ensures ProcOf(s, p).call.ref !in s.active
  {
    hide Replay, L.Inv, RefInv, CountsRight, Target, Base;
    assert Local(s, p);
  }

  /** A process that enters the section sees what the finished calls have left. */
  lemma EntryIsAware(s: State, p: L.Pid)
    requires Inv(s) && ProcOf(s, p).pc.WaitRef? && !ProcOf(s, p).call.activate && !Misled(s, p)
    requires RefLock(ProcOf(s, p).call.ref) !in s.locks.kernel
    requires OffAndFree(Base(s, ProcOf(s, p).call.ref))
    ensures !SaysOn(ProcOf(s, p))
  {
    hide Base, SaysOn, Inv, Total, StoredPair;
    SettledIs(s, p);
  }

  lemma SettledIs(s: State, p: L.Pid)
    requires Inv(s) && ProcOf(s, p).pc.WaitRef? && RefLock(ProcOf(s, p).call.ref) !in s.locks.kernel
    ensures var r := ProcOf(s, p).call.ref;
            StoredPair(s, r) == Base(s, r).pair && (r in s.active) == Base(s, r).active
  {
    hide Base, L.Inv, Progress, CountsRight, PossibleLog;
    assert Local(s, p) && RefInv(s, ProcOf(s, p).call.ref);
  }

  /** A step keeps the calls of the process itself harmless. */
  lemma StepIsAware(s: State, p: L.Pid, c: Choice)
    requires Inv(s) && !Misled(s, p) && !ProcOf(s, p).pc.Idle? && !ProcOf(s, p).pc.Leaving?
    requires Aware(ProcOf(s, p), Base(s, ProcOf(s, p).call.ref))
    requires OffAndFree(Base(s, ProcOf(s, p).call.ref)) && !ProcOf(s, p).call.activate
    ensures InSection(ProcOf(Step(s, p, c), p).pc) ==> Harmless(ProcOf(Step(s, p, c), p))
  {
    hide Inv, Misled, SaysOn, OffAndFree, Base, AfterUpdate, AfterLvs, AfterLvchange, Computed, Take, Drop;
    var pr := ProcOf(s, p);
    match pr.pc
    case Starting(_) =>
    case WaitRef => EnteringIsAware(s, p, c);
    case Reading(ph) =>
      ComputedIsHarmless(pr, ZERO);
      if pr.call.ref in s.files && s.files[pr.call.ref].Counts? {
        ComputedIsHarmless(pr, s.files[pr.call.ref].pair);
      }
    case Opening(ph, pair) => SaidOn(pr);
    case MakingDir(ph, pair) => SaidOn(pr);
    case Filling(ph, pair) => UpdateIsHarmless(pr, pair);
    case Unlinking(ph) =>
      SaidOn(pr);
      UpdateIsHarmless(pr, ZERO);
    case RemovingDir(ph) => UpdateIsHarmless(pr, ZERO);
    case WaitLvm(cmd) =>
    case InLvm(cmd) => CommandIsAware(s, p, c);
  }

  /** What the cache says does not depend on the place in the code. */
  lemma SaidOn(pr: Proc)
    ensures forall pc :: SaysOn(pr.(pc := pc)) <==> SaysOn(pr)
  {
  }

  lemma EnteringIsAware(s: State, p: L.Pid, c: Choice)
    requires Inv(s) && ProcOf(s, p).pc.WaitRef? && !ProcOf(s, p).call.activate && !Misled(s, p)
    requires OffAndFree(Base(s, ProcOf(s, p).call.ref))
    ensures InSection(ProcOf(Step(s, p, c), p).pc) ==> Harmless(ProcOf(Step(s, p, c), p))
  {
    hide Misled, OffAndFree, Base, Take;
    var id := RefLock(ProcOf(s, p).call.ref);
    assert Local(s, p);
    assert L.CountOf(s.locks, p, id) == ExpectedCount(ProcOf(s, p), id);
    TakeFacts(s.locks, p, id);
    if Take(s.locks, p, id).1 {
      EntryIsAware(s, p);
    }
  }

  lemma CommandIsAware(s: State, p: L.Pid, c: Choice)
    requires Inv(s) && ProcOf(s, p).pc.InLvm? && !ProcOf(s, p).call.activate && Harmless(ProcOf(s, p))
    requires OffAndFree(Base(s, ProcOf(s, p).call.ref))
    ensures Harmless(ProcOf(Step(s, p, c), p))
  {
    hide Inv, OffAndFree, Base, AfterLvs, AfterLvchange, Drop;
    var pr := ProcOf(s, p);
    StaysOff(s, p);
    if pr.pc.cmd.Lvchange? {
      LvchangeIsHarmless(pr, c);
    } else {
      LvsIsHarmless(pr, pr.pc.cmd, Snapshot(s, c.seen));
    }
  }

  // ---- All of them ----

  /** What a step leaves alone. */
  lemma StepLeaves(s: State, p: L.Pid, c: Choice)
    ensures var t := Step(s, p, c);
            && t.origin == s.origin && (forall q :: q != p ==> ProcOf(t, q) == ProcOf(s, q))
            && (forall r :: !(ProcOf(s, p).pc.Leaving? && ProcOf(s, p).call.ref == r) ==> LogOf(t, r) == LogOf(s, r))
            && (!ProcOf(s, p).pc.Idle? ==> ProcOf(t, p).call == ProcOf(s, p).call)
            && (ProcOf(s, p).pc.Leaving? || ProcOf(s, p).pc.Idle? ==> !InSection(ProcOf(t, p).pc))
  {
    hide Step, InSection;
    OthersStay(s, p, c);
    HistoryStays(s, p, c);
    if ProcOf(s, p).pc.Leaving? || ProcOf(s, p).pc.Idle? {
      OutsideStays(s, p, c);
    }
  }

  /** `t` differs from `s` in the locks, the files, the volumes and `p` only, and `p` is
      still about its call. */
  predicate OnlyMoves(s: State, t: State, p: L.Pid) {
    && t.origin == s.origin
    && (t.procs == s.procs || (p in t.procs && t.procs == s.procs[p := t.procs[p]]))
    && (!ProcOf(s, p).pc.Idle? ==> ProcOf(t, p).call == ProcOf(s, p).call)
  }

  lemma OthersStay(s: State, p: L.Pid, c: Choice)
    ensures Step(s, p, c).origin == s.origin && forall q :: q != p ==> ProcOf(Step(s, p, c), q) == ProcOf(s, q)
    ensures !ProcOf(s, p).pc.Idle? ==> ProcOf(Step(s, p, c), p).call == ProcOf(s, p).call
  {
    hide Step;
    OnlyOneMoves(s, p, c);
  }

  lemma OnlyOneMoves(s: State, p: L.Pid, c: Choice)
    ensures OnlyMoves(s, Step(s, p, c), p)
  {
    hide Step, OnlyMoves;
    var pc := ProcOf(s, p).pc;
    if PhaseOf(pc).Some? {
      FileMoves(s, p, c);
    } else if pc.Idle? || pc.Leaving? || pc.InLvm? {
      EndMoves(s, p, c);
    } else {
      LockMoves(s, p, c);
    }
  }

  lemma FileMoves(s: State, p: L.Pid, c: Choice)
    requires PhaseOf(ProcOf(s, p).pc).Some?
    ensures OnlyMoves(s, Step(s, p, c), p)
  {
    hide AfterUpdate, Computed, FileOf;
    CallStays(ProcOf(s, p), c);
  }

  lemma LockMoves(s: State, p: L.Pid, c: Choice)
    requires ProcOf(s, p).pc.Starting? || ProcOf(s, p).pc.WaitRef? || ProcOf(s, p).pc.WaitLvm?
    ensures OnlyMoves(s, Step(s, p, c), p)
  {
    hide Take, Drop, Snapshot;
  }

  lemma EndMoves(s: State, p: L.Pid, c: Choice)
    requires ProcOf(s, p).pc.Idle? || ProcOf(s, p).pc.Leaving? || ProcOf(s, p).pc.InLvm?
    ensures OnlyMoves(s, Step(s, p, c), p)
  {
    hide Drop, AfterLvs, AfterLvchange, Snapshot, LogOf;
    CallStays(ProcOf(s, p), c);
  }

  lemma HistoryStays(s: State, p: L.Pid, c: Choice)
    ensures !ProcOf(s, p).pc.Leaving? ==> Step(s, p, c).log == s.log
    ensures forall r :: r != ProcOf(s, p).call.ref ==> LogOf(Step(s, p, c), r) == LogOf(s, r)
  {
    hide Take, Drop, AfterUpdate, AfterLvs, AfterLvchange, Computed, Snapshot, Finish, FileOf;
  }

  lemma OutsideStays(s: State, p: L.Pid, c: Choice)
    requires ProcOf(s, p).pc.Leaving? || ProcOf(s, p).pc.Idle?
    ensures !InSection(ProcOf(Step(s, p, c), p).pc)
  {
    hide Drop, LogOf;
  }

  lemma CallStays(pr: Proc, c: Choice)
    ensures forall ph, pair :: AfterUpdate(pr, ph, pair).call == pr.call
    ensures forall ph, pair :: Computed(pr, ph, pair).call == pr.call
    ensures forall cmd, cache :: AfterLvs(pr, cmd, cache).call == pr.call
    ensures AfterLvchange(pr, c).call == pr.call
  {
  }

  lemma StepKeepsAware(s: State, p: L.Pid, c: Choice)
    requires Inv(s) && AllAware(s) && !Misled(s, p)
    ensures AllAware(Step(s, p, c))
  {
    hide Inv, Misled, NoUnderflow, Aware, Step, Replay;
    var t := Step(s, p, c);
    StepLeaves(s, p, c);
    forall q ensures Aware(ProcOf(t, q), Base(t, ProcOf(t, q).call.ref)) {
      if q == p {
        OwnIsAware(s, p, c);
      } else {
        OtherIsAware(s, p, q, c);
      }
    }
    forall r ensures NoUnderflow(LvRef(ZERO, r in t.origin), LogOf(t, r)) {
      if ProcOf(s, p).pc.Leaving? && ProcOf(s, p).call.ref == r {
        LeavingIsAware(s, p, c);
      }
    }
  }

  lemma OwnIsAware(s: State, p: L.Pid, c: Choice)
    requires Inv(s) && AllAware(s) && !Misled(s, p)
    ensures var t := Step(s, p, c); Aware(ProcOf(t, p), Base(t, ProcOf(t, p).call.ref))
  {
    hide Inv, Misled, NoUnderflow, Step, Replay, OffAndFree, Harmless, InSection;
    var pr := ProcOf(s, p);
    StepLeaves(s, p, c);
    assert Aware(pr, Base(s, pr.call.ref));
    if !pr.pc.Idle? && !pr.pc.Leaving? && !pr.call.activate && OffAndFree(Base(s, pr.call.ref)) {
      StepIsAware(s, p, c);
    }
  }

  lemma OtherIsAware(s: State, p: L.Pid, q: L.Pid, c: Choice)
    requires Inv(s) && AllAware(s) && q != p
    ensures var t := Step(s, p, c); Aware(ProcOf(t, q), Base(t, ProcOf(t, q).call.ref))
  {
    hide NoUnderflow, Step, Replay, OffAndFree, Harmless;
    StepLeaves(s, p, c);
    var x := ProcOf(s, q).call.ref;
    assert Aware(ProcOf(s, q), Base(s, x));
    if ProcOf(s, p).pc.Leaving? && ProcOf(s, p).call.ref == x && InSection(ProcOf(s, q).pc) {
      assert Local(s, p) && Local(s, q);
      OneInSection(s, p, q);
    }
  }

  /** The call that ends has not given up a count that did not exist. */
  lemma LeavingIsAware(s: State, p: L.Pid, c: Choice)
    requires Inv(s) && AllAware(s) && ProcOf(s, p).pc.Leaving?
    ensures var t, r := Step(s, p, c), ProcOf(s, p).call.ref;
            NoUnderflow(LvRef(ZERO, r in t.origin), LogOf(t, r))
  {
    hide Replay, Stored, Possible, Effect, L.Inv, RefInv, CountsRight, Drop;
    var pr := ProcOf(s, p);
    var r, e := pr.call.ref, pr.pc.event;
    assert Local(s, p) && Aware(pr, Base(s, r));
    assert NoUnderflow(LvRef(ZERO, r in s.origin), LogOf(s, r));
    OneMore(LvRef(ZERO, r in s.origin), LogOf(s, r), e);
  }

  lemma OneMore(start: LvRef, log: seq<Event>, e: Event)
    requires NoUnderflow(start, log) && !UnderflowRevert(Replay(start, log, |log|), e)
    ensures NoUnderflow(start, log + [e])
  {
    hide UnderflowRevert;
    forall k: nat ensures !UnderflowAt(start, log + [e], k) {
      if k <= |log| {
        ReplayPrefix(start, log, [e], k);
        assert !UnderflowAt(start, log, k);
      }
    }
  }

  // ---- Runs ----

  lemma InitialIsAware(origin: set<Ref>)
    ensures AllAware(Initial(origin))
  {
    var s := Initial(origin);
    assert forall p :: ProcOf(s, p) == NOBODY;
  }

  lemma {:induction false} RunKeepsAware(s: State, turns: seq<Turn>)
    requires Inv(s) && AllAware(s) && NeverMisled(s, turns)
    ensures AllAware(Run(s, turns))
    decreases turns
  {
    hide Inv, AllAware, Step, Misled;
    if turns != [] {
      StepKeepsInv(s, turns[0].pid, turns[0].choice);
      StepKeepsAware(s, turns[0].pid, turns[0].choice);
      RunKeepsAware(Step(s, turns[0].pid, turns[0].choice), turns[1..]);
    }
  }

  /** In a run in which nobody enters misled, every counted reference whose lock is free has
      its volume on, and has had it on after each finished call. */
  lemma NobodyMisledNothingLost(origin: set<Ref>, turns: seq<Turn>, r: Ref)
    requires NeverMisled(Initial(origin), turns)
    ensures var s := Run(Initial(origin), turns);
            && AlwaysSafe(LvRef(ZERO, r in s.origin), LogOf(s, r))
            && (ValidRef(r) && RefLock(r) !in s.locks.kernel && Total(StoredPair(s, r)) > 0 ==> r in s.active)
  {
    hide Inv, Step, NeverMisled, Run, AlwaysSafe, NoUnderflow, StoredPair, ValidRef;
    var s := Run(Initial(origin), turns);
    assert Reachable(s);
    hide Reachable;
    InitialInv(origin);
    InitialIsAware(origin);
    RunKeepsAware(Initial(origin), turns);
    assert NoUnderflow(LvRef(ZERO, r in s.origin), LogOf(s, r));
    AlwaysSafeExactly(s, r);
    if ValidRef(r) && RefLock(r) !in s.locks.kernel {
      CountedMeansActive(s, r);
    }
  }
}
