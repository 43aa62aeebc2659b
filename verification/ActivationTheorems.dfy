/** What holds in every reachable state of any number of processes that run
    activate and deactivate. */
module ActivationTheorems {
  import opened Options
  import opened RefPairs
  import opened Activation
  import opened Endings
  import opened ActivationProtocol
  import opened ActivationProofs

  lemma InitialInv(origin: set<Ref>)
    ensures Inv(Initial(origin))
  {
    var s := Initial(origin);
    forall p ensures Local(s, p) {
      assert ProcOf(s, p) == NOBODY;
    }
  }

  lemma StepKeepsInv(s: State, p: L.Pid, c: Choice)
    requires Inv(s)
    ensures Inv(Step(s, p, c))
  {
    hide Inv, StepIdle, StepStarting, StepWaitRef, StepReading, StepOpening, StepMakingDir, StepFilling,
         StepUnlinking, StepRemovingDir, StepWaitLvm, StepLvchange, StepLvs, StepLeaving;
    match ProcOf(s, p).pc
    case Idle => IdleKeeps(s, p, c);
    case Starting(_) => StartingKeeps(s, p, c);
    case WaitRef => WaitRefKeeps(s, p);
    case Reading(ph) => ReadingKeeps(s, p, ph);
    case Opening(ph, pair) => OpeningKeeps(s, p, ph, pair);
    case MakingDir(ph, pair) => MakingDirKeeps(s, p, ph, pair);
    case Filling(ph, pair) => FillingKeeps(s, p, ph, pair);
    case Unlinking(ph) => UnlinkingKeeps(s, p, ph);
    case RemovingDir(ph) => RemovingDirKeeps(s, p, ph);
    case WaitLvm(cmd) => WaitLvmKeeps(s, p, cmd);
    case InLvm(cmd) =>
      if cmd.Lvchange? {
        LvchangeKeeps(s, p, c);
      } else {
        LvsKeeps(s, p, cmd, c);
      }
    case Leaving(e) => LeavingKeeps(s, p, e);
  }

  lemma {:induction false} RunKeepsInv(s: State, turns: seq<Turn>)
    requires Inv(s)
    ensures Inv(Run(s, turns))
    decreases turns
  {
    hide Inv, Step;
    if turns != [] {
      StepKeepsInv(s, turns[0].pid, turns[0].choice);
      RunKeepsInv(Step(s, turns[0].pid, turns[0].choice), turns[1..]);
    }
  }

  ghost predicate Reachable(s: State) {
    exists origin, turns :: s == Run(Initial(origin), turns)
  }

  lemma ReachableInv(s: State)
    requires Reachable(s)
    ensures Inv(s)
  {
    hide Inv;
    var origin, turns :| s == Run(Initial(origin), turns);
    InitialInv(origin);
    RunKeepsInv(Initial(origin), turns);
  }

  /** Whenever the lock of a reference is free, its count file and its volume are
      exactly what its finished calls make of them one after the other, each taken
      as a whole: no interleaving loses, repeats or tears an update. */
  lemma CallsAreAtomic(s: State, r: Ref)
    requires Reachable(s) && ValidRef(r) && RefLock(r) !in s.locks.kernel
    ensures var now := Replay(LvRef(ZERO, r in s.origin), LogOf(s, r), |LogOf(s, r)|);
            && FileOf(s, r) == (if now.pair == ZERO then None else Some(Counts(now.pair)))
            && (r in s.active <==> now.active)
    ensures PossibleLog(LvRef(ZERO, r in s.origin), LogOf(s, r))
  {
    ReachableInv(s);
    assert RefInv(s, r);
  }

  /** The pair a reader of the count file gets. */
  function StoredPair(s: State, r: Ref): Pair {
    match FileOf(s, r)
    case Some(Counts(pair)) => pair
    case _ => ZERO
  }

  /** The finished calls of a reference are a history that the code can have. */
  lemma LogIsPossible(s: State, r: Ref)
    requires Reachable(s)
    ensures PossibleLog(LvRef(ZERO, r in s.origin), LogOf(s, r))
  {
    hide Reachable, PossibleLog, Replay;
    ReachableInv(s);
    assert RefInv(s, r);
  }

  /** Counted has meant switched on after each finished call exactly when none of them
      gave up a count that did not exist while its cache was stale. */
  lemma AlwaysSafeExactly(s: State, r: Ref)
    requires Reachable(s)
    ensures var start := LvRef(ZERO, r in s.origin);
            AlwaysSafe(start, LogOf(s, r)) <==> NoUnderflow(start, LogOf(s, r))
  {
    hide Reachable, Replay, AlwaysSafe, NoUnderflow, PossibleLog, PossibleAt, LogOf;
    LogIsPossible(s, r);
    HistorySafeExactly(LvRef(ZERO, r in s.origin), LogOf(s, r));
  }

  /** A counted reference whose lock is free has its volume on, whatever failed
      before, if no call gave up a count that did not exist while its cache was stale. */
  lemma CountedMeansActive(s: State, r: Ref)
    requires Reachable(s) && ValidRef(r) && RefLock(r) !in s.locks.kernel
    requires NoUnderflow(LvRef(ZERO, r in s.origin), LogOf(s, r))
    ensures Total(StoredPair(s, r)) > 0 ==> r in s.active
    ensures StoredPair(s, r).binary <= 1
  {
    hide Reachable, Replay, NoUnderflow, PossibleLog, PossibleAt, LogOf, ValidRef, UnderflowAt, StoredPair;
    var start, log := LvRef(ZERO, r in s.origin), LogOf(s, r);
    StoredIsReplayed(s, r);
    AlwaysSafeExactly(s, r);
    assert SafeAt(start, log, |log|);
    ProperUpTo(start, log, |log|);
  }

  lemma StoredIsReplayed(s: State, r: Ref)
    requires Reachable(s) && ValidRef(r) && RefLock(r) !in s.locks.kernel
    ensures Replay(LvRef(ZERO, r in s.origin), LogOf(s, r), |LogOf(s, r)|) == LvRef(StoredPair(s, r), r in s.active)
  {
    hide Reachable, Replay, PossibleLog, LogOf, ValidRef;
    CallsAreAtomic(s, r);
  }

  /** The stored normal count is the number of references taken minus the number
      given up, over all processes, if none was given up that had not been taken. */
  lemma NoUpdateIsLost(s: State, r: Ref)
    requires Reachable(s) && ValidRef(r) && RefLock(r) !in s.locks.kernel
    requires forall k: nat :: k < |LogOf(s, r)| ==> !OverPutAt(LvRef(ZERO, r in s.origin), LogOf(s, r), k)
    ensures StoredPair(s, r).normal == Sum(LogOf(s, r), |LogOf(s, r)|)
  {
    CallsAreAtomic(s, r);
    CountIsBalance(LvRef(ZERO, r in s.origin), LogOf(s, r), |LogOf(s, r)|);
  }

  /** Two processes are never in the section of the same reference, and a count
      file is never seen half written by the process about to read it. */
  lemma SectionsExclude(s: State, p: L.Pid, q: L.Pid)
    requires Reachable(s) && p != q
    requires InSection(ProcOf(s, p).pc) && InSection(ProcOf(s, q).pc)
    ensures ProcOf(s, p).call.ref != ProcOf(s, q).call.ref
    ensures ProcOf(s, p).pc.Reading? ==> FileOf(s, ProcOf(s, p).call.ref) != Some(Truncated)
  {
    ReachableInv(s);
    assert Local(s, p) && Local(s, q);
    if ProcOf(s, p).call.ref == ProcOf(s, q).call.ref {
      OneInSection(s, p, q);
    }
  }

  // ---- Deadlock ----

  function Wanted(pr: Proc): Option<L.LockId> {
    match pr.pc
    case Starting(locked) => if locked then None else Some(LVM)
    case WaitRef => Some(RefLock(pr.call.ref))
    case WaitLvm(_) => Some(LVM)
    case _ => None
  }

  /** Waiting for a lock that another process owns. */
  predicate Blocked(s: State, p: L.Pid) {
    var w := Wanted(ProcOf(s, p));
    w.Some? && w.value in s.locks.kernel && s.locks.kernel[w.value] != p
  }

  /** The owner of the LVM lock is running its command. */
  lemma LvmOwnerRuns(s: State, q: L.Pid)
    requires Inv(s) && LVM in s.locks.kernel && s.locks.kernel[LVM] == q
    ensures HasLvm(ProcOf(s, q).pc) && !Blocked(s, q)
  {
    assert Local(s, q);
    assert L.Holds(s.locks, q, LVM);
    assert L.CountOf(s.locks, q, LVM) == ExpectedCount(ProcOf(s, q), LVM);
    assert L.CountOf(s.locks, q, LVM) >= 1;
    if InSection(ProcOf(s, q).pc) {
      assert RefLock(ProcOf(s, q).call.ref) != LVM;
    }
  }

  /** The owner of a reference's lock is inside the section of that reference. */
  lemma RefOwnerInSection(s: State, q: L.Pid, r: Ref)
    requires Inv(s) && ValidRef(r) && RefLock(r) in s.locks.kernel && s.locks.kernel[RefLock(r)] == q
    ensures InSection(ProcOf(s, q).pc) && ProcOf(s, q).call.ref == r
  {
    assert Local(s, q);
    assert L.Holds(s.locks, q, RefLock(r));
    assert L.CountOf(s.locks, q, RefLock(r)) == ExpectedCount(ProcOf(s, q), RefLock(r));
    assert L.CountOf(s.locks, q, RefLock(r)) >= 1;
  }

  /** The process at the end of the chain of lock owners `p` waits for. */
  function Culprit(s: State, p: L.Pid): L.Pid {
    if !Blocked(s, p) then p
    else
      var q := s.locks.kernel[Wanted(ProcOf(s, p)).value];
      if !Blocked(s, q) then q else s.locks.kernel[Wanted(ProcOf(s, q)).value]
  }

  /** Whoever has a call under way, some process with a call under way can move on
      whatever LVM answers: a chain of waiting processes is at most two locks long,
      because the LVM lock is taken last and given up before anything else is wanted. */
  lemma NoDeadlock(s: State, p: L.Pid, c: Choice)
    requires Reachable(s) && !ProcOf(s, p).pc.Idle?
    ensures var q := Culprit(s, p);
            && !Blocked(s, q) && !ProcOf(s, q).pc.Idle?
            && ProcOf(Step(s, q, c), q).pc != ProcOf(s, q).pc
  {
    hide Inv;
    ReachableInv(s);
    CulpritMoves(s, p);
    UnblockedMoves(s, Culprit(s, p), c);
  }

  lemma CulpritMoves(s: State, p: L.Pid)
    requires Inv(s) && !ProcOf(s, p).pc.Idle?
    ensures !Blocked(s, Culprit(s, p)) && !ProcOf(s, Culprit(s, p)).pc.Idle?
  {
    hide Progress, L.Inv;
    if Blocked(s, p) {
      assert Local(s, p);
      var id := Wanted(ProcOf(s, p)).value;
      var q := s.locks.kernel[id];
      if id == LVM {
        LvmOwnerRuns(s, q);
      } else {
        RefOwnerInSection(s, q, ProcOf(s, p).call.ref);
        if Blocked(s, q) {
          LvmOwnerRuns(s, s.locks.kernel[LVM]);
        }
      }
    }
  }

  lemma UnblockedMoves(s: State, q: L.Pid, c: Choice)
    requires Inv(s) && !Blocked(s, q) && !ProcOf(s, q).pc.Idle?
    ensures ProcOf(Step(s, q, c), q).pc != ProcOf(s, q).pc
  {
    var pr := ProcOf(s, q);
    if Wanted(pr).Some? {
      WaiterMoves(s, q, c);
    } else if pr.pc.Reading? {
      hide Inv;
      ReadingKeeps(s, q, pr.pc.ph);
    } else {
      hide Inv;
      WorkerMoves(s, q, c);
    }
  }

  lemma WorkerMoves(s: State, q: L.Pid, c: Choice)
    requires Wanted(ProcOf(s, q)).None? && !ProcOf(s, q).pc.Idle? && !ProcOf(s, q).pc.Reading?
    ensures ProcOf(Step(s, q, c), q).pc != ProcOf(s, q).pc
  {
    hide Drop, Snapshot, AfterUpdate, AfterLvs, AfterLvchange, Total, LogOf, Take, RefLock;
    var pr := ProcOf(s, q);
    match pr.pc
    case Filling(ph, pair) => AfterUpdateLeaves(pr, ph, pair);
    case Unlinking(ph) => AfterUpdateLeaves(pr, ph, ZERO);
    case RemovingDir(ph) => AfterUpdateLeaves(pr, ph, ZERO);
    case InLvm(cmd) => AfterCommandLeaves(pr, cmd, Snapshot(s, c.seen), c);
    case _ =>
  }

  lemma AfterUpdateLeaves(pr: Proc, ph: Phase, pair: Pair)
    ensures var pc := AfterUpdate(pr, ph, pair).pc; pc.WaitLvm? || pc.Leaving?
  {
  }

  lemma AfterCommandLeaves(pr: Proc, cmd: Command, cache: map<Ref, Cached>, c: Choice)
    ensures !AfterLvs(pr, cmd, cache).pc.InLvm? && !AfterLvchange(pr, c).pc.InLvm?
  {
  }

  lemma WaiterMoves(s: State, q: L.Pid, c: Choice)
    requires Inv(s) && !Blocked(s, q) && Wanted(ProcOf(s, q)).Some?
    ensures ProcOf(Step(s, q, c), q).pc != ProcOf(s, q).pc
  {
    hide Progress, Take, Replay;
    var pr := ProcOf(s, q);
    var id := Wanted(pr).value;
    assert Local(s, q);
    assert L.CountOf(s.locks, q, id) == ExpectedCount(pr, id);
    if InSection(pr.pc) {
      assert RefLock(pr.call.ref) != LVM;
    }
    TakeFacts(s.locks, q, id);
    assert L.Holds(s.locks, q, id) <==> L.CountOf(s.locks, q, id) >= 1;
    assert id in s.locks.kernel ==> L.Holds(s.locks, q, id);
  }
}
