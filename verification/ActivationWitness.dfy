/** A run of two processes after which a reference is counted, its lock is free, and its
    volume is off: the deactivation that gives up a count nobody has, on the word of a
    cache that is out of date, and is refused by LVM (sm/lock.py:673-698). */
module ActivationWitness {
  import opened Options
  import opened RefPairs
  import opened Activation
  import opened Endings
  import opened ActivationProtocol
  import opened ActivationProofs
  import opened ActivationTheorems

  /** What matters to process `p` working on `r`. */
  datatype View = View(pr: Proc, file: Option<File>, on: bool, refFree: bool, lvmFree: bool, log: seq<Event>)

  function ViewOf(s: State, p: L.Pid, r: Ref): View {
    View(ProcOf(s, p), FileOf(s, r), r in s.active, RefLock(r) !in s.locks.kernel, LVM !in s.locks.kernel, LogOf(s, r))
  }

  predicate ByOne(turns: seq<Turn>, p: L.Pid) {
    forall k :: 0 <= k < |turns| ==> turns[k].pid == p
  }

  /** `p` gets from `s` to `t` all by itself. */
  ghost predicate Alone(s: State, t: State, p: L.Pid) {
    exists turns :: ByOne(turns, p) && t == Run(s, turns)
  }

  lemma AloneStep(s: State, t: State, p: L.Pid, c: Choice)
    requires Alone(s, t, p)
    ensures Alone(s, Step(t, p, c), p)
  {
    hide Step;
    var turns :| ByOne(turns, p) && t == Run(s, turns);
    RunOne(s, turns, Turn(p, c));
    assert ByOne(turns + [Turn(p, c)], p);
  }

  lemma AloneHere(s: State, p: L.Pid)
    ensures Alone(s, s, p)
  {
    assert ByOne([], p) && s == Run(s, []);
  }

  lemma {:induction false} RunAppend(s: State, a: seq<Turn>, b: seq<Turn>)
    ensures Run(s, a + b) == Run(Run(s, a), b)
    decreases a
  {
    hide Step;
    if a == [] {
      assert a + b == b;
    } else {
      assert (a + b)[1..] == a[1..] + b;
      RunAppend(Step(s, a[0].pid, a[0].choice), a[1..], b);
    }
  }

  lemma AloneOn(s: State, t: State, u: State, p: L.Pid)
    requires Alone(s, t, p) && Alone(t, u, p)
    ensures Alone(s, u, p)
  {
    var a :| ByOne(a, p) && t == Run(s, a);
    var b :| ByOne(b, p) && u == Run(t, b);
    RunAppend(s, a, b);
    assert ByOne(a + b, p);
  }

  /** `p` has moved on to `v` by itself; `q` is where it was. */
  ghost predicate Moved(s: State, t: State, p: L.Pid, q: L.Pid, r: Ref, v: View) {
    Reachable(t) && Alone(s, t, p) && ViewOf(t, p, r) == v && ProcOf(t, q) == ProcOf(s, q)
  }

  ghost predicate Ready(s: State, p: L.Pid, q: L.Pid, r: Ref, pc: Pc) {
    && Reachable(s) && p != q && ValidRef(r)
    && ViewOf(s, p, r).pr.pc == pc && (!pc.Idle? ==> ViewOf(s, p, r).pr.call.ref == r)
  }

  lemma {:induction false} RunOne(s: State, turns: seq<Turn>, turn: Turn)
    ensures Run(s, turns + [turn]) == Step(Run(s, turns), turn.pid, turn.choice)
    decreases turns
  {
    hide Step;
    if turns == [] {
      assert turns + [turn] == [turn] && [turn][1..] == [];
    } else {
      assert (turns + [turn])[1..] == turns[1..] + [turn];
      RunOne(Step(s, turns[0].pid, turns[0].choice), turns[1..], turn);
    }
  }

  lemma StaysReachable(s: State, p: L.Pid, c: Choice)
    requires Reachable(s)
    ensures Reachable(Step(s, p, c)) && Alone(s, Step(s, p, c), p)
  {
    hide Step;
    AloneHere(s, p);
    AloneStep(s, s, p, c);
    var origin, turns :| s == Run(Initial(origin), turns);
    RunOne(Initial(origin), turns, Turn(p, c));
  }

  /** What the invariant says of the locks of `p`. */
  lemma OwnLocks(s: State, p: L.Pid)
    requires Reachable(s)
    ensures L.Inv(s.locks) && CountsRight(s, p)
  {
    ReachableInv(s);
    assert Local(s, p);
  }

  const NO_CALL := Call(true, Ref("", ""), false)
  const PLAIN := Choice(NO_CALL, true, false, false, map[])

  lemma Begins(s: State, p: L.Pid, q: L.Pid, call: Call) returns (t: State)
    requires Ready(s, p, q, call.ref, Idle)
    ensures var v := ViewOf(s, p, call.ref);
            Moved(s, t, p, q, call.ref,
                  v.(pr := v.pr.(pc := if v.pr.cache.None? then Starting(false) else WaitRef, call := call)))
    ensures t == Step(s, p, PLAIN.(call := call))
  {
    hide Alone, Reachable;
    var c := PLAIN.(call := call);
    StaysReachable(s, p, c);
    t := Step(s, p, c);
  }

  lemma TakesLvm(s: State, p: L.Pid, q: L.Pid, r: Ref) returns (t: State)
    requires Ready(s, p, q, r, ViewOf(s, p, r).pr.pc) && ViewOf(s, p, r).lvmFree
    requires ViewOf(s, p, r).pr.pc == Starting(false) || ViewOf(s, p, r).pr.pc.WaitLvm?
    ensures var v := ViewOf(s, p, r);
            var pc := if v.pr.pc.WaitLvm? then InLvm(v.pr.pc.cmd) else Starting(true);
            Moved(s, t, p, q, r, v.(pr := v.pr.(pc := pc), lvmFree := false))
    ensures t == Step(s, p, PLAIN)
  {
    hide Alone, Reachable, Take;
    StaysReachable(s, p, PLAIN);
    OwnLocks(s, p);
    TakeFacts(s.locks, p, LVM);
    t := Step(s, p, PLAIN);
  }

  lemma TakesRef(s: State, p: L.Pid, q: L.Pid, r: Ref) returns (t: State)
    requires Ready(s, p, q, r, WaitRef) && ViewOf(s, p, r).refFree
    ensures var v := ViewOf(s, p, r);
            Moved(s, t, p, q, r,
                  v.(pr := v.pr.(pc := Reading(First), refreshed := false, leftOn := false), refFree := false))
    ensures t == Step(s, p, PLAIN)
  {
    hide Alone, Reachable, Take;
    StaysReachable(s, p, PLAIN);
    OwnLocks(s, p);
    TakeFacts(s.locks, p, RefLock(r));
    t := Step(s, p, PLAIN);
  }

  /** lvs lists the volume, as it is, not open. */
  lemma FillsCache(s: State, p: L.Pid, q: L.Pid, r: Ref) returns (t: State)
    requires Ready(s, p, q, r, Starting(true))
    ensures var v := ViewOf(s, p, r);
            Moved(s, t, p, q, r,
                  v.(pr := v.pr.(pc := WaitRef, cache := Some(map[r := Cached(v.on, false)])), lvmFree := true))
    ensures t == Step(s, p, PLAIN.(seen := map[r := false]))
  {
    hide Alone, Reachable, Drop;
    var c := PLAIN.(seen := map[r := false]);
    StaysReachable(s, p, c);
    OwnLocks(s, p);
    assert L.CountOf(s.locks, p, LVM) == 1;
    DropFacts(s.locks, p, LVM);
    t := Step(s, p, c);
    assert Snapshot(s, c.seen) == map[r := Cached(r in s.active, false)];
  }

  lemma Reads(s: State, p: L.Pid, q: L.Pid, r: Ref, ph: Phase) returns (t: State)
    requires Ready(s, p, q, r, Reading(ph)) && ViewOf(s, p, r).file != Some(Truncated)
    ensures var v := ViewOf(s, p, r);
            Moved(s, t, p, q, r,
                  v.(pr := Computed(v.pr, ph, match v.file case Some(Counts(pair)) => pair case _ => ZERO)))
  {
    hide Alone, Reachable, Computed;
    StaysReachable(s, p, PLAIN);
    t := Step(s, p, PLAIN);
  }

  lemma MakesDir(s: State, p: L.Pid, q: L.Pid, r: Ref, ph: Phase, pair: Pair) returns (t: State)
    requires Ready(s, p, q, r, Opening(ph, pair))
    ensures Moved(s, t, p, q, r, ViewOf(s, p, r)) && r.ns in t.dirs
  {
    hide Alone, Reachable;
    t := s;
    AloneHere(s, p);
    if r.ns !in s.dirs {
      StaysReachable(s, p, PLAIN);
      var u := Step(s, p, PLAIN);
      assert ProcOf(u, p) == ProcOf(s, p).(pc := MakingDir(ph, pair));
      StaysReachable(u, p, PLAIN);
      t := Step(u, p, PLAIN);
      AloneOn(s, u, t, p);
      assert t == StepMakingDir(u, p, ph, pair);
    }
  }

  /** The directory is made when it is not there. */
  lemma Writes(s: State, p: L.Pid, q: L.Pid, r: Ref, ph: Phase, pair: Pair) returns (t: State)
    requires Ready(s, p, q, r, Opening(ph, pair))
    ensures var v := ViewOf(s, p, r);
            Moved(s, t, p, q, r,
                  v.(pr := AfterUpdate(v.pr.(pc := Filling(ph, pair)), ph, pair), file := Some(Counts(pair))))
  {
    hide Alone, Reachable, AfterUpdate;
    var u := MakesDir(s, p, q, r, ph, pair);
    StaysReachable(u, p, PLAIN);
    var w := Step(u, p, PLAIN);
    assert w == StepOpening(u, p, ph, pair);
    StaysReachable(w, p, PLAIN);
    t := Step(w, p, PLAIN);
    assert t == StepFilling(w, p, ph, pair);
    AloneOn(s, u, w, p);
    AloneOn(s, w, t, p);
  }

  lemma Unlinks(s: State, p: L.Pid, q: L.Pid, r: Ref, ph: Phase) returns (t: State)
    requires Ready(s, p, q, r, Unlinking(ph))
    ensures var v := ViewOf(s, p, r);
            var pc := if v.file.None? then Unlinking(ph) else RemovingDir(ph);
            Moved(s, t, p, q, r, v.(pr := AfterUpdate(v.pr.(pc := pc), ph, ZERO), file := None))
  {
    hide Alone, Reachable, AfterUpdate;
    StaysReachable(s, p, PLAIN);
    t := Step(s, p, PLAIN);
    if r in s.files {
      var u := t;
      StaysReachable(u, p, PLAIN);
      t := Step(u, p, PLAIN);
      AloneOn(s, u, t, p);
    }
  }

  /** lvchange, once. */
  lemma Changes(s: State, p: L.Pid, q: L.Pid, r: Ref, ok: bool) returns (t: State)
    requires Ready(s, p, q, r, InLvm(Lvchange))
    ensures var v := ViewOf(s, p, r);
            Moved(s, t, p, q, r,
                  v.(pr := AfterLvchange(v.pr, PLAIN.(ok := ok)), lvmFree := true,
                     on := if ok then v.pr.call.activate else v.on))
  {
    hide Alone, Reachable, Drop, AfterLvchange;
    var c := PLAIN.(ok := ok);
    StaysReachable(s, p, c);
    OwnLocks(s, p);
    assert L.CountOf(s.locks, p, LVM) == 1;
    DropFacts(s.locks, p, LVM);
    t := Step(s, p, c);
  }

  /** lvchange fails and is run once more. */
  lemma Retries(s: State, p: L.Pid, q: L.Pid, r: Ref) returns (t: State)
    requires Ready(s, p, q, r, InLvm(Lvchange))
    ensures var v := ViewOf(s, p, r);
            Moved(s, t, p, q, r, v.(pr := v.pr.(pc := WaitLvm(Lvchange)), lvmFree := true))
    ensures t == Step(s, p, PLAIN.(ok := false, retry := true))
  {
    hide Alone, Reachable, Drop, AfterLvchange;
    var c := PLAIN.(ok := false, retry := true);
    StaysReachable(s, p, c);
    OwnLocks(s, p);
    assert L.CountOf(s.locks, p, LVM) == 1;
    DropFacts(s.locks, p, LVM);
    RetryPlace(ProcOf(s, p), c);
    t := Step(s, p, c);
  }

  lemma RetryPlace(pr: Proc, c: Choice)
    requires !c.ok && c.retry && !c.leftOn
    ensures AfterLvchange(pr, c) == pr.(pc := WaitLvm(Lvchange))
  {
  }

  /** The refresh because of an open volume. */
  lemma Relists(s: State, p: L.Pid, q: L.Pid, r: Ref) returns (t: State)
    requires Ready(s, p, q, r, InLvm(LvsBusy))
    ensures var v := ViewOf(s, p, r);
            Moved(s, t, p, q, r,
                  v.(pr := AfterLvs(v.pr, LvsBusy, map[r := Cached(v.on, false)]), lvmFree := true))
  {
    hide Alone, Reachable, Drop, AfterLvs;
    var c := PLAIN.(seen := map[r := false]);
    StaysReachable(s, p, c);
    OwnLocks(s, p);
    assert L.CountOf(s.locks, p, LVM) == 1;
    DropFacts(s.locks, p, LVM);
    t := Step(s, p, c);
    assert Snapshot(s, c.seen) == map[r := Cached(r in s.active, false)];
  }

  /** The refresh after a failed lvchange. */
  lemma Refreshes(s: State, p: L.Pid, q: L.Pid, r: Ref) returns (t: State)
    requires Ready(s, p, q, r, InLvm(LvsFailed))
    ensures var v := ViewOf(s, p, r);
            Moved(s, t, p, q, r,
                  v.(pr := AfterLvs(v.pr, LvsFailed, map[r := Cached(v.on, false)]), lvmFree := true))
  {
    hide Alone, Reachable, Drop, AfterLvs;
    var c := PLAIN.(seen := map[r := false]);
    StaysReachable(s, p, c);
    OwnLocks(s, p);
    assert L.CountOf(s.locks, p, LVM) == 1;
    DropFacts(s.locks, p, LVM);
    t := Step(s, p, c);
    assert Snapshot(s, c.seen) == map[r := Cached(r in s.active, false)];
  }

  lemma Leaves(s: State, p: L.Pid, q: L.Pid, r: Ref, e: Event) returns (t: State)
    requires Ready(s, p, q, r, Leaving(e))
    ensures var v := ViewOf(s, p, r);
            Moved(s, t, p, q, r, v.(pr := v.pr.(pc := Idle), refFree := true, log := v.log + [e]))
  {
    hide Alone, Reachable, Drop;
    StaysReachable(s, p, PLAIN);
    OwnLocks(s, p);
    assert L.CountOf(s.locks, p, RefLock(r)) == 1;
    DropFacts(s.locks, p, RefLock(r));
    t := Step(s, p, PLAIN);
  }

  // ---- The run ----

  lemma GivesUp(pr: Proc, r: Ref, pair: Pair)
    requires pr.call == Call(false, r, false) && pair in {ZERO, Pair(1, 0)}
    ensures Computed(pr, First, pair) == pr.(pc := Unlinking(First))
  {
    assert Update(pr.call, First, pair) == ZERO;
  }

  /** What a deactivation does next, when the cache says that the volume is on. */
  lemma GoesOn(pr: Proc, r: Ref, pc: Pc)
    requires pr.call == Call(false, r, false) && pr.cache == Some(map[r := Cached(true, false)])
    ensures AfterUpdate(pr.(pc := pc), First, ZERO) == pr.(pc := WaitLvm(Lvchange), wasActive := true)
  {
    hide Inspect, Finish;
    var pr1 := pr.(pc := pc);
    assert AfterUpdate(pr1, First, ZERO) == Inspect(pr1);
    Inspects(pr1, r);
  }

  lemma Inspects(pr: Proc, r: Ref)
    requires pr.call.ref == r && pr.cache == Some(map[r := Cached(true, false)])
    ensures Inspect(pr) == pr.(pc := WaitLvm(Lvchange), wasActive := true)
  {
  }

  lemma Answers(pr: Proc, r: Ref)
    requires pr.call == Call(false, r, false) && pr.cache == Some(map[r := Cached(true, false)])
    ensures AfterLvchange(pr, PLAIN)
         == pr.(cache := Some(map[r := Cached(false, false)]), pc := Leaving(Deactivate(false, Done)))
    ensures AfterLvchange(pr, PLAIN.(ok := false)) == pr.(pc := WaitLvm(LvsFailed))
  {
    assert map[r := Cached(true, false)][r := Cached(false, false)] == map[r := Cached(false, false)];
  }

  /** With both locks free. */
  function Free(pr: Proc, file: Option<File>, on: bool, log: seq<Event>): View {
    View(pr, file, on, true, true, log)
  }

  lemma FirstUse(s: State, p: L.Pid, q: L.Pid, call: Call) returns (t: State)
    requires Ready(s, p, q, call.ref, Idle)
    requires ViewOf(s, p, call.ref).pr.cache.None? && ViewOf(s, p, call.ref).lvmFree
    ensures var v := ViewOf(s, p, call.ref);
            Moved(s, t, p, q, call.ref,
                  v.(pr := v.pr.(pc := WaitRef, call := call, cache := Some(map[call.ref := Cached(v.on, false)]))))
  {
    hide Alone, Reachable, ViewOf;
    t := Begins(s, p, q, call);
    var u := TakesLvm(t, p, q, call.ref);
    AloneOn(s, t, u, p);
    t := FillsCache(u, p, q, call.ref);
    AloneOn(s, u, t, p);
  }

  lemma Activates(s: State, p: L.Pid, q: L.Pid, r: Ref) returns (t: State)
    requires Ready(s, p, q, r, Idle) && ViewOf(s, p, r) == Free(NOBODY, None, false, ViewOf(s, p, r).log)
    ensures Reachable(t) && ProcOf(t, q) == ProcOf(s, q)
    ensures var v := ViewOf(t, p, r);
            v == Free(v.pr, Some(Counts(Pair(1, 0))), true, v.log) && v.pr.pc.Idle?
            && v.pr.cache == Some(map[r := Cached(true, false)])
  {
    hide Alone, Reachable, ViewOf;
    t := FirstUse(s, p, q, Call(true, r, false));
    t := TakesRef(t, p, q, r);
    t := Reads(t, p, q, r, First);
    t := Writes(t, p, q, r, First, Pair(1, 0));
    t := TakesLvm(t, p, q, r);
    t := Changes(t, p, q, r, true);
    assert map[r := Cached(false, false)][r := Cached(true, false)] == map[r := Cached(true, false)];
    t := Leaves(t, p, q, r, Activate(false, Done));
  }

  lemma Deactivates(s: State, p: L.Pid, q: L.Pid, r: Ref) returns (t: State)
    requires Ready(s, p, q, r, Idle)
    requires var v := ViewOf(s, p, r);
             v == Free(v.pr, Some(Counts(Pair(1, 0))), true, v.log) && v.pr.cache == Some(map[r := Cached(true, false)])
    ensures Reachable(t) && ProcOf(t, q) == ProcOf(s, q)
    ensures ViewOf(t, p, r) == Free(ViewOf(t, p, r).pr, None, false, ViewOf(t, p, r).log)
  {
    hide Alone, Reachable, ViewOf, Computed, AfterUpdate, AfterLvchange;
    t := Begins(s, p, q, Call(false, r, false));
    t := TakesRef(t, p, q, r);
    GivesUp(ViewOf(t, p, r).pr, r, Pair(1, 0));
    t := Reads(t, p, q, r, First);
    GoesOn(ViewOf(t, p, r).pr, r, RemovingDir(First));
    t := Unlinks(t, p, q, r, First);
    t := TakesLvm(t, p, q, r);
    Answers(ViewOf(t, p, r).pr, r);
    assert PLAIN.(ok := true) == PLAIN;
    t := Changes(t, p, q, r, true);
    t := Leaves(t, p, q, r, Deactivate(false, Done));
  }

  /** A deactivation of a reference that is not counted and whose volume is off, with a
      cache that says the volume is on. */
  lemma RevertsStale(s: State, p: L.Pid, q: L.Pid, r: Ref) returns (t: State)
    requires Ready(s, p, q, r, WaitRef)
    requires var v := ViewOf(s, p, r);
             v == Free(v.pr, None, false, v.log) && v.pr.call == Call(false, r, false)
             && v.pr.cache == Some(map[r := Cached(true, false)])
    ensures Reachable(t)
    ensures var v := ViewOf(t, p, r); v == Free(v.pr, Some(Counts(Pair(1, 0))), false, v.log)
  {
    hide Alone, Reachable, ViewOf;
    t := FailsToSwitchOff(s, p, q, r);
    t := Refreshes(t, p, q, r);
    t := Reads(t, p, q, r, Undo);
    t := Writes(t, p, q, r, Undo, Pair(1, 0));
    t := Leaves(t, p, q, r, Deactivate(false, Reverted));
  }

  lemma FailsToSwitchOff(s: State, p: L.Pid, q: L.Pid, r: Ref) returns (t: State)
    requires Ready(s, p, q, r, WaitRef)
    requires var v := ViewOf(s, p, r);
             v == Free(v.pr, None, false, v.log) && v.pr.call == Call(false, r, false)
             && v.pr.cache == Some(map[r := Cached(true, false)])
    ensures var v := ViewOf(t, p, r);
            && Ready(t, p, q, r, InLvm(LvsFailed))
            && v == View(v.pr, None, false, false, false, v.log) && v.pr.call == Call(false, r, false)
            && v.pr.wasActive && !v.pr.leftOn
  {
    hide Alone, Reachable, ViewOf, Computed, AfterUpdate, AfterLvchange;
    t := TakesRef(s, p, q, r);
    GivesUp(ViewOf(t, p, r).pr, r, ZERO);
    t := Reads(t, p, q, r, First);
    GoesOn(ViewOf(t, p, r).pr, r, Unlinking(First));
    t := Unlinks(t, p, q, r, First);
    t := TakesLvm(t, p, q, r);
    Answers(ViewOf(t, p, r).pr, r);
    t := Changes(t, p, q, r, false);
    t := TakesLvm(t, p, q, r);
  }

  /** For any two processes and any reference there is such a run. */
  lemma CountedButOffIsReachable(p: L.Pid, q: L.Pid, r: Ref) returns (s: State)
    requires p != q && ValidRef(r)
    ensures Reachable(s) && RefLock(r) !in s.locks.kernel
    ensures StoredPair(s, r) == Pair(1, 0) && r !in s.active
  {
    s := Initial({});
    assert s == Run(Initial({}), []);
    hide Alone, Reachable;
    s := Activates(s, p, q, r);
    s := FirstUse(s, q, p, Call(false, r, false));
    s := Deactivates(s, p, q, r);
    s := RevertsStale(s, q, p, r);
  }
}
