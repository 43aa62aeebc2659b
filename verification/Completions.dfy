/** A call that has its locks for itself can go through: from any reachable state the last
    reference can be given up and the first one taken, with the volume switched, if LVM
    does what it is asked (sm/lock.py:643-698). */
module Completions {
  import opened Options
  import opened RefPairs
  import opened Activation
  import opened Endings
  import opened ActivationProtocol
  import opened ActivationProofs
  import opened ActivationTheorems
  import opened ActivationWitness
  import opened Outcomes

  /** `p` asks for the lock of a reference; the lock and that of LVM are free. */
  ghost predicate AtTheDoor(s: State, p: L.Pid, call: Call) {
    && Reachable(s) && ValidRef(call.ref)
    && ProcOf(s, p).pc.WaitRef? && ProcOf(s, p).call == call
    && RefLock(call.ref) !in s.locks.kernel && LVM !in s.locks.kernel
  }

  /** `p` has come from `s` to here, by itself, and its part of the state is `v`. */
  ghost predicate Got(s: State, t: State, p: L.Pid, r: Ref, v: View) {
    Reachable(t) && Alone(s, t, p) && ValidRef(r) && ViewOf(t, p, r) == v && v.pr.call.ref == r
  }

  lemma Goes(s: State, t: State, u: State, p: L.Pid, q: L.Pid, r: Ref, v: View, w: View)
    requires Got(s, t, p, r, v) && Moved(t, u, p, q, r, w) && w.pr.call.ref == r
    ensures Got(s, u, p, r, w)
  {
    hide Reachable, Alone, ViewOf;
    AloneOn(s, t, u, p);
  }

  /** The file of a reference whose lock is free is whole. */
  lemma FileIsWhole(s: State, r: Ref)
    requires Reachable(s) && ValidRef(r) && RefLock(r) !in s.locks.kernel
    ensures FileOf(s, r) == if StoredPair(s, r) == ZERO then None else Some(Counts(StoredPair(s, r)))
  {
    hide Reachable, Replay, PossibleLog;
    CallsAreAtomic(s, r);
  }

  /** A process that has entered and read the counts. */
  lemma Enters(s: State, p: L.Pid, call: Call) returns (t: State)
    requires AtTheDoor(s, p, call)
    ensures var v := ViewOf(s, p, call.ref);
            var pr := v.pr.(pc := Reading(First), refreshed := false, leftOn := false);
            Got(s, t, p, call.ref, v.(pr := Computed(pr, First, StoredPair(s, call.ref)), refFree := false))
  {
    hide Reachable, Alone, Computed;
    var r, q := call.ref, p + 1;
    FileIsWhole(s, r);
    t := TakesRef(s, p, q, r);
    var u := Reads(t, p, q, r, First);
    AloneOn(s, t, u, p);
    PairOf(ViewOf(t, p, r).file, StoredPair(s, r));
    ComputedPlace(ProcOf(t, p), First, StoredPair(s, r));
    t := u;
  }

  lemma PairOf(file: Option<File>, pair: Pair)
    requires file == if pair == ZERO then None else Some(Counts(pair))
    ensures (match file case Some(Counts(was)) => was case _ => ZERO) == pair
  {
  }

  lemma NothingLeft(pr: Proc, was: Pair)
    requires !pr.call.activate && Total(Put(was, pr.call.binary)) == 0
    ensures Computed(pr, First, was) == pr.(pc := Unlinking(First))
  {
    hide Get, Put, Total;
    NothingCounted(Put(was, pr.call.binary));
  }

  /** What follows when nothing is left, for a volume that is cached. */
  lemma LooksAt(pr: Proc, pc: Pc)
    requires !pr.call.activate && !pr.refreshed && pr.cache.Some? && pr.call.ref in pr.cache.value
    ensures var cached := pr.cache.value[pr.call.ref];
            AfterUpdate(pr.(pc := pc), First, ZERO)
            == if cached.open then pr.(pc := WaitLvm(LvsBusy))
               else pr.(pc := WaitLvm(Lvchange), wasActive := cached.active)
  {
    hide Inspect, Put, Get;
    InspectIs(pr.(pc := pc));
    AfterIsInspect(pr.(pc := pc));
    assert pr.(pc := pc).(pc := WaitLvm(LvsBusy)) == pr.(pc := WaitLvm(LvsBusy));
  }

  lemma AfterIsInspect(pr: Proc)
    requires !pr.call.activate
    ensures AfterUpdate(pr, First, ZERO) == Inspect(pr)
  {
    hide Inspect;
  }

  lemma LooksAgain(pr: Proc, on: bool)
    ensures AfterLvs(pr, LvsBusy, map[pr.call.ref := Cached(on, false)])
         == pr.(pc := WaitLvm(Lvchange), cache := Some(map[pr.call.ref := Cached(on, false)]), refreshed := true,
                wasActive := on)
  {
  }

  /** Up to lvchange. */
  lemma ComesToSwitchOff(s: State, p: L.Pid, call: Call) returns (t: State)
    requires AtTheDoor(s, p, call) && !call.activate && Total(Put(StoredPair(s, call.ref), call.binary)) == 0
    requires ProcOf(s, p).cache.Some? && call.ref in ProcOf(s, p).cache.value
    ensures var v, w := ViewOf(s, p, call.ref), ViewOf(t, p, call.ref);
            Got(s, t, p, call.ref, View(w.pr, None, v.on, false, true, v.log))
            && w.pr.pc == WaitLvm(Lvchange) && w.pr.call == call
  {
    hide Reachable, Alone, Computed, AfterUpdate, AfterLvs;
    var r, q := call.ref, p + 1;
    t := Enters(s, p, call);
    var pr := ProcOf(s, p).(pc := Reading(First), refreshed := false, leftOn := false);
    NothingLeft(pr, StoredPair(s, r));
    var u := Unlinks(t, p, q, r, First);
    LooksAt(pr, Unlinking(First));
    LooksAt(pr, RemovingDir(First));
    LooksAt(pr.(pc := Unlinking(First)), if ViewOf(t, p, r).file.None? then Unlinking(First) else RemovingDir(First));
    Goes(s, t, u, p, q, r, ViewOf(t, p, r), ViewOf(u, p, r));
    t := u;
    if ProcOf(t, p).pc == WaitLvm(LvsBusy) {
      t := TakesLvm(u, p, q, r);
      Goes(s, u, t, p, q, r, ViewOf(u, p, r), ViewOf(t, p, r));
      u := Relists(t, p, q, r);
      LooksAgain(ProcOf(t, p), ViewOf(t, p, r).on);
      Goes(s, t, u, p, q, r, ViewOf(t, p, r), ViewOf(u, p, r));
      t := u;
    }
  }

  const REFUSED := PLAIN.(ok := false, retry := true)

  /** The LVM lock is taken and the command fails, `n` times. */
  function Failing(p: L.Pid, n: nat): seq<Turn> {
    if n == 0 then [] else [Turn(p, PLAIN), Turn(p, REFUSED)] + Failing(p, n - 1)
  }

  /** `p` gets from `s` to `t` all by itself, and the command fails `n` times on the way. */
  ghost predicate AfterFailures(s: State, t: State, p: L.Pid, n: nat) {
    exists a, b :: ByOne(a, p) && ByOne(b, p) && t == Run(Run(Run(s, a), Failing(p, n)), b)
  }

  lemma PutTogether(s: State, t: State, u: State, v: State, p: L.Pid, n: nat)
    requires Alone(s, t, p) && u == Run(t, Failing(p, n)) && Alone(u, v, p)
    ensures AfterFailures(s, v, p, n)
  {
    hide Failing;
    var a :| ByOne(a, p) && t == Run(s, a);
    var b :| ByOne(b, p) && v == Run(u, b);
    assert v == Run(Run(Run(s, a), Failing(p, n)), b);
  }

  lemma TwoTurns(s: State, a: Turn, b: Turn, rest: seq<Turn>)
    ensures Run(s, [a, b] + rest) == Run(Step(Step(s, a.pid, a.choice), b.pid, b.choice), rest)
  {
    hide Step;
    var turns := [a, b] + rest;
    assert turns[1..] == [b] + rest && turns[1..][1..] == rest;
  }

  /** The command fails any number of times and is run again. */
  lemma {:induction false} FailsFirst(s: State, t0: State, p: L.Pid, call: Call, n: nat) returns (t: State)
    requires var v := ViewOf(t0, p, call.ref);
             Got(s, t0, p, call.ref, v) && v.lvmFree && !v.refFree && v.pr.pc == WaitLvm(Lvchange) && v.pr.call == call
    ensures Got(s, t, p, call.ref, ViewOf(t0, p, call.ref)) && t == Run(t0, Failing(p, n))
    decreases n
  {
    hide Reachable, Alone, AfterLvchange, Step;
    var r, q := call.ref, p + 1;
    t := t0;
    if n > 0 {
      var u := TakesLvm(t0, p, q, r);
      AloneOn(s, t0, u, p);
      t := Retries(u, p, q, r);
      AloneOn(s, u, t, p);
      TwoTurns(t0, Turn(p, PLAIN), Turn(p, REFUSED), Failing(p, n - 1));
      t := FailsFirst(s, t, p, call, n - 1);
    }
  }

  /** A command that succeeds, and the end of the call. */
  lemma Switches(s: State, t0: State, p: L.Pid, call: Call) returns (t: State)
    requires var v := ViewOf(t0, p, call.ref);
             Got(s, t0, p, call.ref, v) && v.lvmFree && !v.refFree && v.pr.pc == WaitLvm(Lvchange) && v.pr.call == call
    ensures Reachable(t) && Alone(s, t, p)
    ensures var e := if call.activate then Activate(call.binary, Done) else Deactivate(call.binary, Done);
            var v, w := ViewOf(t0, p, call.ref), ViewOf(t, p, call.ref);
            w == View(w.pr, v.file, call.activate, true, true, v.log + [e]) && w.pr.pc.Idle?
  {
    hide Reachable, Alone, AfterLvchange;
    var r, q := call.ref, p + 1;
    t := TakesLvm(t0, p, q, r);
    AloneOn(s, t0, t, p);
    var u := Changes(t, p, q, r, true);
    AloneOn(s, t, u, p);
    SwitchedPlace(ProcOf(t, p));
    var e := if call.activate then Activate(call.binary, Done) else Deactivate(call.binary, Done);
    t := Leaves(u, p, q, r, e);
    AloneOn(s, u, t, p);
  }

  lemma SwitchedPlace(pr: Proc)
    ensures var after := AfterLvchange(pr, PLAIN.(ok := true));
            after.call == pr.call
            && after.pc == Leaving(if pr.call.activate then Activate(pr.call.binary, Done)
                                   else Deactivate(pr.call.binary, Done))
  {
    hide Mark;
  }

  /** The last reference can be given up, whatever the cache says of the volume, as long as
      it knows it: the process finds out that it is closed and switches it off, at once or
      after any number of failures. */
  lemma LastReferenceCanGo(s: State, p: L.Pid, call: Call, n: nat) returns (t: State)
    requires AtTheDoor(s, p, call) && !call.activate && Total(Put(StoredPair(s, call.ref), call.binary)) == 0
    requires ProcOf(s, p).cache.Some? && call.ref in ProcOf(s, p).cache.value
    ensures Reachable(t) && AfterFailures(s, t, p, n) && ProcOf(t, p).pc.Idle?
    ensures LogOf(t, call.ref) == LogOf(s, call.ref) + [Deactivate(call.binary, Done)]
    ensures FileOf(t, call.ref) == None && call.ref !in t.active
    ensures RefLock(call.ref) !in t.locks.kernel && LVM !in t.locks.kernel
  {
    hide Reachable, Alone, AfterFailures, Total, Put, StoredPair;
    var u := ComesToSwitchOff(s, p, call);
    var w := FailsFirst(s, u, p, call, n);
    AloneHere(w, p);
    t := Switches(w, w, p, call);
    PutTogether(s, u, w, t, p, n);
  }

  lemma FirstTaken(pr: Proc, was: Pair)
    requires pr.call.activate && Total(Get(was, pr.call.binary)) == 1
    ensures var pair := Get(was, pr.call.binary);
            Computed(pr, First, was) == pr.(pc := Opening(First, pair))
            && forall pc :: AfterUpdate(pr.(pc := pc), First, pair) == pr.(pc := WaitLvm(Lvchange))
  {
    hide Get;
  }

  /** So can the first reference be taken. */
  lemma FirstReferenceCanCome(s: State, p: L.Pid, call: Call, n: nat) returns (t: State)
    requires AtTheDoor(s, p, call) && call.activate && Total(Get(StoredPair(s, call.ref), call.binary)) == 1
    ensures Reachable(t) && AfterFailures(s, t, p, n) && ProcOf(t, p).pc.Idle?
    ensures LogOf(t, call.ref) == LogOf(s, call.ref) + [Activate(call.binary, Done)]
    ensures StoredPair(t, call.ref) == Get(StoredPair(s, call.ref), call.binary) && call.ref in t.active
    ensures RefLock(call.ref) !in t.locks.kernel && LVM !in t.locks.kernel
  {
    hide Reachable, Alone, AfterFailures, Total, Get, Computed, AfterUpdate;
    var r, q := call.ref, p + 1;
    var pair := Get(StoredPair(s, r), call.binary);
    var u := Enters(s, p, call);
    var pr := ProcOf(s, p).(pc := Reading(First), refreshed := false, leftOn := false);
    FirstTaken(pr, StoredPair(s, r));
    FirstTaken(ProcOf(u, p), StoredPair(s, r));
    t := Writes(u, p, q, r, First, pair);
    Goes(s, u, t, p, q, r, ViewOf(u, p, r), ViewOf(t, p, r));
    var w := FailsFirst(s, t, p, call, n);
    AloneHere(w, p);
    u := t;
    t := Switches(w, w, p, call);
    PutTogether(s, u, w, t, p, n);
  }
}
