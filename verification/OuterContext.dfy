/** What an outer LvmLockContext around activate or deactivate does: the process holds the
    LVM lock before it asks for the lock of the reference, and another one that holds that
    lock waits for LVM (sm/lvutil.py:110-133; sm/lock.py:643-698). Without outer contexts
    calls cannot block each other: ActivationTheorems.NoDeadlock. */
module OuterContext {
  import opened Options
  import opened RefPairs
  import opened ActivationProtocol
  import opened ActivationProofs
  import opened ActivationTheorems
  import opened ActivationWitness

  // ---- What a step does to the locks of others ----

  /** Only `x` has moved: what others own is still theirs. */
  ghost predicate OwnMove(ls: L.State, ls': L.State, x: L.Pid) {
    && L.Inv(ls')
    && forall id :: id in ls.kernel && ls.kernel[id] != x ==> id in ls'.kernel && ls'.kernel[id] == ls.kernel[id]
  }

  lemma TakeIsOwn(ls: L.State, x: L.Pid, id: L.LockId)
    requires L.Inv(ls)
    ensures OwnMove(ls, Take(ls, x, id).0, x)
  {
    L.StepKeepsInv(ls, x, L.New(id));
    var ls1 := L.DoNew(ls, x, id);
    L.StepKeepsInv(ls1, x, L.Acquire_(id));
  }

  lemma DropIsOwn(ls: L.State, x: L.Pid, id: L.LockId)
    requires L.Inv(ls)
    ensures OwnMove(ls, Drop(ls, x, id), x)
  {
    L.StepKeepsInv(ls, x, L.Release_(id));
  }

  /** A lock that somebody else owns is not granted, and nothing else changes. */
  lemma TakeRefused(ls: L.State, x: L.Pid, id: L.LockId)
    requires L.Inv(ls) && id in ls.kernel && ls.kernel[id] != x
    ensures !Take(ls, x, id).1
  {
    L.StepKeepsInv(ls, x, L.New(id));
    var ls1 := L.DoNew(ls, x, id);
    assert L.Holds(ls1, x, id) <==> (id in ls1.kernel && ls1.kernel[id] == x);
  }

  /** A lock that is held already is granted once more. */
  lemma TakeAgain(ls: L.State, x: L.Pid, id: L.LockId)
    requires L.Inv(ls) && id in ls.kernel && ls.kernel[id] == x
    ensures var r := Take(ls, x, id);
            r.1 && r.0.kernel == ls.kernel && L.CountOf(r.0, x, id) == L.CountOf(ls, x, id) + 1 && L.Inv(r.0)
  {
    TakeIsOwn(ls, x, id);
    assert L.Holds(ls, x, id);
  }

  lemma DropOne(ls: L.State, x: L.Pid, id: L.LockId)
    requires L.Inv(ls) && L.CountOf(ls, x, id) == 2
    ensures Drop(ls, x, id).kernel == ls.kernel && L.Inv(Drop(ls, x, id))
  {
    DropIsOwn(ls, x, id);
  }

  lemma StepIsOwn(s: State, x: L.Pid, c: Choice)
    requires L.Inv(s.locks)
    ensures OwnMove(s.locks, Step(s, x, c).locks, x)
    ensures forall y :: y != x ==> ProcOf(Step(s, x, c), y) == ProcOf(s, y)
  {
    hide Take, Drop, L.Inv, AfterUpdate, AfterLvs, AfterLvchange, Computed, Snapshot, OwnMove;
    var pr := ProcOf(s, x);
    Unmoved(s.locks, x);
    match pr.pc
    case Idle =>
    case Starting(_) =>
      TakeIsOwn(s.locks, x, LVM);
      DropIsOwn(s.locks, x, LVM);
    case WaitRef => TakeIsOwn(s.locks, x, RefLock(pr.call.ref));
    case WaitLvm(_) => TakeIsOwn(s.locks, x, LVM);
    case InLvm(_) => DropIsOwn(s.locks, x, LVM);
    case Leaving(_) => DropIsOwn(s.locks, x, RefLock(pr.call.ref));
    case _ =>
  }

  lemma Unmoved(ls: L.State, x: L.Pid)
    requires L.Inv(ls)
    ensures OwnMove(ls, ls, x)
  {
  }

  // ---- The deadlock ----

  /** `p` has the LVM lock and waits for the reference, `q` has the reference and waits
      for LVM. */
  ghost predicate Crossed(s: State, p: L.Pid, q: L.Pid, r: Ref) {
    && L.Inv(s.locks) && p != q
    && LVM in s.locks.kernel && s.locks.kernel[LVM] == p
    && RefLock(r) in s.locks.kernel && s.locks.kernel[RefLock(r)] == q
    && ProcOf(s, p).pc == WaitRef && ProcOf(s, p).call.ref == r && ProcOf(s, q).pc.WaitLvm?
  }

  lemma CrossedStays(s: State, p: L.Pid, q: L.Pid, r: Ref, x: L.Pid, c: Choice)
    requires Crossed(s, p, q, r)
    ensures Crossed(Step(s, x, c), p, q, r)
  {
    hide Take, Drop, L.Inv, Step;
    StepIsOwn(s, x, c);
    if x == p {
      TakeRefused(s.locks, p, RefLock(r));
      WaitsForRef(s, p, c);
    } else if x == q {
      TakeRefused(s.locks, q, LVM);
      WaitsForLvm(s, q, c);
    }
  }

  lemma WaitsForRef(s: State, p: L.Pid, c: Choice)
    requires L.Inv(s.locks) && ProcOf(s, p).pc == WaitRef && !Take(s.locks, p, RefLock(ProcOf(s, p).call.ref)).1
    ensures ProcOf(Step(s, p, c), p) == ProcOf(s, p)
    ensures forall id :: id in s.locks.kernel ==>
              id in Step(s, p, c).locks.kernel && Step(s, p, c).locks.kernel[id] == s.locks.kernel[id]
  {
    RefusedKernel(s.locks, p, RefLock(ProcOf(s, p).call.ref));
    hide Take;
  }

  lemma WaitsForLvm(s: State, q: L.Pid, c: Choice)
    requires L.Inv(s.locks) && ProcOf(s, q).pc.WaitLvm? && !Take(s.locks, q, LVM).1
    ensures ProcOf(Step(s, q, c), q) == ProcOf(s, q)
    ensures forall id :: id in s.locks.kernel ==>
              id in Step(s, q, c).locks.kernel && Step(s, q, c).locks.kernel[id] == s.locks.kernel[id]
  {
    RefusedKernel(s.locks, q, LVM);
    hide Take;
  }

  lemma RefusedKernel(ls: L.State, x: L.Pid, id: L.LockId)
    requires !Take(ls, x, id).1
    ensures Take(ls, x, id).0.kernel == ls.kernel
  {
  }

  lemma {:induction false} CrossedForEver(s: State, p: L.Pid, q: L.Pid, r: Ref, turns: seq<Turn>)
    requires Crossed(s, p, q, r)
    ensures Crossed(Run(s, turns), p, q, r)
    decreases turns
  {
    hide Step, Crossed;
    if turns != [] {
      CrossedStays(s, p, q, r, turns[0].pid, turns[0].choice);
      CrossedForEver(Step(s, turns[0].pid, turns[0].choice), p, q, r, turns[1..]);
    }
  }

  // ---- How it comes about ----

  /** `p` enters an outer context. */
  function EnterOuter(s: State, p: L.Pid): State {
    s.(locks := Take(s.locks, p, LVM).0)
  }

  /** Inside it, the first use of the cache: the LVM lock is taken once more and given back
      once, and the lock of the reference is asked for. */
  function Inside(s: State, p: L.Pid, call: Call): State {
    Step(Step(Step(s, p, PLAIN.(call := call)), p, PLAIN), p, PLAIN)
  }

  lemma InsideWaits(s: State, p: L.Pid, call: Call)
    requires L.Inv(s.locks) && LVM in s.locks.kernel && s.locks.kernel[LVM] == p && L.CountOf(s.locks, p, LVM) == 1
    requires ProcOf(s, p).pc.Idle? && ProcOf(s, p).cache.None? && ValidRef(call.ref)
    ensures var t := Inside(s, p, call);
            && t.locks.kernel == s.locks.kernel && L.Inv(t.locks)
            && ProcOf(t, p).pc == WaitRef && ProcOf(t, p).call == call
            && forall y :: y != p ==> ProcOf(t, y) == ProcOf(s, y)
  {
    hide Take, Drop, L.Inv, Snapshot;
    var s1 := Step(s, p, PLAIN.(call := call));
    assert ProcOf(s1, p) == ProcOf(s, p).(pc := Starting(false), call := call);
    TakeAgain(s1.locks, p, LVM);
    var s2 := Step(s1, p, PLAIN);
    assert ProcOf(s2, p).pc == Starting(true);
    DropOne(s2.locks, p, LVM);
    var s3 := Step(s2, p, PLAIN);
    assert ProcOf(s3, p).pc == WaitRef;
  }

  /** There is a reachable state from which, once `p` has entered an outer context and
      begins its call there, no run of any processes ever lets `p` or `q` go on. */
  lemma OuterContextDeadlocks(p: L.Pid, q: L.Pid, r: Ref) returns (s: State)
    requires p != q && ValidRef(r)
    ensures Reachable(s) && LVM !in s.locks.kernel && ProcOf(s, p).pc.Idle?
    ensures forall turns :: Crossed(Run(Inside(EnterOuter(s, p), p, Call(true, r, false)), turns), p, q, r)
  {
    s := Initial({});
    assert s == Run(Initial({}), []);
    assert ViewOf(s, q, r) == Free(NOBODY, None, false, ViewOf(s, q, r).log) && ProcOf(s, p) == NOBODY;
    s := WaitsInSection(s, q, p, r);
    var call := Call(true, r, false);
    EntersOuter(s, p, q, r);
    var t := EnterOuter(s, p);
    InsideWaits(t, p, call);
    hide Reachable, Inside;
    var u := Inside(t, p, call);
    assert Crossed(u, p, q, r);
    forall turns ensures Crossed(Run(u, turns), p, q, r) {
      CrossedForEver(u, p, q, r, turns);
    }
  }

  /** `q` is in the section of the reference and waits for LVM. */
  lemma WaitsInSection(s: State, q: L.Pid, p: L.Pid, r: Ref) returns (t: State)
    requires Ready(s, q, p, r, Idle) && ViewOf(s, q, r) == Free(NOBODY, None, false, ViewOf(s, q, r).log)
    ensures Reachable(t) && ProcOf(t, p) == ProcOf(s, p) && LVM !in t.locks.kernel
    ensures ProcOf(t, q).pc == WaitLvm(Lvchange) && ProcOf(t, q).call.ref == r
  {
    hide Reachable, ViewOf;
    t := FirstUse(s, q, p, Call(true, r, false));
    t := TakesRef(t, q, p, r);
    t := Reads(t, q, p, r, First);
    t := Writes(t, q, p, r, First, Pair(1, 0));
    var v := ViewOf(t, q, r);
    assert v.lvmFree && v.pr.pc == WaitLvm(Lvchange) && v.pr.call.ref == r;
    ViewIs(t, q, r);
  }

  lemma ViewIs(t: State, q: L.Pid, r: Ref)
    ensures ViewOf(t, q, r).pr == ProcOf(t, q) && (ViewOf(t, q, r).lvmFree <==> LVM !in t.locks.kernel)
  {
  }

  lemma EntersOuter(s: State, p: L.Pid, q: L.Pid, r: Ref)
    requires Reachable(s) && LVM !in s.locks.kernel && p != q && ValidRef(r)
    requires ProcOf(s, p).pc.Idle? && ProcOf(s, q).pc.WaitLvm? && ProcOf(s, q).call.ref == r
    ensures var t := EnterOuter(s, p);
            && L.Inv(t.locks) && LVM in t.locks.kernel && t.locks.kernel[LVM] == p
            && L.CountOf(t.locks, p, LVM) == 1
            && RefLock(r) in t.locks.kernel && t.locks.kernel[RefLock(r)] == q
  {
    hide Reachable, Take;
    OwnLocks(s, p);
    OwnLocks(s, q);
    TakeFacts(s.locks, p, LVM);
    assert L.CountOf(s.locks, q, RefLock(r)) == 1;
    assert L.Holds(s.locks, q, RefLock(r)) <==> L.CountOf(s.locks, q, RefLock(r)) >= 1;
  }
}
