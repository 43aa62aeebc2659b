/** The lock protocol of sm/lock.py: kernel write locks, one instance per lock
    in each process, and the re-entrant count kept on top of them.
    The functions on values come first, then the transition system of any number
    of processes; the classes that update their fields are in LockClasses.dfy. */
module FileLocks {

  type Pid = nat

  /** The lock file BASE_DIR/ns/name. */
  datatype LockId = LockId(ns: string, name: string)

  /** The fields of one LockImplementation: its re-entrant count and the flag of
      the WriteLock inside it. */
  datatype Instance = Instance(count: nat, held: bool)

  type Kernel = map<LockId, Pid>
  type Registry = map<LockId, Instance>

  const FRESH := Instance(0, false)

  /** What the kernel answers to a non-blocking write lock request by `p`. */
  predicate Grantable(k: Kernel, p: Pid, id: LockId) {
    id in k ==> k[id] == p
  }

  /** FcntlLockBase.trylock */
  function Trylock(k: Kernel, p: Pid, id: LockId, i: Instance): (Kernel, Instance, bool) {
    if i.held || !Grantable(k, p, id) then (k, i, false)
    else (k[id := p], i.(held := true), true)
  }

  /** FcntlLockBase.unlock: the kernel drops the lock only when `p` owns it. */
  function Unlock(k: Kernel, p: Pid, id: LockId, i: Instance): (Kernel, Instance) {
    (if id in k && k[id] == p then k - {id} else k, i.(held := false))
  }

  /** LockImplementation.acquire. The flag is false while the caller is blocked
      in F_SETLKW, and then nothing has changed. */
  function Acquire(k: Kernel, p: Pid, id: LockId, i: Instance): (Kernel, Instance, bool) {
    if i.held then (k, i.(count := i.count + 1), true)
    else
      var (k1, i1, got) := Trylock(k, p, id, i);
      if got then (k1, i1.(count := i1.count + 1), true) else (k, i, false)
  }

  /** LockImplementation.release */
  function Release(k: Kernel, p: Pid, id: LockId, i: Instance): (Kernel, Instance) {
    var count := if i.count >= 1 then i.count - 1 else i.count;
    if count > 0 then (k, i.(count := count))
    else Unlock(k, p, id, i.(count := count))
  }

  /** LockImplementation._close: all counts are dropped, then the file is closed,
      which makes the kernel drop whatever the process still has on it. */
  function Close(k: Kernel, p: Pid, id: LockId, i: Instance): Kernel {
    var (k1, i1) := if i.held then Release(k, p, id, i.(count := 0)) else (k, i);
    if id in k1 && k1[id] == p then k1 - {id} else k1
  }

  /** Flag, count and kernel agree for this process and lock. */
  predicate Agrees(k: Kernel, p: Pid, id: LockId, i: Instance) {
    (i.held <==> i.count >= 1) && (i.held <==> (id in k && k[id] == p))
  }

  /** A granted acquire is undone by one release, to the last bit, however deeply
      the lock was held before. */
  lemma ReleaseUndoesAcquire(k: Kernel, p: Pid, id: LockId, i: Instance)
    requires Agrees(k, p, id, i)
    ensures var (k1, i1, got) := Acquire(k, p, id, i);
            && (got <==> Grantable(k, p, id))
            && Agrees(k1, p, id, i1)
            && (got ==> Release(k1, p, id, i1) == (k, i))
  {
    if !i.held && Grantable(k, p, id) {
      assert k[id := p] - {id} == k;
    }
  }

  // ---- The transition system ----

  datatype State = State(kernel: Kernel, procs: map<Pid, Registry>)

  datatype Action =
    | New(id: LockId)            // Lock.__new__
    | Acquire_(id: LockId)       // blocking; no effect while the lock is taken
    | AcquireNoblock(id: LockId)
    | Release_(id: LockId)
    | Close_(id: LockId)
    | Exit                       // the process ends in whatever state it is

  const INITIAL := State(map[], map[])

  function Instances(s: State, p: Pid): Registry {
    if p in s.procs then s.procs[p] else map[]
  }

  function CountOf(s: State, p: Pid, id: LockId): nat {
    if id in Instances(s, p) then Instances(s, p)[id].count else 0
  }

  predicate Holds(s: State, p: Pid, id: LockId) {
    id in Instances(s, p) && Instances(s, p)[id].held
  }

  function Put(s: State, p: Pid, k: Kernel, id: LockId, i: Instance): State {
    State(k, s.procs[p := Instances(s, p)[id := i]])
  }

  function DoAcquire(s: State, p: Pid, id: LockId): State
    requires id in Instances(s, p)
  {
    var r := Acquire(s.kernel, p, id, Instances(s, p)[id]);
    Put(s, p, r.0, id, r.1)
  }

  function DoRelease(s: State, p: Pid, id: LockId): State
    requires id in Instances(s, p)
  {
    var r := Release(s.kernel, p, id, Instances(s, p)[id]);
    Put(s, p, r.0, id, r.1)
  }

  function DoNew(s: State, p: Pid, id: LockId): State {
    if id in Instances(s, p) then s else Put(s, p, s.kernel, id, FRESH)
  }

  function Step(s: State, p: Pid, a: Action): State {
    match a
    case New(id) => DoNew(s, p, id)
    case Acquire_(id) => if id in Instances(s, p) then DoAcquire(s, p, id) else s
    // the non-blocking form changes the state in exactly the same way
    case AcquireNoblock(id) => if id in Instances(s, p) then DoAcquire(s, p, id) else s
    case Release_(id) => if id in Instances(s, p) then DoRelease(s, p, id) else s
    case Close_(id) =>
      if id in Instances(s, p) then
        State(Close(s.kernel, p, id, Instances(s, p)[id]), s.procs[p := Instances(s, p) - {id}])
      else s
    case Exit => State(map id | id in s.kernel && s.kernel[id] != p :: s.kernel[id], s.procs - {p})
  }

  datatype Move = Move(pid: Pid, action: Action)

  function Run(s: State, moves: seq<Move>): State
    decreases moves
  {
    if moves == [] then s
    else Run(Step(s, moves[0].pid, moves[0].action), moves[1..])
  }

  /** In each process an instance is held exactly when its count is at least one,
      and exactly then the kernel names that process as the owner. */
  ghost predicate Inv(s: State) {
    && (forall p, id :: Holds(s, p, id) <==> CountOf(s, p, id) >= 1)
    && (forall p, id :: Holds(s, p, id) <==> (id in s.kernel && s.kernel[id] == p))
  }

  lemma StepKeepsInv(s: State, p: Pid, a: Action)
    requires Inv(s)
    ensures Inv(Step(s, p, a))
  {
    var t := Step(s, p, a);
    forall q, id
      ensures Holds(t, q, id) <==> CountOf(t, q, id) >= 1
      ensures Holds(t, q, id) <==> (id in t.kernel && t.kernel[id] == q)
    {
      assert Holds(s, q, id) <==> CountOf(s, q, id) >= 1;
      assert Holds(s, q, id) <==> (id in s.kernel && s.kernel[id] == q);
      if !a.Exit? {
        assert Holds(s, p, a.id) <==> CountOf(s, p, a.id) >= 1;
        assert Holds(s, p, a.id) <==> (a.id in s.kernel && s.kernel[a.id] == p);
      }
    }
  }

  lemma {:induction false} RunKeepsInv(s: State, moves: seq<Move>)
    requires Inv(s)
    ensures Inv(Run(s, moves))
    decreases moves
  {
    if moves != [] {
      StepKeepsInv(s, moves[0].pid, moves[0].action);
      RunKeepsInv(Step(s, moves[0].pid, moves[0].action), moves[1..]);
    }
  }

  /** In every reachable state of any number of processes a lock has at most one
      holder, the kernel agrees with it, and held means counted. */
  lemma MutualExclusion(moves: seq<Move>, p: Pid, q: Pid, id: LockId)
    ensures var s := Run(INITIAL, moves);
            && (Holds(s, p, id) && Holds(s, q, id) ==> p == q)
            && (Holds(s, p, id) <==> CountOf(s, p, id) >= 1)
            && (Holds(s, p, id) <==> (id in s.kernel && s.kernel[id] == p))
  {
    assert Inv(INITIAL);
    RunKeepsInv(INITIAL, moves);
  }

  /** The re-entrant depth `p` is left with when it starts at `depth`; stops at
      zero, where the lock is really given up. */
  ghost function Depth(depth: nat, moves: seq<Move>, p: Pid, id: LockId): nat
    decreases moves
  {
    if depth == 0 || moves == [] then depth
    else
      var a := moves[0].action;
      var d := if moves[0].pid != p then depth
               else if a == Exit || a == Close_(id) then 0
               else if a == Acquire_(id) || a == AcquireNoblock(id) then depth + 1
               else if a == Release_(id) then depth - 1
               else depth;
      Depth(d, moves[1..], p, id)
  }

  /** A nested acquisition is given up only at the outermost release: while the
      depth stays positive no step of any process takes the lock away. */
  lemma {:induction false} NestedLockSurvives(s: State, moves: seq<Move>, p: Pid, id: LockId)
    requires Inv(s) && Holds(s, p, id)
    requires Depth(CountOf(s, p, id), moves, p, id) > 0
    ensures Holds(Run(s, moves), p, id)
    ensures CountOf(Run(s, moves), p, id) == Depth(CountOf(s, p, id), moves, p, id)
    decreases moves
  {
    if moves != [] {
      var t := Step(s, moves[0].pid, moves[0].action);
      StepKeepsInv(s, moves[0].pid, moves[0].action);
      assert Holds(s, p, id) <==> CountOf(s, p, id) >= 1;
      assert CountOf(t, p, id) > 0 by {
        if CountOf(t, p, id) == 0 {
          assert false;
        }
      }
      NestedLockSurvives(t, moves[1..], p, id);
    }
  }

  /** The next step frees the lock exactly when it brings the depth to zero. */
  lemma OnlyOutermostReleaseFrees(s: State, moves: seq<Move>, m: Move, p: Pid, id: LockId)
    requires Inv(s) && Holds(s, p, id)
    requires Depth(CountOf(s, p, id), moves, p, id) > 0
    ensures var t := Run(s, moves);
            var u := Step(t, m.pid, m.action);
            && (Holds(u, p, id) <==> Depth(CountOf(t, p, id), [m], p, id) > 0)
            && (!Holds(u, p, id) ==> id !in u.kernel)
  {
    NestedLockSurvives(s, moves, p, id);
    RunKeepsInv(s, moves);
    var t := Run(s, moves);
    StepKeepsInv(t, m.pid, m.action);
    if Depth(CountOf(t, p, id), [m], p, id) > 0 {
      NestedLockSurvives(t, [m], p, id);
      assert Run(t, [m]) == Step(t, m.pid, m.action) by { assert [m][1..] == []; }
    } else {
      assert [m][1..] == [];
    }
  }

  /** Two processes that take the same two locks in opposite orders can wait for each other
      for ever. */
  lemma OppositeOrdersDeadlock(p: Pid, q: Pid, lvm: LockId, ref: LockId, more: seq<Move>)
    requires p != q && lvm != ref
    requires forall m :: m in more ==> m in {Move(p, Acquire_(ref)), Move(q, Acquire_(lvm))}
    ensures var made := Step(Step(Step(Step(INITIAL, p, New(lvm)), p, New(ref)), q, New(lvm)), q, New(ref));
            var crossed := Step(Step(made, p, Acquire_(lvm)), q, Acquire_(ref));
            var s := Run(crossed, more);
            && Holds(s, p, lvm) && !Holds(s, p, ref)
            && Holds(s, q, ref) && !Holds(s, q, lvm)
  {
    var made := Step(Step(Step(Step(INITIAL, p, New(lvm)), p, New(ref)), q, New(lvm)), q, New(ref));
    assert Instances(made, p) == map[lvm := FRESH, ref := FRESH];
    assert Instances(made, q) == map[lvm := FRESH, ref := FRESH];
    var crossed := Step(Step(made, p, Acquire_(lvm)), q, Acquire_(ref));
    WaitForEver(crossed, p, q, lvm, ref, more);
  }

  lemma {:induction false} WaitForEver(s: State, p: Pid, q: Pid, lvm: LockId, ref: LockId, more: seq<Move>)
    requires p != q && lvm != ref
    requires Holds(s, p, lvm) && Holds(s, q, ref) && !Holds(s, p, ref) && !Holds(s, q, lvm)
    requires lvm in s.kernel && s.kernel[lvm] == p && ref in s.kernel && s.kernel[ref] == q
    requires ref in Instances(s, p) && lvm in Instances(s, q)
    requires forall m :: m in more ==> m in {Move(p, Acquire_(ref)), Move(q, Acquire_(lvm))}
    ensures var t := Run(s, more);
            Holds(t, p, lvm) && Holds(t, q, ref) && !Holds(t, p, ref) && !Holds(t, q, lvm)
    decreases more
  {
    if more != [] {
      assert more[0] in more;
      forall m | m in more[1..] ensures m in {Move(p, Acquire_(ref)), Move(q, Acquire_(lvm))} {
        assert m in more;
      }
      WaitForEver(Step(s, more[0].pid, more[0].action), p, q, lvm, ref, more[1..]);
    }
  }
}
