/** The objects of sm/lock.py that update their fields: the write lock, the
    re-entrant lock on top of it, the registry of a process, and the LVM lock
    context of sm/lvutil.py. Each method is specified by the functions of FileLocks. */
module LockClasses {
  import opened Options
  import L = FileLocks

  /** The kernel's table of fcntl write locks. */
  class KernelTable {
    var owner: L.Kernel

    constructor ()
      ensures owner == map[]
    {
      owner := map[];
    }
  }

  class WriteLock {
    const kernel: KernelTable
    const pid: L.Pid
    const id: L.LockId
    var held: bool

    constructor (kernel: KernelTable, pid: L.Pid, id: L.LockId)
      ensures this.kernel == kernel && this.pid == pid && this.id == id && !held
    {
      this.kernel, this.pid, this.id := kernel, pid, id;
      held := false;
    }

    /** Non-blocking request. */
    method Trylock() returns (got: bool)
      modifies this`held, kernel
      ensures got <==> !old(held) && L.Grantable(old(kernel.owner), pid, id)
      ensures held == (got || old(held))
      ensures kernel.owner == if got then old(kernel.owner)[id := pid] else old(kernel.owner)
    {
      if held {
        return false;
      }
      if id in kernel.owner && kernel.owner[id] != pid {
        return false;
      }
      kernel.owner := kernel.owner[id := pid];
      held := true;
      return true;
    }

    /** Blocking request; false while it blocks. */
    method Lock() returns (granted: bool)
      requires !held
      modifies this`held, kernel
      ensures granted <==> L.Grantable(old(kernel.owner), pid, id)
      ensures held == granted
      ensures kernel.owner == if granted then old(kernel.owner)[id := pid] else old(kernel.owner)
    {
      granted := !(id in kernel.owner && kernel.owner[id] != pid);
      if granted {
        kernel.owner := kernel.owner[id := pid];
        held := true;
      }
    }

    method Unlock()
      modifies this`held, kernel
      ensures !held
      ensures kernel.owner == if id in old(kernel.owner) && old(kernel.owner)[id] == pid
                              then old(kernel.owner) - {id} else old(kernel.owner)
    {
      if id in kernel.owner && kernel.owner[id] == pid {
        kernel.owner := kernel.owner - {id};
      }
      held := false;
    }

    /** The process that holds the lock, if any. */
    method Test() returns (owner: Option<L.Pid>)
      ensures held ==> owner == Some(pid)
      ensures !held ==> owner == if L.Grantable(kernel.owner, pid, id) then None else Some(kernel.owner[id])
    {
      if held {
        return Some(pid);
      }
      if id in kernel.owner && kernel.owner[id] != pid {
        return Some(kernel.owner[id]);
      }
      return None;
    }
  }

  class LockImplementation {
    const lock: WriteLock
    var count: nat

    constructor (kernel: KernelTable, pid: L.Pid, id: L.LockId)
      ensures fresh(lock) && lock.kernel == kernel && lock.pid == pid && lock.id == id
      ensures View() == L.FRESH
    {
      lock := new WriteLock(kernel, pid, id);
      count := 0;
    }

    function View(): L.Instance
      reads this, lock
    {
      L.Instance(count, lock.held)
    }

    /** Flag, count and kernel agree. */
    predicate Valid()
      reads this, lock, lock.kernel
    {
      L.Agrees(lock.kernel.owner, lock.pid, lock.id, View())
    }

    method Acquire() returns (got: bool)
      modifies this, lock, lock.kernel
      ensures (lock.kernel.owner, View(), got)
              == L.Acquire(old(lock.kernel.owner), lock.pid, lock.id, old(View()))
      ensures old(Valid()) ==> Valid()
    {
      if !lock.held {
        var first := lock.Trylock();
        if !first {
          var blocker := lock.Test();
          var granted := lock.Lock();
          if !granted {
            return false;
          }
        }
      }
      count := count + 1;
      return true;
    }

    method AcquireNoblock() returns (got: bool)
      modifies this, lock, lock.kernel
      ensures (lock.kernel.owner, View(), got)
              == L.Acquire(old(lock.kernel.owner), lock.pid, lock.id, old(View()))
      ensures old(Valid()) ==> Valid()
    {
      if !lock.held {
        got := lock.Trylock();
      } else {
        got := true;
      }
      if got {
        count := count + 1;
      }
    }

    method Release()
      modifies this, lock, lock.kernel
      ensures (lock.kernel.owner, View())
              == L.Release(old(lock.kernel.owner), lock.pid, lock.id, old(View()))
      ensures old(Valid()) ==> Valid()
    {
      if count >= 1 {
        count := count - 1;
      }
      if count > 0 {
        return;
      }
      lock.Unlock();
    }

    /** Drops every count; closing the file then drops the lock itself. */
    method Close()
      modifies this, lock, lock.kernel
      ensures lock.kernel.owner == L.Close(old(lock.kernel.owner), lock.pid, lock.id, old(View()))
      ensures old(Valid()) ==> Valid() && !lock.held
    {
      if lock.held {
        count := 0;
        Release();
      }
      if lock.id in lock.kernel.owner && lock.kernel.owner[lock.id] == lock.pid {
        lock.kernel.owner := lock.kernel.owner - {lock.id};
      }
    }
  }

  /** LvmLockContext: a read-only command takes no lock and gives none back. */
  class LvmLockContext {
    const lock: LockImplementation
    const readonly: bool
    var locked: bool

    constructor (lock: LockImplementation, readonly: bool)
      ensures this.lock == lock && this.readonly == readonly && !locked
    {
      this.lock, this.readonly := lock, readonly;
      locked := false;
    }

    method Enter() returns (entered: bool)
      modifies this, lock, lock.lock, lock.lock.kernel
      ensures readonly ==>
                entered && locked == old(locked) && lock.View() == old(lock.View())
                && lock.lock.kernel.owner == old(lock.lock.kernel.owner)
      ensures !readonly ==>
                && (lock.lock.kernel.owner, lock.View(), entered)
                   == L.Acquire(old(lock.lock.kernel.owner), lock.lock.pid, lock.lock.id, old(lock.View()))
                && locked == (entered || old(locked))
    {
      if readonly {
        return true;
      }
      entered := lock.Acquire();
      if entered {
        locked := true;
      }
    }

    method Exit()
      modifies lock, lock.lock, lock.lock.kernel
      ensures if locked then
                (lock.lock.kernel.owner, lock.View())
                == L.Release(old(lock.lock.kernel.owner), lock.lock.pid, lock.lock.id, old(lock.View()))
              else
                lock.lock.kernel.owner == old(lock.lock.kernel.owner) && lock.View() == old(lock.View())
    {
      if locked {
        lock.Release();
      }
    }
  }

  /** An outer context around one LVM command: the inner exit does not give the
      lock up, the outer exit puts everything back as it was. */
  method NestedContexts(lock: LockImplementation) returns (ran: bool)
    requires lock.Valid()
    modifies lock, lock.lock, lock.lock.kernel
    ensures ran <==> L.Grantable(old(lock.lock.kernel.owner), lock.lock.pid, lock.lock.id)
    ensures lock.View() == old(lock.View()) && lock.lock.kernel.owner == old(lock.lock.kernel.owner)
  {
    L.ReleaseUndoesAcquire(lock.lock.kernel.owner, lock.lock.pid, lock.lock.id, lock.View());
    var outer := new LvmLockContext(lock, false);
    ran := outer.Enter();
    if ran {
      L.ReleaseUndoesAcquire(lock.lock.kernel.owner, lock.lock.pid, lock.lock.id, lock.View());
      var inner := new LvmLockContext(lock, false);
      var entered := inner.Enter();
      inner.Exit();
      assert lock.lock.held;
      outer.Exit();
    }
  }

  /** Lock.INSTANCES and Lock.BASE_INSTANCES of one process. An empty namespace
      counts as none. */
  class LockRegistry {
    const kernel: KernelTable
    const pid: L.Pid
    var named: map<string, map<string, LockImplementation>>
    var base: map<string, LockImplementation>

    constructor (kernel: KernelTable, pid: L.Pid)
      ensures this.kernel == kernel && this.pid == pid && named == map[] && base == map[] && Valid()
    {
      this.kernel, this.pid := kernel, pid;
      named, base := map[], map[];
    }

    static predicate ValidName(name: string) {
      && (name != "" ==> name[0] != '.')
      && '/' !in name
    }

    /** Every registered instance is for the file its key says. */
    ghost predicate Valid()
      reads this
    {
      && (forall ns, name :: ns in named && name in named[ns] ==>
            ns != "" && ValidName(ns) && named[ns][name].lock.id == L.LockId(ns, name))
      && (forall name :: name in base ==>
            base[name].lock.id == L.LockId(".nil", name) || base[name].lock.id == L.LockId("", name))
    }

    function Lookup(name: string, ns: Option<string>): Option<LockImplementation>
      reads this
    {
      if ns.Some? && ns.value != "" then
        if ns.value in named && name in named[ns.value] then Some(named[ns.value][name]) else None
      else if name in base then Some(base[name]) else None
    }

    /** Lock(name, ns): the instance registered for it, made on the first call;
        None for the names the constructor's assertions refuse. */
    method New(name: string, ns: Option<string>) returns (r: Option<LockImplementation>)
      requires Valid()
      modifies this
      ensures Valid()
      ensures old(Lookup(name, ns)).Some? ==> r == old(Lookup(name, ns))
      ensures old(Lookup(name, ns)).None? ==>
                (r.Some? <==> ValidName(name) && (ns.Some? ==> ValidName(ns.value)))
      ensures r.Some? ==> Lookup(name, ns) == r
      ensures old(Lookup(name, ns)).None? && r.Some? ==>
                && fresh(r.value) && r.value.View() == L.FRESH
                && r.value.lock.id == L.LockId(if ns.None? then ".nil" else ns.value, name)
                && r.value.lock.kernel == kernel && r.value.lock.pid == pid
      ensures forall m, n :: m in old(named) && n in old(named)[m] ==>
                m in named && n in named[m] && named[m][n] == old(named)[m][n]
      ensures forall n :: n in old(base) ==> n in base && base[n] == old(base)[n]
    {
      if ns.Some? && ns.value != "" {
        if ns.value !in named {
          named := named[ns.value := map[]];
        }
        if name !in named[ns.value] {
          if !ValidName(ns.value) || !ValidName(name) {
            return None;
          }
          var made := new LockImplementation(kernel, pid, L.LockId(ns.value, name));
          named := named[ns.value := named[ns.value][name := made]];
        }
        return Some(named[ns.value][name]);
      }
      if name !in base {
        if !ValidName(name) {
          return None;
        }
        var made := new LockImplementation(kernel, pid, L.LockId(if ns.Some? then "" else ".nil", name));
        base := base[name := made];
      }
      return Some(base[name]);
    }

    /** Instances registered under different keys never share a lock file, so one
        process never has two instances on one file. */
    lemma OneInstancePerFile(name: string, ns: Option<string>, name': string, ns': Option<string>)
      requires Valid()
      requires Lookup(name, ns).Some? && Lookup(name', ns').Some?
      requires Lookup(name, ns).value.lock.id == Lookup(name', ns').value.lock.id
      ensures Lookup(name, ns) == Lookup(name', ns')
    {
    }
  }
}
