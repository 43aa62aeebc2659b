/** LVMCache.activate and deactivate as methods of one process: the reference
    counter, the lock of the reference, the cache and the volumes are objects they
    update in place. Their contracts are the atomic events of Activation. */
module CacheActivation {
  import opened Options
  import opened RefPairs
  import opened RefCounting
  import opened Activation
  import opened Endings
  import LvmCache
  import LockClasses
  import L = FileLocks

  const LVM_FAIL_RETRIES := 10

  /** What one run of an lvchange command answers. */
  datatype Answer = Ok | Fail(retryable: bool, leftOn: bool)

  type Oracle = nat -> Answer

  /** A failed command that has switched the volume on all the same. */
  predicate LeavesOn(a: Answer) {
    a.Fail? && a.leftOn
  }

  /** The volumes of the volume group that are switched on. */
  class Volumes {
    var active: set<string>
    var runs: nat   // lvchange commands so far

    constructor (active: set<string>)
      ensures this.active == active && runs == 0
    {
      this.active, runs := active, 0;
    }

    /** lvutil._activate under lvmretry. */
    method SwitchOn(lv: string, oracle: Oracle) returns (ok: bool)
      modifies this
      ensures active == if ok || (exists i :: old(runs) <= i < runs && LeavesOn(oracle(i))) then old(active) + {lv}
                        else old(active)
      ensures old(runs) < runs <= old(runs) + 10
      ensures ok <==> oracle(runs - 1).Ok?
      ensures forall i :: old(runs) <= i < runs - 1 ==> oracle(i).Fail? && oracle(i).retryable
      ensures !ok ==> !oracle(runs - 1).retryable || runs == old(runs) + 10
    {
      for i := 0 to LVM_FAIL_RETRIES
        invariant i < LVM_FAIL_RETRIES && runs == old(runs) + i
        invariant active == if exists j :: old(runs) <= j < runs && LeavesOn(oracle(j)) then old(active) + {lv}
                            else old(active)
        invariant forall j :: old(runs) <= j < runs ==> oracle(j).Fail? && oracle(j).retryable
      {
        var answer := oracle(runs);
        runs := runs + 1;
        if answer.Ok? {
          active := active + {lv};
          return true;
        }
        assert answer.leftOn ==> LeavesOn(oracle(runs - 1));
        if answer.leftOn {
          active := active + {lv};
        }
        if !answer.retryable || i == LVM_FAIL_RETRIES - 1 {
          return false;
        }
      }
      assert false;
    }

    /** lvutil._deactivate under lvmretry: a failure leaves the volume as it was. */
    method SwitchOffOnce(lv: string, oracle: Oracle) returns (ok: bool)
      modifies this
      ensures active == if ok then old(active) - {lv} else old(active)
      ensures old(runs) < runs <= old(runs) + 10
      ensures ok <==> oracle(runs - 1).Ok?
      ensures forall i :: old(runs) <= i < runs - 1 ==> oracle(i).Fail? && oracle(i).retryable
      ensures !ok ==> oracle(runs - 1).Fail? && (!oracle(runs - 1).retryable || runs == old(runs) + 10)
    {
      for i := 0 to LVM_FAIL_RETRIES
        invariant i < LVM_FAIL_RETRIES && runs == old(runs) + i && active == old(active)
        invariant forall j :: old(runs) <= j < runs ==> oracle(j).Fail? && oracle(j).retryable
      {
        var answer := oracle(runs);
        runs := runs + 1;
        if answer.Ok? {
          active := active - {lv};
          return true;
        }
        if !answer.retryable || i == LVM_FAIL_RETRIES - 1 {
          return false;
        }
      }
      assert false;
    }

    /** lvutil.deactivateNoRefcount: whatever the reason, it tries again, so it
        gives up only after at least ten failed commands. */
    method SwitchOff(lv: string, oracle: Oracle) returns (ok: bool)
      modifies this
      ensures active == if ok then old(active) - {lv} else old(active)
      ensures runs <= old(runs) + 100
      ensures ok <==> runs > old(runs) && oracle(runs - 1).Ok?
      ensures !ok ==> runs >= old(runs) + 10 && forall i :: old(runs) <= i < runs ==> oracle(i).Fail?
    {
      for i := 0 to LVM_FAIL_RETRIES
        invariant old(runs) + i <= runs <= old(runs) + i * LVM_FAIL_RETRIES && active == old(active)
        invariant forall j :: old(runs) <= j < runs ==> oracle(j).Fail?
      {
        ghost var before := runs;
        ok := SwitchOffOnce(lv, oracle);
        if ok {
          return true;
        }
        assert runs - 1 >= before && oracle(runs - 1).Fail?;
      }
      return false;
    }
  }

  type Lines = Option<seq<LvmCache.Line>>

  /** What a cache says of one volume. */
  function Says(lvs: LvmCache.Lvs, lv: string): Option<Cached> {
    if lv in lvs then Some(Cached(lvs[lv].active, lvs[lv].open > 0)) else None
  }

  /** What lvs answers about one volume. */
  function Listed(list: Lines, lv: string): Listing {
    if list.None? then None else Some(Says(LvmCache.Loaded(list.value), lv))
  }

  /** The cache after the loop of deactivate: refreshed once if it said open. */
  function LookedUp(lvs: LvmCache.Lvs, lv: string, list: Lines): LvmCache.Lvs {
    if lv in lvs && lvs[lv].open > 0 && list.Some? then LvmCache.Loaded(list.value) else lvs
  }

  /** The cache when a deactivation ends: as it was when only the count has changed; as the
      loop leaves it when the volume is not known or open; with the volume off when it has
      been switched off; and as lvs has listed it, if it could, after a refusal. */
  ghost predicate LeavesCache(was: LvmCache.Lvs, now: LvmCache.Lvs, lv: string, busyList: Lines, failList: Lines,
                              out: Outcome) {
    var looked := LookedUp(was, lv, busyList);
    if out.Counted? then now == was
    else if lv !in looked || looked[lv].open > 0 then now == looked
    else if out.Done? then now == looked[lv := looked[lv].(active := false)]
    else if failList.Some? then now == LvmCache.Loaded(failList.value)
    else now == looked
  }

  class Activator {
    const cache: LvmCache.Cache
    const refs: RefCounter
    const volumes: Volumes

    constructor (cache: LvmCache.Cache, refs: RefCounter, volumes: Volumes)
      ensures this.cache == cache && this.refs == refs && this.volumes == volumes
    {
      this.cache, this.refs, this.volumes := cache, refs, volumes;
    }

    /** The state the events of Activation talk about. */
    function At(k: Key, lv: string): LvRef
      reads this, refs, volumes
    {
      LvRef(PairIn(refs.files, k), lv in volumes.active)
    }

    predicate Free(lock: LockClasses.LockImplementation)
      reads lock, lock.lock, lock.lock.kernel
    {
      lock.View() == L.FRESH && lock.lock.id !in lock.lock.kernel.owner
    }

    /** The process has the lock of the reference. */
    predicate Held(lock: LockClasses.LockImplementation)
      reads lock, lock.lock, lock.lock.kernel
    {
      && lock.lock.held && lock.lock.id in lock.lock.kernel.owner
      && lock.lock.kernel.owner[lock.lock.id] == lock.lock.pid
    }

    /** The flag is the KeyError for a volume that has been switched on and is not in the
        cache. */
    method Activate(k: Key, lv: string, binary: bool, lock: LockClasses.LockImplementation, oracle: Oracle)
      returns (e: Event, keyError: bool)
      requires refs.Valid() && Free(lock)
      modifies cache, refs, volumes, lock, lock.lock, lock.lock.kernel
      ensures refs.Valid() && Free(lock) && lock.lock.kernel.owner == old(lock.lock.kernel.owner)
      ensures e.Activate? && e.binary == binary && Possible(old(At(k, lv)), e)
      ensures At(k, lv) == Effect(old(At(k, lv)), e)
      ensures !e.out.Counted? ==> volumes.runs > old(volumes.runs) && (e.out.Done? <==> oracle(volumes.runs - 1).Ok?)
      ensures keyError <==> e.out.Done? && lv !in old(cache.lvs)
      ensures e.out.Done? && lv in old(cache.lvs) ==>
                cache.lvs == old(cache.lvs)[lv := old(cache.lvs)[lv].(active := true)]
      ensures !e.out.Done? || lv !in old(cache.lvs) ==> cache.lvs == old(cache.lvs)
      ensures e.out.Done? && lv in cache.lvs ==> cache.lvs[lv].active == (lv in volumes.active)
      ensures cache.tags == old(cache.tags)
      ensures refs.files - {k} == old(refs.files) - {k}
      ensures volumes.active - {lv} == old(volumes.active) - {lv}
    {
      hide Ending, Effect, Possible, Get, Put, PairIn, Tidy;
      L.ReleaseUndoesAcquire(lock.lock.kernel.owner, lock.lock.pid, lock.lock.id, lock.View());
      var got := lock.Acquire();
      e, keyError := Count(k, lv, binary, lock, oracle);
      lock.Release();
    }

    /** The part of activate under the lock. */
    method Count(k: Key, lv: string, binary: bool, lock: LockClasses.LockImplementation, oracle: Oracle)
      returns (e: Event, keyError: bool)
      requires refs.Valid() && Held(lock)
      modifies cache, refs, volumes
      ensures refs.Valid()
      ensures e.Activate? && e.binary == binary && Possible(old(At(k, lv)), e)
      ensures At(k, lv) == Effect(old(At(k, lv)), e)
      ensures !e.out.Counted? ==> volumes.runs > old(volumes.runs) && (e.out.Done? <==> oracle(volumes.runs - 1).Ok?)
      ensures keyError <==> e.out.Done? && lv !in old(cache.lvs)
      ensures e.out.Done? && lv in old(cache.lvs) ==>
                cache.lvs == old(cache.lvs)[lv := old(cache.lvs)[lv].(active := true)]
      ensures !e.out.Done? || lv !in old(cache.lvs) ==> cache.lvs == old(cache.lvs)
      ensures e.out.Done? && lv in cache.lvs ==> cache.lvs[lv].active == (lv in volumes.active)
      ensures cache.tags == old(cache.tags)
      ensures refs.files - {k} == old(refs.files) - {k}
      ensures volumes.active - {lv} == old(volumes.active) - {lv}
    {
      hide Get, Put, Tidy, With, PairIn;
      WithGives(refs.files, k, Get(PairIn(refs.files, k), binary));
      var count := refs.GetRef(k, binary);
      if count != 1 {
        return Event.Activate(binary, Counted), false;
      }
      var wasOn := lv in volumes.active;
      var ok := volumes.SwitchOn(lv, oracle);
      if !ok {
        WithGives(refs.files, k, Put(PairIn(refs.files, k), binary));
        var c := refs.PutRef(k, binary);
        return Event.Activate(binary, Failed(lv in volumes.active && !wasOn)), false;
      }
      if lv !in cache.lvs {
        return Event.Activate(binary, Done), true;
      }
      cache.lvs := cache.lvs[lv := cache.lvs[lv].(active := true)];
      return Event.Activate(binary, Done), false;
    }

    /** getLVInfo of one volume, as far as deactivate looks at it. */
    method Inspect(lv: string) returns (known: bool, open: bool, active: bool)
      ensures known == (lv in cache.lvs)
      ensures known ==> open == (cache.lvs[lv].open > 0) && active == cache.lvs[lv].active
      ensures !known ==> !open && !active
    {
      known, open, active := lv in cache.lvs, false, false;
      if known {
        open, active := cache.lvs[lv].open > 0, cache.lvs[lv].active;
      }
    }

    /** The loop before the command: at most one refresh; the flag says whether the
        volume is known and closed. */
    method Ready(lv: string, busyList: Lines) returns (ready: bool, wasActive: bool)
      modifies cache
      ensures cache.lvs == LookedUp(old(cache.lvs), lv, busyList)
      ensures ready <==> Closed(Says(cache.lvs, lv))
      ensures Says(cache.lvs, lv) == Looked(Says(old(cache.lvs), lv), Listed(busyList, lv))
      ensures wasActive == (ready && cache.lvs[lv].active)
    {
      var refreshed := false;
      while true
        invariant !refreshed ==> cache.lvs == old(cache.lvs)
        invariant refreshed ==>
                    && lv in old(cache.lvs) && old(cache.lvs)[lv].open > 0
                    && busyList.Some? && cache.lvs == LvmCache.Loaded(busyList.value)
        decreases !refreshed
      {
        var known, open, active := Inspect(lv);
        if !known {
          return false, false;
        }
        if !open {
          return true, active;
        }
        if refreshed {
          return false, false;
        }
        var r := cache.Refresh(busyList);
        if r != LvmCache.Success {
          return false, false;
        }
        refreshed := true;
      }
    }

    /** Part of deactivate after the count has gone to zero. */
    method Finish(k: Key, lv: string, binary: bool, oracle: Oracle,
                  busyList: Lines, failList: Lines)
      returns (out: Outcome)
      requires refs.Valid() && Total(PairIn(refs.files, k)) == 0
      modifies cache, refs, volumes
      ensures refs.Valid()
      ensures out == Answered(Looked(Says(old(cache.lvs), lv), Listed(busyList, lv)), Listed(failList, lv),
                              volumes.runs > old(volumes.runs) && oracle(volumes.runs - 1).Ok?)
      ensures LeavesCache(old(cache.lvs), cache.lvs, lv, busyList, failList, out)
      ensures out.Done? ==> lv in cache.lvs && cache.lvs[lv].active == (lv in volumes.active)
      ensures At(k, lv) == match out
                           case Done => LvRef(old(At(k, lv)).pair, false)
                           case GaveUp => old(At(k, lv))
                           case _ => LvRef(Get(old(At(k, lv)).pair, binary), old(At(k, lv)).active)
      ensures refs.files - {k} == old(refs.files) - {k}
      ensures volumes.active - {lv} == old(volumes.active) - {lv}
    {
      hide Get, Put, Tidy, With, PairIn;
      WithGives(refs.files, k, Get(PairIn(refs.files, k), binary));
      var ready, wasActive := Ready(lv, busyList);
      if !ready {
        return GaveUp;
      }
      var ok := volumes.SwitchOff(lv, oracle);
      if ok {
        cache.lvs := cache.lvs[lv := cache.lvs[lv].(active := false)];
        return Done;
      }
      var r := cache.Refresh(failList);
      if r == LvmCache.Success && lv in cache.lvs && wasActive {
        var c := refs.GetRef(k, binary);
        return Reverted;
      }
      return GaveUp;
    }

    method Deactivate(k: Key, lv: string, binary: bool, lock: LockClasses.LockImplementation, oracle: Oracle,
                      busyList: Lines, failList: Lines)
      returns (e: Event)
      requires refs.Valid() && Free(lock)
      modifies cache, refs, volumes, lock, lock.lock, lock.lock.kernel
      ensures refs.Valid() && Free(lock) && lock.lock.kernel.owner == old(lock.lock.kernel.owner)
      ensures e.Deactivate? && e.binary == binary && Possible(old(At(k, lv)), e)
      ensures e.out == Ending(old(At(k, lv).pair), binary, Says(old(cache.lvs), lv), Listed(busyList, lv),
                              Listed(failList, lv), volumes.runs > old(volumes.runs) && oracle(volumes.runs - 1).Ok?)
      ensures LeavesCache(old(cache.lvs), cache.lvs, lv, busyList, failList, e.out)
      ensures e.out.Done? ==> lv in cache.lvs && cache.lvs[lv].active == (lv in volumes.active)
      ensures At(k, lv) == Effect(old(At(k, lv)), e)
      ensures refs.files - {k} == old(refs.files) - {k}
      ensures volumes.active - {lv} == old(volumes.active) - {lv}
    {
      hide Ending, Effect, Possible, Get, Put, PairIn, Tidy;
      L.ReleaseUndoesAcquire(lock.lock.kernel.owner, lock.lock.pid, lock.lock.id, lock.View());
      var got := lock.Acquire();
      e := Uncount(k, lv, binary, lock, oracle, busyList, failList);
      lock.Release();
    }

    /** The part of deactivate under the lock. */
    method Uncount(k: Key, lv: string, binary: bool, lock: LockClasses.LockImplementation, oracle: Oracle,
                   busyList: Lines, failList: Lines)
      returns (e: Event)
      requires refs.Valid() && Held(lock)
      modifies cache, refs, volumes
      ensures refs.Valid()
      ensures e.Deactivate? && e.binary == binary && Possible(old(At(k, lv)), e)
      ensures e.out == Ending(old(At(k, lv).pair), binary, Says(old(cache.lvs), lv), Listed(busyList, lv),
                              Listed(failList, lv), volumes.runs > old(volumes.runs) && oracle(volumes.runs - 1).Ok?)
      ensures LeavesCache(old(cache.lvs), cache.lvs, lv, busyList, failList, e.out)
      ensures e.out.Done? ==> lv in cache.lvs && cache.lvs[lv].active == (lv in volumes.active)
      ensures At(k, lv) == Effect(old(At(k, lv)), e)
      ensures refs.files - {k} == old(refs.files) - {k}
      ensures volumes.active - {lv} == old(volumes.active) - {lv}
    {
      hide Get, Put, Tidy, With, PairIn;
      WithGives(refs.files, k, Put(PairIn(refs.files, k), binary));
      var count := refs.PutRef(k, binary);
      if count > 0 {
        return Event.Deactivate(binary, Counted);
      }
      var out := Finish(k, lv, binary, oracle, busyList, failList);
      return Event.Deactivate(binary, out);
    }
  }
}
