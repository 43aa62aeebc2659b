/** Every interleaving of activate and deactivate calls amounts to a sequence of
    atomic events for each reference: the invariant and its preservation. */
module ActivationProofs {
  import opened Options
  import opened RefPairs
  import opened Activation
  import opened Endings
  import opened ActivationProtocol

  /** Inside the section protected by the lock of the reference. */
  predicate InSection(pc: Pc) {
    !pc.Idle? && !pc.Starting? && !pc.WaitRef?
  }

  predicate HasLvm(pc: Pc) {
    pc == Starting(true) || pc.InLvm?
  }

  function ExpectedCount(pr: Proc, id: L.LockId): nat {
    if InSection(pr.pc) && id == RefLock(pr.call.ref) then 1
    else if HasLvm(pr.pc) && id == LVM then 1
    else 0
  }

  ghost predicate CountsRight(s: State, p: L.Pid) {
    forall id :: L.CountOf(s.locks, p, id) == ExpectedCount(ProcOf(s, p), id)
  }

  /** The file says `pair`; no file says zero. */
  predicate Stored(file: Option<File>, pair: Pair) {
    if pair == ZERO then file.None? else file == Some(Counts(pair))
  }

  /** The counts after the first update of a call, and after undoing it. */
  function Target(call: Call, ph: Phase, base: LvRef): Pair {
    var once := Update(call, First, base.pair);
    if ph.First? then once else Update(call, Undo, once)
  }

  function Before(call: Call, ph: Phase, base: LvRef): Pair {
    if ph.First? then base.pair else Target(call, First, base)
  }

  /** The LVM command runs only from these totals. */
  predicate CommandDue(call: Call, base: LvRef) {
    Total(Target(call, First, base)) == if call.activate then 1 else 0
  }

  predicate VolumeIs(call: Call, leftOn: bool, ph: Phase, act: bool, base: LvRef) {
    && act == (base.active || leftOn)
    && (leftOn ==> call.activate && ph.Undo?)
    && (ph.Undo? ==> CommandDue(call, base))
  }

  /** How far the running call has got, told against the state before it. */
  predicate Progress(pr: Proc, file: Option<File>, act: bool, base: LvRef) {
    match pr.pc
    case Reading(ph) => Stored(file, Before(pr.call, ph, base)) && VolumeIs(pr.call, pr.leftOn, ph, act, base)
    case Opening(ph, pair) =>
      && pair == Target(pr.call, ph, base) != ZERO
      && Stored(file, Before(pr.call, ph, base)) && VolumeIs(pr.call, pr.leftOn, ph, act, base)
    case MakingDir(ph, pair) =>
      && pair == Target(pr.call, ph, base) != ZERO
      && Stored(file, Before(pr.call, ph, base)) && VolumeIs(pr.call, pr.leftOn, ph, act, base)
    case Filling(ph, pair) =>
      pair == Target(pr.call, ph, base) != ZERO && file.Some? && VolumeIs(pr.call, pr.leftOn, ph, act, base)
    case Unlinking(ph) =>
      && Target(pr.call, ph, base) == ZERO
      && Stored(file, Before(pr.call, ph, base)) && VolumeIs(pr.call, pr.leftOn, ph, act, base)
    case RemovingDir(ph) =>
      Target(pr.call, ph, base) == ZERO && file.None? && VolumeIs(pr.call, pr.leftOn, ph, act, base)
    case WaitLvm(cmd) =>
      && Stored(file, Target(pr.call, First, base)) && VolumeIs(pr.call, pr.leftOn, Undo, act, base)
      && (pr.call.activate ==> cmd.Lvchange?)
    case InLvm(cmd) =>
      && Stored(file, Target(pr.call, First, base)) && VolumeIs(pr.call, pr.leftOn, Undo, act, base)
      && (pr.call.activate ==> cmd.Lvchange?)
    case Leaving(e) =>
      && e.binary == pr.call.binary && e.Activate? == pr.call.activate
      && Possible(base, e)
      && Stored(file, Effect(base, e).pair) && act == Effect(base, e).active
    case _ => true
  }

  ghost predicate Local(s: State, p: L.Pid) {
    var pr := ProcOf(s, p);
    && CountsRight(s, p)
    && (!pr.pc.Idle? ==> ValidRef(pr.call.ref))
    && (InSection(pr.pc) ==>
          Progress(pr, FileOf(s, pr.call.ref), pr.call.ref in s.active, Base(s, pr.call.ref)))
  }

  /** The stored counts and the volume are what the finished calls make of them. */
  predicate Settled(s: State, r: Ref) {
    Stored(FileOf(s, r), Base(s, r).pair) && (r in s.active) == Base(s, r).active
  }

  ghost predicate RefInv(s: State, r: Ref) {
    && (ValidRef(r) && RefLock(r) !in s.locks.kernel ==> Settled(s, r))
    && PossibleLog(LvRef(ZERO, r in s.origin), LogOf(s, r))
    && (r in s.files ==> r.ns in s.dirs)
  }

  ghost predicate Inv(s: State) {
    && L.Inv(s.locks)
    && (forall p :: Local(s, p))
    && (forall r :: RefInv(s, r))
  }

  // ---- Locks ----

  lemma TakeFacts(ls: L.State, p: L.Pid, id: L.LockId)
    requires L.Inv(ls) && L.CountOf(ls, p, id) == 0
    ensures var r := Take(ls, p, id);
            && L.Inv(r.0)
            && (r.1 <==> id !in ls.kernel)
            && r.0.kernel == (if r.1 then ls.kernel[id := p] else ls.kernel)
            && L.CountOf(r.0, p, id) == (if r.1 then 1 else 0)
            && (forall x :: x != id ==> L.CountOf(r.0, p, x) == L.CountOf(ls, p, x))
            && (forall q :: q != p ==> L.Instances(r.0, q) == L.Instances(ls, q))
  {
    L.StepKeepsInv(ls, p, L.New(id));
    var ls1 := L.DoNew(ls, p, id);
    L.StepKeepsInv(ls1, p, L.Acquire_(id));
    assert L.Holds(ls1, p, id) <==> L.CountOf(ls1, p, id) >= 1;
    assert L.Holds(ls1, p, id) <==> (id in ls1.kernel && ls1.kernel[id] == p);
  }

  lemma DropFacts(ls: L.State, p: L.Pid, id: L.LockId)
    requires L.Inv(ls) && L.CountOf(ls, p, id) == 1
    ensures var t := Drop(ls, p, id);
            && L.Inv(t)
            && t.kernel == ls.kernel - {id}
            && L.CountOf(t, p, id) == 0
            && (forall x :: x != id ==> L.CountOf(t, p, x) == L.CountOf(ls, p, x))
            && (forall q :: q != p ==> L.Instances(t, q) == L.Instances(ls, q))
  {
    L.StepKeepsInv(ls, p, L.Release_(id));
    assert L.Holds(ls, p, id) <==> L.CountOf(ls, p, id) >= 1;
    assert L.Holds(ls, p, id) <==> (id in ls.kernel && ls.kernel[id] == p);
  }

  /** At most one process is in the section of a reference. */
  lemma OneInSection(s: State, p: L.Pid, q: L.Pid)
    requires L.Inv(s.locks) && Local(s, p) && Local(s, q)
    requires InSection(ProcOf(s, p).pc) && InSection(ProcOf(s, q).pc)
    requires ProcOf(s, p).call.ref == ProcOf(s, q).call.ref
    ensures p == q
    ensures RefLock(ProcOf(s, p).call.ref) in s.locks.kernel
  {
    var id := RefLock(ProcOf(s, p).call.ref);
    assert L.CountOf(s.locks, p, id) == 1;
    assert L.CountOf(s.locks, q, id) == 1;
    assert L.Holds(s.locks, p, id) && L.Holds(s.locks, q, id);
  }

  // ---- One step against everybody else ----

  predicate SameData(s: State, t: State, r: Ref) {
    FileOf(t, r) == FileOf(s, r) && (r in t.active) == (r in s.active) && LogOf(t, r) == LogOf(s, r)
  }

  /** A step of `p` about `r` leaves the other processes and references alone. */
  ghost predicate Elsewhere(s: State, t: State, p: L.Pid, r: Ref) {
    && t.origin == s.origin
    && (forall q :: q != p ==> ProcOf(t, q) == ProcOf(s, q))
    && (forall q :: q != p ==> L.Instances(t.locks, q) == L.Instances(s.locks, q))
    && (forall x :: x != r ==> SameData(s, t, x))
    && (forall id :: id in s.locks.kernel ==> id in t.locks.kernel || id == RefLock(r) || id == LVM)
  }

  lemma Assemble(s: State, t: State, p: L.Pid, r: Ref)
    requires Inv(s) && L.Inv(t.locks) && Elsewhere(s, t, p, r)
    requires SameData(s, t, r) || (InSection(ProcOf(s, p).pc) && ProcOf(s, p).call.ref == r)
    requires Local(t, p)
    requires RefInv(t, r)
    requires forall x :: x in t.files ==> x.ns in t.dirs
    ensures Inv(t)
  {
    forall q ensures Local(t, q) {
      if q != p {
        OthersLocal(s, t, p, q, r);
      }
    }
    forall x ensures RefInv(t, x) {
      if x != r {
        assert RefInv(s, x) && SameData(s, t, x);
      }
    }
  }

  lemma OthersLocal(s: State, t: State, p: L.Pid, q: L.Pid, r: Ref)
    requires Inv(s) && Elsewhere(s, t, p, r) && q != p
    requires SameData(s, t, r) || (InSection(ProcOf(s, p).pc) && ProcOf(s, p).call.ref == r)
    ensures Local(t, q)
  {
    assert Local(s, q) && Local(s, p);
    forall id ensures L.CountOf(t.locks, q, id) == ExpectedCount(ProcOf(t, q), id) {
      assert L.CountOf(s.locks, q, id) == ExpectedCount(ProcOf(s, q), id);
    }
    if InSection(ProcOf(s, q).pc) {
      var x := ProcOf(s, q).call.ref;
      if x == r && InSection(ProcOf(s, p).pc) && ProcOf(s, p).call.ref == r {
        OneInSection(s, p, q);
      }
      assert SameData(s, t, x);
    }
  }

  // ---- Each kind of step keeps the invariant ----

  lemma IdleKeeps(s: State, p: L.Pid, c: Choice)
    requires Inv(s) && ProcOf(s, p).pc.Idle?
    ensures Inv(StepIdle(s, p, c))
  {
    var t := StepIdle(s, p, c);
    if t != s {
      var r := c.call.ref;
      assert Local(s, p) && RefInv(s, r);
      CountsKept(s, t, p);
      FilesKept(s, t);
      Assemble(s, t, p, r);
    }
  }

  /** A step of `p` that does not touch the locks and keeps their expected counts. */
  lemma CountsKept(s: State, t: State, p: L.Pid)
    requires CountsRight(s, p) && t.locks == s.locks
    requires forall id :: ExpectedCount(ProcOf(t, p), id) == ExpectedCount(ProcOf(s, p), id)
    ensures CountsRight(t, p)
  {
    forall id ensures L.CountOf(t.locks, p, id) == ExpectedCount(ProcOf(t, p), id) {
      assert L.CountOf(s.locks, p, id) == ExpectedCount(ProcOf(s, p), id);
    }
  }

  lemma FilesKept(s: State, t: State)
    requires Inv(s) && t.files == s.files && t.dirs >= s.dirs
    ensures forall x :: x in t.files ==> x.ns in t.dirs
  {
    forall x | x in t.files ensures x.ns in t.dirs {
      assert RefInv(s, x);
    }
  }

  /** A step inside the section that leaves locks, history and volume alone. */
  lemma SectionStep(s: State, t: State, p: L.Pid)
    requires Inv(s) && InSection(ProcOf(s, p).pc) && !HasLvm(ProcOf(s, p).pc)
    requires t.locks == s.locks && t.origin == s.origin && t.log == s.log && t.active == s.active
    requires forall q :: q != p ==> ProcOf(t, q) == ProcOf(s, q)
    requires InSection(ProcOf(t, p).pc) && !HasLvm(ProcOf(t, p).pc) && ProcOf(t, p).call == ProcOf(s, p).call
    requires forall x :: x != ProcOf(s, p).call.ref ==> FileOf(t, x) == FileOf(s, x)
    requires forall x :: x in t.files ==> x.ns in t.dirs
    requires var r := ProcOf(s, p).call.ref;
             Progress(ProcOf(t, p), FileOf(t, r), r in s.active, Base(s, r))
    ensures Inv(t)
  {
    hide Progress, Stored, PossibleLog, Replay;
    var r := ProcOf(s, p).call.ref;
    SectionLocal(s, t, p);
    SectionRef(s, t, p);
    hide Inv, Local, RefInv;
    LocksOf(s);
    assert Elsewhere(s, t, p, r);
    Assemble(s, t, p, r);
  }

  lemma LocksOf(s: State)
    requires Inv(s)
    ensures L.Inv(s.locks)
  {
  }

  lemma SectionLocal(s: State, t: State, p: L.Pid)
    requires Inv(s) && InSection(ProcOf(s, p).pc) && !HasLvm(ProcOf(s, p).pc)
    requires t.locks == s.locks && t.origin == s.origin && t.log == s.log && t.active == s.active
    requires InSection(ProcOf(t, p).pc) && !HasLvm(ProcOf(t, p).pc) && ProcOf(t, p).call == ProcOf(s, p).call
    requires var r := ProcOf(s, p).call.ref;
             Progress(ProcOf(t, p), FileOf(t, r), r in s.active, Base(s, r))
    ensures Local(t, p)
  {
    hide Progress, Replay, L.Inv, RefInv;
    assert Local(s, p);
    CountsKept(s, t, p);
  }

  lemma SectionRef(s: State, t: State, p: L.Pid)
    requires Inv(s) && InSection(ProcOf(s, p).pc)
    requires t.locks == s.locks && t.origin == s.origin && t.log == s.log
    requires forall x :: x in t.files ==> x.ns in t.dirs
    ensures RefInv(t, ProcOf(s, p).call.ref)
  {
    hide Progress, Replay, Stored, PossibleLog, L.Inv;
    var r := ProcOf(s, p).call.ref;
    assert Local(s, p) && RefInv(s, r);
    OneInSection(s, p, p);
  }

  lemma ReadingProgress(pr: Proc, ph: Phase, file: Option<File>, act: bool, base: LvRef)
    requires pr.pc == Reading(ph) && Progress(pr, file, act, base)
    ensures file != Some(Truncated)
    ensures Progress(Computed(pr, ph, if file.Some? then file.value.pair else ZERO), file, act, base)
  {
    hide Get, Put, Total;
  }

  lemma FileStepProgress(pr: Proc, file: Option<File>, act: bool, base: LvRef)
    requires Progress(pr, file, act, base)
    ensures pr.pc.Opening? ==>
              && Progress(pr.(pc := Filling(pr.pc.ph, pr.pc.pair)), Some(Truncated), act, base)
              && Progress(pr.(pc := MakingDir(pr.pc.ph, pr.pc.pair)), file, act, base)
    ensures pr.pc.MakingDir? ==> Progress(pr.(pc := Opening(pr.pc.ph, pr.pc.pair)), file, act, base)
    ensures pr.pc.Unlinking? ==> Progress(pr.(pc := RemovingDir(pr.pc.ph)), None, act, base)
  {
    hide Target, Before, CommandDue;
  }

  lemma FinishProgress(pr: Proc, out: Outcome, file: Option<File>, act: bool, base: LvRef)
    requires var e := if pr.call.activate then Activate(pr.call.binary, out) else Deactivate(pr.call.binary, out);
             Possible(base, e) && Stored(file, Effect(base, e).pair) && act == Effect(base, e).active
    ensures Progress(Finish(pr, out), file, act, base)
    ensures InSection(Finish(pr, out).pc) && !HasLvm(Finish(pr, out).pc) && Finish(pr, out).call == pr.call
  {
    hide Possible, Effect, Stored;
  }

  lemma UndoneProgress(pr: Proc, file: Option<File>, act: bool, base: LvRef)
    requires Stored(file, Target(pr.call, Undo, base)) && VolumeIs(pr.call, pr.leftOn, Undo, act, base)
    ensures var q := AfterUpdate(pr, Undo, Target(pr.call, Undo, base));
            Progress(q, file, act, base) && InSection(q.pc) && !HasLvm(q.pc) && q.call == pr.call
  {
    hide Get, Put, Progress, Stored;
    if pr.call.activate {
      FinishProgress(pr, Failed(pr.leftOn), file, act, base);
    } else {
      FinishProgress(pr, Reverted, file, act, base);
    }
  }

  lemma InspectProgress(pr: Proc, file: Option<File>, act: bool, base: LvRef)
    requires !pr.call.activate && Stored(file, Target(pr.call, First, base))
    requires Total(Target(pr.call, First, base)) == 0 && act == base.active && !pr.leftOn
    ensures var q := Inspect(pr);
            Progress(q, file, act, base) && InSection(q.pc) && !HasLvm(q.pc) && q.call == pr.call
  {
    hide Get, Put, Stored;
    if Inspect(pr).pc.Leaving? {
      hide Progress;
      FinishProgress(pr, GaveUp, file, act, base);
    }
  }

  lemma CountedProgress(pr: Proc, file: Option<File>, act: bool, base: LvRef)
    requires Stored(file, Target(pr.call, First, base)) && VolumeIs(pr.call, pr.leftOn, First, act, base)
    requires !CommandDue(pr.call, base)
    ensures Progress(Finish(pr, Counted), file, act, base)
  {
    hide Get, Put, Progress, Stored;
    FinishProgress(pr, Counted, file, act, base);
  }

  /** After an update the call goes on as the total and the cache tell it. */
  lemma AfterUpdateProgress(pr: Proc, ph: Phase, file: Option<File>, act: bool, base: LvRef)
    requires Stored(file, Target(pr.call, ph, base)) && VolumeIs(pr.call, pr.leftOn, ph, act, base)
    ensures var q := AfterUpdate(pr, ph, Target(pr.call, ph, base));
            Progress(q, file, act, base) && InSection(q.pc) && !HasLvm(q.pc) && q.call == pr.call
  {
    hide Get, Put, Stored, Inspect;
    if ph.Undo? {
      hide Progress;
      UndoneProgress(pr, file, act, base);
    } else if !CommandDue(pr.call, base) {
      hide Progress;
      CountedProgress(pr, file, act, base);
    } else if !pr.call.activate {
      hide Progress;
      InspectProgress(pr, file, act, base);
    }
  }

  lemma UpdateDone(pr: Proc, file: Option<File>, act: bool, base: LvRef)
    requires Progress(pr, file, act, base)
    ensures pr.pc.Filling? ==>
              && var q := AfterUpdate(pr, pr.pc.ph, pr.pc.pair);
              && Progress(q, Some(Counts(pr.pc.pair)), act, base)
              && InSection(q.pc) && !HasLvm(q.pc) && q.call == pr.call
    ensures pr.pc.RemovingDir? || (pr.pc.Unlinking? && file.None?) ==>
              && var q := AfterUpdate(pr, pr.pc.ph, ZERO);
              && Progress(q, None, act, base)
              && InSection(q.pc) && !HasLvm(q.pc) && q.call == pr.call
  {
    hide AfterUpdate, Update, CommandDue;
    if pr.pc.Filling? {
      AfterUpdateProgress(pr, pr.pc.ph, Some(Counts(pr.pc.pair)), act, base);
    } else if pr.pc.RemovingDir? || (pr.pc.Unlinking? && file.None?) {
      AfterUpdateProgress(pr, pr.pc.ph, None, act, base);
    }
  }

  lemma ReadingKeeps(s: State, p: L.Pid, ph: Phase)
    requires Inv(s) && ProcOf(s, p).pc == Reading(ph)
    ensures Inv(StepReading(s, p, ph))
    ensures ProcOf(StepReading(s, p, ph), p).pc != Reading(ph)
  {
    hide Progress, Computed, Replay;
    var t := StepReading(s, p, ph);
    var pr := ProcOf(s, p);
    assert Local(s, p);
    ReadingProgress(pr, ph, FileOf(s, pr.call.ref), pr.call.ref in s.active, Base(s, pr.call.ref));
    ComputedPlace(pr, ph, ZERO);
    if pr.call.ref in s.files {
      ComputedPlace(pr, ph, s.files[pr.call.ref].pair);
    }
    FilesKept(s, t);
    SectionStep(s, t, p);
  }

  lemma ComputedPlace(pr: Proc, ph: Phase, was: Pair)
    ensures var q := Computed(pr, ph, was);
            (q.pc.Unlinking? || q.pc.Opening?) && q.call == pr.call
  {
  }

  lemma OpeningKeeps(s: State, p: L.Pid, ph: Phase, pair: Pair)
    requires Inv(s) && ProcOf(s, p).pc == Opening(ph, pair)
    ensures Inv(StepOpening(s, p, ph, pair))
  {
    hide Progress, Replay;
    var t := StepOpening(s, p, ph, pair);
    var pr := ProcOf(s, p);
    var r := pr.call.ref;
    assert Local(s, p);
    FileStepProgress(pr, FileOf(s, r), r in s.active, Base(s, r));
    OpeningFiles(s, t, r);
    hide RefInv, L.Inv;
    SectionStep(s, t, p);
  }

  lemma OpeningFiles(s: State, t: State, r: Ref)
    requires Inv(s) && t.dirs == s.dirs
    requires t.files == s.files || (r.ns in s.dirs && t.files == s.files[r := Truncated])
    ensures forall x :: x in t.files ==> x.ns in t.dirs
  {
    hide Local, L.Inv, PossibleLog;
    forall x | x in t.files ensures x.ns in t.dirs {
      assert RefInv(s, x);
    }
  }

  lemma MakingDirKeeps(s: State, p: L.Pid, ph: Phase, pair: Pair)
    requires Inv(s) && ProcOf(s, p).pc == MakingDir(ph, pair)
    ensures Inv(StepMakingDir(s, p, ph, pair))
  {
    hide Progress, Replay;
    var t := StepMakingDir(s, p, ph, pair);
    var pr := ProcOf(s, p);
    var r := pr.call.ref;
    assert Local(s, p);
    FileStepProgress(pr, FileOf(s, r), r in s.active, Base(s, r));
    FilesKept(s, t);
    SectionStep(s, t, p);
  }

  lemma FillingKeeps(s: State, p: L.Pid, ph: Phase, pair: Pair)
    requires Inv(s) && ProcOf(s, p).pc == Filling(ph, pair)
    ensures Inv(StepFilling(s, p, ph, pair))
  {
    hide Progress, Replay, AfterUpdate;
    var t := StepFilling(s, p, ph, pair);
    var pr := ProcOf(s, p);
    var r := pr.call.ref;
    assert Local(s, p);
    FileAt(pr, FileOf(s, r), r in s.active, Base(s, r));
    UpdateDone(pr, FileOf(s, r), r in s.active, Base(s, r));
    forall x | x in t.files ensures x.ns in t.dirs {
      assert RefInv(s, x);
    }
    SectionStep(s, t, p);
  }

  lemma UnlinkingKeeps(s: State, p: L.Pid, ph: Phase)
    requires Inv(s) && ProcOf(s, p).pc == Unlinking(ph)
    ensures Inv(StepUnlinking(s, p, ph))
  {
    hide Progress, Replay, AfterUpdate;
    var t := StepUnlinking(s, p, ph);
    var pr := ProcOf(s, p);
    var r := pr.call.ref;
    assert Local(s, p);
    if r in s.files {
      FileStepProgress(pr, FileOf(s, r), r in s.active, Base(s, r));
    } else {
      UpdateDone(pr, FileOf(s, r), r in s.active, Base(s, r));
    }
    forall x | x in t.files ensures x.ns in t.dirs {
      assert RefInv(s, x);
    }
    SectionStep(s, t, p);
  }

  lemma RemovingDirKeeps(s: State, p: L.Pid, ph: Phase)
    requires Inv(s) && ProcOf(s, p).pc == RemovingDir(ph)
    ensures Inv(StepRemovingDir(s, p, ph))
  {
    hide Progress, Replay, AfterUpdate;
    var t := StepRemovingDir(s, p, ph);
    var pr := ProcOf(s, p);
    var r := pr.call.ref;
    assert Local(s, p);
    FileAt(pr, FileOf(s, r), r in s.active, Base(s, r));
    UpdateDone(pr, FileOf(s, r), r in s.active, Base(s, r));
    forall x | x in t.files ensures x.ns in t.dirs {
      assert RefInv(s, x);
    }
    SectionStep(s, t, p);
  }

  lemma FileAt(pr: Proc, file: Option<File>, act: bool, base: LvRef)
    requires Progress(pr, file, act, base)
    ensures pr.pc.Filling? ==> file.Some?
    ensures pr.pc.RemovingDir? ==> file.None?
  {
  }

  // ---- Steps that take or drop a lock ----

  /** Trying `id` and not getting it changes nothing but the registry. */
  lemma RefusedKeeps(s: State, p: L.Pid, id: L.LockId)
    requires Inv(s) && L.CountOf(s.locks, p, id) == 0 && !Take(s.locks, p, id).1
    ensures Inv(s.(locks := Take(s.locks, p, id).0))
  {
    hide Progress, Replay, Take;
    var t := s.(locks := Take(s.locks, p, id).0);
    var r := ProcOf(s, p).call.ref;
    TakeFacts(s.locks, p, id);
    assert Local(s, p) && RefInv(s, r);
    forall x ensures L.CountOf(t.locks, p, x) == ExpectedCount(ProcOf(t, p), x) {
      assert L.CountOf(s.locks, p, x) == ExpectedCount(ProcOf(s, p), x);
    }
    FilesKept(s, t);
    Assemble(s, t, p, r);
  }

  /** A step of `p` outside every section, or in its own, that takes or drops the
      LVM lock and leaves files and histories alone. */
  lemma LvmStep(s: State, t: State, p: L.Pid)
    requires Inv(s) && L.Inv(t.locks)
    requires t.origin == s.origin && t.log == s.log && t.files == s.files && t.dirs == s.dirs
    requires forall q :: q != p ==> ProcOf(t, q) == ProcOf(s, q)
    requires forall q :: q != p ==> L.Instances(t.locks, q) == L.Instances(s.locks, q)
    requires forall id :: id != LVM ==> L.CountOf(t.locks, p, id) == L.CountOf(s.locks, p, id)
    requires forall id :: id != LVM ==> (id in t.locks.kernel <==> id in s.locks.kernel)
    requires L.CountOf(t.locks, p, LVM) == if HasLvm(ProcOf(t, p).pc) then 1 else 0
    requires ProcOf(t, p).call == ProcOf(s, p).call && !ProcOf(s, p).pc.Idle?
    requires InSection(ProcOf(t, p).pc) == InSection(ProcOf(s, p).pc)
    requires InSection(ProcOf(t, p).pc) ==>
               var r := ProcOf(s, p).call.ref;
               Progress(ProcOf(t, p), FileOf(s, r), r in t.active, Base(s, r))
    requires forall x :: x != ProcOf(s, p).call.ref ==> (x in t.active <==> x in s.active)
    requires !InSection(ProcOf(s, p).pc) ==> t.active == s.active
    ensures Inv(t)
  {
    hide Progress, Replay;
    var r := ProcOf(s, p).call.ref;
    assert Local(s, p) && RefInv(s, r);
    forall x ensures L.CountOf(t.locks, p, x) == ExpectedCount(ProcOf(t, p), x) {
      assert L.CountOf(s.locks, p, x) == ExpectedCount(ProcOf(s, p), x);
    }
    if InSection(ProcOf(s, p).pc) {
      OneInSection(s, p, p);
    }
    FilesKept(s, t);
    Assemble(s, t, p, r);
  }

  lemma StartingKeeps(s: State, p: L.Pid, c: Choice)
    requires Inv(s) && ProcOf(s, p).pc.Starting?
    ensures Inv(StepStarting(s, p, c))
  {
    hide Progress, Replay, Take, Drop, Snapshot;
    var t := StepStarting(s, p, c);
    assert Local(s, p);
    assert L.CountOf(s.locks, p, LVM) == ExpectedCount(ProcOf(s, p), LVM);
    if ProcOf(s, p).pc == Starting(false) {
      TakeFacts(s.locks, p, LVM);
      if Take(s.locks, p, LVM).1 {
        LvmStep(s, t, p);
      } else {
        RefusedKeeps(s, p, LVM);
      }
    } else {
      StartedKeeps(s, p, c);
    }
  }

  lemma StartedKeeps(s: State, p: L.Pid, c: Choice)
    requires Inv(s) && ProcOf(s, p).pc == Starting(true)
    ensures Inv(StepStarting(s, p, c))
  {
    hide Progress, Replay, Take, Drop, Snapshot;
    var t := StepStarting(s, p, c);
    var pr := ProcOf(s, p);
    assert Local(s, p);
    assert L.CountOf(s.locks, p, LVM) == ExpectedCount(pr, LVM);
    DropFacts(s.locks, p, LVM);
    assert ProcOf(t, p) == (if c.ok then pr.(pc := WaitRef, cache := Some(Snapshot(s, c.seen))) else pr.(pc := Idle));
    LvmStep(s, t, p);
  }

  lemma WaitLvmKeeps(s: State, p: L.Pid, cmd: Command)
    requires Inv(s) && ProcOf(s, p).pc == WaitLvm(cmd)
    ensures Inv(StepWaitLvm(s, p, cmd))
  {
    hide Replay, Take, Stored, VolumeIs, Target;
    var t := StepWaitLvm(s, p, cmd);
    var pr := ProcOf(s, p);
    assert Local(s, p);
    assert RefLock(pr.call.ref) != LVM;
    assert L.CountOf(s.locks, p, LVM) == ExpectedCount(pr, LVM);
    TakeFacts(s.locks, p, LVM);
    if Take(s.locks, p, LVM).1 {
      LvmStep(s, t, p);
    } else {
      RefusedKeeps(s, p, LVM);
    }
  }

  lemma LvchangeProgress(pr: Proc, c: Choice, file: Option<File>, act: bool, base: LvRef)
    requires pr.pc == InLvm(Lvchange) && Progress(pr, file, act, base)
    ensures var on := if pr.call.activate then c.ok || c.leftOn || act else !c.ok && act;
            Progress(AfterLvchange(pr, c), file, on, base)
    ensures var q := AfterLvchange(pr, c); InSection(q.pc) && !HasLvm(q.pc) && q.call == pr.call
  {
    hide Get, Put, Mark, Stored;
  }

  lemma LvchangeKeeps(s: State, p: L.Pid, c: Choice)
    requires Inv(s) && ProcOf(s, p).pc == InLvm(Lvchange)
    ensures Inv(StepLvchange(s, p, c))
  {
    hide Progress, Replay, Drop, AfterLvchange;
    var t := StepLvchange(s, p, c);
    var pr := ProcOf(s, p);
    var r := pr.call.ref;
    assert Local(s, p);
    assert RefLock(r) != LVM;
    assert L.CountOf(s.locks, p, LVM) == ExpectedCount(pr, LVM);
    DropFacts(s.locks, p, LVM);
    LvchangeProgress(pr, c, FileOf(s, r), r in s.active, Base(s, r));
    LvmStep(s, t, p);
  }

  lemma LvsProgress(pr: Proc, cmd: Command, cache: map<Ref, Cached>, file: Option<File>, act: bool, base: LvRef)
    requires pr.pc == InLvm(cmd) && !cmd.Lvchange? && Progress(pr, file, act, base)
    ensures Progress(Finish(pr, GaveUp), file, act, base)
    ensures var q := AfterLvs(pr, cmd, cache);
            Progress(q, file, act, base) && InSection(q.pc) && !HasLvm(q.pc) && q.call == pr.call
  {
    hide Get, Put, Stored, Inspect;
    var renewed := pr.(cache := Some(cache));
    InspectProgress(renewed.(refreshed := true), file, act, base);
    FinishProgress(pr, GaveUp, file, act, base);
    FinishProgress(renewed, GaveUp, file, act, base);
  }

  lemma LvsKeeps(s: State, p: L.Pid, cmd: Command, c: Choice)
    requires Inv(s) && ProcOf(s, p).pc == InLvm(cmd) && !cmd.Lvchange?
    ensures Inv(StepLvs(s, p, cmd, c))
  {
    hide Progress, Replay, Drop, Snapshot, AfterLvs;
    var t := StepLvs(s, p, cmd, c);
    var pr := ProcOf(s, p);
    var r := pr.call.ref;
    assert Local(s, p);
    assert RefLock(r) != LVM;
    assert L.CountOf(s.locks, p, LVM) == ExpectedCount(pr, LVM);
    DropFacts(s.locks, p, LVM);
    LvsProgress(pr, cmd, Snapshot(s, c.seen), FileOf(s, r), r in s.active, Base(s, r));
    LvmStep(s, t, p);
  }

  lemma WaitRefKeeps(s: State, p: L.Pid)
    requires Inv(s) && ProcOf(s, p).pc.WaitRef?
    ensures Inv(StepWaitRef(s, p))
  {
    hide Replay, Take;
    var t := StepWaitRef(s, p);
    var pr := ProcOf(s, p);
    var r := pr.call.ref;
    var id := RefLock(r);
    assert Local(s, p) && RefInv(s, r);
    assert L.CountOf(s.locks, p, id) == ExpectedCount(pr, id);
    TakeFacts(s.locks, p, id);
    if Take(s.locks, p, id).1 {
      forall x ensures L.CountOf(t.locks, p, x) == ExpectedCount(ProcOf(t, p), x) {
        assert L.CountOf(s.locks, p, x) == ExpectedCount(pr, x);
      }
      FilesKept(s, t);
      assert Settled(s, r);
      assert Base(t, r) == Base(s, r);
      Assemble(s, t, p, r);
    } else {
      RefusedKeeps(s, p, id);
    }
  }

  lemma LeavingKeeps(s: State, p: L.Pid, e: Event)
    requires Inv(s) && ProcOf(s, p).pc == Leaving(e)
    ensures Inv(StepLeaving(s, p, e))
    ensures var r := ProcOf(s, p).call.ref;
            Base(StepLeaving(s, p, e), r) == Effect(Base(s, r), e)
  {
    hide Effect, Possible, Drop;
    var t := StepLeaving(s, p, e);
    var pr := ProcOf(s, p);
    var r := pr.call.ref;
    var id := RefLock(r);
    assert Local(s, p) && RefInv(s, r);
    assert L.CountOf(s.locks, p, id) == ExpectedCount(pr, id);
    DropFacts(s.locks, p, id);
    forall x ensures L.CountOf(t.locks, p, x) == ExpectedCount(ProcOf(t, p), x) {
      assert L.CountOf(s.locks, p, x) == ExpectedCount(pr, x);
    }
    LogGrows(LvRef(ZERO, r in s.origin), LogOf(s, r), e);
    FilesKept(s, t);
    Assemble(s, t, p, r);
  }

  lemma LogGrows(s: LvRef, log: seq<Event>, e: Event)
    requires PossibleLog(s, log) && Possible(Replay(s, log, |log|), e)
    ensures Replay(s, log + [e], |log| + 1) == Effect(Replay(s, log, |log|), e)
    ensures PossibleLog(s, log + [e])
  {
    hide Effect, Possible;
    ReplayPrefix(s, log, [e], |log|);
    forall k: nat ensures PossibleAt(s, log + [e], k) {
      if k <= |log| {
        ReplayPrefix(s, log, [e], k);
        assert PossibleAt(s, log, k);
      }
    }
  }
}
