/** LVMCache.activate and deactivate step by step, for any number of processes
    that share lock files, the reference count tree and the volumes
    (sm/lock.py:101-192, 643-714; sm/lvutil.py:110-133, 206-209).

    One step of one process is one system call or one LVM command; what the
    command answers, and what `lvs` shows of the volumes' open state, is the
    environment's choice. Each reference names one logical volume. A command that
    fails to deactivate leaves the volume as it was; one that fails to activate may
    leave it on. */
module ActivationProtocol {
  import opened Options
  import opened RefPairs
  import opened Activation
  import opened Endings
  import L = FileLocks

  datatype Ref = Ref(ns: string, obj: string)

  datatype Call = Call(activate: bool, ref: Ref, binary: bool)

  /** Which of the two count updates of a call is running. */
  datatype Phase = First | Undo

  datatype Command =
    | Lvchange     // lvchange -ay or -an, by the kind of the call
    | LvsBusy      // refresh because the cache says the volume is open
    | LvsFailed    // refresh after a failed lvchange -an

  datatype Pc =
    | Idle
    | Starting(locked: bool)          // first use of the cache: refresh
    | WaitRef                         // lock.acquire()
    | Reading(ph: Phase)              // _get
    | Opening(ph: Phase, pair: Pair)  // open(fn, 'w')
    | MakingDir(ph: Phase, pair: Pair)
    | Filling(ph: Phase, pair: Pair)  // write and close
    | Unlinking(ph: Phase)
    | RemovingDir(ph: Phase)
    | WaitLvm(cmd: Command)
    | InLvm(cmd: Command)
    | Leaving(event: Event)           // lock.release()

  datatype Proc = Proc(
    pc: Pc,
    call: Call,
    cache: Option<map<Ref, Cached>>,  // None until initialized
    refreshed: bool,                  // the flag of the loop in deactivate
    wasActive: bool,                  // lvInfo[lvName].active, read before lvchange -an
    leftOn: bool)                     // a failed lvchange -ay has switched the LV on

  /** A count file: empty between open(fn, 'w') and close. */
  datatype File = Truncated | Counts(pair: Pair)

  datatype State = State(
    locks: L.State,
    dirs: set<string>,
    files: map<Ref, File>,
    active: set<Ref>,
    procs: map<L.Pid, Proc>,
    origin: set<Ref>,                 // volumes on at the start
    log: map<Ref, seq<Event>>)        // finished calls, in the order of their release

  /** What the environment decides in a step. */
  datatype Choice = Choice(
    call: Call,
    ok: bool,               // the command succeeds
    leftOn: bool,           // a failed lvchange -ay switches the LV on
    retry: bool,            // the retry loops of lvutil run the command once more
    seen: map<Ref, bool>)   // the volumes lvs lists, with their open flag

  const LVM := L.LockId(".nil", "lvm")
  const NOBODY := Proc(Idle, Call(true, Ref("", ""), false), None, false, false, false)

  function RefLock(r: Ref): L.LockId {
    L.LockId(r.ns, r.obj)
  }

  /** Lock._mknamespace refuses a namespace that starts with a dot. */
  predicate ValidRef(r: Ref) {
    r.ns != "" && r.ns[0] != '.'
  }

  function ProcOf(s: State, p: L.Pid): Proc {
    if p in s.procs then s.procs[p] else NOBODY
  }

  function LogOf(s: State, r: Ref): seq<Event> {
    if r in s.log then s.log[r] else []
  }

  function FileOf(s: State, r: Ref): Option<File> {
    if r in s.files then Some(s.files[r]) else None
  }

  /** The atomic view: all finished calls on `r`, one after the other. */
  function Base(s: State, r: Ref): LvRef {
    Replay(LvRef(ZERO, r in s.origin), LogOf(s, r), |LogOf(s, r)|)
  }

  function Initial(origin: set<Ref>): State {
    State(L.INITIAL, {}, map[], origin, map[], origin, map[])
  }

  // ---- Steps ----

  /** Lock(...) and the attempt to acquire it; the flag says whether it was granted. */
  function Take(ls: L.State, p: L.Pid, id: L.LockId): (L.State, bool) {
    var ls1 := L.DoNew(ls, p, id);
    (L.DoAcquire(ls1, p, id), L.Acquire(ls1.kernel, p, id, L.Instances(ls1, p)[id]).2)
  }

  function Drop(ls: L.State, p: L.Pid, id: L.LockId): L.State {
    if id in L.Instances(ls, p) then L.DoRelease(ls, p, id) else ls
  }

  /** The pair a count update writes, from the pair it read. */
  function Update(call: Call, ph: Phase, was: Pair): Pair {
    if call.activate == ph.First? then Get(was, call.binary) else Put(was, call.binary)
  }

  function Snapshot(s: State, seen: map<Ref, bool>): map<Ref, Cached> {
    map r | r in seen :: Cached(r in s.active, seen[r])
  }

  function Finish(pr: Proc, out: Outcome): Proc {
    pr.(pc := Leaving(if pr.call.activate then Activate(pr.call.binary, out) else Deactivate(pr.call.binary, out)))
  }

  /** The loop of deactivate: is the volume known, and closed? */
  function Inspect(pr: Proc): Proc {
    if pr.cache.None? || pr.call.ref !in pr.cache.value then Finish(pr, GaveUp)
    else
      var info := pr.cache.value[pr.call.ref];
      if !info.open then pr.(pc := WaitLvm(Lvchange), wasActive := info.active)
      else if pr.refreshed then Finish(pr, GaveUp)
      else pr.(pc := WaitLvm(LvsBusy))
  }

  /** What follows a count update that has left `pair` behind. */
  function AfterUpdate(pr: Proc, ph: Phase, pair: Pair): Proc {
    if ph.Undo? then Finish(pr, if pr.call.activate then Failed(pr.leftOn) else Reverted)
    else if pr.call.activate then
      if Total(pair) == 1 then pr.(pc := WaitLvm(Lvchange)) else Finish(pr, Counted)
    else
      if Total(pair) > 0 then Finish(pr, Counted) else Inspect(pr)
  }

  /** What follows reading the pair `was`. */
  function Computed(pr: Proc, ph: Phase, was: Pair): Proc {
    var pair := Update(pr.call, ph, was);
    pr.(pc := if pair == ZERO then Unlinking(ph) else Opening(ph, pair))
  }

  /** What follows an lvs that has listed `cache`. */
  function AfterLvs(pr: Proc, cmd: Command, cache: map<Ref, Cached>): Proc {
    var renewed := pr.(cache := Some(cache));
    if cmd.LvsBusy? then Inspect(renewed.(refreshed := true))
    else if pr.call.ref in cache && pr.wasActive then renewed.(pc := Reading(Undo))
    else Finish(renewed, GaveUp)
  }

  function Mark(cache: Option<map<Ref, Cached>>, r: Ref, active: bool): Option<map<Ref, Cached>> {
    if cache.None? || r !in cache.value then cache
    else Some(cache.value[r := cache.value[r].(active := active)])
  }

  /** What follows lvchange. */
  function AfterLvchange(pr: Proc, c: Choice): Proc {
    if c.ok then Finish(pr.(cache := Mark(pr.cache, pr.call.ref, pr.call.activate)), Done)
    else
      pr.(leftOn := pr.leftOn || (pr.call.activate && c.leftOn),
          pc := if c.retry then WaitLvm(Lvchange)
                else if pr.call.activate then Reading(Undo) else WaitLvm(LvsFailed))
  }

  function Place(s: State, p: L.Pid, pr: Proc): State {
    s.(procs := s.procs[p := pr])
  }

  function StepIdle(s: State, p: L.Pid, c: Choice): State {
    if !ValidRef(c.call.ref) then s
    else
      var pr := ProcOf(s, p);
      Place(s, p, pr.(pc := if pr.cache.None? then Starting(false) else WaitRef, call := c.call))
  }

  function StepStarting(s: State, p: L.Pid, c: Choice): State {
    var pr := ProcOf(s, p);
    if pr.pc == Starting(false) then
      var (ls, got) := Take(s.locks, p, LVM);
      if got then Place(s.(locks := ls), p, pr.(pc := Starting(true))) else s.(locks := ls)
    else
      var t := s.(locks := Drop(s.locks, p, LVM));
      if c.ok then Place(t, p, pr.(pc := WaitRef, cache := Some(Snapshot(s, c.seen))))
      else Place(t, p, pr.(pc := Idle))
  }

  function StepWaitRef(s: State, p: L.Pid): State {
    var pr := ProcOf(s, p);
    var (ls, got) := Take(s.locks, p, RefLock(pr.call.ref));
    if got then Place(s.(locks := ls), p, pr.(pc := Reading(First), refreshed := false, leftOn := false))
    else s.(locks := ls)
  }

  function StepReading(s: State, p: L.Pid, ph: Phase): State {
    match FileOf(s, ProcOf(s, p).call.ref)
    case None => Place(s, p, Computed(ProcOf(s, p), ph, ZERO))
    case Some(Truncated) => s   // an uncaught IndexError; ruled out by the invariant
    case Some(Counts(was)) => Place(s, p, Computed(ProcOf(s, p), ph, was))
  }

  function StepOpening(s: State, p: L.Pid, ph: Phase, pair: Pair): State {
    var pr := ProcOf(s, p);
    if pr.call.ref.ns in s.dirs then
      Place(s.(files := s.files[pr.call.ref := Truncated]), p, pr.(pc := Filling(ph, pair)))
    else Place(s, p, pr.(pc := MakingDir(ph, pair)))
  }

  function StepMakingDir(s: State, p: L.Pid, ph: Phase, pair: Pair): State {
    var pr := ProcOf(s, p);
    Place(s.(dirs := s.dirs + {pr.call.ref.ns}), p, pr.(pc := Opening(ph, pair)))
  }

  function StepFilling(s: State, p: L.Pid, ph: Phase, pair: Pair): State {
    var pr := ProcOf(s, p);
    Place(s.(files := s.files[pr.call.ref := Counts(pair)]), p, AfterUpdate(pr, ph, pair))
  }

  function StepUnlinking(s: State, p: L.Pid, ph: Phase): State {
    var pr := ProcOf(s, p);
    if pr.call.ref in s.files then
      Place(s.(files := s.files - {pr.call.ref}), p, pr.(pc := RemovingDir(ph)))
    else Place(s, p, AfterUpdate(pr, ph, ZERO))
  }

  /** rmdir works on an empty directory only; ENOENT and ENOTEMPTY are ignored. */
  function StepRemovingDir(s: State, p: L.Pid, ph: Phase): State {
    var pr := ProcOf(s, p);
    var empty := forall r :: r in s.files ==> r.ns != pr.call.ref.ns;
    Place(s.(dirs := if empty then s.dirs - {pr.call.ref.ns} else s.dirs), p, AfterUpdate(pr, ph, ZERO))
  }

  function StepWaitLvm(s: State, p: L.Pid, cmd: Command): State {
    var pr := ProcOf(s, p);
    var (ls, got) := Take(s.locks, p, LVM);
    if got then Place(s.(locks := ls), p, pr.(pc := InLvm(cmd))) else s.(locks := ls)
  }

  function StepLvchange(s: State, p: L.Pid, c: Choice): State {
    var pr := ProcOf(s, p);
    var r := pr.call.ref;
    var t := s.(locks := Drop(s.locks, p, LVM));
    var on := if pr.call.activate then c.ok || c.leftOn || r in s.active
              else !c.ok && r in s.active;
    Place(t.(active := if on then s.active + {r} else s.active - {r}), p, AfterLvchange(pr, c))
  }

  function StepLvs(s: State, p: L.Pid, cmd: Command, c: Choice): State {
    var pr := ProcOf(s, p);
    var t := s.(locks := Drop(s.locks, p, LVM));
    if c.ok then Place(t, p, AfterLvs(pr, cmd, Snapshot(s, c.seen)))
    else Place(t, p, Finish(pr, GaveUp))
  }

  function StepLeaving(s: State, p: L.Pid, e: Event): State {
    var pr := ProcOf(s, p);
    var r := pr.call.ref;
    Place(s.(locks := Drop(s.locks, p, RefLock(r)), log := s.log[r := LogOf(s, r) + [e]]), p, pr.(pc := Idle))
  }

  function Step(s: State, p: L.Pid, c: Choice): State {
    match ProcOf(s, p).pc
    case Idle => StepIdle(s, p, c)
    case Starting(_) => StepStarting(s, p, c)
    case WaitRef => StepWaitRef(s, p)
    case Reading(ph) => StepReading(s, p, ph)
    case Opening(ph, pair) => StepOpening(s, p, ph, pair)
    case MakingDir(ph, pair) => StepMakingDir(s, p, ph, pair)
    case Filling(ph, pair) => StepFilling(s, p, ph, pair)
    case Unlinking(ph) => StepUnlinking(s, p, ph)
    case RemovingDir(ph) => StepRemovingDir(s, p, ph)
    case WaitLvm(cmd) => StepWaitLvm(s, p, cmd)
    case InLvm(cmd) => if cmd.Lvchange? then StepLvchange(s, p, c) else StepLvs(s, p, cmd, c)
    case Leaving(e) => StepLeaving(s, p, e)
  }

  datatype Turn = Turn(pid: L.Pid, choice: Choice)

  function Run(s: State, turns: seq<Turn>): State
    decreases turns
  {
    if turns == [] then s else Run(Step(s, turns[0].pid, turns[0].choice), turns[1..])
  }
}
