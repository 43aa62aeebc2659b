/** References and their count files. The name of a count file is the name of the reference
    with some characters replaced; the name of its lock is not. The protocol with the files
    as they are named: for references whose files differ it does what ActivationProtocol
    does, and two references that share a file lose an update, because their locks do not
    exclude each other (sm/lock.py:101-192, 643-698). */
module SharedFiles {
  import opened Options
  import opened RefPairs
  import opened Activation
  import opened ActivationProtocol
  import opened ActivationTheorems
  import opened ActivationWitness
  import opened StaleCaches
  import RefCounting

  /** The file the count of a reference is kept in. */
  function FileKey(r: Ref): Ref {
    Ref(r.ns, RefCounting.SafeName(r.obj))
  }

  // ---- The protocol, with the files as they are named ----

  function ReadShared(s: State, p: L.Pid, ph: Phase): State {
    match FileOf(s, FileKey(ProcOf(s, p).call.ref))
    case None => Place(s, p, Computed(ProcOf(s, p), ph, ZERO))
    case Some(Truncated) => s
    case Some(Counts(was)) => Place(s, p, Computed(ProcOf(s, p), ph, was))
  }

  function OpenShared(s: State, p: L.Pid, ph: Phase, pair: Pair): State {
    var pr := ProcOf(s, p);
    if pr.call.ref.ns in s.dirs then
      Place(s.(files := s.files[FileKey(pr.call.ref) := Truncated]), p, pr.(pc := Filling(ph, pair)))
    else Place(s, p, pr.(pc := MakingDir(ph, pair)))
  }

  function FillShared(s: State, p: L.Pid, ph: Phase, pair: Pair): State {
    var pr := ProcOf(s, p);
    Place(s.(files := s.files[FileKey(pr.call.ref) := Counts(pair)]), p, AfterUpdate(pr, ph, pair))
  }

  function UnlinkShared(s: State, p: L.Pid, ph: Phase): State {
    var pr := ProcOf(s, p);
    if FileKey(pr.call.ref) in s.files then
      Place(s.(files := s.files - {FileKey(pr.call.ref)}), p, pr.(pc := RemovingDir(ph)))
    else Place(s, p, AfterUpdate(pr, ph, ZERO))
  }

  function SharedStep(s: State, p: L.Pid, c: Choice): State {
    match ProcOf(s, p).pc
    case Reading(ph) => ReadShared(s, p, ph)
    case Opening(ph, pair) => OpenShared(s, p, ph, pair)
    case Filling(ph, pair) => FillShared(s, p, ph, pair)
    case Unlinking(ph) => UnlinkShared(s, p, ph)
    case _ => Step(s, p, c)
  }

  function SharedRun(s: State, turns: seq<Turn>): State
    decreases turns
  {
    if turns == [] then s else SharedRun(SharedStep(s, turns[0].pid, turns[0].choice), turns[1..])
  }

  // ---- References whose files differ ----

  /** No two of the references share a count file. */
  ghost predicate Apart(rs: set<Ref>) {
    forall a, b :: a in rs && b in rs && FileKey(a) == FileKey(b) ==> a == b
  }

  predicate CallsIn(turns: seq<Turn>, rs: set<Ref>) {
    forall k :: 0 <= k < |turns| ==> turns[k].choice.call.ref in rs
  }

  /** The same files but for their names. */
  ghost predicate SameFiles(fs: map<Ref, File>, ft: map<Ref, File>, rs: set<Ref>) {
    && (forall r :: r in fs ==> r in rs)
    && (forall r :: r in rs ==> (FileKey(r) in ft <==> r in fs))
    && (forall r :: r in fs ==> FileKey(r) in ft && ft[FileKey(r)] == fs[r])
    && (forall k :: k in ft ==> exists r :: r in fs && FileKey(r) == k)
  }

  lemma FileIsPut(fs: map<Ref, File>, ft: map<Ref, File>, rs: set<Ref>, r: Ref, file: File)
    requires Apart(rs) && SameFiles(fs, ft, rs) && r in rs
    ensures SameFiles(fs[r := file], ft[FileKey(r) := file], rs)
  {
    hide FileKey;
    var fs1, ft1 := fs[r := file], ft[FileKey(r) := file];
    forall k | k in ft1 ensures exists x :: x in fs1 && FileKey(x) == k {
      if k in ft {
        var x :| x in fs && FileKey(x) == k;
        assert x in fs1;
      } else {
        assert r in fs1;
      }
    }
  }

  lemma FileIsGone(fs: map<Ref, File>, ft: map<Ref, File>, rs: set<Ref>, r: Ref)
    requires Apart(rs) && SameFiles(fs, ft, rs) && r in rs
    ensures SameFiles(fs - {r}, ft - {FileKey(r)}, rs)
  {
    hide FileKey;
    var fs1, ft1 := fs - {r}, ft - {FileKey(r)};
    forall k | k in ft1 ensures exists x :: x in fs1 && FileKey(x) == k {
      var x :| x in fs && FileKey(x) == k;
      assert x in fs1;
    }
  }

  lemma SameDirectories(fs: map<Ref, File>, ft: map<Ref, File>, rs: set<Ref>, ns: string)
    requires SameFiles(fs, ft, rs)
    ensures (forall r :: r in fs ==> r.ns != ns) <==> (forall k :: k in ft ==> k.ns != ns)
  {
    forall r | r in fs ensures FileKey(r) in ft && FileKey(r).ns == r.ns {
    }
  }

  /** The same state but for the names of the files. */
  ghost predicate Keyed(s: State, t: State, rs: set<Ref>) {
    && t == s.(files := t.files)
    && SameFiles(s.files, t.files, rs)
    && (forall p :: !ProcOf(s, p).pc.Idle? ==> ProcOf(s, p).call.ref in rs)
  }

  /** Steps that do not look at the count files. */
  predicate NoFile(pc: Pc) {
    PhaseOf(pc).None? || pc.MakingDir?
  }

  lemma LockIgnoresFiles(s: State, files: map<Ref, File>, p: L.Pid, c: Choice)
    requires ProcOf(s, p).pc.Starting? || ProcOf(s, p).pc.WaitRef? || ProcOf(s, p).pc.WaitLvm?
    ensures Step(s.(files := files), p, c) == Step(s, p, c).(files := files) && Step(s, p, c).files == s.files
  {
    hide Take, Drop;
  }

  lemma EndIgnoresFiles(s: State, files: map<Ref, File>, p: L.Pid, c: Choice)
    requires NoFile(ProcOf(s, p).pc)
    requires !ProcOf(s, p).pc.Starting? && !ProcOf(s, p).pc.WaitRef? && !ProcOf(s, p).pc.WaitLvm?
    ensures Step(s.(files := files), p, c) == Step(s, p, c).(files := files) && Step(s, p, c).files == s.files
  {
    hide Drop, AfterLvs, AfterLvchange;
  }

  /** The calls that are under way are about those references. */
  lemma CallsStayIn(s: State, p: L.Pid, c: Choice, rs: set<Ref>)
    requires forall q :: !ProcOf(s, q).pc.Idle? ==> ProcOf(s, q).call.ref in rs
    requires c.call.ref in rs
    ensures forall q :: !ProcOf(Step(s, p, c), q).pc.Idle? ==> ProcOf(Step(s, p, c), q).call.ref in rs
  {
    hide Step;
    OthersStay(s, p, c);
    if ProcOf(s, p).pc.Idle? {
      BeginsAbout(s, p, c);
    }
  }

  lemma BeginsAbout(s: State, p: L.Pid, c: Choice)
    requires ProcOf(s, p).pc.Idle?
    ensures !ProcOf(Step(s, p, c), p).pc.Idle? ==> ProcOf(Step(s, p, c), p).call == c.call
  {
  }

  lemma SharedIsStep(s: State, p: L.Pid, c: Choice)
    requires NoFile(ProcOf(s, p).pc) || ProcOf(s, p).pc.RemovingDir?
    ensures SharedStep(s, p, c) == Step(s, p, c)
  {
    hide Step;
  }

  lemma StepIsKeyed(s: State, t: State, p: L.Pid, c: Choice, rs: set<Ref>)
    requires Apart(rs) && Keyed(s, t, rs) && c.call.ref in rs
    ensures Keyed(Step(s, p, c), SharedStep(t, p, c), rs)
  {
    hide Step, SharedStep, SameFiles;
    CallsStayIn(s, p, c, rs);
    var pc := ProcOf(s, p).pc;
    if NoFile(pc) {
      assert t == s.(files := t.files);
      if pc.Starting? || pc.WaitRef? || pc.WaitLvm? {
        LockIgnoresFiles(s, t.files, p, c);
      } else {
        EndIgnoresFiles(s, t.files, p, c);
      }
      SharedIsStep(t, p, c);
    } else if pc.Opening? || pc.Filling? {
      WriteIsKeyed(s, t, p, c, rs);
    } else if pc.Unlinking? {
      UnlinkIsKeyed(s, t, p, c, rs);
    } else {
      ReadIsKeyed(s, t, p, c, rs);
    }
  }

  /** A file with another name is another file. */
  lemma WriteIsKeyed(s: State, t: State, p: L.Pid, c: Choice, rs: set<Ref>)
    requires Apart(rs) && Keyed(s, t, rs) && (ProcOf(s, p).pc.Opening? || ProcOf(s, p).pc.Filling?)
    ensures var s1, t1 := Step(s, p, c), SharedStep(t, p, c);
            t1 == s1.(files := t1.files) && SameFiles(s1.files, t1.files, rs)
  {
    hide Apart, SameFiles, FileKey, AfterUpdate;
    var pr := ProcOf(s, p);
    var file := if pr.pc.Opening? then Truncated else Counts(pr.pc.pair);
    FileIsPut(s.files, t.files, rs, pr.call.ref, file);
  }

  lemma UnlinkIsKeyed(s: State, t: State, p: L.Pid, c: Choice, rs: set<Ref>)
    requires Apart(rs) && Keyed(s, t, rs) && ProcOf(s, p).pc.Unlinking?
    ensures var s1, t1 := Step(s, p, c), SharedStep(t, p, c);
            t1 == s1.(files := t1.files) && SameFiles(s1.files, t1.files, rs)
  {
    hide Apart, SameFiles, FileKey, AfterUpdate;
    SameFileOf(s, t, ProcOf(s, p).call.ref, rs);
    FileIsGone(s.files, t.files, rs, ProcOf(s, p).call.ref);
  }

  lemma SameFileOf(s: State, t: State, r: Ref, rs: set<Ref>)
    requires SameFiles(s.files, t.files, rs) && r in rs
    ensures FileOf(t, FileKey(r)) == FileOf(s, r)
  {
    hide FileKey;
  }

  lemma ReadIsKeyed(s: State, t: State, p: L.Pid, c: Choice, rs: set<Ref>)
    requires Keyed(s, t, rs) && (ProcOf(s, p).pc.Reading? || ProcOf(s, p).pc.RemovingDir?)
    ensures var s1, t1 := Step(s, p, c), SharedStep(t, p, c);
            t1 == s1.(files := t1.files) && SameFiles(s1.files, t1.files, rs)
  {
    hide AfterUpdate, Computed, SameFiles, FileKey;
    var r := ProcOf(s, p).call.ref;
    SameFileOf(s, t, r, rs);
    SameDirectories(s.files, t.files, rs, r.ns);
  }

  /** A run about references whose files differ is a run of the protocol in which every
      reference has a file of its own. */
  lemma {:induction false} RunIsKeyed(s: State, t: State, turns: seq<Turn>, rs: set<Ref>)
    requires Apart(rs) && Keyed(s, t, rs) && CallsIn(turns, rs)
    ensures Keyed(Run(s, turns), SharedRun(t, turns), rs)
    decreases turns
  {
    hide Apart, Keyed, Step, SharedStep;
    if turns != [] {
      StepIsKeyed(s, t, turns[0].pid, turns[0].choice, rs);
      assert turns[0].choice.call.ref in rs;
      RunIsKeyed(Step(s, turns[0].pid, turns[0].choice), SharedStep(t, turns[0].pid, turns[0].choice), turns[1..], rs);
    }
  }

  /** So for references whose files differ, whatever others do, the file and the volume of
      a reference whose lock is free are what its finished calls make of them. */
  lemma ApartCallsAreAtomic(origin: set<Ref>, turns: seq<Turn>, rs: set<Ref>, r: Ref)
    requires Apart(rs) && CallsIn(turns, rs) && r in rs && ValidRef(r)
    requires RefLock(r) !in SharedRun(Initial(origin), turns).locks.kernel
    ensures var t := SharedRun(Initial(origin), turns);
            var now := Replay(LvRef(ZERO, r in origin), LogOf(t, r), |LogOf(t, r)|);
            && FileOf(t, FileKey(r)) == (if now.pair == ZERO then None else Some(Counts(now.pair)))
            && (r in t.active <==> now.active)
            && PossibleLog(LvRef(ZERO, r in origin), LogOf(t, r))
  {
    hide Apart, Run, SharedRun, Replay, PossibleLog, FileKey;
    StartIsKeyed(origin, rs);
    RunIsKeyed(Initial(origin), Initial(origin), turns, rs);
    var s := Run(Initial(origin), turns);
    assert Reachable(s);
    hide Reachable;
    OriginStays(Initial(origin), turns);
    CallsAreAtomic(s, r);
    SameFileOf(s, SharedRun(Initial(origin), turns), r, rs);
  }

  lemma StartIsKeyed(origin: set<Ref>, rs: set<Ref>)
    ensures Keyed(Initial(origin), Initial(origin), rs)
  {
    assert forall p :: ProcOf(Initial(origin), p) == NOBODY;
  }

  lemma {:induction false} OriginStays(s: State, turns: seq<Turn>)
    ensures Run(s, turns).origin == s.origin
    decreases turns
  {
    hide Step;
    if turns != [] {
      OthersStay(s, turns[0].pid, turns[0].choice);
      OriginStays(Step(s, turns[0].pid, turns[0].choice), turns[1..]);
    }
  }

  // ---- References that share a file ----

  ghost predicate SharedReachable(s: State) {
    exists origin, turns :: s == SharedRun(Initial(origin), turns)
  }

  lemma {:induction false} SharedRunOne(s: State, turns: seq<Turn>, turn: Turn)
    ensures SharedRun(s, turns + [turn]) == SharedStep(SharedRun(s, turns), turn.pid, turn.choice)
    decreases turns
  {
    hide SharedStep;
    if turns == [] {
      assert turns + [turn] == [turn] && [turn][1..] == [];
    } else {
      assert (turns + [turn])[1..] == turns[1..] + [turn];
      SharedRunOne(SharedStep(s, turns[0].pid, turns[0].choice), turns[1..], turn);
    }
  }

  lemma SharedStays(s: State, p: L.Pid, c: Choice)
    requires SharedReachable(s)
    ensures SharedReachable(SharedStep(s, p, c))
  {
    hide SharedStep;
    var origin, turns :| s == SharedRun(Initial(origin), turns);
    SharedRunOne(Initial(origin), turns, Turn(p, c));
  }

  lemma TakeElsewhere(ls: L.State, p: L.Pid, id: L.LockId, x: L.LockId)
    requires x != id
    ensures x in Take(ls, p, id).0.kernel <==> x in ls.kernel
    ensures x in Drop(ls, p, id).kernel <==> x in ls.kernel
  {
  }

  /** A step on the way into a section: one of both protocols, which leaves the files and
      the locks of other references alone. */
  lemma OnTheWay(s: State, p: L.Pid, c: Choice, other: Ref)
    requires SharedReachable(s) && ValidRef(other)
    requires var pr := ProcOf(s, p);
             pr.pc.Idle? || pr.pc.Starting? || (pr.pc.WaitRef? && RefLock(pr.call.ref) != RefLock(other))
    ensures var t := Step(s, p, c);
            SharedReachable(t) && t.files == s.files && t.active == s.active
            && (RefLock(other) in t.locks.kernel <==> RefLock(other) in s.locks.kernel)
  {
    hide SharedReachable, Take, Drop, Snapshot, SharedStep;
    SharedStays(s, p, c);
    SharedIsStep(s, p, c);
    assert RefLock(other) != LVM;
    TakeElsewhere(s.locks, p, LVM, RefLock(other));
    if ProcOf(s, p).pc.WaitRef? {
      TakeElsewhere(s.locks, p, RefLock(ProcOf(s, p).call.ref), RefLock(other));
    }
  }

  /** A process on its first activation enters the section of its reference. */
  lemma Enters(s: State, p: L.Pid, q: L.Pid, r: Ref, other: Ref) returns (t: State)
    requires Ready(s, p, q, r, Idle) && SharedReachable(s) && ValidRef(other) && RefLock(r) != RefLock(other)
    requires ViewOf(s, p, r) == Free(NOBODY, None, false, ViewOf(s, p, r).log)
    ensures Reachable(t) && SharedReachable(t) && t.files == s.files && ProcOf(t, q) == ProcOf(s, q)
    ensures RefLock(other) in t.locks.kernel <==> RefLock(other) in s.locks.kernel
    ensures LVM !in t.locks.kernel && (other in t.active <==> other in s.active)
    ensures var pr := ProcOf(t, p); pr.pc == Reading(First) && pr.call == Call(true, r, false)
  {
    hide Reachable, SharedReachable, Step;
    t := Begins(s, p, q, Call(true, r, false));
    OnTheWay(s, p, PLAIN.(call := Call(true, r, false)), other);
    var u := TakesLvm(t, p, q, r);
    OnTheWay(t, p, PLAIN, other);
    t := FillsCache(u, p, q, r);
    OnTheWay(u, p, PLAIN.(seen := map[r := false]), other);
    u := TakesRef(t, p, q, r);
    OnTheWay(t, p, PLAIN, other);
    t := u;
  }

  /** In its section, about to read a file that is not there. */
  predicate AboutToRead(s: State, p: L.Pid, r: Ref) {
    var pr := ProcOf(s, p);
    pr.pc == Reading(First) && pr.call == Call(true, r, false) && FileKey(r) !in s.files
  }

  predicate AboutToWrite(s: State, p: L.Pid, r: Ref) {
    var pr := ProcOf(s, p);
    pr.pc == Opening(First, Pair(1, 0)) && pr.call == Call(true, r, false)
  }

  lemma ReadsNothing(s: State, p: L.Pid, q: L.Pid, r: Ref) returns (t: State)
    requires SharedReachable(s) && AboutToRead(s, p, r) && p != q
    ensures SharedReachable(t) && AboutToWrite(t, p, r) && ProcOf(t, q) == ProcOf(s, q) && t.files == s.files
  {
    hide SharedReachable, FileKey;
    SharedStays(s, p, PLAIN);
    t := SharedStep(s, p, PLAIN);
    assert Update(ProcOf(s, p).call, First, ZERO) == Pair(1, 0);
  }

  /** The directory is made when it is not there, and the file is written. */
  lemma WritesOne(s: State, p: L.Pid, q: L.Pid, r: Ref) returns (t: State)
    requires SharedReachable(s) && AboutToWrite(s, p, r) && p != q
    ensures SharedReachable(t) && ProcOf(t, q) == ProcOf(s, q)
    ensures ProcOf(t, p).pc == WaitLvm(Lvchange) && ProcOf(t, p).call == ProcOf(s, p).call
    ensures FileOf(t, FileKey(r)) == Some(Counts(Pair(1, 0)))
  {
    hide SharedReachable, FileKey;
    t := HasDir(s, p, q, r);
    SharedStays(t, p, PLAIN);
    var u := SharedStep(t, p, PLAIN);
    assert u == OpenShared(t, p, First, Pair(1, 0));
    SharedStays(u, p, PLAIN);
    t := SharedStep(u, p, PLAIN);
    assert t == FillShared(u, p, First, Pair(1, 0));
  }

  lemma HasDir(s: State, p: L.Pid, q: L.Pid, r: Ref) returns (t: State)
    requires SharedReachable(s) && AboutToWrite(s, p, r) && p != q
    ensures SharedReachable(t) && AboutToWrite(t, p, r) && ProcOf(t, q) == ProcOf(s, q) && r.ns in t.dirs
    ensures ProcOf(t, p) == ProcOf(s, p)
  {
    hide SharedReachable, FileKey;
    t := s;
    if r.ns !in s.dirs {
      SharedStays(s, p, PLAIN);
      var u := SharedStep(s, p, PLAIN);
      assert u == OpenShared(s, p, First, Pair(1, 0));
      SharedStays(u, p, PLAIN);
      t := SharedStep(u, p, PLAIN);
      assert t == StepMakingDir(u, p, First, Pair(1, 0));
    }
  }

  /** Two references that share a count file: two processes activate them, each counts
      itself as the first and goes on to switch its volume on, and the file says one. */
  lemma SharedFileLosesUpdate(p: L.Pid, q: L.Pid, r: Ref, other: Ref) returns (s: State)
    requires p != q && ValidRef(r) && ValidRef(other) && r != other && FileKey(r) == FileKey(other)
    ensures SharedReachable(s) && FileOf(s, FileKey(r)) == Some(Counts(Pair(1, 0)))
    ensures ProcOf(s, p).pc == ProcOf(s, q).pc == WaitLvm(Lvchange)
    ensures ProcOf(s, p).call == Call(true, r, false) && ProcOf(s, q).call == Call(true, other, false)
  {
    s := Initial({});
    assert s == Run(Initial({}), []) == SharedRun(Initial({}), []);
    assert s.files == map[];
    hide Reachable, SharedReachable, Initial;
    var t := Enters(s, p, q, r, other);
    s := Enters(t, q, p, other, r);
    hide FileKey;
    t := ReadsNothing(s, p, q, r);
    s := ReadsNothing(t, q, p, other);
    t := WritesOne(s, p, q, r);
    s := WritesOne(t, q, p, other);
  }
}
