/** The directories of the count files: however calls interleave, one is there exactly while
    it has a file in it or a call is about to put one there or to remove it
    (sm/lock.py:137-192, 224-236). */
module Directories {
  import opened ActivationProtocol
  import opened ActivationProofs
  import opened ActivationTheorems
  import opened StaleCaches

  /** Between making a directory and putting a file into it, or between taking a file out and
      removing the directory. */
  predicate NeedsDir(pc: Pc) {
    pc.Opening? || pc.RemovingDir?
  }

  predicate HasFile(files: map<Ref, File>, ns: string) {
    exists r :: r in files && r.ns == ns
  }

  ghost predicate InUse(s: State, ns: string) {
    exists p :: p in s.procs && NeedsDir(s.procs[p].pc) && s.procs[p].call.ref.ns == ns
  }

  ghost predicate NoneLeft(s: State) {
    forall ns :: ns in s.dirs ==> HasFile(s.files, ns) || InUse(s, ns)
  }

  /** `p` has left the other namespaces alone, and its own directory with a use if it had to
      do with it. */
  predicate OnlyNeeded(s: State, t: State, p: L.Pid) {
    var ns := ProcOf(s, p).call.ref.ns;
    && (forall x :: x != ns && x in t.dirs ==> x in s.dirs)
    && (forall r: Ref :: r.ns != ns && r in s.files ==> r in t.files)
    && (NeedsDir(ProcOf(s, p).pc) || t.dirs != s.dirs || t.files.Keys != s.files.Keys
        ==> (ns in t.dirs ==> HasFile(t.files, ns) || NeedsDir(ProcOf(t, p).pc)))
  }

  /** A step of `p` that leaves every directory that is there with a file or a user. */
  lemma StillNeeded(s: State, t: State, p: L.Pid)
    requires NoneLeft(s) && OnlyMoves(s, t, p)
    requires OnlyNeeded(s, t, p)
    requires !ProcOf(s, p).pc.Idle? || !NeedsDir(ProcOf(t, p).pc)
    ensures NoneLeft(t)
  {
    hide HasFile;
    var ns := ProcOf(s, p).call.ref.ns;
    forall x | x in t.dirs ensures HasFile(t.files, x) || InUse(t, x) {
      if x == ns && (NeedsDir(ProcOf(s, p).pc) || t.dirs != s.dirs || t.files.Keys != s.files.Keys) {
        if NeedsDir(ProcOf(t, p).pc) {
          assert p in t.procs;
        }
      } else {
        assert x in s.dirs;
        if HasFile(s.files, x) {
          FileStays(s, t, x, ns);
        } else {
          var q :| q in s.procs && NeedsDir(s.procs[q].pc) && s.procs[q].call.ref.ns == x;
          assert q != p;
          assert q in t.procs && t.procs[q] == s.procs[q];
        }
      }
    }
  }

  lemma FileStays(s: State, t: State, x: string, ns: string)
    requires HasFile(s.files, x)
    requires forall r: Ref :: r.ns != ns && r in s.files ==> r in t.files
    requires x == ns ==> t.files.Keys == s.files.Keys
    ensures HasFile(t.files, x)
  {
    var r :| r in s.files && r.ns == x;
    assert r in s.files.Keys;
    assert r in t.files;
  }

  lemma StepKeepsNone(s: State, p: L.Pid, c: Choice)
    requires Inv(s) && NoneLeft(s)
    ensures NoneLeft(Step(s, p, c))
  {
    hide Inv, NoneLeft, OnlyMoves, OnlyNeeded;
    var pc := ProcOf(s, p).pc;
    OnlyOneMoves(s, p, c);
    if PhaseOf(pc).Some? {
      FilesNeeded(s, p, c);
    } else {
      FilesUntouched(s, p, c);
      UntouchedIsNeeded(s, Step(s, p, c), p);
    }
    StillNeeded(s, Step(s, p, c), p);
  }

  lemma UntouchedIsNeeded(s: State, t: State, p: L.Pid)
    requires t.files == s.files && t.dirs == s.dirs && !NeedsDir(ProcOf(s, p).pc)
    ensures OnlyNeeded(s, t, p)
  {
  }

  lemma FilesUntouched(s: State, p: L.Pid, c: Choice)
    requires PhaseOf(ProcOf(s, p).pc).None?
    ensures Step(s, p, c).files == s.files && Step(s, p, c).dirs == s.dirs
    ensures ProcOf(s, p).pc.Idle? ==> !NeedsDir(ProcOf(Step(s, p, c), p).pc)
  {
    hide Take, Drop, AfterLvs, AfterLvchange, Snapshot, LogOf, Finish;
  }

  lemma FilesNeeded(s: State, p: L.Pid, c: Choice)
    requires PhaseOf(ProcOf(s, p).pc).Some?
    ensures OnlyNeeded(s, Step(s, p, c), p)
    ensures !ProcOf(s, p).pc.Idle?
  {
    hide Step, OnlyNeeded;
    match ProcOf(s, p).pc
    case Unlinking(_) => TakesOut(s, p, c);
    case RemovingDir(_) => TakesOut(s, p, c);
    case _ => PutsIn(s, p, c);
  }

  lemma PutsIn(s: State, p: L.Pid, c: Choice)
    requires var pc := ProcOf(s, p).pc; pc.Reading? || pc.Opening? || pc.MakingDir? || pc.Filling?
    ensures OnlyNeeded(s, Step(s, p, c), p)
  {
    hide AfterUpdate, Computed, LogOf, FileOf;
    var r := ProcOf(s, p).call.ref;
    if r in Step(s, p, c).files {
      assert HasFile(Step(s, p, c).files, r.ns);
    }
  }

  lemma TakesOut(s: State, p: L.Pid, c: Choice)
    requires ProcOf(s, p).pc.Unlinking? || ProcOf(s, p).pc.RemovingDir?
    ensures OnlyNeeded(s, Step(s, p, c), p)
  {
    hide AfterUpdate, Computed, LogOf, FileOf;
  }

  lemma {:induction false} RunKeepsNone(s: State, turns: seq<Turn>)
    requires Inv(s) && NoneLeft(s)
    ensures NoneLeft(Run(s, turns))
    decreases turns
  {
    hide Inv, NoneLeft, Step;
    if turns != [] {
      StepKeepsInv(s, turns[0].pid, turns[0].choice);
      StepKeepsNone(s, turns[0].pid, turns[0].choice);
      RunKeepsNone(Step(s, turns[0].pid, turns[0].choice), turns[1..]);
    }
  }

  /** In every reachable state: no file without its directory, and no directory without a
      file but those that a call is at. When no call is, directories are exactly those of
      the counted references. */
  lemma DirectoriesAreNeeded(s: State, ns: string)
    requires Reachable(s)
    ensures HasFile(s.files, ns) ==> ns in s.dirs
    ensures ns in s.dirs && !InUse(s, ns) ==> HasFile(s.files, ns)
  {
    hide Inv;
    var origin, turns :| s == Run(Initial(origin), turns);
    InitialInv(origin);
    assert NoneLeft(Initial(origin));
    RunKeepsNone(Initial(origin), turns);
    RunKeepsInv(Initial(origin), turns);
    if HasFile(s.files, ns) {
      FileHasDir(s, ns);
    }
  }

  lemma FileHasDir(s: State, ns: string)
    requires Inv(s) && HasFile(s.files, ns)
    ensures ns in s.dirs
  {
    hide L.Inv, Local;
    var r :| r in s.files && r.ns == ns;
    assert RefInv(s, r);
  }
}
