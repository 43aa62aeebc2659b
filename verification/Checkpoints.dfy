/** The accounting of the control path and multipath tests: checkpoints against their
    total, and the result that is reported (StorageHandlerUtil.py:417-439, 606-679;
    StorageHandler.py:56-62, 245-454, 2885-2953). What the steps do is left open; only
    whether they get through is known. */
module Checkpoints {

  const ITERATIONS := 10
  const PLUG_COUNT := 10

  /** create(): an exception, or its first result and whether there is an SR. */
  datatype Created = Raised | Returned(ok: bool, sr: bool)

  predicate Made(c: Created) {
    c.Returned? && c.ok
  }

  /** One creation, the rounds of unplugging and plugging, one destruction. */
  datatype Iteration = Iteration(create: Created, plugs: seq<bool>, destroyed: bool)

  /** The steps of perform_sr_control_path_tests: VDI and VBD, timing, zeroing. */
  datatype SpaceTest = SpaceTest(vdi: bool, timed: bool, zeroed: bool)

  /** The steps for one version of NFS. */
  datatype Version = Version(iterations: seq<Iteration>, create: Created, space: SpaceTest, cleanup: bool)

  predicate AllPlugged(plugs: seq<bool>) {
    forall i :: 0 <= i < |plugs| ==> plugs[i]
  }

  predicate GoesThrough(it: Iteration) {
    Made(it.create) && AllPlugged(it.plugs) && it.destroyed
  }

  predicate SpaceIsFine(s: SpaceTest) {
    s.vdi && s.timed && s.zeroed
  }

  /** Every step of the version got through, the last cleaning up too. */
  predicate AllFine(v: Version) {
    && (forall i :: 0 <= i < |v.iterations| ==> GoesThrough(v.iterations[i]))
    && Made(v.create) && v.create.sr && SpaceIsFine(v.space) && v.cleanup
  }

  /** No exception: a round of plugging that fails does not raise one. */
  predicate NoException(v: Version) {
    && (forall i :: 0 <= i < |v.iterations| ==> Made(v.iterations[i].create) && v.iterations[i].destroyed)
    && Made(v.create) && SpaceIsFine(v.space)
  }

  predicate Shaped(v: Version) {
    |v.iterations| == ITERATIONS && forall i :: 0 <= i < ITERATIONS ==> |v.iterations[i].plugs| == PLUG_COUNT
  }

  // ---- Checkpoints, step by step ----

  function One(reached: bool): nat {
    if reached then 1 else 0
  }

  /** The rounds before the first that fails. */
  function Rounds(plugs: seq<bool>): (n: nat)
    ensures n <= |plugs| && AllPlugged(plugs[..n]) && (n < |plugs| ==> !plugs[n])
  {
    if plugs == [] || !plugs[0] then 0
    else
      var n := Rounds(plugs[1..]);
      assert forall i :: 0 <= i < n + 1 ==> i == 0 || plugs[i] == plugs[1..][..n][i - 1];
      n + 1
  }

  lemma {:induction false} RoundsAre(plugs: seq<bool>, n: nat)
    requires n <= |plugs| && AllPlugged(plugs[..n]) && (n < |plugs| ==> !plugs[n])
    ensures Rounds(plugs) == n
  {
    if n > 0 {
      assert plugs[..n][0];
      var rest := plugs[1..][..n - 1];
      forall i | 0 <= i < n - 1 ensures rest[i] {
        assert plugs[..n][i + 1];
      }
      RoundsAre(plugs[1..], n - 1);
    }
  }

  /** One for the creation, one for each round, one for the destruction. */
  function Reached(it: Iteration): nat {
    if Made(it.create) then 1 + Rounds(it.plugs) + One(it.destroyed) else 0
  }

  function ReachedIn(its: seq<Iteration>, n: nat): nat
    requires n <= |its|
  {
    if n == 0 then 0 else ReachedIn(its, n - 1) + Reached(its[n - 1])
  }

  /** The iterations up to the first that raises an exception, which is begun as well. */
  ghost predicate BegunAre(its: seq<Iteration>, begun: nat, raised: bool) {
    && begun <= |its|
    && (forall i :: 0 <= i < begun - One(raised) ==> Made(its[i].create) && its[i].destroyed)
    && if raised then begun > 0 && !(Made(its[begun - 1].create) && its[begun - 1].destroyed) else begun == |its|
  }

  function BegunIn(its: seq<Iteration>): (n: nat)
    ensures n <= |its|
  {
    if its == [] then 0
    else if Made(its[0].create) && its[0].destroyed then 1 + BegunIn(its[1..])
    else 1
  }

  predicate RaisedIn(its: seq<Iteration>) {
    exists i :: 0 <= i < |its| && !(Made(its[i].create) && its[i].destroyed)
  }

  lemma {:induction false} BegunIs(its: seq<Iteration>, begun: nat, raised: bool)
    requires BegunAre(its, begun, raised)
    ensures begun == BegunIn(its) && raised == RaisedIn(its)
  {
    if its != [] && Made(its[0].create) && its[0].destroyed {
      assert begun > 0;
      BegunIs(its[1..], begun - 1, raised);
      assert raised ==> !(Made(its[begun - 1].create) && its[begun - 1].destroyed);
    } else if its != [] {
      assert begun == 1;
    }
  }

  /** Whether there is an SR after the last creation that returned. */
  function SrAfter(its: seq<Iteration>, n: nat, hadSr: bool): bool
    requires n <= |its|
  {
    if n == 0 then hadSr
    else match its[n - 1].create
      case Raised => SrAfter(its, n - 1, hadSr)
      case Returned(_, sr) => sr
  }

  /** plug_and_unplug_pbds: the rounds before the first that raises an exception. */
  method PlugAndUnplugPbds(plugs: seq<bool>) returns (checkpoint: nat)
    ensures checkpoint <= |plugs| && AllPlugged(plugs[..checkpoint])
    ensures checkpoint < |plugs| ==> !plugs[checkpoint]
    ensures checkpoint == |plugs| <==> AllPlugged(plugs)
    ensures checkpoint == Rounds(plugs)
  {
    checkpoint := 0;
    for j := 0 to |plugs|
      invariant checkpoint == j && AllPlugged(plugs[..j])
    {
      if !plugs[j] {
        break;
      }
      checkpoint := checkpoint + 1;
    }
    assert plugs[..|plugs|] == plugs;
    RoundsAre(plugs, checkpoint);
  }

  /** perform_sr_control_path_tests */
  method PerformSrControlPathTests(s: SpaceTest) returns (checkpoint: nat, retval: bool)
    ensures checkpoint <= 3 && (retval <==> checkpoint == 3) && (retval <==> SpaceIsFine(s))
    ensures checkpoint == if s.vdi then 2 + One(s.timed && s.zeroed) else 0
  {
    checkpoint, retval := 0, true;
    if !s.vdi {
      retval := false;
    } else {
      checkpoint := checkpoint + 2;
      if !s.timed || !s.zeroed {
        retval := false;
      } else {
        checkpoint := checkpoint + 1;
      }
    }
  }

  /** The iterations of one version: how many were begun, and how many checkpoints they
      gave. */
  method RunIterations(its: seq<Iteration>, hadSr: bool)
    returns (begun: nat, gained: nat, raised: bool, sr: bool)
    requires forall i :: 0 <= i < |its| ==> |its[i].plugs| == PLUG_COUNT
    ensures begun <= |its| && gained <= 12 * begun
    ensures raised <==> exists i :: 0 <= i < |its| && !(Made(its[i].create) && its[i].destroyed)
    ensures raised ==> begun > 0 && gained < 12 * begun
    ensures !raised ==> begun == |its|
    ensures gained == 12 * |its| <==> forall i :: 0 <= i < |its| ==> GoesThrough(its[i])
    ensures BegunAre(its, begun, raised) && gained == ReachedIn(its, begun) && sr == SrAfter(its, begun, hadSr)
  {
    hide Rounds;
    begun, gained, raised, sr := 0, 0, false, hadSr;
    while begun < |its|
      invariant begun <= |its| && gained <= 12 * begun && !raised
      invariant forall i :: 0 <= i < begun ==> Made(its[i].create) && its[i].destroyed
      invariant gained == 12 * begun <==> forall i :: 0 <= i < begun ==> GoesThrough(its[i])
      invariant gained == ReachedIn(its, begun) && sr == SrAfter(its, begun, hadSr)
    {
      var it := its[begun];
      begun := begun + 1;
      if it.create.Raised? {
        raised := true;
        return;
      }
      sr := it.create.sr;
      if !it.create.ok {
        raised := true;
        return;
      }
      gained := gained + 1;
      var plugged := PlugAndUnplugPbds(it.plugs);
      gained := gained + plugged;
      if !it.destroyed {
        raised := true;
        return;
      }
      gained := gained + 1;
    }
  }

  /** control_path_stress_tests for NFS. The count is complete exactly when every step
      of every version got through; the result speaks for the last version only. */
  method NfsControlPathStressTests(versions: seq<Version>) returns (retval: bool, checkpoint: nat, total: nat)
    requires forall i :: 0 <= i < |versions| ==> Shaped(versions[i])
    ensures checkpoint <= total
    ensures checkpoint == total <==> forall i :: 0 <= i < |versions| ==> AllFine(versions[i])
    ensures (forall i :: 0 <= i < |versions| ==> NoException(versions[i])) ==> total == 125 * |versions|
    ensures retval <==> versions == [] || NoException(versions[|versions| - 1])
    ensures checkpoint == GainIn(versions, |versions|) && total == TotalIn(versions, |versions|)
  {
    hide AllFine, NoException, SpaceIsFine, GainOf, SrOf, BegunIn;
    var sr := false;
    retval, checkpoint, total := true, 0, 0;
    for n := 0 to |versions|
      invariant checkpoint <= total
      invariant checkpoint == total <==> forall i :: 0 <= i < n ==> AllFine(versions[i])
      invariant (forall i :: 0 <= i < n ==> NoException(versions[i])) ==> total == 125 * n
      invariant retval <==> n == 0 || NoException(versions[n - 1])
      invariant checkpoint == GainIn(versions, n) && total == TotalIn(versions, n) && sr == SrBefore(versions, n)
    {
      var gained, expected;
      retval, gained, expected, sr := OneVersion(versions[n], sr);
      checkpoint, total := checkpoint + gained, total + expected;
    }
  }

  /** Whether there is an SR when a version is done with. */
  function SrOf(v: Version, hadSr: bool): bool {
    if !RaisedIn(v.iterations) && v.create.Returned? then v.create.sr
    else SrAfter(v.iterations, BegunIn(v.iterations), hadSr)
  }

  /** What one version adds: its iterations, the SR that is created afterwards, the three
      checkpoints of the space test when all of it gets through, and the cleaning up of
      whatever SR there is. */
  function GainOf(v: Version, hadSr: bool): nat {
    ReachedIn(v.iterations, BegunIn(v.iterations))
    + (if !RaisedIn(v.iterations) && Made(v.create) then 1 + 3 * One(SpaceIsFine(v.space)) else 0)
    + One(SrOf(v, hadSr) && v.cleanup)
  }

  /** There is no SR at the start. */
  function SrBefore(versions: seq<Version>, n: nat): bool
    requires n <= |versions|
  {
    n > 0 && SrOf(versions[n - 1], SrBefore(versions, n - 1))
  }

  function GainIn(versions: seq<Version>, n: nat): nat
    requires n <= |versions|
  {
    if n == 0 then 0 else GainIn(versions, n - 1) + GainOf(versions[n - 1], SrBefore(versions, n - 1))
  }

  function TotalIn(versions: seq<Version>, n: nat): nat
    requires n <= |versions|
  {
    if n == 0 then 0 else TotalIn(versions, n - 1) + 5 + 12 * BegunIn(versions[n - 1].iterations)
  }

  /** The body of the loop over versions. */
  method OneVersion(v: Version, hadSr: bool) returns (retval: bool, gained: nat, expected: nat, sr: bool)
    requires Shaped(v)
    ensures gained <= expected
    ensures gained == expected <==> AllFine(v)
    ensures NoException(v) ==> expected == 125
    ensures retval <==> NoException(v)
    ensures gained == GainOf(v, hadSr) && expected == 5 + 12 * BegunIn(v.iterations) && sr == SrOf(v, hadSr)
  {
    hide BegunIn, RaisedIn, ReachedIn, SrAfter;
    var begun, raised;
    begun, gained, raised, sr := RunIterations(v.iterations, hadSr);
    BegunIs(v.iterations, begun, raised);
    expected := 5 + (2 + PLUG_COUNT) * begun;
    retval := !raised;
    if !raised {
      if v.create.Raised? {
        retval := false;
      } else {
        sr := v.create.sr;
        if !v.create.ok {
          retval := false;
        } else {
          gained := gained + 1;
          var delta;
          delta, retval := PerformSrControlPathTests(v.space);
          if retval {
            gained := gained + delta;
          }
        }
      }
    }
    if sr && v.cleanup {
      gained := gained + 1;
    }
  }

  // ---- Multipathing ----

  datatype Copy = CopyFails | CopySlow | CopyQuick

  /** One failover and one restoration. */
  datatype Round = Round(blocked: bool, copies: bool, failedOver: bool, unblocked: bool, restored: bool)

  /** The steps of the test. `configured` is all that comes before the SR is created, and
      `ready` what comes between the path status and the VDI, the count of paths with it. */
  datatype Multipath = Multipath(
    configured: bool, create: Created, pathStatus: bool, ready: bool, vdi: bool, copy: Copy, rounds: seq<Round>,
    cleanup: bool)

  predicate FailsOver(r: Round) {
    r.blocked && r.copies && r.failedOver
  }

  predicate RoundIsFine(r: Round) {
    FailsOver(r) && r.unblocked && r.restored
  }

  predicate SetUp(m: Multipath) {
    m.configured && Made(m.create) && m.ready && m.vdi
  }

  /** No exception: neither unreadable path status nor a slow copy raises one. */
  predicate MultipathRuns(m: Multipath) {
    SetUp(m) && !m.copy.CopyFails? && forall i :: 0 <= i < |m.rounds| ==> RoundIsFine(m.rounds[i])
  }

  predicate MultipathFine(m: Multipath) {
    MultipathRuns(m) && m.pathStatus && m.copy.CopyQuick? && m.cleanup
  }

  /** The rounds of the test, each with two more checkpoints to reach. */
  method RunRounds(rounds: seq<Round>) returns (begun: nat, gained: nat, raised: bool)
    ensures begun <= |rounds| && gained <= 2 * begun
    ensures raised <==> exists i :: 0 <= i < |rounds| && !RoundIsFine(rounds[i])
    ensures raised ==> gained < 2 * begun
    ensures !raised ==> begun == |rounds| && gained == 2 * begun
    ensures raised ==>
              && begun > 0 && (forall i :: 0 <= i < begun - 1 ==> RoundIsFine(rounds[i]))
              && !RoundIsFine(rounds[begun - 1]) && gained == 2 * (begun - 1) + One(FailsOver(rounds[begun - 1]))
  {
    begun, gained, raised := 0, 0, false;
    while begun < |rounds|
      invariant begun <= |rounds| && gained == 2 * begun && !raised
      invariant forall i :: 0 <= i < begun ==> RoundIsFine(rounds[i])
    {
      var r := rounds[begun];
      begun := begun + 1;
      if !FailsOver(r) {
        raised := true;
        return;
      }
      gained := gained + 1;
      if !r.unblocked || !r.restored {
        raised := true;
        return;
      }
      gained := gained + 1;
    }
  }

  /** The rounds up to the first that fails, which is begun as well. */
  ghost predicate RoundsBegun(rounds: seq<Round>, begun: nat) {
    && begun <= |rounds|
    && (forall i :: 0 <= i < begun - 1 ==> RoundIsFine(rounds[i]))
    && (begun < |rounds| ==> begun > 0 && !RoundIsFine(rounds[begun - 1]))
  }

  /** Two for each round but the last, which may have come to its failover only. */
  function RoundsReached(rounds: seq<Round>, begun: nat): nat
    requires begun <= |rounds|
  {
    if begun == 0 then 0
    else
      var last := rounds[begun - 1];
      2 * (begun - 1) + if RoundIsFine(last) then 2 else One(FailsOver(last))
  }

  /** mp_config_verification_tests: the count is complete exactly when every failover and
      every restoration succeeded and so did all the rest. */
  method MpConfigVerificationTests(m: Multipath) returns (retval: bool, checkpoint: nat, total: nat)
    ensures checkpoint <= total <= 6 + 2 * |m.rounds|
    ensures checkpoint == total <==> MultipathFine(m)
    ensures MultipathFine(m) ==> total == 6 + 2 * |m.rounds|
    ensures retval <==> MultipathRuns(m)
    ensures !(m.configured && Made(m.create)) ==> total == 6 && checkpoint == One(m.cleanup)
    ensures m.configured && Made(m.create) && !(m.ready && m.vdi) ==>
              total == 6 && checkpoint == 1 + One(m.pathStatus) + One(m.cleanup)
    ensures SetUp(m) && m.copy.CopyFails? ==> total == 6 && checkpoint == 3 + One(m.pathStatus) + One(m.cleanup)
    ensures SetUp(m) && !m.copy.CopyFails? ==>
              exists begun: nat :: RoundsBegun(m.rounds, begun) && total == 6 + 2 * begun
                && checkpoint == 3 + One(m.pathStatus) + One(m.copy.CopyQuick?) + RoundsReached(m.rounds, begun)
                                 + One(m.cleanup)
  {
    retval, checkpoint, total := true, 0, 6;
    if !m.configured || !Made(m.create) {
      retval := false;
    } else {
      checkpoint := checkpoint + 1;
      if m.pathStatus {
        checkpoint := checkpoint + 1;
      }
      if !m.ready || !m.vdi {
        retval := false;
      } else {
        checkpoint := checkpoint + 2;
        if m.copy.CopyFails? {
          retval := false;
        } else {
          if m.copy.CopyQuick? {
            checkpoint := checkpoint + 1;
          }
          var begun, gained, raised := RunRounds(m.rounds);
          assert RoundsBegun(m.rounds, begun) && gained == RoundsReached(m.rounds, begun);
          checkpoint, total := checkpoint + gained, total + 2 * begun;
          retval := !raised;
        }
      }
    }
    if m.cleanup {
      checkpoint := checkpoint + 1;
    }
  }
}
