/** refresh_scsi_channel, from the point where the LUNs have been queried: stale LUNs
    go, changed ones are probed again, new ones are probed (sm/scsiutil.py:290-333). */
module LunRefresh {

  /** A LUN as the host knows it: whether it is under the root file system, and the
      SCSI id it was found with. */
  datatype Lun = Lun(root: bool, scsiId: string)

  datatype Command = Add(lun: nat) | Remove(lun: nat)

  /** li.remove(x): the first one goes. */
  function Without(li: seq<nat>, x: nat): (r: seq<nat>)
    ensures forall y :: y != x ==> (y in r <==> y in li)
    ensures forall y :: y in r ==> y in li
    ensures multiset(r) == multiset(li) - multiset{x}
  {
    if li == [] then []
    else
      assert li == [li[0]] + li[1..];
      if li[0] == x then li[1..] else [li[0]] + Without(li[1..], x)
  }

  /** What should be on the bus: the root devices as they are, and what the target
      reports, under the ids it has. */
  function Refreshed(present: map<nat, Lun>, reported: seq<nat>, scsiIds: map<nat, string>): map<nat, Lun>
    requires forall l :: l in reported ==> l in scsiIds
  {
    map l | l in present.Keys + (set i | 0 <= i < |reported| :: reported[i])
            && (l in reported || present[l].root)
         :: if l in present && present[l].root then present[l] else Lun(false, scsiIds[l])
  }

  /** The LUNs are those the target reports and the root's own; the root's are as they
      were, the others have the ids the target gives them; and to refresh again changes
      nothing. */
  lemma RefreshedIs(present: map<nat, Lun>, reported: seq<nat>, scsiIds: map<nat, string>)
    requires forall l :: l in reported ==> l in scsiIds
    ensures var r := Refreshed(present, reported, scsiIds);
            && (forall l :: l in r <==> l in reported || (l in present && present[l].root))
            && (forall l :: l in present && present[l].root ==> r[l] == present[l])
            && (forall l :: l in r && !(l in present && present[l].root) ==> r[l] == Lun(false, scsiIds[l]))
            && Refreshed(r, reported, scsiIds) == r
  {
    var r := Refreshed(present, reported, scsiIds);
    forall l ensures l in r <==> l in reported || (l in present && present[l].root) {
      if l in reported {
        var i :| 0 <= i < |reported| && reported[i] == l;
      }
    }
    var again := Refreshed(r, reported, scsiIds);
    forall l ensures l in again <==> l in r {
      if l in r && l in reported {
        var i :| 0 <= i < |reported| && reported[i] == l;
      }
    }
    assert forall l :: l in again ==> again[l] == r[l];
  }

  /** The state of the bus when the first `n` of the present LUNs have been looked at. */
  ghost predicate Half(was: map<nat, Lun>, now: map<nat, Lun>, reported: seq<nat>, scsiIds: map<nat, string>,
                       current: seq<nat>, n: nat)
    requires forall l :: l in reported ==> l in scsiIds
  {
    && (forall l :: l in now ==> l in was)
    && n <= |current|
    && forall l :: l in was ==> SettledOrOld(was, now, reported, scsiIds, l, l in current[..n])
  }

  ghost predicate SettledOrOld(was: map<nat, Lun>, now: map<nat, Lun>, reported: seq<nat>, scsiIds: map<nat, string>,
                               l: nat, seen: bool)
    requires l in was && forall x :: x in reported ==> x in scsiIds
  {
    if !seen || was[l].root then l in now && now[l] == was[l]
    else if l in reported then l in now && now[l] == Lun(false, scsiIds[l])
    else l !in now
  }

  class Bus {
    var present: map<nat, Lun>
    const ids: map<nat, string>     // the SCSI ids that the target's LUNs have
    var commands: seq<Command>

    constructor (luns: map<nat, Lun>, scsiIds: map<nat, string>)
      ensures present == luns && ids == scsiIds && commands == []
    {
      present, ids, commands := luns, scsiIds, [];
    }

    /** scsi_dev_ctrl */
    method Control(c: Command)
      modifies this
      ensures commands == old(commands) + [c]
      ensures present == match c
                         case Remove(l) => old(present) - {l}
                         case Add(l) => if l in old(present) || l !in ids then old(present)
                                        else old(present)[l := Lun(false, ids[l])]
    {
      match c {
        case Remove(l) =>
          present := present - {l};
        case Add(l) =>
          if l !in present && l in ids {
            present := present[l := Lun(false, ids[l])];
          }
      }
      commands := commands + [c];
    }

    /** Steps b for one present LUN; `li` is what the target reported and has not been seen. */
    method Settle(lun: nat, li: seq<nat>) returns (rest: seq<nat>)
      requires lun in present && (lun in li ==> lun in ids)
      modifies this
      ensures rest == Without(li, lun)
      ensures present - {lun} == old(present) - {lun}
      ensures Settled(old(present)[lun], present, ids, lun, lun in li)
      ensures old(present)[lun].root || (lun in li && old(present)[lun].scsiId == ids[lun]) ==>
                commands == old(commands)
      ensures !old(present)[lun].root && lun !in li ==> commands == old(commands) + [Remove(lun)]
      ensures !old(present)[lun].root && lun in li && old(present)[lun].scsiId != ids[lun] ==>
                commands == old(commands) + [Remove(lun), Command.Add(lun)]
    {
      hide Without;
      rest := Without(li, lun);
      if present[lun].root {
        // the root device is not touched
      } else if lun !in li {
        WithoutNothing(li, lun);
        Control(Remove(lun));
      } else if present[lun].scsiId != ids[lun] {
        Control(Remove(lun));
        Control(Command.Add(lun));
      }
    }

    /** Step c: what has been reported and not been seen is probed for. */
    method Probe(li: seq<nat>)
      requires forall l :: l in li ==> l in ids
      modifies this
      ensures Probed(old(present), present, ids, li)
      ensures |commands| == |old(commands)| + |li| && old(commands) <= commands
      ensures forall k :: 0 <= k < |li| ==> commands[|old(commands)| + k] == Command.Add(li[k])
    {
      var k := 0;
      while k < |li|
        invariant 0 <= k <= |li|
        invariant Probed(old(present), present, ids, li[..k])
        invariant |commands| == |old(commands)| + k && old(commands) <= commands
        invariant forall j :: 0 <= j < k ==> commands[|old(commands)| + j] == Command.Add(li[j])
      {
        assert li[..k + 1] == li[..k] + [li[k]];
        assert li[k] in li;
        Control(Command.Add(li[k]));
        k := k + 1;
      }
      assert li[..k] == li;
    }

    /** After the refresh the bus is as it should be, and no command has been given that was
        not needed: a LUN has been removed exactly when it was stale or changed, once, and
        added once if it changed, and once for each time it was reported and was not on the
        bus. The LUNs on the bus are looked at in any order, each once. */
    method Refresh(current: seq<nat>, reported: seq<nat>)
      requires forall i, j :: 0 <= i < j < |current| ==> current[i] != current[j]
      requires forall l :: l in current <==> l in present
      requires forall l :: l in reported ==> l in ids
      modifies this
      ensures present == Refreshed(old(present), reported, ids)
      ensures old(commands) <= commands
      ensures AllNeeded(old(present), reported, ids, commands[|old(commands)|..])
    {
      hide SettledOrOld, Settled, Probed, Half, Refreshed, Without, AllGiven, AllNeeded, CommandsFor,
           Remaining;
      var li := reported;
      var n := 0;
      ghost var was, given := present, [];
      FirstHalf(was, reported, ids, current);
      NothingGiven(was, reported, ids, current);
      RemainingFirst(reported, current);
      assert commands == old(commands) + given;
      while n < |current|
        invariant 0 <= n <= |current|
        invariant Half(was, present, reported, ids, current, n)
        invariant Remaining(li, reported, current, n)
        invariant commands == old(commands) + given && AllGiven(was, reported, ids, given, current, n)
      {
        var lun := current[n];
        assert lun in was && lun !in current[..n];
        ghost var before, done := present, commands;
        StillOld(was, present, reported, ids, current, n);
        StillReported(li, reported, current, n);
        RemainingNext(li, reported, current, n);
        li := Settle(lun, li);
        ghost var more := CommandsFor(was, reported, ids, lun);
        NeededFor(was, reported, ids, lun, done, commands);
        MoreCommands(was, reported, ids, current, n, given, more);
        assert commands == old(commands) + (given + more);
        given := given + more;
        NextHalf(was, before, present, reported, ids, current, n);
        n := n + 1;
      }
      ghost var half := present;
      LeftToProbe(li, reported, current);
      Probe(li);
      ghost var more := commands[|old(commands) + given|..];
      assert commands == old(commands) + (given + more);
      LastCommands(was, reported, ids, current, li, given, more);
      assert commands[|old(commands)|..] == given + more;
      LastHalf(was, half, present, reported, ids, current, li);
    }
  }

  lemma WithoutNothing(li: seq<nat>, x: nat)
    requires x !in li
    ensures Without(li, x) == li
  {
  }

  // ---- Which commands are given ----

  /** On the bus and not reported. */
  predicate Stale(was: map<nat, Lun>, reported: seq<nat>, l: nat) {
    l in was && !was[l].root && l !in reported
  }

  /** On the bus under another id than it has. */
  predicate Changed(was: map<nat, Lun>, reported: seq<nat>, scsiIds: map<nat, string>, l: nat) {
    l in was && !was[l].root && l in reported && l in scsiIds && was[l].scsiId != scsiIds[l]
  }

  /** How often a LUN is reported beyond what is on the bus. */
  function Missing(was: map<nat, Lun>, reported: seq<nat>, l: nat): nat {
    var n := multiset(reported)[l];
    if l in was && n > 0 then n - 1 else n
  }

  /** The commands for a LUN when it has been looked at, and before. */
  ghost predicate Given(was: map<nat, Lun>, reported: seq<nat>, scsiIds: map<nat, string>, cs: seq<Command>,
                        l: nat, seen: bool) {
    && multiset(cs)[Remove(l)]
       == (if seen && (Stale(was, reported, l) || Changed(was, reported, scsiIds, l)) then 1 else 0)
    && multiset(cs)[Command.Add(l)] == (if seen && Changed(was, reported, scsiIds, l) then 1 else 0)
  }

  /** A LUN is removed once exactly when it was stale or changed; it is added once when it
      changed, and for each time it was reported and was not there. */
  ghost predicate NeededCommands(was: map<nat, Lun>, reported: seq<nat>, scsiIds: map<nat, string>, cs: seq<Command>,
                                 l: nat) {
    && multiset(cs)[Remove(l)]
       == (if Stale(was, reported, l) || Changed(was, reported, scsiIds, l) then 1 else 0)
    && multiset(cs)[Command.Add(l)]
       == (if Changed(was, reported, scsiIds, l) then 1 else 0) + Missing(was, reported, l)
  }

  ghost predicate AllGiven(was: map<nat, Lun>, reported: seq<nat>, scsiIds: map<nat, string>, cs: seq<Command>,
                           current: seq<nat>, n: nat)
    requires n <= |current|
  {
    forall l :: Given(was, reported, scsiIds, cs, l, l in current[..n])
  }

  /** No command but those that are needed. */
  ghost predicate AllNeeded(was: map<nat, Lun>, reported: seq<nat>, scsiIds: map<nat, string>, cs: seq<Command>) {
    forall l :: NeededCommands(was, reported, scsiIds, cs, l)
  }

  ghost function CommandsFor(was: map<nat, Lun>, reported: seq<nat>, scsiIds: map<nat, string>, l: nat): seq<Command> {
    if Stale(was, reported, l) then [Remove(l)]
    else if Changed(was, reported, scsiIds, l) then [Remove(l), Command.Add(l)]
    else []
  }

  lemma NeededFor(was: map<nat, Lun>, reported: seq<nat>, scsiIds: map<nat, string>, l: nat,
                  before: seq<Command>, after: seq<Command>)
    requires l in was && (l in reported ==> l in scsiIds)
    requires was[l].root || (l in reported && was[l].scsiId == scsiIds[l]) ==> after == before
    requires !was[l].root && l !in reported ==> after == before + [Remove(l)]
    requires !was[l].root && l in reported && was[l].scsiId != scsiIds[l] ==>
               after == before + [Remove(l), Command.Add(l)]
    ensures after == before + CommandsFor(was, reported, scsiIds, l)
  {
  }

  lemma NothingGiven(was: map<nat, Lun>, reported: seq<nat>, scsiIds: map<nat, string>, current: seq<nat>)
    ensures AllGiven(was, reported, scsiIds, [], current, 0)
  {
  }

  /** One more LUN has been looked at. */
  lemma MoreCommands(was: map<nat, Lun>, reported: seq<nat>, scsiIds: map<nat, string>, current: seq<nat>, n: nat,
                     done: seq<Command>, more: seq<Command>)
    requires n < |current| && current[n] !in current[..n]
    requires AllGiven(was, reported, scsiIds, done, current, n)
    requires more == CommandsFor(was, reported, scsiIds, current[n])
    ensures AllGiven(was, reported, scsiIds, done + more, current, n + 1)
  {
    var seen := current[..n + 1];
    assert seen == current[..n] + [current[n]];
    assert multiset(done + more) == multiset(done) + multiset(more);
    forall l ensures Given(was, reported, scsiIds, done + more, l, l in seen) {
      assert Given(was, reported, scsiIds, done, l, l in current[..n]);
    }
  }

  /** What has been reported and not been seen. */
  ghost predicate Remaining(li: seq<nat>, reported: seq<nat>, current: seq<nat>, n: nat) {
    n <= |current| && multiset(li) == multiset(reported) - multiset(current[..n])
  }

  lemma RemainingFirst(reported: seq<nat>, current: seq<nat>)
    ensures Remaining(reported, reported, current, 0)
  {
  }

  lemma RemainingNext(li: seq<nat>, reported: seq<nat>, current: seq<nat>, n: nat)
    requires Remaining(li, reported, current, n) && n < |current|
    ensures Remaining(Without(li, current[n]), reported, current, n + 1)
  {
    hide Without;
    assert current[..n + 1] == current[..n] + [current[n]];
    TakeOneMore(multiset(reported), multiset(current[..n]), current[n]);
    assert multiset(Without(li, current[n])) == multiset(li) - multiset{current[n]};
  }

  lemma TakeOneMore(a: multiset<nat>, b: multiset<nat>, x: nat)
    ensures a - (b + multiset{x}) == (a - b) - multiset{x}
  {
  }

  /** A LUN that has not been looked at is still in the list if it has been reported. */
  lemma StillReported(li: seq<nat>, reported: seq<nat>, current: seq<nat>, n: nat)
    requires n < |current| && current[n] !in current[..n]
    requires Remaining(li, reported, current, n)
    ensures current[n] in li <==> current[n] in reported
  {
    var l := current[n];
    assert multiset(current[..n])[l] == 0;
    assert multiset(li)[l] == multiset(reported)[l];
    assert l in li <==> l in multiset(li);
    assert l in reported <==> l in multiset(reported);
  }

  lemma LeftToProbe(li: seq<nat>, reported: seq<nat>, current: seq<nat>)
    requires Remaining(li, reported, current, |current|)
    ensures forall l :: l in li ==> l in reported
    ensures forall l :: l in reported && l !in current ==> l in li
  {
    assert current[..|current|] == current;
    forall l ensures (l in li ==> l in reported) && (l in reported && l !in current ==> l in li) {
      assert l in li <==> multiset(li)[l] > 0;
      assert l in reported <==> multiset(reported)[l] > 0;
      assert l in current <==> multiset(current)[l] > 0;
    }
  }

  lemma {:induction false} AddsCounted(cs: seq<Command>, li: seq<nat>, l: nat)
    requires |cs| == |li| && forall k :: 0 <= k < |li| ==> cs[k] == Command.Add(li[k])
    ensures multiset(cs)[Command.Add(l)] == multiset(li)[l] && multiset(cs)[Remove(l)] == 0
  {
    if li != [] {
      AddsCounted(cs[1..], li[1..], l);
      assert cs == [cs[0]] + cs[1..] && li == [li[0]] + li[1..];
    }
  }

  lemma {:induction false} DistinctCounted(s: seq<nat>, l: nat)
    requires forall i, j :: 0 <= i < j < |s| ==> s[i] != s[j]
    ensures multiset(s)[l] == if l in s then 1 else 0
  {
    if s != [] {
      DistinctCounted(s[1..], l);
      assert s == [s[0]] + s[1..];
      assert s[0] !in s[1..];
    }
  }

  lemma LastCommands(was: map<nat, Lun>, reported: seq<nat>, scsiIds: map<nat, string>, current: seq<nat>,
                     li: seq<nat>, done: seq<Command>, more: seq<Command>)
    requires forall i, j :: 0 <= i < j < |current| ==> current[i] != current[j]
    requires forall x :: x in current <==> x in was
    requires AllGiven(was, reported, scsiIds, done, current, |current|)
    requires Remaining(li, reported, current, |current|)
    requires |more| == |li| && forall k :: 0 <= k < |li| ==> more[k] == Command.Add(li[k])
    ensures AllNeeded(was, reported, scsiIds, done + more)
  {
    assert multiset(done + more) == multiset(done) + multiset(more);
    assert current[..|current|] == current;
    forall l ensures NeededCommands(was, reported, scsiIds, done + more, l) {
      assert Given(was, reported, scsiIds, done, l, l in current[..|current|]);
      AddsCounted(more, li, l);
      DistinctCounted(current, l);
    }
  }

  /** What has become of one LUN that was present. */
  ghost predicate Settled(was: Lun, now: map<nat, Lun>, scsiIds: map<nat, string>, l: nat, reported: bool) {
    if was.root then l in now && now[l] == was
    else if reported then l in now && l in scsiIds && (now[l] == Lun(false, scsiIds[l]))
    else l !in now
  }

  /** Every LUN in the list is there now, and the others are as they were. */
  ghost predicate Probed(was: map<nat, Lun>, now: map<nat, Lun>, scsiIds: map<nat, string>, li: seq<nat>) {
    && (forall l :: l in now <==> l in was || l in li)
    && (forall l :: l in was ==> now[l] == was[l])
    && forall l :: l in now && l !in was ==> l in scsiIds && now[l] == Lun(false, scsiIds[l])
  }

  lemma FirstHalf(was: map<nat, Lun>, reported: seq<nat>, scsiIds: map<nat, string>, current: seq<nat>)
    requires forall l :: l in reported ==> l in scsiIds
    ensures Half(was, was, reported, scsiIds, current, 0)
  {
  }

  lemma StillOld(was: map<nat, Lun>, now: map<nat, Lun>, reported: seq<nat>, scsiIds: map<nat, string>,
                 current: seq<nat>, n: nat)
    requires forall l :: l in reported ==> l in scsiIds
    requires Half(was, now, reported, scsiIds, current, n) && n < |current|
    requires current[n] in was && current[n] !in current[..n]
    ensures current[n] in now && now[current[n]] == was[current[n]]
  {
    assert SettledOrOld(was, now, reported, scsiIds, current[n], false);
  }

  lemma NextHalf(was: map<nat, Lun>, before: map<nat, Lun>, now: map<nat, Lun>, reported: seq<nat>,
                 scsiIds: map<nat, string>, current: seq<nat>, n: nat)
    requires forall l :: l in reported ==> l in scsiIds
    requires n < |current| && current[n] in was
    requires Half(was, before, reported, scsiIds, current, n)
    requires Settled(was[current[n]], now, scsiIds, current[n], current[n] in reported)
    requires now - {current[n]} == before - {current[n]}
    ensures Half(was, now, reported, scsiIds, current, n + 1)
  {
    assert current[..n + 1] == current[..n] + [current[n]];
    forall l | l in now ensures l in was {
      assert l != current[n] ==> l in now - {current[n]};
    }
    forall l | l in was ensures SettledOrOld(was, now, reported, scsiIds, l, l in current[..n + 1]) {
      if l != current[n] {
        assert SettledOrOld(was, before, reported, scsiIds, l, l in current[..n]);
        assert l in now <==> l in now - {current[n]};
        assert l in before <==> l in before - {current[n]};
        assert l in now ==> now[l] == (now - {current[n]})[l] == before[l];
      }
    }
  }

  lemma LastHalf(was: map<nat, Lun>, half: map<nat, Lun>, now: map<nat, Lun>, reported: seq<nat>,
                 scsiIds: map<nat, string>, current: seq<nat>, li: seq<nat>)
    requires forall l :: l in reported ==> l in scsiIds
    requires Half(was, half, reported, scsiIds, current, |current|)
    requires forall l :: l in current <==> l in was
    requires forall l :: l in li ==> l in reported
    requires forall l :: l in reported && l !in current ==> l in li
    requires Probed(half, now, scsiIds, li)
    ensures now == Refreshed(was, reported, scsiIds)
  {
    assert current[..|current|] == current;
    var r := Refreshed(was, reported, scsiIds);
    forall l ensures l in now <==> l in r {
      if l in was {
        assert SettledOrOld(was, half, reported, scsiIds, l, true);
      }
    }
    forall l | l in now ensures now[l] == r[l] {
      if l in was {
        assert SettledOrOld(was, half, reported, scsiIds, l, true);
      }
    }
  }
}
