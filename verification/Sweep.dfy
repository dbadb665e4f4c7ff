/** The accumulated record of an agent's process groups, updated in place by
    every snapshot cycle.
  */
module SweepRecords {
  import opened ProcessTable
  import opened SweepSpec
  import opened SweepWalk

  class Sweep {
    var groups: seq<GroupRecord>

    ghost predicate Valid()
      reads this
    {
      OneRecordEach(groups)
    }

    constructor ()
      ensures Valid() && groups == []
    {
      groups := [];
    }

    /** The position of the record for `pgid`, made now if there was none. */
    method Record(pgid: int, nowMs: int) returns (index: nat)
      requires Valid()
      modifies this
      ensures Valid() && index < |groups| && groups[index].pgid == pgid
      ensures index == Position(old(groups), pgid)
      ensures groups == if index < |old(groups)| then old(groups) else old(groups) + [NewRecord(pgid, nowMs)]
    {
      index := 0;
      while index < |groups| && groups[index].pgid != pgid
        invariant 0 <= index <= |groups|
        invariant groups == old(groups)
        invariant forall k :: 0 <= k < index ==> groups[k].pgid != pgid
      {
        index := index + 1;
      }
      if index == |groups| {
        groups := groups + [NewRecord(pgid, nowMs)];
      }
    }

    /** Fold a newer observation in: the earliest sighting, the latest proof,
        the first witness. */
    method Merge(other: seq<GroupRecord>)
      requires Valid()
      modifies this
      ensures Valid()
      ensures groups == Merged(old(groups), other)
    {
      assert other[..0] == [];
      for i := 0 to |other|
        invariant Valid()
        invariant groups == Merged(old(groups), other[..i])
      {
        ghost var before := groups;
        var group := other[i];
        var p := Record(group.pgid, group.firstSeenMs);
        var existing := groups[p];
        existing := existing.(firstSeenMs := Min(existing.firstSeenMs, group.firstSeenMs));
        existing := existing.(provenMs := Max(existing.provenMs, group.provenMs));
        if existing.witnessPid == 0 {
          existing := existing.(witnessPid := group.witnessPid, witnessStartedMs := group.witnessStartedMs);
        }
        groups := groups[p := existing];
        assert groups == MergedOne(before, group);
        assert other[..i + 1][..i] == other[..i];
      }
      assert other[..|other|] == other;
    }

    /** Re-prove every group that can be, and record when. */
    method Confirm(table: seq<ProcEntry>, nowMs: int)
      requires Valid()
      modifies this
      ensures Valid()
      ensures groups == Confirmed(old(groups), table, nowMs)
    {
      for i := 0 to |groups|
        invariant |groups| == |old(groups)|
        invariant forall k :: 0 <= k < i ==> groups[k] == ConfirmedOne(old(groups)[k], table, nowMs)
        invariant forall k :: i <= k < |groups| ==> groups[k] == old(groups)[k]
      {
        if Owns(groups[i], table, nowMs) {
          groups := groups[i := groups[i].(provenMs := Max(groups[i].provenMs, nowMs))];
        }
      }
    }

    /** Drop the groups that can no longer be proved, then the oldest beyond the cap. */
    method Prune(table: seq<ProcEntry>, nowMs: int)
      requires Valid()
      modifies this
      ensures Valid()
      ensures groups == Pruned(old(groups), table, nowMs)
    {
      var kept: seq<GroupRecord> := [];
      assert groups[..0] == [];
      for i := 0 to |groups|
        invariant groups == old(groups)
        invariant kept == Owned(groups[..i], table, nowMs)
      {
        assert groups[..i + 1][..i] == groups[..i];
        if Owns(groups[i], table, nowMs) {
          kept := kept + [groups[i]];
        }
      }
      assert groups[..|groups|] == groups;
      OwnedOneRecordEach(groups, table, nowMs);
      groups := kept;
      if |groups| > MAX_GROUPS {
        var excess := |groups| - MAX_GROUPS;
        groups := groups[excess..];
      }
    }

    /** One snapshot cycle against a table read at `readMs`. */
    method Refresh(scope: WalkScope, table: seq<ProcEntry>, readMs: int) returns (walk: seq<GroupRecord>)
      requires Valid()
      modifies this
      ensures Valid()
      ensures scope.rootPid <= 0 || table == [] ==> groups == old(groups)
      ensures scope.rootPid > 0 && table != [] ==>
                && SoundWalk(walk, table, scope, readMs)
                && (DistinctPids(table) ==> CompleteWalk(walk, table, scope, readMs))
                && groups == Refreshed(old(groups), walk, table, readMs)
    {
      walk := [];
      if scope.rootPid <= 0 || table == [] {
        return;
      }
      walk := SweepTargets(table, scope, readMs);
      Merge(walk);
      Confirm(table, readMs);
      Prune(table, readMs);
    }

    /** Of the groups on record, the ones a signal may go to. */
    method SurvivingGroups(table: seq<ProcEntry>, readMs: int) returns (ids: seq<int>)
      ensures ids == GroupsToKill(groups, table, readMs)
      ensures OneRecordEach(groups) ==> ProvedIds(ids, groups, table, readMs)
    {
      var owned: seq<GroupRecord> := [];
      assert groups[..0] == [];
      for i := 0 to |groups|
        invariant owned == Owned(groups[..i], table, readMs)
      {
        assert groups[..i + 1][..i] == groups[..i];
        if Owns(groups[i], table, readMs) {
          owned := owned + [groups[i]];
        }
      }
      assert groups[..|groups|] == groups;
      ids := seq(|owned|, i requires 0 <= i < |owned| => owned[i].pgid);
      if OneRecordEach(groups) {
        KillsTheProved(groups, table, readMs);
      }
    }

    /** The groups a stop signals: those of a walk taken now and those on record,
        as far as the table proves them. */
    method StopTargets(scope: WalkScope, table: seq<ProcEntry>, readMs: int)
      returns (ids: seq<int>, walk: seq<GroupRecord>)
      requires Valid()
      ensures SoundWalk(walk, table, scope, readMs)
      ensures DistinctPids(table) ==> CompleteWalk(walk, table, scope, readMs)
      ensures ids == GroupsToKill(Merged(walk, groups), table, readMs)
      ensures ProvedIds(ids, Merged(walk, groups), table, readMs)
      ensures forall w :: w in walk ==> w.pgid in ids
    {
      walk := SweepTargets(table, scope, readMs);
      SoundWalkIsFresh(walk, table, scope, readMs);
      var sweep := new Sweep();
      sweep.groups := walk;
      sweep.Merge(groups);
      ids := sweep.SurvivingGroups(table, readMs);
      forall w | w in walk
        ensures w.pgid in ids
      {
        var i :| 0 <= i < |walk| && walk[i] == w;
        MergingKeepsWitness(walk, groups, i);
        SameWitness(Merged(walk, groups)[i], w, table, readMs);
        assert Merged(walk, groups)[i] in Merged(walk, groups);
      }
    }
  }
}
