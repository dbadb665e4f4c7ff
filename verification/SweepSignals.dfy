/** What is reached by the signals that follow a table, as long as the ids it
    shows are not given out again: the groups of the CLI's descendants alone.
  */
module SweepSignals {
  import opened Options
  import opened ProcessTable
  import opened SweepSpec
  import opened SweepWalk
  import opened OsRun
  import opened SweepSafety

  /** Until `CLOCK_SLACK_MS` after the read, no process forked after a row of the
      table is given the group id it shows. */
  ghost predicate GroupIdsKept(run: seq<Os>, snap: Snapshot) {
    forall k, j :: 0 <= k < |snap.sightings| ==> GroupIdKept(run, snap, k, j)
  }

  predicate GroupIdKept(run: seq<Os>, snap: Snapshot, k: nat, j: int)
    requires k < |snap.sightings|
  {
    var at, g := snap.sightings[k].at, snap.sightings[k].entry.pgid;
    at <= j < |run| && g in run[j].procs && run[at].nextUid <= run[j].procs[g].uid ==>
      snap.readMs + CLOCK_SLACK_MS < run[j].procs[g].start
  }

  /** Nothing goes by `g`, as a group or as a process, but incarnation `inc`. */
  predicate OnlyBy(s: Os, g: int, inc: nat) {
    && (forall p :: p in s.procs && s.procs[p].pgid == g ==> s.procs[p].inc == inc)
    && (g in s.procs ==> s.procs[g].uid == inc)
  }

  lemma {:induction false} StepKeepsOnlyBy(s: Os, step: OsStep, g: int, inc: nat)
    requires Allowed(s, step) && OnlyBy(s, g, inc) && !(step.Fork? && step.child == g)
    ensures OnlyBy(After(s, step), g, inc)
  {
    var s' := After(s, step);
    forall p | p in s'.procs && s'.procs[p].pgid == g
      ensures s'.procs[p].inc == inc
    {
      assert step.Exit? ==> p in s.procs && s'.procs[p].pgid == s.procs[p].pgid && s'.procs[p].inc == s.procs[p].inc;
    }
  }

  lemma {:induction false} UidsGrow(run: seq<Os>, i: nat, j: nat)
    requires IsRun(run) && i <= j < |run|
    ensures run[i].nextUid <= run[j].nextUid
    decreases j
  {
    if i < j {
      UidsGrow(run, i, j - 1);
      assert StepOf(run[j - 1], run[j - 1 + 1]);
    }
  }

  /** From an instant `i` no earlier than a row that shows `g`, the id means the
      same group until `CLOCK_SLACK_MS` after the read. */
  lemma {:induction false} OnlyByUntil(run: seq<Os>, snap: Snapshot, l: nat, i: nat, j: nat, inc: nat)
    requires IsRun(run) && GroupIdsKept(run, snap) && l < |snap.sightings|
    requires snap.sightings[l].at <= i <= j < |run| && run[j].now <= snap.readMs + CLOCK_SLACK_MS
    requires Names(run[i], snap.sightings[l].entry.pgid, inc)
    ensures OnlyBy(run[j], snap.sightings[l].entry.pgid, inc)
    decreases j
  {
    var g, at := snap.sightings[l].entry.pgid, snap.sightings[l].at;
    if i == j {
      RunIsCoherent(run, i);
    } else {
      TimeMovesForward(run, j - 1, j);
      OnlyByUntil(run, snap, l, i, j - 1, inc);
      NextInRun(run, j);
      UidsGrow(run, at, j - 1);
      assert GroupIdKept(run, snap, l, j);
      NextKeepsOnlyBy(run[j - 1], run[j], g, inc);
    }
  }

  /** One step keeps an id to its incarnation unless it forks a process of that pid. */
  lemma {:induction false} NextKeepsOnlyBy(s: Os, s': Os, g: int, inc: nat)
    requires Coherent(s) && StepOf(s, s') && OnlyBy(s, g, inc)
    requires g in s'.procs && s.nextUid <= s'.procs[g].uid ==> s'.procs[g].start != s.now
    ensures OnlyBy(s', g, inc)
  {
    var step :| Allowed(s, step) && s' == After(s, step);
    StepKeepsOnlyBy(s, step, g, inc);
  }

  ghost predicate OnlyByFrom(run: seq<Os>, g: int, inc: nat, i: nat, readMs: int) {
    forall j :: i <= j < |run| && run[j].now <= readMs + CLOCK_SLACK_MS ==> OnlyBy(run[j], g, inc)
  }

  /** A signal to `g` sent no later than `CLOCK_SLACK_MS` after the read finds
      nothing but one group, which a walk adopted and a descendant of the CLI led. */
  ghost predicate ReachesOnlyDescendants(run: seq<Os>, hist: seq<Cycle>, cli: nat, g: int, readMs: int) {
    exists i: nat, inc: nat ::
      SafeFrom(run, hist, g, readMs, i, inc) && Descends(run, cli, inc) && OnlyByFrom(run, g, inc, i, readMs)
  }

  lemma {:induction false} OwnedReachesOnlyDescendants(
    run: seq<Os>, hist: seq<Cycle>, groups: seq<GroupRecord>, snap: Snapshot, cli: nat)
    requires GoodHistory(run, hist) && AllWatchCli(run, hist, cli) && AllBacked(run, hist, groups)
    requires GoodSnapshot(run, snap) && GroupIdsKept(run, snap)
    ensures forall g :: g in GroupsToKill(groups, Table(snap), snap.readMs) ==>
              ReachesOnlyDescendants(run, hist, cli, g, snap.readMs)
  {
    var owned := Owned(groups, Table(snap), snap.readMs);
    OwnedMembers(groups, Table(snap), snap.readMs);
    forall g | g in GroupsToKill(groups, Table(snap), snap.readMs)
      ensures ReachesOnlyDescendants(run, hist, cli, g, snap.readMs)
    {
      var q :| 0 <= q < |owned| && owned[q].pgid == g;
      assert owned[q] in owned;
      RecordReachesOnlyDescendants(run, hist, owned[q], snap, cli);
    }
  }

  lemma {:induction false} RecordReachesOnlyDescendants(
    run: seq<Os>, hist: seq<Cycle>, r: GroupRecord, snap: Snapshot, cli: nat)
    requires GoodHistory(run, hist) && AllWatchCli(run, hist, cli) && Backed(run, hist, r)
    requires GoodSnapshot(run, snap) && GroupIdsKept(run, snap) && Owns(r, Table(snap), snap.readMs)
    ensures ReachesOnlyDescendants(run, hist, cli, r.pgid, snap.readMs)
  {
    var i, inc := OwnedRecordIsSafe(run, hist, r, snap);
    AdoptedDescends(run, hist, cli, r.pgid, inc);
    var l :| 0 <= l < |snap.sightings| && snap.sightings[l].entry.pgid == r.pgid && snap.sightings[l].at <= i;
    forall j | i <= j < |run| && run[j].now <= snap.readMs + CLOCK_SLACK_MS
      ensures OnlyBy(run[j], r.pgid, inc)
    {
      OnlyByUntil(run, snap, l, i, j, inc);
    }
  }

  /** Over every run and every history of cycles of one CLI: whatever a teardown's
      signals reach belongs to groups led by descendants of that CLI. */
  lemma {:induction false} TeardownSignalsOnlyDescendants(run: seq<Os>, hist: seq<Cycle>, snap: Snapshot, cli: nat)
    requires GoodHistory(run, hist) && AllWatchCli(run, hist, cli)
    requires GoodSnapshot(run, snap) && GroupIdsKept(run, snap)
    ensures forall g :: g in GroupsToKill(RecordsAfter(hist), Table(snap), snap.readMs) ==>
              ReachesOnlyDescendants(run, hist, cli, g, snap.readMs)
  {
    RecordsAreBacked(run, hist);
    OwnedReachesOnlyDescendants(run, hist, RecordsAfter(hist), snap, cli);
  }

  /** And whatever a stop's signals reach. */
  lemma {:induction false} StopSignalsOnlyDescendants(run: seq<Os>, hist: seq<Cycle>, c: Cycle, cli: nat)
    requires GoodHistory(run, hist) && GoodCycle(run, c) && AllWatchCli(run, hist + [c], cli)
    requires GroupIdsKept(run, c.snap)
    ensures forall g :: g in GroupsToKill(Merged(c.walk, RecordsAfter(hist)), Table(c.snap), c.snap.readMs) ==>
              ReachesOnlyDescendants(run, hist + [c], cli, g, c.snap.readMs)
  {
    StopIsBacked(run, hist, c);
    OwnedReachesOnlyDescendants(run, hist + [c], Merged(c.walk, RecordsAfter(hist)), c.snap, cli);
  }

  // ---------------------------------------------------------------------
  // A run in which something is selected
  // ---------------------------------------------------------------------

  /** CLI 400 forks 500, which becomes the leader of its own group. */
  ghost function LeaderForked(): (run: seq<Os>)
    ensures |run| == 4
  {
    var s0 := Os(10_000, 2, map[400 := Proc(1, 0, 0, 1, 400, 1, 0, false)]);
    var s1 := After(s0, Fork(400, 500));
    var s2 := After(s1, Lead(500));
    [s0, s1, s2, After(s2, Tick(2_000))]
  }

  /** The two of them, seen two seconds later. */
  function TwoRows(): Snapshot {
    Snapshot([Sighting(ProcEntry(400, 1, 400, Some(12), false), 3), Sighting(ProcEntry(500, 400, 500, Some(2), false), 3)], 12_000)
  }

  function OneWalk(): Cycle {
    Cycle(TwoRows(), WalkScope(400, 300, 300, []), [GroupRecord(500, 12_000, 500, 10_000, 12_000)])
  }

  lemma {:induction false} LeaderForkedIsRun()
    ensures IsRun(LeaderForked()) && |LeaderForked()| == 4
    ensures forall i :: 0 <= i < 3 ==> LeaderForked()[i].now == 10_000
    ensures LeaderForked()[3] ==
              Os(12_000, 3, map[400 := Proc(1, 0, 0, 1, 400, 1, 0, false), 500 := Proc(2, 1, 10_000, 400, 500, 2, 10_000, false)])
  {
    var run := LeaderForked();
    assert Allowed(run[0], Fork(400, 500)) && Allowed(run[1], Lead(500)) && Allowed(run[2], Tick(2_000));
    assert StepOf(run[0], run[1]) && StepOf(run[1], run[2]) && StepOf(run[2], run[3]);
  }

  lemma {:induction false} OneWalkIsSound()
    ensures var c := OneWalk(); SoundWalk(c.walk, Table(c.snap), c.scope, c.snap.readMs)
  {
    var c := OneWalk();
    var table := Table(c.snap);
    assert table[1] == ProcEntry(500, 400, 500, Some(2), false);
    RootIsReachable(table, 400);
    ReachableStep(table, 400, 1);
    assert LeaderSeen(table, c.scope, 1) && c.walk[0] == WitnessRecord(table[1], 12_000);
  }

  lemma {:induction false} TwoRowsAreGood(run: seq<Os>)
    requires |run| == 4 && run[3] == LeaderForked()[3]
    ensures GoodSnapshot(run, TwoRows()) && GroupIdsKept(run, TwoRows())
  {
    LeaderForkedIsRun();
    assert FaithfulRow(run, TwoRows(), 0) && FaithfulRow(run, TwoRows(), 1);
  }

  lemma {:induction false} TwoRowsWatchCli(run: seq<Os>)
    requires |run| == 4 && run[3] == LeaderForked()[3] && forall i :: 0 <= i < 3 ==> run[i].now == 10_000
    ensures WatchesCli(run, OneWalk(), 1)
  {
    LeaderForkedIsRun();
    assert forall i :: InScan(run, TwoRows(), i) ==> i == 3;
  }

  /** All that is assumed can be met by a run in which a group is selected. */
  lemma {:induction false} TeardownCanSelect() returns (run: seq<Os>, hist: seq<Cycle>, snap: Snapshot, cli: nat)
    ensures GoodHistory(run, hist) && AllWatchCli(run, hist, cli)
    ensures GoodSnapshot(run, snap) && GroupIdsKept(run, snap)
    ensures GroupsToKill(RecordsAfter(hist), Table(snap), snap.readMs) == [500]
  {
    run, hist, snap, cli := LeaderForked(), [OneWalk()], TwoRows(), 1;
    LeaderForkedIsRun();
    OneWalkIsSound();
    TwoRowsAreGood(run);
    assert hist[0] == OneWalk();
    TwoRowsWatchCli(run);
    OneWalkSelects();
  }

  lemma {:induction false} OneWalkSelects()
    ensures GroupsToKill(RecordsAfter([OneWalk()]), Table(TwoRows()), 12_000) == [500]
  {
    var c, table := OneWalk(), Table(TwoRows());
    var w := c.walk[0];
    assert WitnessAt(w, table[1], 12_000);
    assert [c][..0] == [] && c.walk[..0] == [];
    assert Merged([], c.walk) == [w];
    OneRecordCycle(w, table, 12_000);
    assert RecordsAfter([c]) == [w];
    OwnedKeepsAll([w], table, 12_000);
  }
}
