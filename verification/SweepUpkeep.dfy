/** How long a group stays on record: over any history of cycles, exactly as long
    as each table shows its leader, or a member that had started before the last
    proof, and the cap leaves room.
  */
module SweepUpkeep {
  import opened Options
  import opened ProcessTable
  import opened SweepSpec
  import opened SweepWalk
  import opened OsRun
  import opened SweepSafety

  ghost predicate SoundWalks(hist: seq<Cycle>) {
    forall s :: 0 <= s < |hist| ==> SoundWalk(hist[s].walk, Table(hist[s].snap), hist[s].scope, hist[s].snap.readMs)
  }

  /** The last proof that cycle `s` finds of a group proved at `provenMs` before
      cycle `from`, if every cycle in between has proved it again. */
  function LastProof(hist: seq<Cycle>, provenMs: int, from: nat, s: nat): int
    requires from <= s <= |hist|
    decreases s
  {
    if s == from then provenMs
    else
      var before := LastProof(hist, provenMs, from, s - 1);
      if Idle(hist[s - 1]) then before else Max(before, hist[s - 1].snap.readMs)
  }

  /** The table of cycle `s` shows the leader on record, or a member that had
      started `PROOF_SLACK_MS` before the last proof. A group that the walk of that
      very cycle finds led below the CLI is proved by then. */
  predicate CarriedOver(hist: seq<Cycle>, r0: GroupRecord, from: nat, s: nat)
    requires from <= s < |hist|
  {
    var c, last := hist[s], LastProof(hist, r0.provenMs, from, s);
    Owns(r0.(provenMs := if Tracks(c.walk, r0.pgid) then Max(last, c.snap.readMs) else last), Table(c.snap), c.snap.readMs)
  }

  /** Fewer than `MAX_GROUPS` groups that live on are newer on the list than `g`. */
  predicate RoomFor(hist: seq<Cycle>, g: int, s: nat)
    requires s < |hist|
  {
    var c := hist[s];
    var m := Merged(RecordsAfter(hist[..s]), c.walk);
    var p := Position(m, g);
    p < |m| ==> |Owned(m[p + 1..], Table(c.snap), c.snap.readMs)| < MAX_GROUPS
  }

  predicate KeptBy(hist: seq<Cycle>, r0: GroupRecord, from: nat, s: nat)
    requires from <= s < |hist|
  {
    Idle(hist[s]) || (CarriedOver(hist, r0, from, s) && RoomFor(hist, r0.pgid, s))
  }

  /** Before cycle `s` group `g` is on record. */
  predicate OnRecord(hist: seq<Cycle>, g: int, s: nat)
    requires s <= |hist|
  {
    Tracks(RecordsAfter(hist[..s]), g)
  }

  /** Record `r` is what `r0` has become by cycle `s`. */
  predicate Became(hist: seq<Cycle>, r0: GroupRecord, from: nat, s: nat, r: GroupRecord)
    requires from <= s <= |hist|
  {
    && r in RecordsAfter(hist[..s])
    && r.pgid == r0.pgid && r.witnessPid == r0.witnessPid && r.witnessStartedMs == r0.witnessStartedMs
    && r.provenMs == LastProof(hist, r0.provenMs, from, s)
  }

  lemma {:induction false} OneMoreCycle(hist: seq<Cycle>, s: nat)
    requires s < |hist|
    ensures var known, c := RecordsAfter(hist[..s]), hist[s];
            RecordsAfter(hist[..s + 1]) ==
              if Idle(c) then known else Refreshed(known, c.walk, Table(c.snap), c.snap.readMs)
  {
    assert hist[..s + 1][..s] == hist[..s];
  }

  /** Every record on any list has its group's leader as witness, and no group has two. */
  lemma {:induction false} RecordsAreWitnessed(hist: seq<Cycle>, s: nat)
    requires SoundWalks(hist) && s <= |hist|
    ensures OneRecordEach(RecordsAfter(hist[..s]))
    ensures forall r :: r in RecordsAfter(hist[..s]) ==> r.witnessPid == r.pgid > 1
  {
    if s > 0 {
      var known, c := RecordsAfter(hist[..s - 1]), hist[s - 1];
      RecordsAreWitnessed(hist, s - 1);
      OneMoreCycle(hist, s - 1);
      SoundWalkIsFresh(c.walk, Table(c.snap), c.scope, c.snap.readMs);
      if !Idle(c) {
        RefreshedIsWitnessed(known, c.walk, Table(c.snap), c.snap.readMs);
      }
    }
  }

  lemma {:induction false} RefreshedIsWitnessed(
    known: seq<GroupRecord>, walk: seq<GroupRecord>, table: seq<ProcEntry>, nowMs: int)
    requires OneRecordEach(known) && FreshWalk(walk, table, nowMs)
    requires forall r :: r in known ==> r.witnessPid == r.pgid > 1
    ensures OneRecordEach(Refreshed(known, walk, table, nowMs))
    ensures forall r :: r in Refreshed(known, walk, table, nowMs) ==> r.witnessPid == r.pgid > 1
  {
    RefreshedOneRecordEach(known, walk, table, nowMs);
    MergedShape(known, walk);
    forall r | r in Refreshed(known, walk, table, nowMs)
      ensures r.witnessPid == r.pgid > 1
    {
      var i := RefreshedRecord(known, walk, table, nowMs, r);
      if i < |known| {
        assert known[i] in known && Merged(known, walk)[i] == MergedWith(known[i], walk);
      }
    }
  }

  /** One cycle, for one known record with a witness. */
  lemma {:induction false} KnownStaysExactly(
    known: seq<GroupRecord>, walk: seq<GroupRecord>, table: seq<ProcEntry>, nowMs: int, k: nat)
    requires OneRecordEach(known) && FreshWalk(walk, table, nowMs) && k < |known| && known[k].witnessPid != 0
    ensures var m, r := Merged(known, walk), known[k];
            var merged := r.(provenMs := if Tracks(walk, r.pgid) then Max(r.provenMs, nowMs) else r.provenMs);
            && Position(m, r.pgid) == k < |m|
            && (Owns(m[k], table, nowMs) <==> Owns(merged, table, nowMs))
            && (Tracks(Refreshed(known, walk, table, nowMs), r.pgid) <==>
                  Owns(merged, table, nowMs) && |Owned(m[k + 1..], table, nowMs)| < MAX_GROUPS)
  {
    MergedShape(known, walk);
    var m, r := Merged(known, walk), known[k];
    var merged := r.(provenMs := if Tracks(walk, r.pgid) then Max(r.provenMs, nowMs) else r.provenMs);
    assert m[k] == MergedWith(r, walk);
    var q := Position(walk, r.pgid);
    if q < |walk| {
      assert FreshFrom(walk[q], table, nowMs);
    }
    SameWitness(m[k], merged, table, nowMs);
    SameContinuity(m[k], merged, table, nowMs);
    ConfirmedStaysExactly(m, table, nowMs, k);
  }

  /** And what it has become, if it stays. */
  lemma {:induction false} KnownBecomes(
    known: seq<GroupRecord>, walk: seq<GroupRecord>, table: seq<ProcEntry>, nowMs: int, k: nat) returns (r: GroupRecord)
    requires OneRecordEach(known) && FreshWalk(walk, table, nowMs) && k < |known| && known[k].witnessPid != 0
    requires Tracks(Refreshed(known, walk, table, nowMs), known[k].pgid)
    ensures r in Refreshed(known, walk, table, nowMs)
    ensures r.pgid == known[k].pgid && r.witnessPid == known[k].witnessPid && r.witnessStartedMs == known[k].witnessStartedMs
    ensures r.provenMs == Max(known[k].provenMs, nowMs)
  {
    var out := Refreshed(known, walk, table, nowMs);
    var i :| 0 <= i < |out| && out[i].pgid == known[k].pgid;
    r := out[i];
    ProofMovesOnlyToTheTable(known, walk, table, nowMs, known[k], r);
  }

  lemma {:induction false} CycleKeepsExactly(hist: seq<Cycle>, r0: GroupRecord, from: nat, s: nat, r: GroupRecord)
    returns (r': GroupRecord)
    requires SoundWalks(hist) && from <= s < |hist| && Became(hist, r0, from, s, r)
    ensures OnRecord(hist, r0.pgid, s + 1) <==> KeptBy(hist, r0, from, s)
    ensures OnRecord(hist, r0.pgid, s + 1) ==> Became(hist, r0, from, s + 1, r')
  {
    var known, c := RecordsAfter(hist[..s]), hist[s];
    RecordsAreWitnessed(hist, s);
    OneMoreCycle(hist, s);
    r' := r;
    if !Idle(c) {
      var k :| 0 <= k < |known| && known[k] == r;
      assert r.witnessPid != 0;
      SoundWalkIsFresh(c.walk, Table(c.snap), c.scope, c.snap.readMs);
      KnownStaysExactly(known, c.walk, Table(c.snap), c.snap.readMs, k);
      SameOwner(hist, r0, from, s, r);
      if OnRecord(hist, r0.pgid, s + 1) {
        r' := KnownBecomes(known, c.walk, Table(c.snap), c.snap.readMs, k);
      }
    }
  }

  /** The ownership test does not look at the first sighting. */
  lemma {:induction false} SameOwner(hist: seq<Cycle>, r0: GroupRecord, from: nat, s: nat, r: GroupRecord)
    requires from <= s < |hist| && Became(hist, r0, from, s, r)
    ensures var c := hist[s];
            CarriedOver(hist, r0, from, s) <==>
              Owns(r.(provenMs := if Tracks(c.walk, r.pgid) then Max(r.provenMs, c.snap.readMs) else r.provenMs),
                   Table(c.snap), c.snap.readMs)
  {
    var c := hist[s];
    var last := if Tracks(c.walk, r.pgid) then Max(r.provenMs, c.snap.readMs) else r.provenMs;
    SameWitness(r0.(provenMs := last), r.(provenMs := last), Table(c.snap), c.snap.readMs);
    SameContinuity(r0.(provenMs := last), r.(provenMs := last), Table(c.snap), c.snap.readMs);
  }

  lemma {:induction false} BecameByThen(hist: seq<Cycle>, r0: GroupRecord, from: nat, n: nat) returns (r: GroupRecord)
    requires SoundWalks(hist) && from <= n <= |hist| && r0 in RecordsAfter(hist[..from])
    requires || (forall s :: from < s <= n ==> OnRecord(hist, r0.pgid, s))
             || (forall s :: from <= s < n ==> KeptBy(hist, r0, from, s))
    ensures Became(hist, r0, from, n, r)
    decreases n
  {
    r := r0;
    if from < n {
      r := BecameByThen(hist, r0, from, n - 1);
      r := CycleKeepsExactly(hist, r0, from, n - 1, r);
    }
  }

  /** A group on record before cycle `from` stays there through every cycle from
      then on exactly when each one that does anything carries it over and has room. */
  lemma {:induction false} StaysOnRecordExactly(hist: seq<Cycle>, r0: GroupRecord, from: nat)
    requires SoundWalks(hist) && from <= |hist| && r0 in RecordsAfter(hist[..from])
    ensures (forall s :: from < s <= |hist| ==> OnRecord(hist, r0.pgid, s))
            <==> (forall s :: from <= s < |hist| ==> KeptBy(hist, r0, from, s))
  {
    if forall s :: from < s <= |hist| ==> OnRecord(hist, r0.pgid, s) {
      forall s | from <= s < |hist|
        ensures KeptBy(hist, r0, from, s)
      {
        assert OnRecord(hist, r0.pgid, s + 1);
        KeptOrNot(hist, r0, from, s);
      }
    }
    if forall s :: from <= s < |hist| ==> KeptBy(hist, r0, from, s) {
      forall s | from < s <= |hist|
        ensures OnRecord(hist, r0.pgid, s)
      {
        KeptOrNot(hist, r0, from, s - 1);
      }
    }
  }

  lemma {:induction false} KeptOrNot(hist: seq<Cycle>, r0: GroupRecord, from: nat, s: nat)
    requires SoundWalks(hist) && from <= s < |hist| && r0 in RecordsAfter(hist[..from])
    requires || (forall t :: from < t <= s ==> OnRecord(hist, r0.pgid, t))
             || (forall t :: from <= t < s ==> KeptBy(hist, r0, from, t))
    ensures OnRecord(hist, r0.pgid, s + 1) <==> KeptBy(hist, r0, from, s)
  {
    var r := BecameByThen(hist, r0, from, s);
    var _ := CycleKeepsExactly(hist, r0, from, s, r);
  }

  // ---------------------------------------------------------------------
  // In terms of the processes
  // ---------------------------------------------------------------------

  /** Row `k` of cycle `s` shows a live member of the group that had been started
      when the group was last proved, by more than what the table blurs. */
  ghost predicate OverlapsAt(run: seq<Os>, hist: seq<Cycle>, r0: GroupRecord, from: nat, s: nat, k: nat)
    requires from <= s < |hist|
  {
    var snap := hist[s].snap;
    && k < |snap.sightings| && ExactRow(run, snap, k)
    && var e := snap.sightings[k].entry;
       && e.pgid == r0.pgid && e.pid > 1 && !e.zombie
       && run[snap.sightings[k].at].procs[e.pid].start + CLOCK_SLACK_MS + PROOF_SLACK_MS
          <= LastProof(hist, r0.provenMs, from, s)
  }

  /** A group whose members overlap from cycle to cycle stays on record, long
      after its leader and everyone else first seen in it are gone. */
  lemma {:induction false} OverlappingMembersKeepGroup(run: seq<Os>, hist: seq<Cycle>, r0: GroupRecord, from: nat)
    requires SoundWalks(hist) && from <= |hist| && r0 in RecordsAfter(hist[..from])
    requires forall s :: from <= s < |hist| && !Idle(hist[s]) ==>
               RoomFor(hist, r0.pgid, s) && exists k :: OverlapsAt(run, hist, r0, from, s, k)
    ensures forall s :: from < s <= |hist| ==> OnRecord(hist, r0.pgid, s)
  {
    forall s | from <= s < |hist|
      ensures KeptBy(hist, r0, from, s)
    {
      if !Idle(hist[s]) {
        var k :| OverlapsAt(run, hist, r0, from, s, k);
        OverlapCarriesOver(run, hist, r0, from, s, k);
      }
    }
    StaysOnRecordExactly(hist, r0, from);
  }

  lemma {:induction false} OverlapCarriesOver(run: seq<Os>, hist: seq<Cycle>, r0: GroupRecord, from: nat, s: nat, k: nat)
    requires from <= s < |hist| && OverlapsAt(run, hist, r0, from, s, k)
    ensures CarriedOver(hist, r0, from, s)
  {
    var c, last := hist[s], LastProof(hist, r0.provenMs, from, s);
    var proved := r0.(provenMs := if Tracks(c.walk, r0.pgid) then Max(last, c.snap.readMs) else last);
    assert ContinuityAt(proved, Table(c.snap)[k], c.snap.readMs);
  }

  /** A group all of whose processes have exited is off the record with the next
      cycle that does anything. */
  lemma {:induction false} ExitedGroupLeaves(hist: seq<Cycle>, g: int, s: nat)
    requires s < |hist| && !Idle(hist[s])
    requires forall k :: 0 <= k < |Table(hist[s].snap)| && Table(hist[s].snap)[k].pgid == g ==> Table(hist[s].snap)[k].zombie
    ensures !OnRecord(hist, g, s + 1)
  {
    var known, c := RecordsAfter(hist[..s]), hist[s];
    OneMoreCycle(hist, s);
    var out := Refreshed(known, c.walk, Table(c.snap), c.snap.readMs);
    forall r | r in out
      ensures r.pgid != g
    {
      var _ := RefreshedRecord(known, c.walk, Table(c.snap), c.snap.readMs, r);
    }
  }
}
