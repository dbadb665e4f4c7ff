/** A signal never goes to a recycled group id.

    The server never sees the system itself, only tables that describe each
    process at some instant of a scan. This module says what such a table may
    contain, and proves over whole runs that every group the records still own
    is one that a walk saw led by a descendant of the CLI.
  */
module SweepSafety {
  import opened Options
  import opened ProcessTable
  import opened SweepSpec
  import opened SweepWalk
  import opened OsRun

  /** One row of a table, and the instant of the run it describes. */
  datatype Sighting = Sighting(entry: ProcEntry, at: nat)

  datatype Snapshot = Snapshot(sightings: seq<Sighting>, readMs: int)

  function Table(snap: Snapshot): (t: seq<ProcEntry>)
    ensures |t| == |snap.sightings|
  {
    seq(|snap.sightings|, i requires 0 <= i < |snap.sightings| => snap.sightings[i].entry)
  }

  /** What a row may say: the ids as they were, and an age that is never overstated. */
  predicate TrueOf(s: Os, e: ProcEntry) {
    && e.pid in s.procs
    && var p := s.procs[e.pid];
       && e.ppid == p.ppid && e.pgid == p.pgid && e.zombie == p.zombie
       && (e.elapsedSecs.Some? ==> 0 <= e.elapsedSecs.value && e.elapsedSecs.value * 1000 <= s.now - p.start)
  }

  /** Every row is true of an instant of the scan, and the scan, which ends at
      `readMs`, takes less than `PROOF_SLACK_MS`. The rows need not describe
      the same instant. */
  ghost predicate Faithful(run: seq<Os>, snap: Snapshot) {
    forall k :: 0 <= k < |snap.sightings| ==> FaithfulRow(run, snap, k)
  }

  predicate FaithfulRow(run: seq<Os>, snap: Snapshot, k: nat)
    requires k < |snap.sightings|
  {
    && snap.sightings[k].at < |run|
    && TrueOf(run[snap.sightings[k].at], snap.sightings[k].entry)
    && snap.readMs - PROOF_SLACK_MS < run[snap.sightings[k].at].now <= snap.readMs
  }

  /** A pid that a table shows is not issued again until `CLOCK_SLACK_MS` after
      the table was read. */
  ghost predicate NoQuickReissue(run: seq<Os>, snap: Snapshot) {
    forall k, j {:trigger snap.sightings[k], run[j]} ::
      && 0 <= k < |snap.sightings|
      && snap.sightings[k].at <= j < |run|
      && snap.sightings[k].entry.pid in run[snap.sightings[k].at].procs
      && snap.sightings[k].entry.pid in run[j].procs
      && run[j].procs[snap.sightings[k].entry.pid].uid != run[snap.sightings[k].at].procs[snap.sightings[k].entry.pid].uid
      ==> snap.readMs + CLOCK_SLACK_MS < run[j].procs[snap.sightings[k].entry.pid].start
  }

  ghost predicate GoodSnapshot(run: seq<Os>, snap: Snapshot) {
    Faithful(run, snap) && NoQuickReissue(run, snap)
  }

  /** One snapshot cycle of the server: the table it used, which may be shared
      and of any age, and the walk it took of it. */
  datatype Cycle = Cycle(snap: Snapshot, scope: WalkScope, walk: seq<GroupRecord>)

  ghost predicate GoodCycle(run: seq<Os>, c: Cycle) {
    GoodSnapshot(run, c.snap) && SoundWalk(c.walk, Table(c.snap), c.scope, c.snap.readMs)
  }

  ghost predicate GoodHistory(run: seq<Os>, hist: seq<Cycle>) {
    IsRun(run) && forall s :: 0 <= s < |hist| ==> GoodCycle(run, hist[s])
  }

  /** A cycle with no root to walk from, or no table, changes nothing. */
  predicate Idle(c: Cycle) {
    c.scope.rootPid <= 0 || c.snap.sightings == []
  }

  /** The records after a history of cycles. */
  function RecordsAfter(hist: seq<Cycle>): seq<GroupRecord> {
    if hist == [] then []
    else
      var known, c := RecordsAfter(hist[..|hist| - 1]), hist[|hist| - 1];
      if Idle(c) then known
      else Refreshed(known, c.walk, Table(c.snap), c.snap.readMs)
  }

  // ---------------------------------------------------------------------
  // Adoption and evidence
  // ---------------------------------------------------------------------

  /** Row `k` of cycle `s` showed group `g` led, below the CLI, by process `inc`. */
  ghost predicate AdoptedAt(run: seq<Os>, hist: seq<Cycle>, g: int, inc: nat, s: int, k: int) {
    && 0 <= s < |hist|
    && LeaderSeen(Table(hist[s].snap), hist[s].scope, k)
    && hist[s].snap.sightings[k].at < |run|
    && hist[s].snap.sightings[k].entry.pid == g
    && g in run[hist[s].snap.sightings[k].at].procs
    && run[hist[s].snap.sightings[k].at].procs[g].uid == inc
  }

  /** Some walk saw group `g` led by a descendant of the CLI, as incarnation `inc`. */
  ghost predicate Adopted(run: seq<Os>, hist: seq<Cycle>, g: int, inc: nat) {
    exists s, k :: AdoptedAt(run, hist, g, inc, s, k)
  }

  /** At instant `i`, within the slack before `provenMs`, `g` named an adopted incarnation. */
  ghost predicate ProofAt(run: seq<Os>, hist: seq<Cycle>, g: int, provenMs: int, i: nat, inc: nat) {
    && i < |run|
    && Adopted(run, hist, g, inc)
    && Names(run[i], g, inc)
    && provenMs - PROOF_SLACK_MS < run[i].now <= provenMs
  }

  /** The witness of `r` is the leader row `k` of cycle `s`. */
  ghost predicate WitnessedBy(run: seq<Os>, hist: seq<Cycle>, r: GroupRecord, s: int, k: int) {
    && 0 <= s < |hist|
    && LeaderSeen(Table(hist[s].snap), hist[s].scope, k)
    && Table(hist[s].snap)[k].pid == r.witnessPid == r.pgid
    && Table(hist[s].snap)[k].StartedMs(hist[s].snap.readMs) == Some(r.witnessStartedMs)
  }

  ghost predicate HasProof(run: seq<Os>, hist: seq<Cycle>, r: GroupRecord) {
    exists i, inc :: ProofAt(run, hist, r.pgid, r.provenMs, i, inc)
  }

  /** The invariant of a record: its proof instant is one at which the group was
      the agent's, and its witness is a leader some walk saw. */
  ghost predicate Backed(run: seq<Os>, hist: seq<Cycle>, r: GroupRecord) {
    && r.firstSeenMs <= r.provenMs
    && HasProof(run, hist, r)
    && (exists s, k :: WitnessedBy(run, hist, r, s, k))
  }

  ghost predicate AllBacked(run: seq<Os>, hist: seq<Cycle>, groups: seq<GroupRecord>) {
    OneRecordEach(groups) && forall r :: r in groups ==> Backed(run, hist, r)
  }

  lemma {:induction false} AdoptedGrows(run: seq<Os>, hist: seq<Cycle>, c: Cycle, g: int, inc: nat)
    requires Adopted(run, hist, g, inc)
    ensures Adopted(run, hist + [c], g, inc)
  {
    var s, k :| AdoptedAt(run, hist, g, inc, s, k);
    assert (hist + [c])[s] == hist[s];
    assert AdoptedAt(run, hist + [c], g, inc, s, k);
  }

  lemma {:induction false} BackedGrows(run: seq<Os>, hist: seq<Cycle>, c: Cycle, r: GroupRecord)
    requires Backed(run, hist, r)
    ensures Backed(run, hist + [c], r)
  {
    var i, inc :| ProofAt(run, hist, r.pgid, r.provenMs, i, inc);
    AdoptedGrows(run, hist, c, r.pgid, inc);
    assert ProofAt(run, hist + [c], r.pgid, r.provenMs, i, inc);
    var s, k :| WitnessedBy(run, hist, r, s, k);
    assert (hist + [c])[s] == hist[s];
    assert WitnessedBy(run, hist + [c], r, s, k);
  }

  // ---------------------------------------------------------------------
  // What the ownership test proves
  // ---------------------------------------------------------------------

  /** A row is never older than it says: its process started no later than the
      row's own start time, which is no later than the read. */
  lemma {:induction false} RowStart(run: seq<Os>, snap: Snapshot, k: nat)
    requires Faithful(run, snap) && k < |snap.sightings| && snap.sightings[k].entry.elapsedSecs.Some?
    ensures FaithfulRow(run, snap, k)
    ensures var started := snap.sightings[k].entry.StartedMs(snap.readMs).value;
            run[snap.sightings[k].at].procs[snap.sightings[k].entry.pid].start <= started <= snap.readMs
  {
  }

  /** Two rows for one pid whose start times agree within the clock slack are
      the same process, whichever table came first. */
  lemma {:induction false} SamePidSameStart(run: seq<Os>, a: Snapshot, k: nat, b: Snapshot, l: nat)
    requires GoodSnapshot(run, a) && GoodSnapshot(run, b)
    requires k < |a.sightings| && l < |b.sightings|
    requires var x, y := a.sightings[k].entry, b.sightings[l].entry;
             && x.pid == y.pid && x.elapsedSecs.Some? && y.elapsedSecs.Some?
             && -CLOCK_SLACK_MS <= y.StartedMs(b.readMs).value - x.StartedMs(a.readMs).value <= CLOCK_SLACK_MS
    ensures FaithfulRow(run, a, k) && FaithfulRow(run, b, l)
    ensures var pid := a.sightings[k].entry.pid;
            run[a.sightings[k].at].procs[pid].uid == run[b.sightings[l].at].procs[pid].uid
  {
  }

  /** Some row of the table shows `g` in use, at an instant no later than `i`. */
  predicate ShownBy(snap: Snapshot, g: int, i: nat) {
    exists l :: 0 <= l < |snap.sightings| && snap.sightings[l].entry.pgid == g && snap.sightings[l].at <= i
  }

  /** If a record passes the ownership test on a table, then at an instant no
      earlier than the start of that table's scan its id named an adopted group. */
  lemma {:induction false} OwnedMeansAdopted(run: seq<Os>, hist: seq<Cycle>, r: GroupRecord, snap: Snapshot)
    returns (i: nat, inc: nat)
    requires GoodHistory(run, hist) && Backed(run, hist, r) && GoodSnapshot(run, snap)
    requires Owns(r, Table(snap), snap.readMs)
    ensures i < |run| && Adopted(run, hist, r.pgid, inc) && Names(run[i], r.pgid, inc)
    ensures ShownBy(snap, r.pgid, i)
    ensures snap.readMs - PROOF_SLACK_MS < run[i].now <= Max(snap.readMs, r.provenMs)
  {
    if WitnessAlive(r, Table(snap), snap.readMs) {
      i, inc := OwnedByWitness(run, hist, r, snap);
    } else {
      i, inc := OwnedByContinuity(run, hist, r, snap);
    }
  }

  lemma {:induction false} OwnedByWitness(run: seq<Os>, hist: seq<Cycle>, r: GroupRecord, snap: Snapshot)
    returns (i: nat, inc: nat)
    requires GoodHistory(run, hist) && Backed(run, hist, r) && GoodSnapshot(run, snap)
    requires WitnessAlive(r, Table(snap), snap.readMs)
    ensures i < |run| && Adopted(run, hist, r.pgid, inc) && Names(run[i], r.pgid, inc)
    ensures ShownBy(snap, r.pgid, i)
    ensures snap.readMs - PROOF_SLACK_MS < run[i].now <= snap.readMs
  {
    var l :| 0 <= l < |Table(snap)| && WitnessAt(r, Table(snap)[l], snap.readMs);
    var s, k :| WitnessedBy(run, hist, r, s, k);
    assert GoodCycle(run, hist[s]);
    SamePidSameStart(run, hist[s].snap, k, snap, l);
    i := snap.sightings[l].at;
    inc := run[i].procs[r.pgid].uid;
    RunIsCoherent(run, i);
    assert run[i].procs[r.pgid].pgid == r.pgid;
    assert AdoptedAt(run, hist, r.pgid, inc, s, k);
  }

  lemma {:induction false} OwnedByContinuity(run: seq<Os>, hist: seq<Cycle>, r: GroupRecord, snap: Snapshot)
    returns (i: nat, inc: nat)
    requires IsRun(run) && HasProof(run, hist, r) && Faithful(run, snap)
    requires MemberCarriesOver(r, Table(snap), snap.readMs)
    ensures i < |run| && Adopted(run, hist, r.pgid, inc) && Names(run[i], r.pgid, inc)
    ensures ShownBy(snap, r.pgid, i)
    ensures snap.readMs - PROOF_SLACK_MS < run[i].now <= Max(snap.readMs, r.provenMs)
  {
    var l :| 0 <= l < |Table(snap)| && ContinuityAt(r, Table(snap)[l], snap.readMs);
    i, inc :| ProofAt(run, hist, r.pgid, r.provenMs, i, inc);
    i := ContinuityCarries(run, r, snap, l, i, inc);
  }

  /** From an instant `i` at which `g` named `inc` the proof carries over to
      the row of a member that was running by then, if that row is the later one. */
  lemma {:induction false} ContinuityCarries(run: seq<Os>, r: GroupRecord, snap: Snapshot, l: nat, i: nat, inc: nat)
    returns (i': nat)
    requires IsRun(run) && i < |run| && l < |snap.sightings| && FaithfulRow(run, snap, l)
    requires Names(run[i], r.pgid, inc) && r.provenMs - PROOF_SLACK_MS < run[i].now <= r.provenMs
    requires ContinuityAt(r, snap.sightings[l].entry, snap.readMs)
    ensures i' < |run| && Names(run[i'], r.pgid, inc) && snap.sightings[l].at <= i'
    ensures snap.readMs - PROOF_SLACK_MS < run[i'].now <= Max(snap.readMs, r.provenMs)
  {
    var j, pid := snap.sightings[l].at, snap.sightings[l].entry.pid;
    i' := i;
    if i <= j {
      assert run[j].procs[pid].start < run[i].now;
      MemberOlderThanProof(run, i, j, r.pgid, inc, pid);
      i' := j;
    } else {
      TimeMovesForward(run, j, i);
    }
  }

  /** A member older than an instant at which its group id named `inc` belongs to `inc`. */
  lemma {:induction false} MemberOlderThanProof(run: seq<Os>, i: nat, j: nat, g: int, inc: nat, pid: int)
    requires IsRun(run) && i <= j < |run| && Names(run[i], g, inc)
    requires pid in run[j].procs && run[j].procs[pid].pgid == g && run[j].procs[pid].start < run[i].now
    ensures run[j].procs[pid].inc == inc && Names(run[j], g, inc)
  {
    RunIsCoherent(run, j);
    GroupKeepsIncarnation(run, i, j, g, inc);
  }

  lemma {:induction false} TimeMovesForward(run: seq<Os>, i: nat, j: nat)
    requires IsRun(run) && i <= j < |run|
    ensures run[i].now <= run[j].now
    decreases j
  {
    if i < j {
      TimeMovesForward(run, i, j - 1);
      RunIsCoherent(run, j - 1);
      assert StepOf(run[j - 1], run[j - 1 + 1]);
      var step :| Allowed(run[j - 1], step) && run[j] == After(run[j - 1], step);
      StepKeepsCoherent(run[j - 1], step);
    }
  }

  // ---------------------------------------------------------------------
  // Every cycle keeps the invariant
  // ---------------------------------------------------------------------

  /** What a walk records is backed by the rows it walked. */
  lemma {:induction false} WalkIsBacked(run: seq<Os>, hist: seq<Cycle>, c: Cycle)
    requires IsRun(run) && GoodCycle(run, c)
    ensures AllBacked(run, hist + [c], c.walk)
  {
    var hist' := hist + [c];
    var s := |hist|;
    assert hist'[s] == c;
    SoundWalkIsFresh(c.walk, Table(c.snap), c.scope, c.snap.readMs);
    forall r | r in c.walk
      ensures Backed(run, hist', r)
    {
      var k :| LeaderSeen(Table(c.snap), c.scope, k) && r == WitnessRecord(Table(c.snap)[k], c.snap.readMs);
      RowStart(run, c.snap, k);
      var i := c.snap.sightings[k].at;
      RunIsCoherent(run, i);
      var inc := run[i].procs[r.pgid].uid;
      assert AdoptedAt(run, hist', r.pgid, inc, s, k);
      assert run[i].procs[r.pgid].pgid == r.pgid;
      assert ProofAt(run, hist', r.pgid, r.provenMs, i, inc);
      assert WitnessedBy(run, hist', r, s, k);
    }
  }

  lemma {:induction false} MergedIsBacked(
    run: seq<Os>, hist: seq<Cycle>, groups: seq<GroupRecord>, others: seq<GroupRecord>)
    requires AllBacked(run, hist, groups) && AllBacked(run, hist, others)
    ensures AllBacked(run, hist, Merged(groups, others))
  {
    assert forall j :: 0 <= j < |others| ==> others[j] in others;
    MergedShape(groups, others);
    var m := Merged(groups, others);
    forall r | r in m
      ensures Backed(run, hist, r)
    {
      var i :| 0 <= i < |m| && m[i] == r;
      if i < |groups| {
        assert groups[i] in groups;
        assert m[i] == MergedWith(groups[i], others);
        var p := Position(others, groups[i].pgid);
        if p < |others| {
          AbsorbedIsBacked(run, hist, groups[i], others[p]);
        }
      }
    }
  }

  lemma {:induction false} AbsorbedIsBacked(run: seq<Os>, hist: seq<Cycle>, known: GroupRecord, seen: GroupRecord)
    requires Backed(run, hist, known) && Backed(run, hist, seen) && known.pgid == seen.pgid
    ensures Backed(run, hist, Absorbed(known, seen))
  {
    var r := Absorbed(known, seen);
    var s, k :| WitnessedBy(run, hist, known, s, k);
    assert WitnessedBy(run, hist, r, s, k);
    var i, inc :| ProofAt(run, hist, r.pgid, r.provenMs, i, inc);
  }

  lemma {:induction false} RefreshedIsBacked(run: seq<Os>, hist: seq<Cycle>, c: Cycle, known: seq<GroupRecord>)
    requires GoodHistory(run, hist) && GoodCycle(run, c) && AllBacked(run, hist, known)
    ensures AllBacked(run, hist + [c], Refreshed(known, c.walk, Table(c.snap), c.snap.readMs))
  {
    var hist', table, now := hist + [c], Table(c.snap), c.snap.readMs;
    forall r | r in known
      ensures Backed(run, hist', r)
    {
      BackedGrows(run, hist, c, r);
    }
    WalkIsBacked(run, hist, c);
    MergedIsBacked(run, hist', known, c.walk);
    SoundWalkIsFresh(c.walk, table, c.scope, now);
    RefreshedOneRecordEach(known, c.walk, table, now);
    forall r | r in Refreshed(known, c.walk, table, now)
      ensures Backed(run, hist', r)
    {
      var q := RefreshedRecord(known, c.walk, table, now, r);
      var b := Merged(known, c.walk)[q];
      assert b in Merged(known, c.walk);
      ProvenIsBacked(run, hist', b, c.snap);
    }
  }

  lemma {:induction false} ProvenIsBacked(run: seq<Os>, hist: seq<Cycle>, b: GroupRecord, snap: Snapshot)
    requires GoodHistory(run, hist) && Backed(run, hist, b) && GoodSnapshot(run, snap)
    requires Owns(b, Table(snap), snap.readMs)
    ensures Backed(run, hist, ProvenAt(b, snap.readMs))
  {
    if b.provenMs < snap.readMs {
      var i, inc := LaterProof(run, hist, b, snap);
      BackedAgain(run, hist, b, snap.readMs, i, inc);
    }
  }

  /** Passing the test on a table newer than the last proof is a proof at the table's instant. */
  lemma {:induction false} LaterProof(run: seq<Os>, hist: seq<Cycle>, b: GroupRecord, snap: Snapshot)
    returns (i: nat, inc: nat)
    requires GoodHistory(run, hist) && Backed(run, hist, b) && GoodSnapshot(run, snap)
    requires Owns(b, Table(snap), snap.readMs) && b.provenMs <= snap.readMs
    ensures ProofAt(run, hist, b.pgid, snap.readMs, i, inc)
  {
    i, inc := OwnedMeansAdopted(run, hist, b, snap);
  }

  /** A backed record is backed again by a later proof. */
  lemma {:induction false} BackedAgain(run: seq<Os>, hist: seq<Cycle>, b: GroupRecord, nowMs: int, i: nat, inc: nat)
    requires Backed(run, hist, b) && b.provenMs <= nowMs && ProofAt(run, hist, b.pgid, nowMs, i, inc)
    ensures Backed(run, hist, b.(provenMs := nowMs))
  {
    var r := b.(provenMs := nowMs);
    var s, k :| WitnessedBy(run, hist, b, s, k);
    assert WitnessedBy(run, hist, r, s, k);
  }

  /** Over every history of cycles, every record's proof instant is one at which
      the group was the agent's. */
  lemma {:induction false} RecordsAreBacked(run: seq<Os>, hist: seq<Cycle>)
    requires GoodHistory(run, hist)
    ensures AllBacked(run, hist, RecordsAfter(hist))
  {
    if hist != [] {
      var front, c := hist[..|hist| - 1], hist[|hist| - 1];
      assert hist == front + [c];
      assert forall s :: 0 <= s < |front| ==> front[s] == hist[s];
      RecordsAreBacked(run, front);
      var known := RecordsAfter(front);
      if Idle(c) {
        forall r | r in known
          ensures Backed(run, hist, r)
        {
          BackedGrows(run, front, c, r);
        }
      } else {
        RefreshedIsBacked(run, front, c, known);
      }
    }
  }

  // ---------------------------------------------------------------------
  // Safety of every signal
  // ---------------------------------------------------------------------

  /** Whoever goes by `g` at instant `j` is incarnation `inc`, unless the id was
      issued again after the scan that ended at `readMs` had begun. */
  ghost predicate NotRecycled(s: Os, g: int, inc: nat, readMs: int) {
    forall p :: p in s.procs && s.procs[p].pgid == g && s.procs[p].incStart <= readMs - PROOF_SLACK_MS ==>
      s.procs[p].inc == inc
  }

  /** `g` was, at an instant no earlier than the start of the scan that ended at
      `readMs`, a group a walk saw led by a descendant of the CLI, and still is
      at every later instant unless it was recycled since. */
  ghost predicate SafeToSignal(run: seq<Os>, hist: seq<Cycle>, g: int, readMs: int) {
    exists i: nat, inc: nat :: SafeFrom(run, hist, g, readMs, i, inc)
  }

  ghost predicate SafeFrom(run: seq<Os>, hist: seq<Cycle>, g: int, readMs: int, i: nat, inc: nat) {
    && i < |run|
    && Adopted(run, hist, g, inc)
    && Names(run[i], g, inc)
    && readMs - PROOF_SLACK_MS < run[i].now
    && forall j :: i <= j < |run| ==> NotRecycled(run[j], g, inc, readMs)
  }

  lemma {:induction false} OwnedIsSafe(run: seq<Os>, hist: seq<Cycle>, groups: seq<GroupRecord>, snap: Snapshot)
    requires GoodHistory(run, hist) && AllBacked(run, hist, groups) && GoodSnapshot(run, snap)
    ensures forall g :: g in GroupsToKill(groups, Table(snap), snap.readMs) ==>
              SafeToSignal(run, hist, g, snap.readMs)
  {
    var owned := Owned(groups, Table(snap), snap.readMs);
    OwnedMembers(groups, Table(snap), snap.readMs);
    forall g | g in GroupsToKill(groups, Table(snap), snap.readMs)
      ensures SafeToSignal(run, hist, g, snap.readMs)
    {
      var q :| 0 <= q < |owned| && owned[q].pgid == g;
      assert owned[q] in owned;
      var i, inc := OwnedRecordIsSafe(run, hist, owned[q], snap);
    }
  }

  lemma {:induction false} OwnedRecordIsSafe(run: seq<Os>, hist: seq<Cycle>, r: GroupRecord, snap: Snapshot)
    returns (i: nat, inc: nat)
    requires GoodHistory(run, hist) && Backed(run, hist, r) && GoodSnapshot(run, snap)
    requires Owns(r, Table(snap), snap.readMs)
    ensures SafeFrom(run, hist, r.pgid, snap.readMs, i, inc) && ShownBy(snap, r.pgid, i)
  {
    i, inc := OwnedMeansAdopted(run, hist, r, snap);
    forall j | i <= j < |run|
      ensures NotRecycled(run[j], r.pgid, inc, snap.readMs)
    {
      GroupKeepsIncarnation(run, i, j, r.pgid, inc);
    }
  }

  /** Teardown, on a freshly read table, after any history of cycles. */
  lemma {:induction false} TeardownIsSafe(run: seq<Os>, hist: seq<Cycle>, snap: Snapshot)
    requires GoodHistory(run, hist) && GoodSnapshot(run, snap)
    ensures forall g :: g in GroupsToKill(RecordsAfter(hist), Table(snap), snap.readMs) ==>
              SafeToSignal(run, hist, g, snap.readMs)
  {
    RecordsAreBacked(run, hist);
    OwnedIsSafe(run, hist, RecordsAfter(hist), snap);
  }

  lemma {:induction false} StopIsBacked(run: seq<Os>, hist: seq<Cycle>, c: Cycle)
    requires GoodHistory(run, hist) && GoodCycle(run, c)
    ensures AllBacked(run, hist + [c], Merged(c.walk, RecordsAfter(hist)))
  {
    RecordsAreBacked(run, hist);
    forall r | r in RecordsAfter(hist)
      ensures Backed(run, hist + [c], r)
    {
      BackedGrows(run, hist, c, r);
    }
    WalkIsBacked(run, hist, c);
    MergedIsBacked(run, hist + [c], c.walk, RecordsAfter(hist));
  }

  /** A stop: the walk `c` it takes itself counts as one of those that adopt. */
  lemma {:induction false} StopIsSafe(run: seq<Os>, hist: seq<Cycle>, c: Cycle)
    requires GoodHistory(run, hist) && GoodCycle(run, c)
    ensures forall g :: g in GroupsToKill(Merged(c.walk, RecordsAfter(hist)), Table(c.snap), c.snap.readMs) ==>
              SafeToSignal(run, hist + [c], g, c.snap.readMs)
  {
    StopIsBacked(run, hist, c);
    OwnedIsSafe(run, hist + [c], Merged(c.walk, RecordsAfter(hist)), c.snap);
  }

  // ---------------------------------------------------------------------
  // The test is not merely safe: a group whose leader lives is kept
  // ---------------------------------------------------------------------

  /** The age in row `k` is exact up to truncation to whole seconds, and the
      read ended within half a second of the row. */
  ghost predicate ExactRow(run: seq<Os>, snap: Snapshot, k: nat)
    requires k < |snap.sightings|
  {
    && FaithfulRow(run, snap, k)
    && var s, e := run[snap.sightings[k].at], snap.sightings[k].entry;
       && e.elapsedSecs == Some((s.now - s.procs[e.pid].start) / 1000)
       && snap.readMs <= s.now + CLOCK_SLACK_MS - 1000
  }

  /** The leader a walk recorded, seen alive and leading in any later table,
      carries the proof for its group, however long ago the last proof was. */
  lemma {:induction false} LivingLeaderIsOwned(run: seq<Os>, a: Snapshot, k: nat, b: Snapshot, l: nat)
    requires IsRun(run) && k < |a.sightings| && l < |b.sightings|
    requires ExactRow(run, a, k) && ExactRow(run, b, l) && a.sightings[k].at <= b.sightings[l].at
    requires a.sightings[k].entry.pid == b.sightings[l].entry.pid
    requires var pid := a.sightings[k].entry.pid;
             run[a.sightings[k].at].procs[pid].uid == run[b.sightings[l].at].procs[pid].uid
    requires b.sightings[l].entry.pgid == b.sightings[l].entry.pid && !b.sightings[l].entry.zombie
    ensures Owns(WitnessRecord(a.sightings[k].entry, a.readMs), Table(b), b.readMs)
  {
    var i, j, pid := a.sightings[k].at, b.sightings[l].at, a.sightings[k].entry.pid;
    RunIsCoherent(run, i);
    ProcessKeepsStart(run, i, j, pid);
    assert WitnessAt(WitnessRecord(a.sightings[k].entry, a.readMs), Table(b)[l], b.readMs);
  }

  // ---------------------------------------------------------------------
  // What a walk adopts really descends from the CLI
  // ---------------------------------------------------------------------

  predicate InScan(run: seq<Os>, snap: Snapshot, i: int) {
    0 <= i < |run| && snap.readMs - PROOF_SLACK_MS < run[i].now <= snap.readMs
  }

  predicate SameProcess(run: seq<Os>, i: int, j: int, pid: int) {
    0 <= i < |run| && 0 <= j < |run| && pid in run[i].procs && pid in run[j].procs ==>
      run[i].procs[pid].uid == run[j].procs[pid].uid
  }

  /** No pid changes hands while a scan is under way. */
  ghost predicate NoReissueInScan(run: seq<Os>, snap: Snapshot) {
    forall i, j, pid :: InScan(run, snap, i) && InScan(run, snap, j) ==> SameProcess(run, i, j, pid)
  }

  /** During the scan of cycle `c` the pid it walks from is held by process `cli`,
      if by any. */
  ghost predicate WatchesCli(run: seq<Os>, c: Cycle, cli: nat) {
    && c.scope.rootPid > 1
    && NoReissueInScan(run, c.snap)
    && forall i :: InScan(run, c.snap, i) && c.scope.rootPid in run[i].procs ==> run[i].procs[c.scope.rootPid].uid == cli
  }

  ghost predicate AllWatchCli(run: seq<Os>, hist: seq<Cycle>, cli: nat) {
    forall s :: 0 <= s < |hist| ==> WatchesCli(run, hist[s], cli)
  }

  /** Row `m` shows a process whose parent pid names its forker. */
  lemma {:induction false} RowShowsFork(run: seq<Os>, snap: Snapshot, m: nat)
    requires IsRun(run) && Faithful(run, snap) && m < |snap.sightings| && snap.sightings[m].entry.ppid > 1
    ensures var i, e := snap.sightings[m].at, snap.sightings[m].entry;
            && InScan(run, snap, i) && e.pid > 1 && e.pid in run[i].procs && e.ppid in run[i].procs
            && Forked(run, run[i].procs[e.ppid].uid, run[i].procs[e.pid].uid)
  {
    var i, e := snap.sightings[m].at, snap.sightings[m].entry;
    assert FaithfulRow(run, snap, m);
    RunKeepsParentLinks(run, i);
    assert ForkedAt(run, i, e.pid, run[i].procs[e.ppid].uid, run[i].procs[e.pid].uid);
  }

  /** The pids of a table's path from the CLI belong, in that scan, to its descendants,
      though the rows of the path may describe different instants. */
  lemma {:induction false} PathIsOfDescendants(run: seq<Os>, c: Cycle, cli: nat, path: seq<int>, n: nat) returns (i: nat)
    requires IsRun(run) && Faithful(run, c.snap) && WatchesCli(run, c, cli)
    requires 0 < n < |path| && path[0] == c.scope.rootPid && DescentPath(Table(c.snap), path)
    ensures InScan(run, c.snap, i) && path[n] > 1 && path[n] in run[i].procs
    ensures Descends(run, cli, run[i].procs[path[n]].uid)
  {
    assert ChildOf(Table(c.snap), path[n - 1], path[n - 1 + 1]);
    var m :| 0 <= m < |Table(c.snap)| && Table(c.snap)[m].ppid == path[n - 1] && Table(c.snap)[m].pid == path[n];
    if n == 1 {
      RowShowsFork(run, c.snap, m);
      i := c.snap.sightings[m].at;
      ChildDescends(run, cli, run[i].procs[path[n]].uid);
    } else {
      var h := PathIsOfDescendants(run, c, cli, path, n - 1);
      RowShowsFork(run, c.snap, m);
      i := c.snap.sightings[m].at;
      assert SameProcess(run, h, i, path[n - 1]);
      DescendsFurther(run, cli, run[i].procs[path[n - 1]].uid, run[i].procs[path[n]].uid);
    }
  }

  /** Every incarnation a walk adopted is led by a descendant of the CLI. */
  lemma {:induction false} AdoptedDescends(run: seq<Os>, hist: seq<Cycle>, cli: nat, g: int, inc: nat)
    requires GoodHistory(run, hist) && AllWatchCli(run, hist, cli) && Adopted(run, hist, g, inc)
    ensures Descends(run, cli, inc)
  {
    var s, k :| AdoptedAt(run, hist, g, inc, s, k);
    var c := hist[s];
    assert GoodCycle(run, c) && WatchesCli(run, c, cli);
    var path :| PathTo(Table(c.snap), c.scope.rootPid, g, path);
    var i := PathIsOfDescendants(run, c, cli, path, |path| - 1);
    assert FaithfulRow(run, c.snap, k);
    assert SameProcess(run, i, c.snap.sightings[k].at, g);
  }

  /** `g` is safe to signal, and what it names is led by a descendant of the CLI. */
  ghost predicate DescendantsOwn(run: seq<Os>, hist: seq<Cycle>, cli: nat, g: int, readMs: int) {
    exists i: nat, inc: nat :: SafeFrom(run, hist, g, readMs, i, inc) && Descends(run, cli, inc)
  }

  lemma {:induction false} SafeIsDescendants(run: seq<Os>, hist: seq<Cycle>, cli: nat, g: int, readMs: int)
    requires GoodHistory(run, hist) && AllWatchCli(run, hist, cli) && SafeToSignal(run, hist, g, readMs)
    ensures DescendantsOwn(run, hist, cli, g, readMs)
  {
    var i: nat, inc: nat :| SafeFrom(run, hist, g, readMs, i, inc);
    AdoptedDescends(run, hist, cli, g, inc);
  }

  /** Over every run and every history of cycles of one CLI: a teardown signals
      only groups that descendants of that CLI lead. */
  lemma {:induction false} TeardownReachesOnlyDescendants(run: seq<Os>, hist: seq<Cycle>, snap: Snapshot, cli: nat)
    requires GoodHistory(run, hist) && AllWatchCli(run, hist, cli) && GoodSnapshot(run, snap)
    ensures forall g :: g in GroupsToKill(RecordsAfter(hist), Table(snap), snap.readMs) ==>
              DescendantsOwn(run, hist, cli, g, snap.readMs)
  {
    TeardownIsSafe(run, hist, snap);
    forall g | g in GroupsToKill(RecordsAfter(hist), Table(snap), snap.readMs)
      ensures DescendantsOwn(run, hist, cli, g, snap.readMs)
    {
      SafeIsDescendants(run, hist, cli, g, snap.readMs);
    }
  }

  /** And so does a stop. */
  lemma {:induction false} StopReachesOnlyDescendants(run: seq<Os>, hist: seq<Cycle>, c: Cycle, cli: nat)
    requires GoodHistory(run, hist) && GoodCycle(run, c) && AllWatchCli(run, hist + [c], cli)
    ensures forall g :: g in GroupsToKill(Merged(c.walk, RecordsAfter(hist)), Table(c.snap), c.snap.readMs) ==>
              DescendantsOwn(run, hist + [c], cli, g, c.snap.readMs)
  {
    StopIsSafe(run, hist, c);
    assert GoodHistory(run, hist + [c]);
    forall g | g in GroupsToKill(Merged(c.walk, RecordsAfter(hist)), Table(c.snap), c.snap.readMs)
      ensures DescendantsOwn(run, hist + [c], cli, g, c.snap.readMs)
    {
      SafeIsDescendants(run, hist + [c], cli, g, c.snap.readMs);
    }
  }
}
