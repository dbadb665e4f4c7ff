/** Rows of the process table and the ownership test over them.

    A `GroupRecord` says which process group an agent's tool call started, and
    up to which instant that has been proved. `Owns` is the only licence to
    signal a group.
  */
module ProcessTable {
  import opened Options

  /** `ps` truncates ages to whole seconds. */
  const CLOCK_SLACK_MS := 1_500

  /** How long one table may be shared between sweeps. */
  const SNAPSHOT_TTL_MS := 250

  /** What is subtracted from the continuity window. */
  const PROOF_SLACK_MS := CLOCK_SLACK_MS + SNAPSHOT_TTL_MS

  /** The most groups one agent tracks. */
  const MAX_GROUPS := 128

  datatype ProcEntry = ProcEntry(pid: int, ppid: int, pgid: int, elapsedSecs: Option<int>, zombie: bool) {
    /** When the process started, as far as a table read at `readMs` tells. */
    function StartedMs(readMs: int): Option<int> {
      match elapsedSecs
      case None => None
      case Some(secs) => Some(readMs - secs * 1000)
    }
  }

  datatype GroupRecord = GroupRecord(
    pgid: int,
    firstSeenMs: int,
    witnessPid: int,
    witnessStartedMs: int,
    provenMs: int)

  function Min(a: int, b: int): int { if a < b then a else b }

  function Max(a: int, b: int): int { if a < b then b else a }

  /** `e` is the leader that was recorded, still alive and still itself. */
  predicate WitnessAt(r: GroupRecord, e: ProcEntry, nowMs: int) {
    && !e.zombie
    && e.pid == r.witnessPid
    && e.pgid == r.pgid
    && e.elapsedSecs.Some?
    && -CLOCK_SLACK_MS <= e.StartedMs(nowMs).value - r.witnessStartedMs <= CLOCK_SLACK_MS
  }

  /** `e` is a live member of the group, started before the last proof by the slack. */
  predicate ContinuityAt(r: GroupRecord, e: ProcEntry, nowMs: int) {
    && e.pgid == r.pgid
    && e.pid > 1
    && !e.zombie
    && e.elapsedSecs.Some?
    && e.StartedMs(nowMs).value + PROOF_SLACK_MS <= r.provenMs
  }

  predicate WitnessAlive(r: GroupRecord, table: seq<ProcEntry>, nowMs: int) {
    exists k :: 0 <= k < |table| && WitnessAt(r, table[k], nowMs)
  }

  predicate MemberCarriesOver(r: GroupRecord, table: seq<ProcEntry>, nowMs: int) {
    exists k :: 0 <= k < |table| && ContinuityAt(r, table[k], nowMs)
  }

  /** The table carries the proof for `r` on, by its leader or by an old member. */
  predicate Owns(r: GroupRecord, table: seq<ProcEntry>, nowMs: int) {
    WitnessAlive(r, table, nowMs) || MemberCarriesOver(r, table, nowMs)
  }

  /** What the table must show: alive, the leader on record, started within one and a
      half seconds of what was recorded, or any member, started one and three
      quarters before the last proof. */
  lemma {:induction false} OwnsMeans(r: GroupRecord, table: seq<ProcEntry>, nowMs: int)
    ensures Owns(r, table, nowMs) <==>
              exists k :: 0 <= k < |table| && LiveMember(table[k], r.pgid) &&
                var started := nowMs - 1000 * table[k].elapsedSecs.value;
                || (table[k].pid == r.witnessPid && r.witnessStartedMs - 1_500 <= started <= r.witnessStartedMs + 1_500)
                || (table[k].pid > 1 && started <= r.provenMs - 1_750)
  {
    forall k | 0 <= k < |table| && LiveMember(table[k], r.pgid)
      ensures table[k].StartedMs(nowMs) == Some(nowMs - 1000 * table[k].elapsedSecs.value)
    {
    }
  }

  predicate LiveMember(e: ProcEntry, g: int) {
    e.pgid == g && !e.zombie && e.elapsedSecs.Some?
  }

  /** A later proof never takes ownership away. */
  lemma {:induction false} OwnsIsMonotoneInProof(r: GroupRecord, provenMs: int, table: seq<ProcEntry>, nowMs: int)
    requires Owns(r, table, nowMs) && r.provenMs <= provenMs
    ensures Owns(r.(provenMs := provenMs), table, nowMs)
  {
  }
}
