/** What one snapshot cycle does to the list of recorded groups, as functions. */
module SweepSpec {
  import opened Options
  import opened ProcessTable

  /** The position of the record for `pgid`, or `|groups|`. */
  function Position(groups: seq<GroupRecord>, pgid: int): (i: nat)
    ensures i <= |groups|
    ensures i < |groups| ==> groups[i].pgid == pgid
    ensures forall k :: 0 <= k < i ==> groups[k].pgid != pgid
  {
    if groups == [] then 0
    else if groups[0].pgid == pgid then 0
    else 1 + Position(groups[1..], pgid)
  }

  predicate Tracks(groups: seq<GroupRecord>, pgid: int) {
    exists k :: 0 <= k < |groups| && groups[k].pgid == pgid
  }

  /** No group is recorded twice. */
  predicate OneRecordEach(groups: seq<GroupRecord>) {
    forall i, j :: 0 <= i < j < |groups| ==> groups[i].pgid != groups[j].pgid
  }

  function NewRecord(pgid: int, nowMs: int): GroupRecord {
    GroupRecord(pgid, nowMs, 0, 0, nowMs)
  }

  /** One known record with a newer sighting folded in. */
  function Absorbed(known: GroupRecord, seen: GroupRecord): GroupRecord {
    GroupRecord(
      known.pgid,
      Min(known.firstSeenMs, seen.firstSeenMs),
      if known.witnessPid == 0 then seen.witnessPid else known.witnessPid,
      if known.witnessPid == 0 then seen.witnessStartedMs else known.witnessStartedMs,
      Max(known.provenMs, seen.provenMs))
  }

  function MergedOne(groups: seq<GroupRecord>, seen: GroupRecord): seq<GroupRecord> {
    var i := Position(groups, seen.pgid);
    if i < |groups| then groups[i := Absorbed(groups[i], seen)]
    else groups + [Absorbed(NewRecord(seen.pgid, seen.firstSeenMs), seen)]
  }

  function Merged(groups: seq<GroupRecord>, others: seq<GroupRecord>): seq<GroupRecord> {
    if others == [] then groups
    else MergedOne(Merged(groups, others[..|others| - 1]), others[|others| - 1])
  }

  /** The record once it has been proved again at `nowMs`. */
  function ProvenAt(r: GroupRecord, nowMs: int): GroupRecord {
    r.(provenMs := Max(r.provenMs, nowMs))
  }

  function ConfirmedOne(r: GroupRecord, table: seq<ProcEntry>, nowMs: int): GroupRecord {
    if Owns(r, table, nowMs) then ProvenAt(r, nowMs) else r
  }

  function Confirmed(groups: seq<GroupRecord>, table: seq<ProcEntry>, nowMs: int): (out: seq<GroupRecord>)
    ensures |out| == |groups|
  {
    seq(|groups|, i requires 0 <= i < |groups| => ConfirmedOne(groups[i], table, nowMs))
  }

  function Owned(groups: seq<GroupRecord>, table: seq<ProcEntry>, nowMs: int): seq<GroupRecord> {
    if groups == [] then []
    else
      var front := Owned(groups[..|groups| - 1], table, nowMs);
      var last := groups[|groups| - 1];
      if Owns(last, table, nowMs) then front + [last] else front
  }

  /** The newest `MAX_GROUPS` of a list. */
  function Newest(groups: seq<GroupRecord>): seq<GroupRecord> {
    if |groups| > MAX_GROUPS then groups[|groups| - MAX_GROUPS..] else groups
  }

  function Pruned(groups: seq<GroupRecord>, table: seq<ProcEntry>, nowMs: int): seq<GroupRecord> {
    Newest(Owned(groups, table, nowMs))
  }

  /** One whole cycle: fold the walk in, re-prove, drop what cannot be proved. */
  function Refreshed(known: seq<GroupRecord>, walk: seq<GroupRecord>, table: seq<ProcEntry>, nowMs: int)
    : seq<GroupRecord>
  {
    Pruned(Confirmed(Merged(known, walk), table, nowMs), table, nowMs)
  }

  /** The ids a signal may go to. */
  function GroupsToKill(groups: seq<GroupRecord>, table: seq<ProcEntry>, nowMs: int): seq<int> {
    var owned := Owned(groups, table, nowMs);
    seq(|owned|, i requires 0 <= i < |owned| => owned[i].pgid)
  }

  /** What every record a walk of `table` returns looks like: newly dated, and
      with its own leader in that table as the witness. */
  predicate FreshFrom(w: GroupRecord, table: seq<ProcEntry>, nowMs: int) {
    && w.firstSeenMs == nowMs == w.provenMs
    && w.witnessPid == w.pgid > 1
    && WitnessAlive(w, table, nowMs)
  }

  predicate FreshWalk(walk: seq<GroupRecord>, table: seq<ProcEntry>, nowMs: int) {
    && OneRecordEach(walk)
    && forall i :: 0 <= i < |walk| ==> FreshFrom(walk[i], table, nowMs)
  }

  // ---------------------------------------------------------------------
  // Shape of the intermediate lists
  // ---------------------------------------------------------------------

  /** Everything `Owned` keeps comes from the list, is owned, and nothing owned is lost. */
  lemma {:induction false} OwnedMembers(groups: seq<GroupRecord>, table: seq<ProcEntry>, nowMs: int)
    ensures forall r :: r in Owned(groups, table, nowMs) <==> r in groups && Owns(r, table, nowMs)
  {
    if groups != [] {
      var front, last := groups[..|groups| - 1], groups[|groups| - 1];
      OwnedMembers(front, table, nowMs);
      assert groups == front + [last];
    }
  }

  /** A list in which everything is owned is kept whole. */
  lemma {:induction false} OwnedKeepsAll(groups: seq<GroupRecord>, table: seq<ProcEntry>, nowMs: int)
    requires forall i :: 0 <= i < |groups| ==> Owns(groups[i], table, nowMs)
    ensures Owned(groups, table, nowMs) == groups
  {
    if groups != [] {
      OwnedKeepsAll(groups[..|groups| - 1], table, nowMs);
      assert groups == groups[..|groups| - 1] + [groups[|groups| - 1]];
    }
  }

  lemma {:induction false} OwnedOneRecordEach(groups: seq<GroupRecord>, table: seq<ProcEntry>, nowMs: int)
    requires OneRecordEach(groups)
    ensures OneRecordEach(Owned(groups, table, nowMs))
  {
    if groups != [] {
      var front := groups[..|groups| - 1];
      OwnedOneRecordEach(front, table, nowMs);
      OwnedMembers(front, table, nowMs);
      forall r | r in Owned(front, table, nowMs)
        ensures r.pgid != groups[|groups| - 1].pgid
      {
        assert r in front;
      }
    }
  }

  /** The known record `r` once a walk has been folded in. */
  function MergedWith(r: GroupRecord, walk: seq<GroupRecord>): GroupRecord {
    var p := Position(walk, r.pgid);
    if p < |walk| then Absorbed(r, walk[p]) else r
  }

  predicate DatedInOrder(walk: seq<GroupRecord>) {
    forall j :: 0 <= j < |walk| ==> walk[j].firstSeenMs <= walk[j].provenMs
  }

  /** Merging keeps known records in place, and appends new groups as they were walked. */
  lemma {:induction false} MergedShape(groups: seq<GroupRecord>, walk: seq<GroupRecord>)
    requires OneRecordEach(groups) && OneRecordEach(walk) && DatedInOrder(walk)
    ensures HasMergedShape(Merged(groups, walk), groups, walk)
  {
    if walk != [] {
      var n := |walk| - 1;
      assert walk == walk[..n] + [walk[n]];
      MergedShape(groups, walk[..n]);
      MergedOneShape(Merged(groups, walk[..n]), groups, walk[..n], walk[n]);
    }
  }

  /** What `MergedShape` says of a merged list `m`. */
  ghost predicate HasMergedShape(m: seq<GroupRecord>, groups: seq<GroupRecord>, walk: seq<GroupRecord>) {
    && |groups| <= |m|
    && OneRecordEach(m)
    && (forall i :: 0 <= i < |groups| ==> m[i] == MergedWith(groups[i], walk))
    && (forall i :: |groups| <= i < |m| ==> m[i] in walk && !Tracks(groups, m[i].pgid))
    && (forall j :: 0 <= j < |walk| ==> Tracks(groups, walk[j].pgid) || walk[j] in m)
  }

  lemma {:induction false} MergedOneShape(m: seq<GroupRecord>, groups: seq<GroupRecord>, front: seq<GroupRecord>, last: GroupRecord)
    requires OneRecordEach(groups) && OneRecordEach(front + [last]) && last.firstSeenMs <= last.provenMs
    requires HasMergedShape(m, groups, front)
    ensures HasMergedShape(MergedOne(m, last), groups, front + [last])
  {
    var p := Position(m, last.pgid);
    LastIsNew(front, last);
    forall i | 0 <= i < |groups|
      ensures MergedWith(groups[i], front + [last]) ==
                if groups[i].pgid == last.pgid then Absorbed(groups[i], last) else m[i]
      ensures groups[i].pgid == last.pgid ==> m[i] == groups[i]
      ensures m[i].pgid == groups[i].pgid
    {
      PositionExtended(front, last, groups[i].pgid);
    }
    if p < |m| {
      MergedOneKnown(m, groups, front, last, p);
    } else {
      assert Absorbed(NewRecord(last.pgid, last.firstSeenMs), last) == last;
      MergedOneNew(m, groups, front, last);
    }
  }

  lemma {:induction false} MergedOneKnown(
    m: seq<GroupRecord>, groups: seq<GroupRecord>, front: seq<GroupRecord>, last: GroupRecord, p: nat)
    requires HasMergedShape(m, groups, front)
    requires p < |groups| && m[p] == groups[p] && m[p].pgid == last.pgid
    requires forall i :: 0 <= i < |groups| ==>
               MergedWith(groups[i], front + [last]) ==
                 if groups[i].pgid == last.pgid then Absorbed(groups[i], last) else m[i]
    requires forall i :: 0 <= i < |groups| ==> m[i].pgid == groups[i].pgid
    ensures HasMergedShape(m[p := Absorbed(m[p], last)], groups, front + [last])
  {
    var m', walk := m[p := Absorbed(m[p], last)], front + [last];
    forall j | 0 <= j < |walk|
      ensures Tracks(groups, walk[j].pgid) || walk[j] in m'
    {
      if j < |front| && !Tracks(groups, front[j].pgid) {
        var i :| 0 <= i < |m| && m[i] == front[j];
        assert i != p;
        assert m'[i] == front[j];
      }
    }
  }

  lemma {:induction false} MergedOneNew(m: seq<GroupRecord>, groups: seq<GroupRecord>, front: seq<GroupRecord>, last: GroupRecord)
    requires HasMergedShape(m, groups, front)
    requires forall i :: 0 <= i < |m| ==> m[i].pgid != last.pgid
    requires forall i :: 0 <= i < |groups| ==> m[i].pgid == groups[i].pgid
    requires forall i :: 0 <= i < |groups| ==>
               MergedWith(groups[i], front + [last]) ==
                 if groups[i].pgid == last.pgid then Absorbed(groups[i], last) else m[i]
    ensures HasMergedShape(m + [last], groups, front + [last])
  {
  }

  lemma {:induction false} LastIsNew(front: seq<GroupRecord>, last: GroupRecord)
    requires OneRecordEach(front + [last])
    ensures forall r :: r in front ==> r.pgid != last.pgid
  {
    var walk := front + [last];
    forall r | r in front ensures r.pgid != last.pgid {
      var j :| 0 <= j < |front| && front[j] == r;
      assert walk[j] == r && walk[|front|] == last;
    }
  }

  lemma {:induction false} PositionExtended(front: seq<GroupRecord>, last: GroupRecord, pgid: int)
    requires OneRecordEach(front + [last])
    ensures Position(front + [last], pgid) ==
              if Position(front, pgid) < |front| then Position(front, pgid)
              else if last.pgid == pgid then |front| else |front| + 1
    ensures last.pgid == pgid ==> Position(front, pgid) == |front|
  {
    var walk := front + [last];
    var p, q := Position(front, pgid), Position(walk, pgid);
    assert forall k :: 0 <= k < |front| ==> walk[k] == front[k];
    assert walk[|front|] == last;
    if q < |front| {
      assert walk[q].pgid == pgid;
    }
    LastIsNew(front, last);
  }

  /** The records a cycle ends with, one by one: each is the merged record of
      its group with the proof moved to this table, and it is owned. */
  lemma {:induction false} RefreshedRecord(
    known: seq<GroupRecord>, walk: seq<GroupRecord>, table: seq<ProcEntry>, nowMs: int, r: GroupRecord)
    returns (i: nat)
    requires r in Refreshed(known, walk, table, nowMs)
    ensures Owns(r, table, nowMs)
    ensures var m := Merged(known, walk);
            i < |m| && Owns(m[i], table, nowMs) && r == ProvenAt(m[i], nowMs)
  {
    var m := Merged(known, walk);
    var c := Confirmed(m, table, nowMs);
    OwnedMembers(c, table, nowMs);
    assert r in Owned(c, table, nowMs);
    i :| 0 <= i < |c| && c[i] == r;
    assert c[i] == ConfirmedOne(m[i], table, nowMs);
  }

  lemma {:induction false} RefreshedOneRecordEach(known: seq<GroupRecord>, walk: seq<GroupRecord>, table: seq<ProcEntry>, nowMs: int)
    requires OneRecordEach(known) && FreshWalk(walk, table, nowMs)
    ensures OneRecordEach(Refreshed(known, walk, table, nowMs))
    ensures |Refreshed(known, walk, table, nowMs)| <= MAX_GROUPS
  {
    MergedShape(known, walk);
    var m := Merged(known, walk);
    var c := Confirmed(m, table, nowMs);
    assert forall i :: 0 <= i < |m| ==> c[i].pgid == m[i].pgid;
    OwnedOneRecordEach(c, table, nowMs);
  }

  // ---------------------------------------------------------------------
  // What is selected
  // ---------------------------------------------------------------------

  /** The groups of the list of which the table shows the recorded leader or an
      old enough member are in `ids`, and no others. */
  predicate AllProved(ids: seq<int>, groups: seq<GroupRecord>, table: seq<ProcEntry>, nowMs: int) {
    && (forall r :: r in groups ==> (r.pgid in ids <==> WitnessAlive(r, table, nowMs) || MemberCarriesOver(r, table, nowMs)))
    && (forall g :: g in ids ==> Tracks(groups, g))
  }

  /** They come once each, in the list's order. */
  predicate InListOrder(ids: seq<int>, groups: seq<GroupRecord>) {
    forall i, j :: 0 <= i < j < |ids| ==> Position(groups, ids[i]) < Position(groups, ids[j])
  }

  predicate ProvedIds(ids: seq<int>, groups: seq<GroupRecord>, table: seq<ProcEntry>, nowMs: int) {
    AllProved(ids, groups, table, nowMs) && InListOrder(ids, groups)
  }

  lemma {:induction false} KillsTheProved(groups: seq<GroupRecord>, table: seq<ProcEntry>, nowMs: int)
    requires OneRecordEach(groups)
    ensures ProvedIds(GroupsToKill(groups, table, nowMs), groups, table, nowMs)
  {
    if groups != [] {
      var n := |groups| - 1;
      var front, last := groups[..n], groups[n];
      assert groups == front + [last];
      KillsTheProved(front, table, nowMs);
      var before, ids := GroupsToKill(front, table, nowMs), GroupsToKill(groups, table, nowMs);
      assert ids == if Owns(last, table, nowMs) then before + [last.pgid] else before;
      ProvedOneMore(before, front, last, table, nowMs);
    }
  }

  lemma {:induction false} ProvedOneMore(
    ids: seq<int>, front: seq<GroupRecord>, last: GroupRecord, table: seq<ProcEntry>, nowMs: int)
    requires OneRecordEach(front + [last]) && ProvedIds(ids, front, table, nowMs)
    ensures ProvedIds(if Owns(last, table, nowMs) then ids + [last.pgid] else ids, front + [last], table, nowMs)
  {
    LastIsNew(front, last);
    AllProvedOneMore(ids, front, last, table, nowMs);
    InOrderOneMore(ids, front, last);
  }

  lemma {:induction false} AllProvedOneMore(
    ids: seq<int>, front: seq<GroupRecord>, last: GroupRecord, table: seq<ProcEntry>, nowMs: int)
    requires AllProved(ids, front, table, nowMs) && forall r :: r in front ==> r.pgid != last.pgid
    ensures AllProved(if Owns(last, table, nowMs) then ids + [last.pgid] else ids, front + [last], table, nowMs)
  {
    TracksOneMore(front, last);
    assert last.pgid !in ids;
  }

  lemma {:induction false} TracksOneMore(front: seq<GroupRecord>, last: GroupRecord)
    ensures forall g :: Tracks(front + [last], g) <==> Tracks(front, g) || g == last.pgid
  {
    var groups := front + [last];
    assert forall k :: 0 <= k < |front| ==> groups[k] == front[k];
    assert groups[|front|] == last;
  }

  lemma {:induction false} InOrderOneMore(ids: seq<int>, front: seq<GroupRecord>, last: GroupRecord)
    requires OneRecordEach(front + [last]) && InListOrder(ids, front) && forall g :: g in ids ==> Tracks(front, g)
    ensures InListOrder(ids, front + [last]) && InListOrder(ids + [last.pgid], front + [last])
  {
    var groups, longer := front + [last], ids + [last.pgid];
    forall i | 0 <= i < |ids|
      ensures Position(groups, longer[i]) == Position(front, ids[i]) < |front|
    {
      assert longer[i] == ids[i] && ids[i] in ids;
      PositionExtended(front, last, ids[i]);
    }
    PositionExtended(front, last, last.pgid);
  }

  /** Folding others in leaves a record that has a witness with it. */
  lemma {:induction false} MergingKeepsWitness(groups: seq<GroupRecord>, others: seq<GroupRecord>, i: nat)
    requires i < |groups| && groups[i].witnessPid != 0
    ensures i < |Merged(groups, others)|
    ensures var m := Merged(groups, others)[i];
            m.pgid == groups[i].pgid && m.witnessPid == groups[i].witnessPid && m.witnessStartedMs == groups[i].witnessStartedMs
  {
    if others != [] {
      MergingKeepsWitness(groups, others[..|others| - 1], i);
    }
  }

  /** A record in which two sightings of one group meet: the earlier first
      sighting, the later proof, and the older witness if there is one. */
  ghost predicate Joins(r: GroupRecord, known: GroupRecord, seen: GroupRecord) {
    && r.firstSeenMs <= known.firstSeenMs && r.firstSeenMs <= seen.firstSeenMs
    && (r.firstSeenMs == known.firstSeenMs || r.firstSeenMs == seen.firstSeenMs)
    && r.provenMs >= known.provenMs && r.provenMs >= seen.provenMs
    && (r.provenMs == known.provenMs || r.provenMs == seen.provenMs)
    && var w := if known.witnessPid != 0 then known else seen;
       r.witnessPid == w.witnessPid && r.witnessStartedMs == w.witnessStartedMs
  }

  /** A known record stays as it is unless the walk has one of its group, with
      which it joins. */
  lemma {:induction false} MergedWithJoins(known: GroupRecord, walk: seq<GroupRecord>)
    requires OneRecordEach(walk)
    ensures var r := MergedWith(known, walk);
            && r.pgid == known.pgid
            && (!Tracks(walk, known.pgid) ==> r == known)
            && forall w :: w in walk && w.pgid == known.pgid ==> Joins(r, known, w)
  {
    forall w | w in walk && w.pgid == known.pgid
      ensures Joins(MergedWith(known, walk), known, w)
    {
      var j :| 0 <= j < |walk| && walk[j] == w;
      OnlyAt(walk, j);
    }
  }

  // ---------------------------------------------------------------------
  // One observation cannot advance a proof twice
  // ---------------------------------------------------------------------

  /** A cycle moves a record's proof to the later of its old value and the
      instant the table was read, and to nothing else; the first sighting never
      moves forward and the witness never changes. */
  lemma {:induction false} ProofMovesOnlyToTheTable(
    known: seq<GroupRecord>, walk: seq<GroupRecord>, table: seq<ProcEntry>, nowMs: int,
    before: GroupRecord, after: GroupRecord)
    requires OneRecordEach(known) && FreshWalk(walk, table, nowMs)
    requires before in known && after in Refreshed(known, walk, table, nowMs)
    requires before.pgid == after.pgid
    ensures after.provenMs == Max(before.provenMs, nowMs)
    ensures after.firstSeenMs <= before.firstSeenMs
    ensures before.witnessPid != 0 ==>
              after.witnessPid == before.witnessPid && after.witnessStartedMs == before.witnessStartedMs
  {
    var i := RefreshedRecord(known, walk, table, nowMs, after);
    MergedShape(known, walk);
    var m := Merged(known, walk);
    var k :| 0 <= k < |known| && known[k] == before;
    assert m[k] == MergedWith(known[k], walk);
    assert i == k;
  }

  /** Confirming twice from one table is confirming once. */
  lemma {:induction false} ConfirmIsIdempotent(groups: seq<GroupRecord>, table: seq<ProcEntry>, nowMs: int)
    ensures Confirmed(Confirmed(groups, table, nowMs), table, nowMs) == Confirmed(groups, table, nowMs)
  {
  }

  /** Folding in records that add nothing changes nothing. */
  lemma {:induction false} MergedNoNews(groups: seq<GroupRecord>, walk: seq<GroupRecord>)
    requires OneRecordEach(groups) && OneRecordEach(walk) && DatedInOrder(walk)
    requires forall j :: 0 <= j < |walk| ==> Tracks(groups, walk[j].pgid)
    requires forall i :: 0 <= i < |groups| ==> MergedWith(groups[i], walk) == groups[i]
    ensures Merged(groups, walk) == groups
  {
    var m := Merged(groups, walk);
    ghost var appended := m[Min(|groups|, |m|)..];
    assert appended != [] ==> appended[0] in appended;
    MergedShape(groups, walk);
    assert forall r :: r in appended ==> Tracks(groups, r.pgid) && !Tracks(groups, r.pgid);
    if appended != [] {
      assert false;
    }
  }

  /** Did the cycle keep every group its own walk turned up? */
  predicate WalkKept(known: seq<GroupRecord>, walk: seq<GroupRecord>, table: seq<ProcEntry>, nowMs: int) {
    forall j :: 0 <= j < |walk| ==> Tracks(Refreshed(known, walk, table, nowMs), walk[j].pgid)
  }

  /** A list of owned, fully confirmed records within the cap is a fixed point
      of confirming and pruning. */
  lemma {:induction false} SettledStays(groups: seq<GroupRecord>, table: seq<ProcEntry>, nowMs: int)
    requires |groups| <= MAX_GROUPS
    requires forall i :: 0 <= i < |groups| ==> Owns(groups[i], table, nowMs) && nowMs <= groups[i].provenMs
    ensures Pruned(Confirmed(groups, table, nowMs), table, nowMs) == groups
  {
    assert Confirmed(groups, table, nowMs) == groups;
    OwnedKeepsAll(groups, table, nowMs);
  }

  // What a walked group needs to survive its own cycle, read off the records,
  // the walk and the table before it.

  /** The groups of a walk that are not on record, in order. */
  function NewGroups(known: seq<GroupRecord>, walk: seq<GroupRecord>): seq<GroupRecord> {
    if walk == [] then []
    else
      var front, last := NewGroups(known, walk[..|walk| - 1]), walk[|walk| - 1];
      if Tracks(known, last.pgid) then front else front + [last]
  }

  /** The known records, each with what the walk says of its group. */
  function Met(known: seq<GroupRecord>, walk: seq<GroupRecord>): (out: seq<GroupRecord>)
    ensures |out| == |known|
  {
    seq(|known|, i requires 0 <= i < |known| => MergedWith(known[i], walk))
  }

  /** An older record of the walked group's id is in the way: its witness is not
      in this table, and no member had started `PROOF_SLACK_MS` before whichever
      proof is later. */
  predicate Stale(known: seq<GroupRecord>, w: GroupRecord, table: seq<ProcEntry>, nowMs: int) {
    var i := Position(known, w.pgid);
    && i < |known|
    && known[i].witnessPid != 0
    && !WitnessAlive(known[i], table, nowMs)
    && !MemberCarriesOver(ProvenAt(known[i], nowMs), table, nowMs)
  }

  /** How many groups the table still proves are newer on the list than `walk[j]`:
      those recorded after it, and those the walk adds. */
  function NewerProven(known: seq<GroupRecord>, walk: seq<GroupRecord>, table: seq<ProcEntry>, nowMs: int, j: nat): nat
    requires j < |walk|
  {
    var i := Position(known, walk[j].pgid);
    if i < |known| then |Owned(Met(known, walk)[i + 1..], table, nowMs)| + |NewGroups(known, walk)|
    else |NewGroups(known, walk[j + 1..])|
  }

  /** The cap leaves no room for the walked group `walk[j]`. */
  predicate CutByCap(known: seq<GroupRecord>, walk: seq<GroupRecord>, table: seq<ProcEntry>, nowMs: int, j: nat)
    requires j < |walk|
  {
    NewerProven(known, walk, table, nowMs, j) >= MAX_GROUPS
  }

  /** Running the cycle again on the same snapshot changes nothing exactly when no
      walked group has a stale record in its way and the cap cuts none off. */
  lemma {:induction false} RerunIsNoOpExactly(
    known: seq<GroupRecord>, walk: seq<GroupRecord>, table: seq<ProcEntry>, nowMs: int)
    requires OneRecordEach(known) && FreshWalk(walk, table, nowMs)
    ensures var once := Refreshed(known, walk, table, nowMs);
            Refreshed(once, walk, table, nowMs) == once <==>
              forall j :: 0 <= j < |walk| ==>
                !Stale(known, walk[j], table, nowMs) && !CutByCap(known, walk, table, nowMs, j)
  {
    forall j | 0 <= j < |walk|
      ensures Tracks(Refreshed(known, walk, table, nowMs), walk[j].pgid) <==>
                !Stale(known, walk[j], table, nowMs) && !CutByCap(known, walk, table, nowMs, j)
    {
      WalkedGroupStaysExactly(known, walk, table, nowMs, j);
    }
    if WalkKept(known, walk, table, nowMs) {
      RerunWhenWalkKept(known, walk, table, nowMs);
    } else {
      LostWalkGroupReturns(known, walk, table, nowMs);
    }
  }

  /** A walked group survives its own cycle exactly when it is not stale and
      within the cap. */
  lemma {:induction false} WalkedGroupStaysExactly(
    known: seq<GroupRecord>, walk: seq<GroupRecord>, table: seq<ProcEntry>, nowMs: int, j: nat)
    requires OneRecordEach(known) && FreshWalk(walk, table, nowMs) && j < |walk|
    ensures Tracks(Refreshed(known, walk, table, nowMs), walk[j].pgid) <==>
              !Stale(known, walk[j], table, nowMs) && !CutByCap(known, walk, table, nowMs, j)
  {
    var p := MergedPlace(known, walk, table, nowMs, j);
    MergedOneRecordEach(known, walk);
    WalkedGroupLosesProofExactlyWhenStale(known, walk[j], table, nowMs);
    ConfirmedStaysExactly(Merged(known, walk), table, nowMs, p);
  }

  lemma {:induction false} MergedOneRecordEach(known: seq<GroupRecord>, walk: seq<GroupRecord>)
    requires OneRecordEach(known) && OneRecordEach(walk) && DatedInOrder(walk)
    ensures OneRecordEach(Merged(known, walk))
  {
    MergedShape(known, walk);
  }

  lemma {:induction false} ConfirmedStaysExactly(m: seq<GroupRecord>, table: seq<ProcEntry>, nowMs: int, p: nat)
    requires OneRecordEach(m) && p < |m|
    ensures Tracks(Pruned(Confirmed(m, table, nowMs), table, nowMs), m[p].pgid) <==>
              Owns(m[p], table, nowMs) && |Owned(m[p + 1..], table, nowMs)| < MAX_GROUPS
  {
    var c := Confirmed(m, table, nowMs);
    assert forall i :: 0 <= i < |m| ==> c[i].pgid == m[i].pgid;
    ConfirmKeepsOwned(m[p], table, nowMs);
    StaysExactly(c, table, nowMs, p);
    assert c[p + 1..] == Confirmed(m[p + 1..], table, nowMs);
    ConfirmedOwnedCount(m[p + 1..], table, nowMs);
  }

  /** Confirming changes no record's ownership. */
  lemma {:induction false} ConfirmKeepsOwned(r: GroupRecord, table: seq<ProcEntry>, nowMs: int)
    ensures Owns(ConfirmedOne(r, table, nowMs), table, nowMs) <==> Owns(r, table, nowMs)
  {
    if Owns(r, table, nowMs) {
      OwnsIsMonotoneInProof(r, Max(r.provenMs, nowMs), table, nowMs);
    }
  }

  lemma {:induction false} ConfirmedOwnedCount(groups: seq<GroupRecord>, table: seq<ProcEntry>, nowMs: int)
    ensures |Owned(Confirmed(groups, table, nowMs), table, nowMs)| == |Owned(groups, table, nowMs)|
  {
    if groups != [] {
      var n := |groups| - 1;
      assert Confirmed(groups, table, nowMs)[..n] == Confirmed(groups[..n], table, nowMs);
      ConfirmedOwnedCount(groups[..n], table, nowMs);
      ConfirmKeepsOwned(groups[n], table, nowMs);
    }
  }

  lemma {:induction false} OwnedJoined(x: seq<GroupRecord>, y: seq<GroupRecord>, table: seq<ProcEntry>, nowMs: int)
    ensures Owned(x + y, table, nowMs) == Owned(x, table, nowMs) + Owned(y, table, nowMs)
  {
    if y == [] {
      assert x + y == x;
    } else {
      assert (x + y)[..|x + y| - 1] == x + y[..|y| - 1];
      OwnedJoined(x, y[..|y| - 1], table, nowMs);
    }
  }

  /** A record survives pruning exactly when it is owned and fewer than
      `MAX_GROUPS` owned ones follow it. */
  lemma {:induction false} StaysExactly(c: seq<GroupRecord>, table: seq<ProcEntry>, nowMs: int, p: nat)
    requires OneRecordEach(c) && p < |c|
    ensures Tracks(Pruned(c, table, nowMs), c[p].pgid) <==>
              Owns(c[p], table, nowMs) && |Owned(c[p + 1..], table, nowMs)| < MAX_GROUPS
  {
    var owned := Owned(c, table, nowMs);
    OwnedMembers(c, table, nowMs);
    if Owns(c[p], table, nowMs) {
      var before, after := Owned(c[..p], table, nowMs), Owned(c[p + 1..], table, nowMs);
      assert c == (c[..p] + [c[p]]) + c[p + 1..];
      OwnedJoined(c[..p] + [c[p]], c[p + 1..], table, nowMs);
      assert (c[..p] + [c[p]])[..p] == c[..p];
      assert owned == (before + [c[p]]) + after;
      OwnedOneRecordEach(c, table, nowMs);
      NewestHolds(owned, |before|);
    } else {
      forall r | r in owned
        ensures r.pgid != c[p].pgid
      {
        var i :| 0 <= i < |c| && c[i] == r;
      }
      assert forall r :: r in Newest(owned) ==> r in owned;
    }
  }

  lemma {:induction false} NewestHolds(groups: seq<GroupRecord>, q: nat)
    requires OneRecordEach(groups) && q < |groups|
    ensures Tracks(Newest(groups), groups[q].pgid) <==> |groups| - q - 1 < MAX_GROUPS
  {
    var cut := if |groups| > MAX_GROUPS then |groups| - MAX_GROUPS else 0;
    assert forall k :: 0 <= k < |Newest(groups)| ==> Newest(groups)[k] == groups[cut + k];
    if cut <= q {
      assert Newest(groups)[q - cut].pgid == groups[q].pgid;
    }
  }

  /** The merged list, spelled out: the known records, then the walk's new groups. */
  lemma {:induction false} MergedSpelledOut(known: seq<GroupRecord>, walk: seq<GroupRecord>)
    requires OneRecordEach(known) && OneRecordEach(walk) && DatedInOrder(walk)
    ensures Merged(known, walk) == Met(known, walk) + NewGroups(known, walk)
  {
    MergedShape(known, walk);
    MergedTail(known, walk);
    var m := Merged(known, walk);
    assert m == m[..|known|] + m[|known|..];
    assert m[..|known|] == Met(known, walk);
  }

  lemma {:induction false} MergedTail(known: seq<GroupRecord>, walk: seq<GroupRecord>)
    requires OneRecordEach(known) && OneRecordEach(walk) && DatedInOrder(walk)
    ensures |known| <= |Merged(known, walk)|
    ensures Merged(known, walk)[|known|..] == NewGroups(known, walk)
  {
    if walk != [] {
      var n := |walk| - 1;
      var front, last := walk[..n], walk[n];
      assert walk == front + [last];
      MergedTail(known, front);
      MergedShape(known, front);
      LastIsNew(front, last);
      TailGrows(Merged(known, front), known, front, last);
    }
  }

  lemma {:induction false} TailGrows(m: seq<GroupRecord>, known: seq<GroupRecord>, front: seq<GroupRecord>, last: GroupRecord)
    requires HasMergedShape(m, known, front) && last.firstSeenMs <= last.provenMs
    requires forall r :: r in front ==> r.pgid != last.pgid
    ensures |known| <= |MergedOne(m, last)|
    ensures MergedOne(m, last)[|known|..] == if Tracks(known, last.pgid) then m[|known|..] else m[|known|..] + [last]
  {
    var p := Position(m, last.pgid);
    assert forall i :: 0 <= i < |known| ==> m[i].pgid == known[i].pgid;
    if Tracks(known, last.pgid) {
      var k :| 0 <= k < |known| && known[k].pgid == last.pgid;
      assert p <= k;
    } else {
      assert p == |m|;
      assert Absorbed(NewRecord(last.pgid, last.firstSeenMs), last) == last;
    }
  }

  /** The record of `walk[j]` stands at `p` in the merged list, with so many owned
      ones after it. */
  predicate IsPlace(known: seq<GroupRecord>, walk: seq<GroupRecord>, table: seq<ProcEntry>, nowMs: int, j: nat, p: nat)
    requires j < |walk|
  {
    var m := Merged(known, walk);
    && p < |m| && m[p] == MergedFor(known, walk[j]) && m[p].pgid == walk[j].pgid
    && |Owned(m[p + 1..], table, nowMs)| == NewerProven(known, walk, table, nowMs, j)
  }

  lemma {:induction false} MergedPlace(
    known: seq<GroupRecord>, walk: seq<GroupRecord>, table: seq<ProcEntry>, nowMs: int, j: nat) returns (p: nat)
    requires OneRecordEach(known) && FreshWalk(walk, table, nowMs) && j < |walk|
    ensures IsPlace(known, walk, table, nowMs, j, p)
  {
    if Position(known, walk[j].pgid) < |known| {
      p := Position(known, walk[j].pgid);
      PlaceOnRecord(known, walk, table, nowMs, j);
    } else {
      p := PlaceAmongNew(known, walk, table, nowMs, j);
    }
  }

  lemma {:induction false} PlaceOnRecord(
    known: seq<GroupRecord>, walk: seq<GroupRecord>, table: seq<ProcEntry>, nowMs: int, j: nat)
    requires OneRecordEach(known) && FreshWalk(walk, table, nowMs) && j < |walk|
    requires Position(known, walk[j].pgid) < |known|
    ensures IsPlace(known, walk, table, nowMs, j, Position(known, walk[j].pgid))
  {
    MergedSpelledOut(known, walk);
    var met, added, i := Met(known, walk), NewGroups(known, walk), Position(known, walk[j].pgid);
    OnlyAt(walk, j);
    assert (met + added)[i] == met[i];
    KnownThenNew(met, added, table, nowMs, i);
    NewGroupsOwned(known, walk, table, nowMs);
  }

  lemma {:induction false} PlaceAmongNew(
    known: seq<GroupRecord>, walk: seq<GroupRecord>, table: seq<ProcEntry>, nowMs: int, j: nat) returns (p: nat)
    requires OneRecordEach(known) && FreshWalk(walk, table, nowMs) && j < |walk|
    requires Position(known, walk[j].pgid) == |known|
    ensures IsPlace(known, walk, table, nowMs, j, p)
  {
    MergedSpelledOut(known, walk);
    var met, added := Met(known, walk), NewGroups(known, walk);
    var q := NewPlace(known, walk, j);
    p := |known| + q;
    assert (met + added)[p] == added[q] && (met + added)[p + 1..] == added[q + 1..];
    FreshTail(walk, table, nowMs, j);
    NewGroupsOwned(known, walk[j + 1..], table, nowMs);
  }

  lemma {:induction false} KnownThenNew(met: seq<GroupRecord>, added: seq<GroupRecord>, table: seq<ProcEntry>, nowMs: int, i: nat)
    requires i < |met|
    ensures Owned((met + added)[i + 1..], table, nowMs) == Owned(met[i + 1..], table, nowMs) + Owned(added, table, nowMs)
  {
    assert (met + added)[i + 1..] == met[i + 1..] + added;
    OwnedJoined(met[i + 1..], added, table, nowMs);
  }

  /** Where a walked group that is not on record stands among the new ones. */
  lemma {:induction false} NewPlace(known: seq<GroupRecord>, walk: seq<GroupRecord>, j: nat) returns (q: nat)
    requires j < |walk| && Position(known, walk[j].pgid) == |known|
    ensures var added := NewGroups(known, walk);
            q < |added| && added[q] == walk[j] && added[q + 1..] == NewGroups(known, walk[j + 1..])
  {
    var front, back := NewGroups(known, walk[..j]), NewGroups(known, walk[j + 1..]);
    assert walk == (walk[..j] + [walk[j]]) + walk[j + 1..];
    NewGroupsJoined(known, walk[..j] + [walk[j]], walk[j + 1..]);
    assert (walk[..j] + [walk[j]])[..j] == walk[..j];
    assert NewGroups(known, walk) == (front + [walk[j]]) + back;
    q := |front|;
  }

  lemma {:induction false} FreshTail(walk: seq<GroupRecord>, table: seq<ProcEntry>, nowMs: int, j: nat)
    requires FreshWalk(walk, table, nowMs) && j < |walk|
    ensures FreshWalk(walk[j + 1..], table, nowMs)
  {
  }

  lemma {:induction false} OnlyAt(walk: seq<GroupRecord>, j: nat)
    requires OneRecordEach(walk) && j < |walk|
    ensures Position(walk, walk[j].pgid) == j
  {
  }

  lemma {:induction false} NewGroupsJoined(known: seq<GroupRecord>, x: seq<GroupRecord>, y: seq<GroupRecord>)
    ensures NewGroups(known, x + y) == NewGroups(known, x) + NewGroups(known, y)
  {
    if y == [] {
      assert x + y == x;
    } else {
      assert (x + y)[..|x + y| - 1] == x + y[..|y| - 1];
      NewGroupsJoined(known, x, y[..|y| - 1]);
    }
  }

  /** A group just walked is owned. */
  lemma {:induction false} NewGroupsOwned(known: seq<GroupRecord>, walk: seq<GroupRecord>, table: seq<ProcEntry>, nowMs: int)
    requires FreshWalk(walk, table, nowMs)
    ensures Owned(NewGroups(known, walk), table, nowMs) == NewGroups(known, walk)
  {
    if walk != [] {
      var n := |walk| - 1;
      NewGroupsOwned(known, walk[..n], table, nowMs);
      assert FreshFrom(walk[n], table, nowMs);
      var front := NewGroups(known, walk[..n]);
      assert (front + [walk[n]])[..|front|] == front;
    }
  }

  lemma {:induction false} RerunWhenWalkKept(known: seq<GroupRecord>, walk: seq<GroupRecord>, table: seq<ProcEntry>, nowMs: int)
    requires OneRecordEach(known) && FreshWalk(walk, table, nowMs)
    requires WalkKept(known, walk, table, nowMs)
    ensures var once := Refreshed(known, walk, table, nowMs);
            Refreshed(once, walk, table, nowMs) == once
  {
    var once := Refreshed(known, walk, table, nowMs);
    RefreshedOneRecordEach(known, walk, table, nowMs);
    forall i | 0 <= i < |once|
      ensures MergedWith(once[i], walk) == once[i]
      ensures Owns(once[i], table, nowMs) && nowMs <= once[i].provenMs
    {
      KeptRecordHasNoNews(known, walk, table, nowMs, once[i]);
    }
    MergedNoNews(once, walk);
    SettledStays(once, table, nowMs);
  }

  /** A record that survived the cycle already holds all its walk record says. */
  lemma {:induction false} KeptRecordHasNoNews(
    known: seq<GroupRecord>, walk: seq<GroupRecord>, table: seq<ProcEntry>, nowMs: int, r: GroupRecord)
    requires OneRecordEach(known) && FreshWalk(walk, table, nowMs)
    requires r in Refreshed(known, walk, table, nowMs)
    ensures MergedWith(r, walk) == r
    ensures Owns(r, table, nowMs) && nowMs <= r.provenMs
  {
    var i := RefreshedRecord(known, walk, table, nowMs, r);
    MergedShape(known, walk);
    var m := Merged(known, walk);
    var p := Position(walk, r.pgid);
    if p < |walk| {
      assert FreshFrom(walk[p], table, nowMs);
      if i >= |known| {
        var j :| 0 <= j < |walk| && walk[j] == m[i];
        assert j == p;
      } else {
        assert m[i] == MergedWith(known[i], walk);
      }
    }
  }

  /** A walked group that the cycle lost comes back on a second run. */
  lemma {:induction false} LostWalkGroupReturns(
    known: seq<GroupRecord>, walk: seq<GroupRecord>, table: seq<ProcEntry>, nowMs: int)
    requires OneRecordEach(known) && FreshWalk(walk, table, nowMs)
    requires !WalkKept(known, walk, table, nowMs)
    ensures var once := Refreshed(known, walk, table, nowMs);
            Refreshed(once, walk, table, nowMs) != once
  {
    var once := Refreshed(known, walk, table, nowMs);
    RefreshedOneRecordEach(known, walk, table, nowMs);
    MergedShape(once, walk);
    var m := Merged(once, walk);
    var j :| 0 <= j < |walk| && !Tracks(once, walk[j].pgid);
    LastMergedIsNew(m, once, walk, j);
    // The last record merged in is new, so it is owned and never the one the cap drops.
    var last := m[|m| - 1];
    assert FreshFrom(last, table, nowMs);
    LastOwnedSurvives(m, table, nowMs);
    assert last in Refreshed(once, walk, table, nowMs);
  }

  /** Merging a walk with a group not on record ends with such a group. */
  lemma {:induction false} LastMergedIsNew(m: seq<GroupRecord>, groups: seq<GroupRecord>, walk: seq<GroupRecord>, j: nat)
    requires HasMergedShape(m, groups, walk) && j < |walk| && !Tracks(groups, walk[j].pgid)
    ensures |groups| < |m| && m[|m| - 1] in walk && m[|m| - 1] !in groups
  {
  }

  lemma {:induction false} LastOwnedSurvives(m: seq<GroupRecord>, table: seq<ProcEntry>, nowMs: int)
    requires |m| > 0 && Owns(m[|m| - 1], table, nowMs) && m[|m| - 1].provenMs == nowMs
    ensures var out := Pruned(Confirmed(m, table, nowMs), table, nowMs);
            |out| > 0 && out[|out| - 1] == m[|m| - 1]
  {
  }

  /** The merged record of a walked group. */
  function MergedFor(known: seq<GroupRecord>, w: GroupRecord): GroupRecord {
    var i := Position(known, w.pgid);
    if i < |known| then Absorbed(known[i], w) else w
  }

  /** A walked group fails the ownership test exactly when it is stale. */
  lemma {:induction false} WalkedGroupLosesProofExactlyWhenStale(
    known: seq<GroupRecord>, w: GroupRecord, table: seq<ProcEntry>, nowMs: int)
    requires FreshFrom(w, table, nowMs)
    ensures !Owns(MergedFor(known, w), table, nowMs) <==> Stale(known, w, table, nowMs)
  {
    var i := Position(known, w.pgid);
    if i < |known| {
      var m, k := MergedFor(known, w), known[i];
      if k.witnessPid == 0 {
        SameWitness(m, w, table, nowMs);
      } else {
        SameWitness(m, k, table, nowMs);
      }
      SameContinuity(m, ProvenAt(k, nowMs), table, nowMs);
    }
  }

  lemma {:induction false} SameWitness(a: GroupRecord, b: GroupRecord, table: seq<ProcEntry>, nowMs: int)
    requires a.pgid == b.pgid && a.witnessPid == b.witnessPid && a.witnessStartedMs == b.witnessStartedMs
    ensures WitnessAlive(a, table, nowMs) <==> WitnessAlive(b, table, nowMs)
  {
    assert forall x :: 0 <= x < |table| ==> (WitnessAt(a, table[x], nowMs) <==> WitnessAt(b, table[x], nowMs));
  }

  lemma {:induction false} SameContinuity(a: GroupRecord, b: GroupRecord, table: seq<ProcEntry>, nowMs: int)
    requires a.pgid == b.pgid && a.provenMs == b.provenMs
    ensures MemberCarriesOver(a, table, nowMs) <==> MemberCarriesOver(b, table, nowMs)
  {
    assert forall x :: 0 <= x < |table| ==> (ContinuityAt(a, table[x], nowMs) <==> ContinuityAt(b, table[x], nowMs));
  }

  /** The documented no-op fails for a recycled id: group 500 is on record from
      long ago, its number now belongs to a leader half a second old, and the
      second run over one and the same snapshot brings back what the first dropped. */
  lemma {:induction false} RerunCanChangeTheRecords(nowMs: int) returns (known: seq<GroupRecord>, walk: seq<GroupRecord>, table: seq<ProcEntry>)
    requires nowMs == 1_000_000
    ensures OneRecordEach(known) && FreshWalk(walk, table, nowMs) && |walk| == 1
    ensures Refreshed(known, walk, table, nowMs) == []
    ensures Refreshed(Refreshed(known, walk, table, nowMs), walk, table, nowMs) == walk
  {
    table := [ProcEntry(500, 400, 500, Some(0), false)];
    var w := GroupRecord(500, nowMs, 500, nowMs, nowMs);
    var stale := GroupRecord(500, 1_000, 500, 1_000, 2_000);
    known, walk := [stale], [w];
    assert WitnessAt(w, table[0], nowMs);
    var m := Absorbed(stale, w);
    assert !Owns(m, table, nowMs);
    assert walk[..0] == [] && Merged(known, []) == known;
    assert Merged(known, walk) == [m];
    OneRecordCycle(m, table, nowMs);
    assert Merged([], []) == [];
    assert Merged([], walk) == [w];
    OneRecordCycle(w, table, nowMs);
  }

  /** Confirming and pruning a single record. */
  lemma {:induction false} OneRecordCycle(r: GroupRecord, table: seq<ProcEntry>, nowMs: int)
    ensures !Owns(r, table, nowMs) ==> Pruned(Confirmed([r], table, nowMs), table, nowMs) == []
    ensures Owns(r, table, nowMs) && nowMs <= r.provenMs ==> Pruned(Confirmed([r], table, nowMs), table, nowMs) == [r]
  {
    assert Confirmed([r], table, nowMs) == [ConfirmedOne(r, table, nowMs)];
    assert [r][..0] == [] && Owned([], table, nowMs) == [];
    assert Owned([r], table, nowMs) == if Owns(r, table, nowMs) then [] + [r] else [];
  }

  lemma {:induction false} SecondIsNew(known: seq<GroupRecord>, walk: seq<GroupRecord>)
    requires |walk| == 2 && Tracks(known, walk[0].pgid) && !Tracks(known, walk[1].pgid)
    ensures NewGroups(known, walk) == [walk[1]]
  {
    assert walk[..1][..0] == [] && walk[..1] == [walk[0]];
    assert NewGroups(known, []) == [] && NewGroups(known, walk[..1]) == [];
  }

  lemma {:induction false} FullListIsCut(known: seq<GroupRecord>, walk: seq<GroupRecord>, table: seq<ProcEntry>, nowMs: int)
    requires OneRecordEach(known) && FreshWalk(walk, table, nowMs) && |known| == MAX_GROUPS && |walk| == 2
    requires known[0].pgid == walk[0].pgid && !Tracks(known, walk[1].pgid)
    requires forall r :: r in Met(known, walk) ==> Owns(r, table, nowMs)
    ensures var once := Refreshed(known, walk, table, nowMs);
            Refreshed(once, walk, table, nowMs) != once
  {
    var met := Met(known, walk);
    assert Position(known, walk[0].pgid) == 0;
    OwnedKeepsAll(met[1..], table, nowMs);
    SecondIsNew(known, walk);
    assert CutByCap(known, walk, table, nowMs, 0);
    RerunIsNoOpExactly(known, walk, table, nowMs);
  }

  /** Nor is a stale record needed: with 128 groups on record, every one of them
      alive and proved, a walk of the oldest and of a new one pushes the oldest
      out, and a second run over the same snapshot brings it back. */
  lemma {:induction false} CapCanChangeTheRecords(nowMs: int) returns (known: seq<GroupRecord>, walk: seq<GroupRecord>, table: seq<ProcEntry>)
    ensures OneRecordEach(known) && FreshWalk(walk, table, nowMs) && |known| == 128 && |walk| == 2
    ensures forall i :: 0 <= i < |known| ==> Owns(known[i], table, nowMs)
    ensures forall j :: 0 <= j < |walk| ==> !Stale(known, walk[j], table, nowMs)
    ensures var once := Refreshed(known, walk, table, nowMs);
            Refreshed(once, walk, table, nowMs) != once
  {
    table := seq(MAX_GROUPS + 1, k => ProcEntry(1000 + k, 400, 1000 + k, Some(60), false));
    var started := nowMs - 60_000;
    known := seq(MAX_GROUPS, k => GroupRecord(1000 + k, started, 1000 + k, started, started));
    walk := [GroupRecord(1000, nowMs, 1000, started, nowMs),
             GroupRecord(1000 + MAX_GROUPS, nowMs, 1000 + MAX_GROUPS, started, nowMs)];
    assert WitnessAt(walk[0], table[0], nowMs) && WitnessAt(walk[1], table[MAX_GROUPS], nowMs);
    forall k | 0 <= k < |known|
      ensures WitnessAlive(known[k], table, nowMs)
    {
      assert WitnessAt(known[k], table[k], nowMs);
    }
    forall r | r in Met(known, walk)
      ensures Owns(r, table, nowMs)
    {
      var k :| 0 <= k < |known| && Met(known, walk)[k] == r;
      SameWitness(r, known[k], table, nowMs);
    }
    FullListIsCut(known, walk, table, nowMs);
  }
}
