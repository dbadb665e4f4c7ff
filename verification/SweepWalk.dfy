/** The walk of the process tree under an agent's CLI: which group leaders it
    finds, and the breadth-first loop that finds them.
  */
module SweepWalk {
  import opened ProcessTable
  import opened SweepSpec

  /** Where a walk starts, and the ids it must never return. */
  datatype WalkScope = WalkScope(rootPid: int, ownPid: int, ownPgid: int, forbidden: seq<int>)

  /** The root's own group, or its pid when the table does not show it. */
  function RootPgid(table: seq<ProcEntry>, rootPid: int): int {
    if table == [] then rootPid
    else if table[0].pid == rootPid then table[0].pgid
    else RootPgid(table[1..], rootPid)
  }

  /** `path` follows parent links of the table downwards, one row a step. */
  predicate DescentPath(table: seq<ProcEntry>, path: seq<int>) {
    forall i :: 0 <= i < |path| - 1 ==> ChildOf(table, path[i], path[i + 1])
  }

  predicate ChildOf(table: seq<ProcEntry>, parent: int, child: int) {
    exists k :: 0 <= k < |table| && table[k].ppid == parent && table[k].pid == child
  }

  ghost predicate PathTo(table: seq<ProcEntry>, root: int, pid: int, path: seq<int>) {
    |path| > 0 && path[0] == root && path[|path| - 1] == pid && DescentPath(table, path)
  }

  ghost predicate Reachable(table: seq<ProcEntry>, root: int, pid: int) {
    exists path :: PathTo(table, root, pid, path)
  }

  /** Ids the walk passes over whatever they lead. */
  predicate Excluded(table: seq<ProcEntry>, scope: WalkScope, id: int) {
    || id <= 1
    || id == scope.ownPid
    || id == scope.ownPgid
    || id == RootPgid(table, scope.rootPid)
    || id in scope.forbidden
  }

  /** A live, datable leader of a group that is not excluded. */
  predicate Candidate(table: seq<ProcEntry>, scope: WalkScope, e: ProcEntry) {
    && e.pid == e.pgid
    && !e.zombie
    && e.elapsedSecs.Some?
    && !Excluded(table, scope, e.pgid)
  }

  /** Row `k` is a leader the walk returns: a candidate strictly below the root. */
  ghost predicate LeaderSeen(table: seq<ProcEntry>, scope: WalkScope, k: int) {
    && 0 <= k < |table|
    && table[k].pid != scope.rootPid
    && Candidate(table, scope, table[k])
    && Reachable(table, scope.rootPid, table[k].pid)
  }

  function WitnessRecord(e: ProcEntry, nowMs: int): GroupRecord
    requires e.elapsedSecs.Some?
  {
    GroupRecord(e.pid, nowMs, e.pid, e.StartedMs(nowMs).value, nowMs)
  }

  predicate SortedByGroup(groups: seq<GroupRecord>) {
    forall i, j :: 0 <= i < j < |groups| ==> groups[i].pgid < groups[j].pgid
  }

  predicate DistinctPids(table: seq<ProcEntry>) {
    forall i, j :: 0 <= i < j < |table| ==> table[i].pid != table[j].pid
  }

  /** Nothing is returned but leaders found below the root, one record each, in order. */
  ghost predicate SoundWalk(groups: seq<GroupRecord>, table: seq<ProcEntry>, scope: WalkScope, nowMs: int) {
    && SortedByGroup(groups)
    && forall r :: r in groups ==> exists k :: LeaderSeen(table, scope, k) && r == WitnessRecord(table[k], nowMs)
  }

  /** Every leader below the root is returned. */
  ghost predicate CompleteWalk(groups: seq<GroupRecord>, table: seq<ProcEntry>, scope: WalkScope, nowMs: int) {
    forall k :: LeaderSeen(table, scope, k) ==> WitnessRecord(table[k], nowMs) in groups
  }

  // ---------------------------------------------------------------------
  // Reachability
  // ---------------------------------------------------------------------

  lemma {:induction false} RootIsReachable(table: seq<ProcEntry>, root: int)
    ensures Reachable(table, root, root)
  {
    assert PathTo(table, root, root, [root]);
  }

  lemma {:induction false} ReachableStep(table: seq<ProcEntry>, root: int, k: nat)
    requires k < |table| && Reachable(table, root, table[k].ppid)
    ensures Reachable(table, root, table[k].pid)
  {
    var path :| PathTo(table, root, table[k].ppid, path);
    var longer := path + [table[k].pid];
    forall i | 0 <= i < |longer| - 1
      ensures ChildOf(table, longer[i], longer[i + 1])
    {
      if i < |path| - 1 {
        assert ChildOf(table, path[i], path[i + 1]);
      }
    }
    assert PathTo(table, root, table[k].pid, longer);
  }

  /** A set of pids that holds the root and every child of its members holds
      everything reachable. */
  ghost predicate ClosedUnderChildren(table: seq<ProcEntry>, pids: set<int>) {
    forall k :: 0 <= k < |table| && table[k].ppid in pids ==> table[k].pid in pids
  }

  lemma {:induction false} ClosedHoldsPath(table: seq<ProcEntry>, root: int, pids: set<int>, path: seq<int>, n: nat)
    requires root in pids && ClosedUnderChildren(table, pids)
    requires n < |path| && path[0] == root && DescentPath(table, path)
    ensures path[n] in pids
  {
    if n > 0 {
      ClosedHoldsPath(table, root, pids, path, n - 1);
      assert ChildOf(table, path[n - 1], path[n - 1 + 1]);
    }
  }

  lemma {:induction false} ClosedHoldsReachable(table: seq<ProcEntry>, root: int, pids: set<int>, pid: int)
    requires root in pids && ClosedUnderChildren(table, pids)
    requires Reachable(table, root, pid)
    ensures pid in pids
  {
    var path :| PathTo(table, root, pid, path);
    ClosedHoldsPath(table, root, pids, path, |path| - 1);
  }

  // ---------------------------------------------------------------------
  // The walk
  // ---------------------------------------------------------------------

  ghost predicate GoodIndex(table: seq<ProcEntry>, upTo: nat, children: map<int, seq<ProcEntry>>)
    requires upTo <= |table|
  {
    && (forall p :: p in children ==> forall e :: e in children[p] ==> e.ppid == p && e in table[..upTo])
    && (forall k :: 0 <= k < upTo ==> table[k].ppid in children && table[k] in children[table[k].ppid])
  }

  /** The rows of the table by parent, in table order. */
  method IndexChildren(table: seq<ProcEntry>) returns (children: map<int, seq<ProcEntry>>)
    ensures GoodIndex(table, |table|, children)
  {
    children := map[];
    for i := 0 to |table|
      invariant GoodIndex(table, i, children)
    {
      var e := table[i];
      var siblings := if e.ppid in children then children[e.ppid] else [];
      ghost var before := children;
      children := children[e.ppid := siblings + [e]];
      assert table[..i + 1] == table[..i] + [e];
      forall k | 0 <= k < i + 1
        ensures table[k].ppid in children && table[k] in children[table[k].ppid]
      {
        if k < i {
          assert table[k] in before[table[k].ppid];
        }
      }
    }
  }

  /** Insertion of one record into a sorted list. */
  method InsertByGroup(groups: seq<GroupRecord>, r: GroupRecord) returns (out: seq<GroupRecord>)
    requires SortedByGroup(groups)
    requires forall g :: g in groups ==> g.pgid != r.pgid
    ensures SortedByGroup(out)
    ensures forall g :: g in out <==> g in groups || g == r
  {
    var i := 0;
    while i < |groups| && groups[i].pgid < r.pgid
      invariant 0 <= i <= |groups|
      invariant forall k :: 0 <= k < i ==> groups[k].pgid < r.pgid
    {
      i := i + 1;
    }
    if i < |groups| {
      assert groups[i] in groups;
    }
    out := groups[..i] + [r] + groups[i..];
    assert groups == groups[..i] + groups[i..];
  }

  method SortGroups(groups: seq<GroupRecord>) returns (out: seq<GroupRecord>)
    requires OneRecordEach(groups)
    ensures SortedByGroup(out)
    ensures forall g :: g in out <==> g in groups
  {
    out := [];
    for i := 0 to |groups|
      invariant SortedByGroup(out)
      invariant forall g :: g in out <==> g in groups[..i]
    {
      assert groups[..i + 1] == groups[..i] + [groups[i]];
      out := InsertByGroup(out, groups[i]);
    }
    assert groups[..|groups|] == groups;
  }

  /** Everything the walk has found so far, `visited` being the pids it has looked at. */
  ghost predicate WalkState(
    table: seq<ProcEntry>, scope: WalkScope, nowMs: int, visited: set<int>, found: seq<GroupRecord>)
  {
    && scope.rootPid in visited
    && (forall p :: p in visited ==> Reachable(table, scope.rootPid, p))
    && OneRecordEach(found)
    && (forall r :: r in found ==>
          r.pgid in visited && exists k :: LeaderSeen(table, scope, k) && r == WitnessRecord(table[k], nowMs))
    && (DistinctPids(table) ==>
          forall k :: LeaderSeen(table, scope, k) && table[k].pid in visited ==> WitnessRecord(table[k], nowMs) in found)
  }

  /** Looking at one more row keeps the state, with the row's group recorded if it leads one. */
  lemma {:induction false} VisitKeepsState(
    table: seq<ProcEntry>, scope: WalkScope, nowMs: int, visited: set<int>, found: seq<GroupRecord>,
    k: nat, found': seq<GroupRecord>)
    requires WalkState(table, scope, nowMs, visited, found)
    requires k < |table| && table[k].ppid in visited && table[k].pid !in visited
    requires found' == if Candidate(table, scope, table[k]) then found + [WitnessRecord(table[k], nowMs)] else found
    ensures WalkState(table, scope, nowMs, visited + {table[k].pid}, found')
  {
    ReachableStep(table, scope.rootPid, k);
    if Candidate(table, scope, table[k]) {
      assert LeaderSeen(table, scope, k);
      assert forall i :: 0 <= i < |found| ==> found[i] in found;
    }
    forall j | DistinctPids(table) && LeaderSeen(table, scope, j) && table[j].pid in visited + {table[k].pid}
      ensures WitnessRecord(table[j], nowMs) in found'
    {
      if table[j].pid !in visited {
        assert j == k;
      }
    }
  }

  /** Every child of a pid seen so far has been seen too, except those of a
      `waiting` pid. */
  ghost predicate OnlyWaiting(table: seq<ProcEntry>, seen: set<int>, waiting: seq<int>) {
    && (forall p :: p in waiting ==> p in seen)
    && (forall k :: 0 <= k < |table| && table[k].ppid in seen ==> table[k].ppid in waiting || table[k].pid in seen)
  }

  /** Look at the children of one pid, queueing those not seen before. */
  method VisitKids(
    table: seq<ProcEntry>, scope: WalkScope, nowMs: int, pid: int, kids: seq<ProcEntry>, ghost pids: set<int>,
    seen0: set<int>, queue0: seq<int>, found0: seq<GroupRecord>)
    returns (seen: set<int>, queue: seq<int>, found: seq<GroupRecord>)
    requires WalkState(table, scope, nowMs, seen0, found0)
    requires OnlyWaiting(table, seen0, [pid] + queue0)
    requires forall e :: e in kids ==> e.ppid == pid && e in table
    requires forall k :: 0 <= k < |table| && table[k].ppid == pid ==> table[k] in kids
    requires forall e :: e in kids ==> e.pid in pids
    ensures WalkState(table, scope, nowMs, seen, found)
    ensures OnlyWaiting(table, seen, queue)
    ensures seen0 <= seen <= seen0 + pids
    ensures seen == seen0 ==> queue == queue0
  {
    seen, queue, found := seen0, queue0, found0;
    assert pid in [pid] + queue0;
    for i := 0 to |kids|
      invariant WalkState(table, scope, nowMs, seen, found)
      invariant OnlyWaiting(table, seen, [pid] + queue)
      invariant forall j :: 0 <= j < i ==> kids[j].pid in seen
      invariant seen0 <= seen <= seen0 + pids
      invariant seen == seen0 ==> queue == queue0
    {
      var kid := kids[i];
      assert kid in kids && kid in table;
      ghost var k :| 0 <= k < |table| && table[k] == kid;
      // Parent links may form a cycle.
      if kid.pid !in seen {
        ghost var foundBefore, seenBefore := found, seen;
        assert pid in seen;
        if Candidate(table, scope, kid) {
          found := found + [WitnessRecord(kid, nowMs)];
        }
        VisitKeepsState(table, scope, nowMs, seenBefore, foundBefore, k, found);
        WaitingOneMore(table, seen, pid, queue, kid.pid);
        seen := seen + {kid.pid};
        queue := queue + [kid.pid];
      }
    }
    assert forall k :: 0 <= k < |table| && table[k].ppid == pid ==> table[k].pid in seen;
    WaitingOver(table, seen, pid, queue);
  }

  lemma {:induction false} WaitingOneMore(table: seq<ProcEntry>, seen: set<int>, pid: int, queue: seq<int>, kid: int)
    requires OnlyWaiting(table, seen, [pid] + queue)
    ensures OnlyWaiting(table, seen + {kid}, [pid] + (queue + [kid]))
  {
  }

  lemma {:induction false} WaitingOver(table: seq<ProcEntry>, seen: set<int>, pid: int, queue: seq<int>)
    requires OnlyWaiting(table, seen, [pid] + queue)
    requires forall k :: 0 <= k < |table| && table[k].ppid == pid ==> table[k].pid in seen
    ensures OnlyWaiting(table, seen, queue)
  {
  }

  /** A breadth-first walk below the root, recording the groups led there.

      Sound for any table. For one in which no pid appears twice, cyclic parent
      links included, it returns exactly the live, datable leaders strictly
      below the root that are not excluded, sorted by id. */
  method SweepTargets(table: seq<ProcEntry>, scope: WalkScope, nowMs: int) returns (groups: seq<GroupRecord>)
    ensures SoundWalk(groups, table, scope, nowMs)
    ensures DistinctPids(table) ==> CompleteWalk(groups, table, scope, nowMs)
  {
    var children := IndexChildren(table);
    assert table[..|table|] == table;
    var seen := {scope.rootPid};
    var queue := [scope.rootPid];
    var found: seq<GroupRecord> := [];
    ghost var tablePids := set k | 0 <= k < |table| :: table[k].pid;
    ghost var allPids := {scope.rootPid} + tablePids;
    RootIsReachable(table, scope.rootPid);
    while queue != []
      invariant WalkState(table, scope, nowMs, seen, found)
      invariant seen <= allPids
      invariant OnlyWaiting(table, seen, queue)
      decreases allPids - seen, |queue|
    {
      var pid := queue[0];
      assert queue == [pid] + queue[1..];
      var kids := if pid in children then children[pid] else [];
      ghost var before := seen;
      seen, queue, found := VisitKids(table, scope, nowMs, pid, kids, tablePids, seen, queue[1..], found);
      assert before < seen ==> allPids - seen < allPids - before;
    }
    groups := SortGroups(found);
    forall k | DistinctPids(table) && LeaderSeen(table, scope, k)
      ensures WitnessRecord(table[k], nowMs) in groups
    {
      ClosedHoldsReachable(table, scope.rootPid, seen, table[k].pid);
    }
  }

  /** The group id the first row for `pid` shows is `g`. */
  predicate RootShows(table: seq<ProcEntry>, pid: int, g: int) {
    exists k :: 0 <= k < |table| && table[k].pid == pid && table[k].pgid == g
                && forall j :: 0 <= j < k ==> table[j].pid != pid
  }

  lemma {:induction false} RootPgidIsShown(table: seq<ProcEntry>, pid: int)
    ensures forall g :: RootShows(table, pid, g) ==> g == RootPgid(table, pid)
    ensures (forall k :: 0 <= k < |table| ==> table[k].pid != pid) ==> RootPgid(table, pid) == pid
  {
    if table != [] && table[0].pid != pid {
      RootPgidIsShown(table[1..], pid);
      forall g | RootShows(table, pid, g)
        ensures RootShows(table[1..], pid, g)
      {
        var k :| 0 <= k < |table| && table[k].pid == pid && table[k].pgid == g
                 && forall j :: 0 <= j < k ==> table[j].pid != pid;
        assert table[1..][k - 1] == table[k];
      }
    }
  }

  /** The groups a walk passes over: init's, the server's own by either id, the
      root's, and those it was told to leave alone. */
  ghost predicate PassedOver(table: seq<ProcEntry>, scope: WalkScope, g: int) {
    || g <= 1 || g == scope.ownPid || g == scope.ownPgid || g in scope.forbidden
    || RootShows(table, scope.rootPid, g)
    || (g == scope.rootPid && forall k :: 0 <= k < |table| ==> table[k].pid != scope.rootPid)
  }

  /** Row `e` is that of a live process leading group `g`, started at `started`. */
  predicate LivingLeader(e: ProcEntry, g: int, nowMs: int, started: int) {
    && e.pid == g && e.pgid == g && !e.zombie
    && e.elapsedSecs.Some? && started == nowMs - 1000 * e.elapsedSecs.value
  }

  /** What a walk returns is a record, made now, for each live leader below the
      root whose group is not passed over; and for nothing else. */
  lemma {:induction false} WalkReturnsLeaders(groups: seq<GroupRecord>, table: seq<ProcEntry>, scope: WalkScope, nowMs: int)
    requires SoundWalk(groups, table, scope, nowMs)
    ensures forall r :: r in groups ==>
              && !PassedOver(table, scope, r.pgid)
              && r.witnessPid == r.pgid && r.firstSeenMs == nowMs && r.provenMs == nowMs
              && exists k :: 0 <= k < |table| && LivingLeader(table[k], r.pgid, nowMs, r.witnessStartedMs)
                             && table[k].pid != scope.rootPid && Reachable(table, scope.rootPid, table[k].pid)
    ensures CompleteWalk(groups, table, scope, nowMs) ==>
              forall k, started ::
                (&& 0 <= k < |table| && LivingLeader(table[k], table[k].pgid, nowMs, started)
                 && table[k].pid != scope.rootPid && Reachable(table, scope.rootPid, table[k].pid)
                 && !PassedOver(table, scope, table[k].pgid)) ==>
                GroupRecord(table[k].pgid, nowMs, table[k].pgid, started, nowMs) in groups
  {
    RootPgidIsShown(table, scope.rootPid);
    RootIsShownOrNot(table, scope.rootPid);
    forall r | r in groups
      ensures !PassedOver(table, scope, r.pgid)
      ensures r.witnessPid == r.pgid && r.firstSeenMs == nowMs && r.provenMs == nowMs
      ensures exists k :: 0 <= k < |table| && LivingLeader(table[k], r.pgid, nowMs, r.witnessStartedMs)
                          && table[k].pid != scope.rootPid && Reachable(table, scope.rootPid, table[k].pid)
    {
      var k :| LeaderSeen(table, scope, k) && r == WitnessRecord(table[k], nowMs);
      assert LivingLeader(table[k], r.pgid, nowMs, r.witnessStartedMs);
    }
    forall k, started | CompleteWalk(groups, table, scope, nowMs)
      && 0 <= k < |table| && LivingLeader(table[k], table[k].pgid, nowMs, started)
      && table[k].pid != scope.rootPid && Reachable(table, scope.rootPid, table[k].pid)
      && !PassedOver(table, scope, table[k].pgid)
      ensures GroupRecord(table[k].pgid, nowMs, table[k].pgid, started, nowMs) in groups
    {
      assert LeaderSeen(table, scope, k);
    }
  }

  lemma {:induction false} RootIsShownOrNot(table: seq<ProcEntry>, pid: int)
    ensures RootShows(table, pid, RootPgid(table, pid)) || forall k :: 0 <= k < |table| ==> table[k].pid != pid
  {
    if table != [] {
      if table[0].pid == pid {
        assert RootShows(table, pid, table[0].pgid);
      } else {
        RootIsShownOrNot(table[1..], pid);
        if RootShows(table[1..], pid, RootPgid(table, pid)) {
          var k :| 0 <= k < |table[1..]| && table[1..][k].pid == pid && table[1..][k].pgid == RootPgid(table, pid)
                   && forall j :: 0 <= j < k ==> table[1..][j].pid != pid;
          assert table[k + 1] == table[1..][k];
          assert forall j :: 0 < j < k + 1 ==> table[j] == table[1..][j - 1];
        } else {
          assert forall k :: 0 < k < |table| ==> table[k] == table[1..][k - 1];
        }
      }
    }
  }

  /** For a table without repeated pids the two halves leave no choice. */
  lemma {:induction false} WalkIsDetermined(
    a: seq<GroupRecord>, b: seq<GroupRecord>, table: seq<ProcEntry>, scope: WalkScope, nowMs: int)
    requires SoundWalk(a, table, scope, nowMs) && CompleteWalk(a, table, scope, nowMs)
    requires SoundWalk(b, table, scope, nowMs) && CompleteWalk(b, table, scope, nowMs)
    ensures a == b
  {
    forall r ensures r in a <==> r in b {
      if r in a {
        var k :| LeaderSeen(table, scope, k) && r == WitnessRecord(table[k], nowMs);
      }
      if r in b {
        var k :| LeaderSeen(table, scope, k) && r == WitnessRecord(table[k], nowMs);
      }
    }
    SortedSameMembers(a, b);
  }

  lemma {:induction false} SortedSameMembers(a: seq<GroupRecord>, b: seq<GroupRecord>)
    requires SortedByGroup(a) && SortedByGroup(b)
    requires forall r :: r in a <==> r in b
    ensures a == b
  {
    assert a != [] ==> a[0] in a;
    assert b != [] ==> b[0] in b;
    if a != [] && b != [] {
      assert a[0] == b[0];
      forall r ensures r in a[1..] <==> r in b[1..] {
        assert r in a <==> r == a[0] || r in a[1..];
        assert r in b <==> r == b[0] || r in b[1..];
        assert r in a[1..] ==> r.pgid > a[0].pgid;
        assert r in b[1..] ==> r.pgid > b[0].pgid;
      }
      SortedSameMembers(a[1..], b[1..]);
      assert a == [a[0]] + a[1..] && b == [b[0]] + b[1..];
    }
  }

  /** What a walk returns is what a refresh expects to be given. */
  lemma {:induction false} SoundWalkIsFresh(
    groups: seq<GroupRecord>, table: seq<ProcEntry>, scope: WalkScope, nowMs: int)
    requires SoundWalk(groups, table, scope, nowMs)
    ensures FreshWalk(groups, table, nowMs)
  {
    forall i | 0 <= i < |groups|
      ensures FreshFrom(groups[i], table, nowMs)
    {
      assert groups[i] in groups;
      var k :| LeaderSeen(table, scope, k) && groups[i] == WitnessRecord(table[k], nowMs);
      assert WitnessAt(groups[i], table[k], nowMs);
    }
  }
}
