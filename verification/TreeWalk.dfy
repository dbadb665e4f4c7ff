/** The one walker of trees an agent controls, counting or removing. */
module TreeWalk {
  import opened Options
  import opened FileTree
  import opened TreeListing
  import opened WalkState

  /** Why a walk stopped short. */
  datatype Problem =
    | TooManyEntries
    | Mounted(name: Name)
    | TooDeep
    | CouldNotOpen(name: Name)
    | CouldNotRemove(name: Name)
    | NotEmpty(name: Name)

  /** What a walk found, or removed. */
  datatype Walked = Walked(count: nat, bytes: nat, complete: bool, problem: Option<Problem>) {
    function WithFile(size: nat): Walked {
      this.(count := Saturated(count + 1), bytes := Saturated(bytes + size))
    }

    function Failed(p: Problem): Walked {
      this.(complete := false, problem := Some(p))
    }
  }

  /** A 64-bit counter that stops at its largest value. */
  function Saturated(n: nat): nat {
    if n <= U64_MAX then n else U64_MAX
  }

  /** The condition under which a walk gets to the end of its tree. */
  ghost predicate GetsThrough(t: Task, maxEntries: nat)
    requires Closed(t.nodes) && IsFolder(t.nodes, t.top)
  {
    Whole(t).ok && Whole(t).entries <= maxEntries
  }

  /** The walk so far: the accounts, the budget, the counters and the disk. */
  ghost predicate Walking(
    t: Task, rank: Ino -> nat, maxEntries: nat, frames: seq<Frame>, seen: nat, walked: Walked,
    done: Summary, left: map<Ino, set<Name>>, disk: Nodes)
  {
    && Accounts(t, rank, frames, done)
    && seen == done.entries
    && seen + Queued(frames) <= maxEntries
    && walked == Walked(Saturated(done.files), Saturated(done.bytes), true, None)
    && DiskAgrees(t, frames, done.folders, left, disk)
  }

  ghost predicate DiskAgrees(t: Task, frames: seq<Frame>, entered: set<Ino>, left: map<Ino, set<Name>>, disk: Nodes) {
    if t.rules.mode.Count? then disk == t.nodes
    else LeftMatches(t, frames, entered, left) && DiskHolds(t, left, disk)
  }

  /** The walk stopped: the tree is one it cannot get through, and nothing
      outside the tree was touched. */
  ghost predicate Stopped(t: Task, maxEntries: nat, walked: Walked, disk: Nodes) {
    && Closed(t.nodes) && IsFolder(t.nodes, t.top)
    && !walked.complete && walked.problem.Some? && !walked.problem.value.NotEmpty?
    && !GetsThrough(t, maxEntries)
    && Explains(t, maxEntries, walked.problem.value)
    && walked.count <= Saturated(Whole(t).files) && walked.bytes <= Saturated(Whole(t).bytes)
    && OnlyInside(t, disk)
  }

  /** The entry named `n`, found `level` levels down, is why the walk stopped. */
  predicate Blames(node: Node, rules: WalkRules, level: nat, n: Name, p: Problem) {
    match p
    case Mounted(name) => name == n && node.Folder? && node.dev != rules.rootDev
    case TooDeep => node.Folder? && level > 128
    case CouldNotOpen(name) => name == n && node.Folder? && node.shut && (rules.mode.Count? || !rules.chmodWorks)
    case CouldNotRemove(name) => name == n && rules.mode.Remove? && node.pinned
    case _ => false
  }

  /** The problem reported is one the tree has: more entries than were allowed,
      or an entry of that kind. */
  ghost predicate Explains(t: Task, maxEntries: nat, p: Problem)
    requires IsFolder(t.nodes, t.top)
  {
    if p.TooManyEntries? then
      exists paths :: Distinct(paths) && AllEntries(t.nodes, t.top, TopNames(t), paths) && |paths| > maxEntries
    else
      exists path :: IsEntry(t.nodes, t.top, TopNames(t), path)
                     && Blames(t.nodes[At(t.nodes, t.top, path).value], t.rules, |path|, path[|path| - 1], p)
  }

  /** Only folders of the tree differ from what they were, and only by having lost
      entries or changed mode; none of them, the top aside, is on another device. */
  ghost predicate OnlyInside(t: Task, disk: Nodes)
    requires Closed(t.nodes) && IsFolder(t.nodes, t.top)
  {
    if t.rules.mode.Count? then disk == t.nodes
    else
      && disk.Keys == t.nodes.Keys
      && (forall f :: f in disk && f != t.top && f !in Whole(t).folders ==> disk[f] == t.nodes[f])
      && (forall f :: f in disk && (f == t.top || f in Whole(t).folders) ==> OnlyLost(disk[f], t.nodes[f]))
      && (forall f :: f in disk && f != t.top && disk[f] != t.nodes[f] ==> OnDevice(t, f))
  }

  predicate OnDevice(t: Task, f: Ino) {
    IsFolder(t.nodes, f) && t.nodes[f].dev == t.rules.rootDev
  }

  predicate OnlyLost(now: Node, was: Node) {
    && now.Folder? && was.Folder?
    && now.dev == was.dev && now.pinned == was.pinned
    && forall n :: n in now.entries ==> n in was.entries && now.entries[n] == was.entries[n]
  }

  /** The walk got to the end: everything under the top was counted, or is gone. */
  ghost predicate Finished(t: Task, maxEntries: nat, walked: Walked, disk: Nodes) {
    && Closed(t.nodes) && IsFolder(t.nodes, t.top)
    && walked == Walked(Saturated(Whole(t).files), Saturated(Whole(t).bytes), true, None)
    && GetsThrough(t, maxEntries)
    && OnlyInside(t, disk)
    && (t.rules.mode.Remove? ==>
          && IsFolder(disk, t.top) && disk[t.top].entries.Keys == t.nodes[t.top].entries.Keys * t.skip
          && forall f :: f in Whole(t).folders ==> IsFolder(disk, f) && disk[f].entries == map[])
  }

  // ---------------------------------------------------------------------
  // Stopping
  // ---------------------------------------------------------------------

  lemma {:induction false} TreeFoldersAreFolders(t: Task, rank: Ino -> nat)
    requires GoodTask(t, rank)
    ensures forall f :: f in Whole(t).folders ==> IsFolder(t.nodes, f)
  {
    forall f | f in Whole(t).folders
      ensures IsFolder(t.nodes, f)
    {
      FoldersLieDeeper(t.nodes, rank, t.rules, t.top, TopNames(t), 0, f);
    }
  }

  lemma {:induction false} HeldIsOnlyLost(t: Task, left: map<Ino, set<Name>>, disk: Nodes, f: Ino)
    requires DiskHolds(t, left, disk) && f in disk && IsFolder(t.nodes, f)
    ensures OnlyLost(disk[f], t.nodes[f])
  {
  }

  /** At any point of a walk the disk differs only inside the tree. */
  lemma {:induction false} WalkingStaysInside(
    t: Task, rank: Ino -> nat, frames: seq<Frame>, done: Summary, left: map<Ino, set<Name>>, disk: Nodes)
    requires GoodTask(t, rank) && done.folders <= Whole(t).folders
    requires DiskAgrees(t, frames, done.folders, left, disk) && forall f :: f in done.folders ==> OnDevice(t, f)
    ensures OnlyInside(t, disk)
  {
    TreeFoldersAreFolders(t, rank);
    if t.rules.mode.Remove? {
      forall f | f in disk && (f == t.top || f in Whole(t).folders)
        ensures OnlyLost(disk[f], t.nodes[f])
      {
        HeldIsOnlyLost(t, left, disk, f);
      }
    }
  }

  /** What has been done is part of the whole. */
  lemma {:induction false} DoneIsPart(t: Task, rank: Ino -> nat, frames: seq<Frame>, done: Summary)
    requires Accounts(t, rank, frames, done)
    ensures done.folders <= Whole(t).folders && done.files <= Whole(t).files && done.bytes <= Whole(t).bytes
    ensures forall f :: f in done.folders ==> OnDevice(t, f)
  {
    forall f | f in done.folders
      ensures OnDevice(t, f)
    {
      assert EnteredOnce(t, rank, frames, done.folders, f);
    }
  }

  /** A walk that meets a tree it cannot get through may stop there. */
  lemma {:induction false} StopsRightly(
    t: Task, rank: Ino -> nat, maxEntries: nat, frames: seq<Frame>, seen: nat, walked: Walked,
    done: Summary, left: map<Ino, set<Name>>, disk: Nodes, p: Problem)
    requires Walking(t, rank, maxEntries, frames, seen, walked, done, left, disk)
    requires !GetsThrough(t, maxEntries) && Explains(t, maxEntries, p)
    ensures Stopped(t, maxEntries, walked.Failed(p), disk)
  {
    DoneIsPart(t, rank, frames, done);
    WalkingStaysInside(t, rank, frames, done, left, disk);
    StoppedFor(t, maxEntries, walked, disk, p);
  }

  lemma {:induction false} StoppedFor(t: Task, maxEntries: nat, walked: Walked, disk: Nodes, p: Problem)
    requires Closed(t.nodes) && IsFolder(t.nodes, t.top)
    requires !GetsThrough(t, maxEntries) && Explains(t, maxEntries, p) && OnlyInside(t, disk)
    requires walked.count <= Saturated(Whole(t).files) && walked.bytes <= Saturated(Whole(t).bytes)
    ensures Stopped(t, maxEntries, walked.Failed(p), disk)
  {
  }

  /** If the entry about to be visited cannot be got through, the tree cannot. */
  lemma {:induction false} BadEntryBadTree(t: Task, rank: Ino -> nat, frames: seq<Frame>, done: Summary)
    requires Accounts(t, rank, frames, done) && frames != [] && frames[|frames| - 1].entries != []
    ensures NextChild(t, frames) in t.nodes
    ensures !Itself(t.nodes, t.rules, NextChild(t, frames), |frames| - 1).ok ==> !Whole(t).ok
  {
    PopAccounts(t, rank, frames, done);
  }

  /** If the entry about to be visited is to blame, that explains the stop. */
  lemma {:induction false} NextExplains(t: Task, frames: seq<Frame>, maxEntries: nat, p: Problem)
    requires Path(t, frames) && frames != [] && frames[|frames| - 1].entries != [] && NextChild(t, frames) in t.nodes
    requires IsFolder(t.nodes, t.top)
    requires Blames(t.nodes[NextChild(t, frames)], t.rules, |frames|, NextName(frames), p)
    ensures Explains(t, maxEntries, p)
  {
    NextLeads(t, frames);
    var path := StackPath(frames) + [NextName(frames)];
    assert IsEntry(t.nodes, t.top, TopNames(t), path) && path[|path| - 1] == NextName(frames);
  }

  /** The same for the last folder on the stack. */
  lemma {:induction false} LastExplains(t: Task, frames: seq<Frame>, maxEntries: nat, p: Problem)
    requires Path(t, frames) && |frames| > 1 && IsFolder(t.nodes, t.top)
    requires IsFolder(t.nodes, frames[|frames| - 1].dir) && frames[|frames| - 1].name.Some?
    requires Blames(t.nodes[frames[|frames| - 1].dir], t.rules, |frames| - 1, frames[|frames| - 1].name.value, p)
    ensures Explains(t, maxEntries, p)
  {
    StackLeads(t, frames);
    var path := StackPath(frames);
    assert IsEntry(t.nodes, t.top, TopNames(t), path) && path[|path| - 1] == frames[|frames| - 1].name.value;
  }

  lemma {:induction false} TooManyExplains(t: Task, maxEntries: nat)
    requires Closed(t.nodes) && IsFolder(t.nodes, t.top) && maxEntries < Whole(t).entries
    ensures Explains(t, maxEntries, TooManyEntries)
  {
    var paths := UnderSums(t.nodes, t.rules, t.top, TopNames(t), 0);
  }

  /** If a folder holds more than the budget has room for, the tree is too big. */
  lemma {:induction false} TooBigFolderTooBigTree(
    t: Task, rank: Ino -> nat, maxEntries: nat, frames: seq<Frame>, done: Summary)
    requires Accounts(t, rank, frames, done) && frames != [] && frames[|frames| - 1].entries != []
    requires |frames| <= WALK_MAX_DEPTH && IsFolder(t.nodes, NextChild(t, frames))
    requires maxEntries < done.entries + Queued(frames) + |t.nodes[NextChild(t, frames)].entries|
    ensures maxEntries < Whole(t).entries
  {
    var c := NextChild(t, frames);
    PopAccounts(t, rank, frames, done);
    RestAtLeastQueued(t, Popped(frames));
    UnderAtLeastNames(t.nodes, t.rules, c, t.nodes[c].entries.Keys, |frames|);
    assert |t.nodes[c].entries.Keys| == |t.nodes[c].entries|;
  }

  // ---------------------------------------------------------------------
  // The disk being walked
  // ---------------------------------------------------------------------

  datatype Removal = Removed | Refused | NotEmptied

  /** What opening a path comes to before anything is walked. */
  datatype Lookup = Missing | Unreachable | Found(ino: Ino)

  class FileSystem {
    var nodes: Nodes

    /** Whether a mode can be changed without following links. */
    const chmodWorks: bool

    constructor (nodes: Nodes, chmodWorks: bool)
      ensures this.nodes == nodes && this.chmodWorks == chmodWorks
    {
      this.nodes := nodes;
      this.chmodWorks := chmodWorks;
    }

    /** A sorted listing that stops after `limit + 1` names. */
    method ListDir(dir: Ino, limit: nat) returns (names: seq<Name>)
      requires IsFolder(nodes, dir)
      ensures Ascending(names)
      ensures forall n :: n in names ==> n in nodes[dir].entries
      ensures |nodes[dir].entries| <= limit ==> NameSet(names) == nodes[dir].entries.Keys && |names| == |nodes[dir].entries|
      ensures |nodes[dir].entries| > limit ==> |names| == limit + 1
    {
      names := [];
      var unread := nodes[dir].entries.Keys;
      ghost var all := unread;
      while unread != {}
        invariant Ascending(names) && |names| <= limit
        invariant unread <= all && NameSet(names) == all - unread
        invariant |names| + |unread| == |all|
        decreases unread
      {
        var name :| name in unread;
        unread := unread - {name};
        assert name !in NameSet(names);
        ghost var before := names;
        names := InsertName(names, name);
        assert NameSet(names) == NameSet(before) + {name};
        if |names| > limit {
          break;
        }
      }
      assert forall n :: n in names ==> n in NameSet(names);
    }

    /** Open a folder for counting. */
    method OpenDir(ino: Ino) returns (ok: bool)
      requires IsFolder(nodes, ino)
      ensures ok == !nodes[ino].shut
    {
      ok := !nodes[ino].shut;
    }

    /** Open a folder to remove it: one that is shut gets one change of mode,
        where the platform has one that follows no link, and one more try. */
    method OpenDirToRemove(ino: Ino) returns (ok: bool)
      requires IsFolder(nodes, ino)
      modifies this
      ensures ok == (!old(nodes)[ino].shut || chmodWorks)
      ensures nodes == if ok then old(nodes)[ino := old(nodes)[ino].(shut := false)] else old(nodes)
    {
      var node := nodes[ino];
      ok := !node.shut;
      if !ok && chmodWorks {
        nodes := nodes[ino := node.(shut := false)];
        ok := true;
      }
      assert ok && !node.shut ==> nodes == nodes[ino := node.(shut := false)];
    }

    /** Give an open folder a mode it can be worked in. */
    method Unlock(ino: Ino)
      requires IsFolder(nodes, ino)
      modifies this
      ensures nodes == old(nodes)[ino := old(nodes)[ino].(shut := false)]
    {
      nodes := nodes[ino := nodes[ino].(shut := false)];
    }

    /** Take an entry that is not a folder out of `dir`. */
    method Unlink(dir: Ino, name: Name) returns (ok: bool)
      requires IsFolder(nodes, dir) && name in nodes[dir].entries && nodes[dir].entries[name] in nodes
      modifies this
      ensures ok == !old(nodes)[old(nodes)[dir].entries[name]].pinned
      ensures nodes == if ok then old(nodes)[dir := Without(old(nodes)[dir], name)] else old(nodes)
    {
      ok := !nodes[nodes[dir].entries[name]].pinned;
      if ok {
        nodes := nodes[dir := Without(nodes[dir], name)];
      }
    }

    /** Take a folder out of `dir`; only an empty one goes. */
    method Rmdir(dir: Ino, name: Name) returns (r: Removal)
      requires IsFolder(nodes, dir) && name in nodes[dir].entries && IsFolder(nodes, nodes[dir].entries[name])
      modifies this
      ensures var folder := old(nodes)[old(nodes)[dir].entries[name]];
              r == if folder.entries != map[] then NotEmptied else if folder.pinned then Refused else Removed
      ensures nodes == if r.Removed? then old(nodes)[dir := Without(old(nodes)[dir], name)] else old(nodes)
    {
      var folder := nodes[nodes[dir].entries[name]];
      if folder.entries != map[] {
        return NotEmptied;
      }
      if folder.pinned {
        return Refused;
      }
      nodes := nodes[dir := Without(nodes[dir], name)];
      r := Removed;
    }

    // -------------------------------------------------------------------
    // The walk, one step at a time
    // -------------------------------------------------------------------

    /** Pop a frame with nothing left to visit; a removal also takes its folder,
        emptied by now, out of the one under it. */
    method LeaveFolder(
      t: Task, ghost rank: Ino -> nat, maxEntries: nat, frames: seq<Frame>, seen: nat, walked: Walked,
      ghost done: Summary, ghost left: map<Ino, set<Name>>)
      returns (frames': seq<Frame>, walked': Walked, ghost left': map<Ino, set<Name>>)
      requires Walking(t, rank, maxEntries, frames, seen, walked, done, left, nodes)
      requires frames != [] && frames[|frames| - 1].entries == []
      modifies this
      ensures walked'.complete ==>
                frames' == frames[..|frames| - 1] && Walking(t, rank, maxEntries, frames', seen, walked', done, left', nodes)
      ensures !walked'.complete ==> Stopped(t, maxEntries, walked', nodes)
    {
      var k := |frames| - 1;
      frames', walked', left' := frames[..k], walked, LeftAfterLeaving(frames, left);
      LeaveStepWalks(t, rank, maxEntries, frames, seen, walked, done, left, nodes);
      if t.rules.mode.Remove? && k > 0 {
        LeavingIsEmpty(t, frames, done.folders, left, nodes);
        var name := frames[k].name.value;
        var r := Rmdir(frames[k - 1].dir, name);
        if !r.Removed? {
          PinnedStops(t, rank, maxEntries, frames, seen, walked, done, left, nodes, name);
          walked' := walked.Failed(if r.NotEmptied? then NotEmpty(name) else CouldNotRemove(name));
        }
      }
    }

    /** Visit an entry that is not a folder. */
    method VisitFile(
      t: Task, ghost rank: Ino -> nat, maxEntries: nat, frames: seq<Frame>, seen: nat, walked: Walked,
      ghost done: Summary, ghost left: map<Ino, set<Name>>)
      returns (frames': seq<Frame>, walked': Walked, ghost done': Summary, ghost left': map<Ino, set<Name>>)
      requires Walking(t, rank, maxEntries, frames, seen, walked, done, left, nodes)
      requires frames != [] && frames[|frames| - 1].entries != []
      requires NextOn(t, frames, nodes) && !t.nodes[NextChild(t, frames)].Folder?
      modifies this
      ensures walked'.complete ==> Walking(t, rank, maxEntries, frames', seen + 1, walked', done', left', nodes)
      ensures !walked'.complete ==> Stopped(t, maxEntries, walked', nodes)
    {
      var k := |frames| - 1;
      var dir, name := frames[k].dir, frames[k].entries[|frames[k].entries| - 1];
      var node := nodes[nodes[dir].entries[name]];
      walked' := walked.WithFile(FileSize(node));
      frames', done', left' := Popped(frames), AfterVisit(t, frames, done), LeftAfterVisit(t, frames, left);
      if Removable(node, t.rules) {
        FileStepWalks(t, rank, maxEntries, frames, seen, walked, done, left, nodes);
      }
      if t.rules.mode.Remove? {
        var ok := Unlink(dir, name);
        if !ok {
          // The file has been counted already; it is the removal that failed.
          CountedThenStopped(t, rank, maxEntries, frames, seen, walked, done, left, nodes, name);
          walked' := walked'.Failed(CouldNotRemove(name));
        }
      }
    }

    /** Open a folder found on the walk, unlocking it when it is to be emptied. */
    method OpenFound(t: Task, ino: Ino) returns (ok: bool)
      requires IsFolder(nodes, ino) && chmodWorks == t.rules.chmodWorks
      modifies this
      ensures ok == (old(nodes)[ino].shut ==> t.rules.mode.Remove? && t.rules.chmodWorks)
      ensures nodes == if ok && t.rules.mode.Remove? then old(nodes)[ino := old(nodes)[ino].(shut := false)] else old(nodes)
    {
      if t.rules.mode.Remove? {
        ok := OpenDirToRemove(ino);
        if ok {
          Unlock(ino);
        }
      } else {
        ok := OpenDir(ino);
      }
    }

    /** May a folder found `depth` levels down be entered? If so it is open. */
    method Admit(t: Task, child: Ino, name: Name, depth: nat) returns (problem: Option<Problem>)
      requires IsFolder(nodes, child) && chmodWorks == t.rules.chmodWorks
      modifies this
      ensures problem.None? <==> Enterable(old(nodes)[child], t.rules, depth)
      ensures problem.Some? ==> Blames(old(nodes)[child], t.rules, depth + 1, name, problem.value)
      ensures nodes == if problem.None? && t.rules.mode.Remove?
                       then old(nodes)[child := old(nodes)[child].(shut := false)] else old(nodes)
    {
      if nodes[child].dev != t.rules.rootDev {
        return Some(Mounted(name));
      }
      if depth + 1 > WALK_MAX_DEPTH {
        return Some(TooDeep);
      }
      var ok := OpenFound(t, child);
      problem := if ok then None else Some(CouldNotOpen(name));
    }

    /** Enter a folder: refuse another filesystem, another level too many and a
        folder that does not open; otherwise queue what is in it. */
    method EnterFolder(
      t: Task, ghost rank: Ino -> nat, maxEntries: nat, frames: seq<Frame>, seen: nat, walked: Walked,
      ghost done: Summary, ghost left: map<Ino, set<Name>>)
      returns (frames': seq<Frame>, walked': Walked, ghost done': Summary, ghost left': map<Ino, set<Name>>)
      requires Walking(t, rank, maxEntries, frames, seen, walked, done, left, nodes)
      requires frames != [] && frames[|frames| - 1].entries != [] && chmodWorks == t.rules.chmodWorks
      requires NextOn(t, frames, nodes) && t.nodes[NextChild(t, frames)].Folder?
      modifies this
      ensures walked'.complete ==> Walking(t, rank, maxEntries, frames', seen + 1, walked', done', left', nodes)
      ensures !walked'.complete ==> Stopped(t, maxEntries, walked', nodes)
    {
      var k := |frames| - 1;
      var dir, name := frames[k].dir, frames[k].entries[|frames[k].entries| - 1];
      frames', done', left' := frames, done, left;
      var child := nodes[dir].entries[name];
      var problem := Admit(t, child, name, k);
      if problem.Some? {
        BadEntryStops(t, rank, maxEntries, frames, seen, walked, done, left, nodes, problem.value);
        walked' := walked.Failed(problem.value);
      } else {
        frames', walked', done', left' := QueueFolder(t, rank, maxEntries, frames, seen, walked, done, left, child, name, old(nodes));
      }
    }

    /** Queue what is in an open folder, if the budget has room for it all. */
    method QueueFolder(
      t: Task, ghost rank: Ino -> nat, maxEntries: nat, frames: seq<Frame>, seen: nat, walked: Walked,
      ghost done: Summary, ghost left: map<Ino, set<Name>>, child: Ino, name: Name, ghost before: Nodes)
      returns (frames': seq<Frame>, walked': Walked, ghost done': Summary, ghost left': map<Ino, set<Name>>)
      requires Walking(t, rank, maxEntries, frames, seen, walked, done, left, before)
      requires NextOn(t, frames, before) && nodes == DiskAfterEntry(t, frames, before)
      requires child == NextChild(t, frames) && name == NextName(frames)
      requires t.nodes[child].Folder? && Enterable(t.nodes[child], t.rules, |frames| - 1)
      ensures walked'.complete ==> Walking(t, rank, maxEntries, frames', seen + 1, walked', done', left', nodes)
      ensures !walked'.complete ==> Stopped(t, maxEntries, walked', nodes)
    {
      frames', walked', done', left' := frames, walked, done, left;
      // Entries queued but not visited have been promised their part of the budget.
      var queued := QueuedOn(Popped(frames));
      BudgetHasRoom(t, rank, maxEntries, frames, seen, walked, done, left, before);
      var limit := maxEntries - (seen + 1) - queued;
      var names := ListDir(child, limit);
      if |names| > limit {
        StopsWithFolderOpen(t, rank, maxEntries, frames, seen, walked, done, left, before, nodes);
        walked' := walked.Failed(TooManyEntries);
      } else {
        FolderStepWalks(t, rank, maxEntries, frames, seen, walked, done, left, before, names);
        frames' := Popped(frames) + [Frame(child, names, Some(name))];
        done', left' := AfterVisit(t, frames, done), LeftAfterEntry(t, frames, left);
      }
    }

    /** Visit everything on the stack. */
    method WalkStack(
      t: Task, ghost rank: Ino -> nat, maxEntries: nat, frames0: seq<Frame>, walked0: Walked, ghost left0: map<Ino, set<Name>>)
      returns (walked: Walked)
      requires Walking(t, rank, maxEntries, frames0, 0, walked0, Nothing(), left0, nodes)
      requires chmodWorks == t.rules.chmodWorks
      modifies this
      ensures walked.complete ==> Finished(t, maxEntries, walked, nodes)
      ensures !walked.complete ==> Stopped(t, maxEntries, walked, nodes)
    {
      var frames, seen := frames0, 0;
      walked := walked0;
      ghost var done, left := Nothing(), left0;
      while frames != []
        invariant walked.complete
        invariant Walking(t, rank, maxEntries, frames, seen, walked, done, left, nodes)
        decreases maxEntries - seen, |frames|
      {
        if frames[|frames| - 1].entries == [] {
          frames, walked, left := LeaveFolder(t, rank, maxEntries, frames, seen, walked, done, left);
        } else {
          // The queue is part of the budget, so there is always room for its next entry.
          BudgetHasRoom(t, rank, maxEntries, frames, seen, walked, done, left, nodes);
          assert seen < maxEntries;
          frames, walked, done, left := VisitNext(t, rank, maxEntries, frames, seen, walked, done, left);
          seen := seen + 1;
        }
        if !walked.complete {
          return;
        }
      }
      EndsFinished(t, rank, maxEntries, seen, walked, done, left, nodes);
    }

    /** Visit the next entry queued. */
    method VisitNext(
      t: Task, ghost rank: Ino -> nat, maxEntries: nat, frames: seq<Frame>, seen: nat, walked: Walked,
      ghost done: Summary, ghost left: map<Ino, set<Name>>)
      returns (frames': seq<Frame>, walked': Walked, ghost done': Summary, ghost left': map<Ino, set<Name>>)
      requires Walking(t, rank, maxEntries, frames, seen, walked, done, left, nodes)
      requires frames != [] && frames[|frames| - 1].entries != [] && chmodWorks == t.rules.chmodWorks
      modifies this
      ensures walked'.complete ==> Walking(t, rank, maxEntries, frames', seen + 1, walked', done', left', nodes)
      ensures !walked'.complete ==> Stopped(t, maxEntries, walked', nodes)
    {
      NextOnDisk(t, rank, frames, done, left, nodes);
      var k := |frames| - 1;
      var dir, name := frames[k].dir, frames[k].entries[|frames[k].entries| - 1];
      if nodes[nodes[dir].entries[name]].Folder? {
        frames', walked', done', left' := EnterFolder(t, rank, maxEntries, frames, seen, walked, done, left);
      } else {
        frames', walked', done', left' := VisitFile(t, rank, maxEntries, frames, seen, walked, done, left);
      }
    }

    /** A whole walk from `top`, in either mode. */
    method WalkOnDevice(
      top: Ino, rootDev: int, skipTop: set<Name>, mode: WalkMode, maxEntries: nat, ghost rank: Ino -> nat)
      returns (walked: Walked)
      requires IsForest(nodes, rank) && IsFolder(nodes, top)
      modifies this
      ensures var t := Task(old(nodes), WalkRules(mode, rootDev, chmodWorks), top, skipTop);
              walked.complete ==> Finished(t, maxEntries, walked, nodes)
      ensures var t := Task(old(nodes), WalkRules(mode, rootDev, chmodWorks), top, skipTop);
              !walked.complete ==> Stopped(t, maxEntries, walked, nodes)
    {
      var t := Task(nodes, WalkRules(mode, rootDev, chmodWorks), top, skipTop);
      walked := Walked(0, 0, true, None);
      var topLimit := maxEntries + |skipTop|;
      var listed := ListDir(top, topLimit);
      var entries := PassOver(listed, skipTop);
      if |listed| > topLimit || |entries| > maxEntries {
        TooManyListed(t, rank, maxEntries, listed, entries);
        walked := walked.Failed(TooManyEntries);
        return;
      }
      PassedOver(t, listed, entries);
      StartsWalking(t, rank, maxEntries, entries);
      var frames := FirstFrames(top, entries);
      walked := WalkStack(t, rank, maxEntries, frames, walked, map[top := LeftIn(t, frames, 0)]);
    }

    /** Count a tree: nothing at all counts as an empty one, and a folder that
        does not open, or not to its end, gives an incomplete answer. */
    method CountTree(dir: Lookup, skipTop: set<Name>, cap: nat, ghost rank: Ino -> nat) returns (walked: Walked)
      requires IsForest(nodes, rank) && (dir.Found? ==> IsFolder(nodes, dir.ino))
      modifies this
      ensures nodes == old(nodes)
      ensures dir.Missing? ==> walked == Walked(0, 0, true, None)
      ensures dir.Unreachable? ==> walked == Walked(0, 0, false, Some(CouldNotOpen(0)))
      ensures dir.Found? ==>
                var folder := nodes[dir.ino];
                var t := Task(nodes, WalkRules(Count, folder.dev, chmodWorks), dir.ino, skipTop);
                && (walked.complete <==> !folder.shut && GetsThrough(t, cap))
                && (walked.complete ==>
                      walked.count == Saturated(Whole(t).files) && walked.bytes == Saturated(Whole(t).bytes))
                && walked.count <= Saturated(Whole(t).files) && walked.bytes <= Saturated(Whole(t).bytes)
                && (!walked.complete ==>
                      if folder.shut then walked.problem == Some(CouldNotOpen(0))
                      else walked.problem.Some? && Explains(t, cap, walked.problem.value))
    {
      walked := Walked(0, 0, true, None);
      match dir {
        case Missing =>
        case Unreachable =>
          walked := walked.Failed(CouldNotOpen(0));
        case Found(ino) =>
          var ok := OpenDir(ino);
          if !ok {
            walked := walked.Failed(CouldNotOpen(0));
            return;
          }
          walked := WalkOnDevice(ino, nodes[ino].dev, skipTop, Count, cap, rank);
      }
    }

    /** Remove what a path names: `where` is the folder it lies in, if it has one,
        and `name` its name there. */
    method RemoveTree(where: Option<Lookup>, name: Name, maxEntries: nat, ghost rank: Ino -> nat)
      returns (problem: Option<Problem>)
      requires IsForest(nodes, rank)
      requires where.Some? && where.value.Found? ==> IsFolder(nodes, where.value.ino)
      modifies this
      ensures !(where.Some? && where.value.Found?) ==> nodes == old(nodes)
      ensures where == None || where == Some(Unreachable) ==> problem.Some?
      ensures where == Some(Missing) ==> problem == None
      ensures where.Some? && where.value.Found? ==>
                RemovalOf(old(nodes), chmodWorks, where.value.ino, name, maxEntries, problem, nodes)
    {
      match where {
        case None => problem := Some(CouldNotRemove(name));
        case Some(Missing) => problem := None;
        case Some(Unreachable) => problem := Some(CouldNotOpen(name));
        case Some(Found(parent)) => problem := RemoveFrom(parent, name, maxEntries, rank);
      }
    }

    /** Remove what the folder `parent` holds as `name`; only a folder is walked,
        and nothing there is nothing to do. */
    method RemoveFrom(parent: Ino, name: Name, maxEntries: nat, ghost rank: Ino -> nat) returns (problem: Option<Problem>)
      requires IsForest(nodes, rank) && IsFolder(nodes, parent)
      modifies this
      ensures RemovalOf(old(nodes), chmodWorks, parent, name, maxEntries, problem, nodes)
    {
      if name !in nodes[parent].entries {
        return None;
      }
      assert Edge(nodes, parent, name, nodes[parent].entries[name]);
      var top := nodes[parent].entries[name];
      if !nodes[top].Folder? {
        var gone := Unlink(parent, name);
        return if gone then None else Some(CouldNotRemove(name));
      }
      var ok := OpenDirToRemove(top);
      if !ok {
        return Some(CouldNotOpen(name));
      }
      Unlock(top);
      problem := EmptyFolder(parent, name, maxEntries, rank, old(nodes));
    }

    /** Empty the folder just unlocked, and take it out of the one holding it. */
    method EmptyFolder(parent: Ino, name: Name, maxEntries: nat, ghost rank: Ino -> nat, ghost before: Nodes)
      returns (problem: Option<Problem>)
      requires IsForest(before, rank) && IsFolder(before, parent) && name in before[parent].entries
      requires IsFolder(before, before[parent].entries[name]) && nodes == Unlocked(before, before[parent].entries[name])
      requires before[before[parent].entries[name]].shut ==> chmodWorks
      modifies this
      ensures RemovalOf(before, chmodWorks, parent, name, maxEntries, problem, nodes)
    {
      assert Edge(before, parent, name, before[parent].entries[name]);
      var top := nodes[parent].entries[name];
      UnlockedIsForest(before, rank, top);
      var walked := WalkOnDevice(top, nodes[top].dev, {}, Remove, maxEntries, rank);
      RemovedBelow(before, rank, chmodWorks, parent, name, maxEntries, walked, nodes);
      if walked.problem.Some? {
        return walked.problem;
      }
      var r := Rmdir(parent, name);
      problem := match r
                 case Removed => None
                 case Refused => Some(CouldNotRemove(name))
                 case NotEmptied => Some(NotEmpty(name));
    }
  }

  /** A removal of what `parent` holds as `name`, from one disk to another: it
      succeeds exactly when it can, then nothing goes by that name, and outside
      the tree only that one entry is ever touched, and nothing on another device
      than the tree's. */
  ghost predicate RemovalOf(
    before: Nodes, chmodWorks: bool, parent: Ino, name: Name, maxEntries: nat, problem: Option<Problem>, after: Nodes)
    requires IsFolder(before, parent)
  {
    && Closed(before)
    && (problem.None? <==> RemovesTree(before, chmodWorks, parent, name, maxEntries))
    && after.Keys == before.Keys
    && (problem.None? ==> IsFolder(after, parent) && name !in after[parent].entries)
    && (forall f :: f in after && !InTree(before, chmodWorks, parent, name, f) && f != parent ==> after[f] == before[f])
    && (forall f :: f in after && f != parent && after[f] != before[f] ==> BesideTree(before, parent, name, f))
    && IsFolder(after, parent)
    && (after[parent] == before[parent] || after[parent] == Without(before[parent], name))
  }

  /** `f` is a folder on the device of the folder `parent` holds as `name`. */
  predicate BesideTree(disk: Nodes, parent: Ino, name: Name, f: Ino)
    requires IsFolder(disk, parent)
  {
    && name in disk[parent].entries && IsFolder(disk, disk[parent].entries[name])
    && IsFolder(disk, f) && disk[f].dev == disk[disk[parent].entries[name]].dev
  }

  /** The disk once the folder `top` has been given a mode it can be worked in. */
  function Unlocked(disk: Nodes, top: Ino): Nodes
    requires IsFolder(disk, top)
  {
    disk[top := disk[top].(shut := false)]
  }

  ghost function RemoveTask(disk: Nodes, chmodWorks: bool, top: Ino): Task
    requires IsFolder(disk, top)
  {
    Task(Unlocked(disk, top), WalkRules(Remove, disk[top].dev, chmodWorks), top, {})
  }

  lemma {:induction false} UnlockedIsForest(disk: Nodes, rank: Ino -> nat, top: Ino)
    requires IsForest(disk, rank) && IsFolder(disk, top)
    ensures IsForest(Unlocked(disk, top), rank)
  {
    assert forall d, n, c :: Edge(Unlocked(disk, top), d, n, c) <==> Edge(disk, d, n, c);
  }

  /** Is what `parent` holds as `name` something a removal gets rid of? */
  ghost predicate RemovesTree(disk: Nodes, chmodWorks: bool, parent: Ino, name: Name, maxEntries: nat)
    requires Closed(disk) && IsFolder(disk, parent)
  {
    name in disk[parent].entries ==>
      var top := disk[parent].entries[name];
      assert Edge(disk, parent, name, top);
      && !disk[top].pinned
      && (disk[top].Folder? ==>
            && (disk[top].shut ==> chmodWorks)
            && Closed(Unlocked(disk, top))
            && GetsThrough(RemoveTask(disk, chmodWorks, top), maxEntries))
  }

  /** Is `f` the folder `parent` holds as `name`, or one below it? */
  ghost predicate InTree(disk: Nodes, chmodWorks: bool, parent: Ino, name: Name, f: Ino)
    requires IsFolder(disk, parent)
  {
    && name in disk[parent].entries
    && var top := disk[parent].entries[name];
       && IsFolder(disk, top)
       && (f == top || (Closed(Unlocked(disk, top)) && f in Whole(RemoveTask(disk, chmodWorks, top)).folders))
  }

  /** After the walk the folder the tree was in is as it was, and if the walk
      finished the tree's own folder is empty. */
  lemma {:induction false} RemovedBelow(
    disk: Nodes, rank: Ino -> nat, chmodWorks: bool, parent: Ino, name: Name, maxEntries: nat, walked: Walked, disk': Nodes)
    requires IsForest(disk, rank) && IsFolder(disk, parent) && name in disk[parent].entries
    requires IsFolder(disk, disk[parent].entries[name])
    requires var t := RemoveTask(disk, chmodWorks, disk[parent].entries[name]);
             && (walked.complete ==> Finished(t, maxEntries, walked, disk'))
             && (!walked.complete ==> Stopped(t, maxEntries, walked, disk'))
    ensures disk'.Keys == disk.Keys && disk'[parent] == disk[parent]
    ensures forall f :: f in disk' && !InTree(disk, chmodWorks, parent, name, f) ==> disk'[f] == disk[f]
    ensures forall f :: f in disk' && disk'[f] != disk[f] ==> BesideTree(disk, parent, name, f)
    ensures var top := disk[parent].entries[name];
            && IsFolder(disk', top) && disk'[top].pinned == disk[top].pinned
            && (walked.complete ==> disk'[top].entries == map[])
            && Closed(Unlocked(disk, top))
  {
    var top := disk[parent].entries[name];
    var t := RemoveTask(disk, chmodWorks, top);
    assert Edge(disk, parent, name, top);
    UnlockedIsForest(disk, rank, top);
    if parent in Whole(t).folders {
      FoldersLieDeeper(t.nodes, rank, t.rules, top, TopNames(t), 0, parent);
    }
    if walked.complete {
      assert disk'[top].entries.Keys == {};
    }
  }

  /** The entry about to be visited is on disk as it was when the walk began. */
  ghost predicate NextOn(t: Task, frames: seq<Frame>, disk: Nodes) {
    && frames != [] && frames[|frames| - 1].entries != [] && FrameFits(t, frames[|frames| - 1])
    && NextEntryOnDisk(t, frames, disk)
    && NextChild(t, frames) in disk && NextChild(t, frames) in t.nodes
    && disk[NextChild(t, frames)] == t.nodes[NextChild(t, frames)]
  }

  lemma {:induction false} NextOnDisk(
    t: Task, rank: Ino -> nat, frames: seq<Frame>, done: Summary, left: map<Ino, set<Name>>, disk: Nodes)
    requires Accounts(t, rank, frames, done) && frames != [] && frames[|frames| - 1].entries != []
    requires DiskAgrees(t, frames, done.folders, left, disk)
    ensures NextOn(t, frames, disk)
    ensures t.rules.mode.Remove? ==> NextChild(t, frames) !in left
  {
    assert FrameFits(t, frames[|frames| - 1]);
    NextIsEdge(t, frames);
    if t.rules.mode.Remove? {
      EntryIsOnDisk(t, frames, done.folders, left, disk);
      if IsFolder(t.nodes, NextChild(t, frames)) {
        NextFolderIsNew(t, rank, frames, done);
      }
    }
  }

  lemma {:induction false} BudgetHasRoom(
    t: Task, rank: Ino -> nat, maxEntries: nat, frames: seq<Frame>, seen: nat, walked: Walked,
    done: Summary, left: map<Ino, set<Name>>, disk: Nodes)
    requires Walking(t, rank, maxEntries, frames, seen, walked, done, left, disk)
    requires frames != [] && frames[|frames| - 1].entries != []
    ensures seen + 1 + Queued(Popped(frames)) <= maxEntries
  {
  }

  /** The accounts once the next entry itself has been dealt with. */
  ghost function AfterVisit(t: Task, frames: seq<Frame>, done: Summary): Summary
    requires frames != [] && frames[|frames| - 1].entries != [] && FrameFits(t, frames[|frames| - 1])
    requires NextChild(t, frames) in t.nodes
  {
    Plus(done, Itself(t.nodes, t.rules, NextChild(t, frames), |frames| - 1))
  }

  ghost function LeftAfterVisit(t: Task, frames: seq<Frame>, left: map<Ino, set<Name>>): map<Ino, set<Name>>
    requires frames != [] && frames[|frames| - 1].entries != []
  {
    var dir := frames[|frames| - 1].dir;
    if dir in left then left[dir := left[dir] - {NextName(frames)}] else left
  }

  ghost function LeftAfterEntry(t: Task, frames: seq<Frame>, left: map<Ino, set<Name>>): map<Ino, set<Name>>
    requires frames != [] && frames[|frames| - 1].entries != [] && FrameFits(t, frames[|frames| - 1])
    requires IsFolder(t.nodes, NextChild(t, frames))
  {
    left[NextChild(t, frames) := t.nodes[NextChild(t, frames)].entries.Keys]
  }

  /** The disk once the file about to be visited is gone. */
  ghost function DiskAfterVisit(t: Task, frames: seq<Frame>, disk: Nodes): Nodes
    requires frames != [] && frames[|frames| - 1].entries != []
  {
    var dir := frames[|frames| - 1].dir;
    if t.rules.mode.Remove? && IsFolder(disk, dir) then disk[dir := Without(disk[dir], NextName(frames))] else disk
  }

  /** The disk once the folder about to be entered is open. */
  ghost function DiskAfterEntry(t: Task, frames: seq<Frame>, disk: Nodes): Nodes
    requires frames != [] && frames[|frames| - 1].entries != [] && FrameFits(t, frames[|frames| - 1])
  {
    var c := NextChild(t, frames);
    if t.rules.mode.Remove? && IsFolder(disk, c) then disk[c := disk[c].(shut := false)] else disk
  }

  /** The disk once the folder being left has been taken out of the one below it. */
  ghost function DiskAfterLeaving(t: Task, frames: seq<Frame>, disk: Nodes): Nodes
    requires frames != []
  {
    var k := |frames| - 1;
    if t.rules.mode.Remove? && k > 0 && frames[k].name.Some? && IsFolder(disk, frames[k - 1].dir)
    then disk[frames[k - 1].dir := Without(disk[frames[k - 1].dir], frames[k].name.value)]
    else disk
  }

  /** Leaving a folder keeps the walk going, if its entry may go. */
  lemma {:induction false} LeaveStepWalks(
    t: Task, rank: Ino -> nat, maxEntries: nat, frames: seq<Frame>, seen: nat, walked: Walked,
    done: Summary, left: map<Ino, set<Name>>, disk: Nodes)
    requires Walking(t, rank, maxEntries, frames, seen, walked, done, left, disk)
    requires frames != [] && frames[|frames| - 1].entries == []
    ensures IsFolder(t.nodes, frames[|frames| - 1].dir)
    ensures |frames| == 1 || Removable(t.nodes[frames[|frames| - 1].dir], t.rules) ==>
              Walking(t, rank, maxEntries, frames[..|frames| - 1], seen, walked, done,
                      LeftAfterLeaving(frames, left), DiskAfterLeaving(t, frames, disk))
  {
    var k := |frames| - 1;
    assert FrameFits(t, frames[k]);
    if |frames| == 1 || Removable(t.nodes[frames[k].dir], t.rules) {
      LeaveStepAccounts(t, rank, frames, done);
      if t.rules.mode.Remove? {
        LeaveStepLeft(t, frames, done.folders, left);
        LeavingDisk(t, frames, left, disk);
      }
    }
  }

  lemma {:induction false} LeavingDisk(t: Task, frames: seq<Frame>, left: map<Ino, set<Name>>, disk: Nodes)
    requires Path(t, frames) && frames != [] && t.rules.mode.Remove?
    requires LeftOnStack(t, frames, left) && DiskHolds(t, left, disk)
    ensures DiskHolds(t, LeftAfterLeaving(frames, left), DiskAfterLeaving(t, frames, disk))
  {
    var k := |frames| - 1;
    if k > 0 {
      assert FrameLinked(t, frames, k);
      UnlinkedDisk(t, left, disk, frames[k - 1].dir, frames[k].name.value);
    }
  }

  /** A pinned folder on the stack is reason to stop. */
  lemma {:induction false} PinnedStops(
    t: Task, rank: Ino -> nat, maxEntries: nat, frames: seq<Frame>, seen: nat, walked: Walked,
    done: Summary, left: map<Ino, set<Name>>, disk: Nodes, name: Name)
    requires Walking(t, rank, maxEntries, frames, seen, walked, done, left, disk) && frames != []
    requires frames[|frames| - 1].name == Some(name)
    requires |frames| > 1 && IsFolder(t.nodes, frames[|frames| - 1].dir) && t.rules.mode.Remove?
    requires t.nodes[frames[|frames| - 1].dir].pinned
    ensures Stopped(t, maxEntries, walked.Failed(CouldNotRemove(name)), disk)
  {
    assert !NonePinned(t, frames);
    LastExplains(t, frames, maxEntries, CouldNotRemove(name));
    StopsRightly(t, rank, maxEntries, frames, seen, walked, done, left, disk, CouldNotRemove(name));
  }

  /** A file counted is a file more in the accounts. */
  lemma {:induction false} VisitCounts(t: Task, frames: seq<Frame>, done: Summary, walked: Walked)
    requires frames != [] && frames[|frames| - 1].entries != [] && FrameFits(t, frames[|frames| - 1])
    requires NextChild(t, frames) in t.nodes && !t.nodes[NextChild(t, frames)].Folder?
    requires walked == Walked(Saturated(done.files), Saturated(done.bytes), true, None)
    ensures var after := AfterVisit(t, frames, done);
            && walked.WithFile(FileSize(t.nodes[NextChild(t, frames)]))
                 == Walked(Saturated(after.files), Saturated(after.bytes), true, None)
            && after.folders == done.folders && after.entries == done.entries + 1
  {
  }

  /** Visiting a file keeps the walk going, if the file may go. */
  lemma {:induction false} FileStepWalks(
    t: Task, rank: Ino -> nat, maxEntries: nat, frames: seq<Frame>, seen: nat, walked: Walked,
    done: Summary, left: map<Ino, set<Name>>, disk: Nodes)
    requires Walking(t, rank, maxEntries, frames, seen, walked, done, left, disk)
    requires NextOn(t, frames, disk) && !t.nodes[NextChild(t, frames)].Folder?
    requires Removable(t.nodes[NextChild(t, frames)], t.rules)
    ensures Walking(t, rank, maxEntries, Popped(frames), seen + 1, walked.WithFile(FileSize(t.nodes[NextChild(t, frames)])),
                    AfterVisit(t, frames, done), LeftAfterVisit(t, frames, left), DiskAfterVisit(t, frames, disk))
  {
    PopTakesOne(frames);
    FileStepAccounts(t, rank, frames, done);
    VisitCounts(t, frames, done, walked);
    VisitedDisk(t, frames, done.folders, left, disk);
  }

  lemma {:induction false} VisitedDisk(t: Task, frames: seq<Frame>, entered: set<Ino>, left: map<Ino, set<Name>>, disk: Nodes)
    requires Path(t, frames) && frames != [] && frames[|frames| - 1].entries != []
    requires DiskAgrees(t, frames, entered, left, disk)
    ensures DiskAgrees(t, Popped(frames), entered, LeftAfterVisit(t, frames, left), DiskAfterVisit(t, frames, disk))
  {
    if t.rules.mode.Remove? {
      FileStepLeft(t, frames, entered, left);
      UnlinkedDisk(t, left, disk, frames[|frames| - 1].dir, NextName(frames));
    }
  }

  /** Entering a folder keeps the walk going, if the budget has room for what is in it. */
  lemma {:induction false} FolderStepWalks(
    t: Task, rank: Ino -> nat, maxEntries: nat, frames: seq<Frame>, seen: nat, walked: Walked,
    done: Summary, left: map<Ino, set<Name>>, disk: Nodes, names: seq<Name>)
    requires Walking(t, rank, maxEntries, frames, seen, walked, done, left, disk)
    requires NextOn(t, frames, disk) && t.nodes[NextChild(t, frames)].Folder?
    requires Enterable(t.nodes[NextChild(t, frames)], t.rules, |frames| - 1)
    requires Ascending(names) && NameSet(names) == t.nodes[NextChild(t, frames)].entries.Keys
    requires seen + 1 + Queued(Popped(frames)) + |names| <= maxEntries
    ensures Walking(t, rank, maxEntries, Pushed(t, frames, names), seen + 1, walked,
                    AfterVisit(t, frames, done), LeftAfterEntry(t, frames, left), DiskAfterEntry(t, frames, disk))
  {
    FolderStepAccounts(t, rank, frames, done, names);
    assert Pushed(t, frames, names)[..|frames|] == Popped(frames);
    assert AfterVisit(t, frames, done).folders == done.folders + {NextChild(t, frames)};
    if t.rules.mode.Remove? {
      NextOnDisk(t, rank, frames, done, left, disk);
      EntryOnDisk(t, frames, done.folders, left, disk, names);
    }
  }

  lemma {:induction false} EntryOnDisk(
    t: Task, frames: seq<Frame>, entered: set<Ino>, left: map<Ino, set<Name>>, disk: Nodes, names: seq<Name>)
    requires Path(t, frames) && LeftMatches(t, frames, entered, left) && DiskHolds(t, left, disk)
    requires t.rules.mode.Remove? && NextOn(t, frames, disk) && t.nodes[NextChild(t, frames)].Folder?
    requires NextChild(t, frames) !in left && NameSet(names) == t.nodes[NextChild(t, frames)].entries.Keys
    ensures LeftMatches(t, Pushed(t, frames, names), entered + {NextChild(t, frames)}, LeftAfterEntry(t, frames, left))
    ensures DiskHolds(t, LeftAfterEntry(t, frames, left), DiskAfterEntry(t, frames, disk))
  {
    FolderStepLeft(t, frames, names, entered, left);
    OpenedDisk(t, left, disk, NextChild(t, frames), disk[NextChild(t, frames)].(shut := false));
  }

  /** An entry that cannot be got through is reason to stop. */
  lemma {:induction false} BadEntryStops(
    t: Task, rank: Ino -> nat, maxEntries: nat, frames: seq<Frame>, seen: nat, walked: Walked,
    done: Summary, left: map<Ino, set<Name>>, disk: Nodes, p: Problem)
    requires Walking(t, rank, maxEntries, frames, seen, walked, done, left, disk)
    requires NextOn(t, frames, disk) && !Itself(t.nodes, t.rules, NextChild(t, frames), |frames| - 1).ok
    requires Blames(t.nodes[NextChild(t, frames)], t.rules, |frames|, NextName(frames), p)
    ensures Stopped(t, maxEntries, walked.Failed(p), disk)
  {
    BadEntryBadTree(t, rank, frames, done);
    NextExplains(t, frames, maxEntries, p);
    StopsRightly(t, rank, maxEntries, frames, seen, walked, done, left, disk, p);
  }

  /** A file that was counted but could not be removed. */
  lemma {:induction false} CountedThenStopped(
    t: Task, rank: Ino -> nat, maxEntries: nat, frames: seq<Frame>, seen: nat, walked: Walked,
    done: Summary, left: map<Ino, set<Name>>, disk: Nodes, name: Name)
    requires Walking(t, rank, maxEntries, frames, seen, walked, done, left, disk)
    requires NextOn(t, frames, disk) && !t.nodes[NextChild(t, frames)].Folder? && name == NextName(frames)
    requires !Removable(t.nodes[NextChild(t, frames)], t.rules)
    ensures Stopped(t, maxEntries, walked.WithFile(FileSize(t.nodes[NextChild(t, frames)])).Failed(CouldNotRemove(name)), disk)
  {
    BadEntryStops(t, rank, maxEntries, frames, seen, walked, done, left, disk, CouldNotRemove(name));
    VisitedIsPart(t, rank, frames, done);
    VisitCounts(t, frames, done, walked);
    CountedStaysStopped(t, maxEntries, walked.Failed(CouldNotRemove(name)),
                        walked.WithFile(FileSize(t.nodes[NextChild(t, frames)])).Failed(CouldNotRemove(name)), disk);
  }

  /** What is done once the next file has been counted is still part of the whole. */
  lemma {:induction false} VisitedIsPart(t: Task, rank: Ino -> nat, frames: seq<Frame>, done: Summary)
    requires Accounts(t, rank, frames, done) && frames != [] && frames[|frames| - 1].entries != []
    requires NextChild(t, frames) in t.nodes && !t.nodes[NextChild(t, frames)].Folder?
    ensures AfterVisit(t, frames, done).files <= Whole(t).files && AfterVisit(t, frames, done).bytes <= Whole(t).bytes
  {
    PopAccounts(t, rank, frames, done);
  }

  lemma {:induction false} CountedStaysStopped(t: Task, maxEntries: nat, walked: Walked, walked': Walked, disk: Nodes)
    requires Stopped(t, maxEntries, walked, disk) && !walked'.complete && walked'.problem == walked.problem
    requires walked'.count <= Saturated(Whole(t).files) && walked'.bytes <= Saturated(Whole(t).bytes)
    ensures Stopped(t, maxEntries, walked', disk)
  {
  }

  /** A folder with more in it than the budget has room for is reason to stop,
      its mode changed but nothing in it touched. */
  lemma {:induction false} StopsWithFolderOpen(
    t: Task, rank: Ino -> nat, maxEntries: nat, frames: seq<Frame>, seen: nat, walked: Walked,
    done: Summary, left: map<Ino, set<Name>>, disk: Nodes, disk': Nodes)
    requires Walking(t, rank, maxEntries, frames, seen, walked, done, left, disk)
    requires NextOn(t, frames, disk) && t.nodes[NextChild(t, frames)].Folder? && |frames| <= WALK_MAX_DEPTH
    requires OnDevice(t, NextChild(t, frames))
    requires maxEntries < seen + 1 + Queued(Popped(frames)) + |t.nodes[NextChild(t, frames)].entries|
    requires disk' == DiskAfterEntry(t, frames, disk)
    ensures Stopped(t, maxEntries, walked.Failed(TooManyEntries), disk')
  {
    PopKeepsPath(t, frames);
    TooBigFolderTooBigTree(t, rank, maxEntries, frames, done);
    TooManyExplains(t, maxEntries);
    StopsRightly(t, rank, maxEntries, frames, seen, walked, done, left, disk, TooManyEntries);
    NextIsInside(t, rank, frames, done);
    ModeChangeStaysInside(t, disk, NextChild(t, frames), disk');
  }

  lemma {:induction false} NextIsInside(t: Task, rank: Ino -> nat, frames: seq<Frame>, done: Summary)
    requires Accounts(t, rank, frames, done) && frames != [] && frames[|frames| - 1].entries != []
    requires IsFolder(t.nodes, NextChild(t, frames))
    ensures NextChild(t, frames) in Whole(t).folders
  {
    PopAccounts(t, rank, frames, done);
  }

  lemma {:induction false} ModeChangeStaysInside(t: Task, disk: Nodes, c: Ino, disk': Nodes)
    requires Closed(t.nodes) && IsFolder(t.nodes, t.top) && OnlyInside(t, disk)
    requires c in Whole(t).folders && OnDevice(t, c)
    requires disk' == disk || (t.rules.mode.Remove? && IsFolder(disk, c) && disk' == disk[c := disk[c].(shut := false)])
    ensures OnlyInside(t, disk')
  {
  }

  method QueuedOn(frames: seq<Frame>) returns (queued: nat)
    ensures queued == Queued(frames)
  {
    queued := 0;
    assert frames[..0] == [];
    for i := 0 to |frames|
      invariant queued == Queued(frames[..i])
    {
      assert frames[..i + 1][..i] == frames[..i];
      queued := queued + |frames[i].entries|;
    }
    assert frames[..|frames|] == frames;
  }

  /** The names of a listing that are not to be passed over. */
  method PassOver(names: seq<Name>, skip: set<Name>) returns (out: seq<Name>)
    requires Ascending(names)
    ensures Ascending(out)
    ensures forall n :: n in out <==> n in names && n !in skip
  {
    out := [];
    for i := 0 to |names|
      invariant Ascending(out)
      invariant forall n :: n in out <==> n in names[..i] && n !in skip
    {
      assert names[..i + 1] == names[..i] + [names[i]];
      assert forall n :: n in names[..i] ==> n < names[i];
      if names[i] !in skip {
        assert forall k :: 0 <= k < |out| ==> out[k] in out;
        out := out + [names[i]];
      }
    }
    assert names[..|names|] == names;
  }

  /** What is left of a full listing of the top is what there is to visit. */
  lemma {:induction false} PassedOver(t: Task, listed: seq<Name>, entries: seq<Name>)
    requires IsFolder(t.nodes, t.top) && NameSet(listed) == t.nodes[t.top].entries.Keys
    requires forall n :: n in entries <==> n in listed && n !in t.skip
    ensures NameSet(entries) == TopNames(t)
  {
  }

  lemma {:induction false} TooManyListed(t: Task, rank: Ino -> nat, maxEntries: nat, listed: seq<Name>, entries: seq<Name>)
    requires GoodTask(t, rank) && Ascending(entries)
    requires forall n :: n in entries <==> n in listed && n !in t.skip
    requires var here, limit := t.nodes[t.top].entries, maxEntries + |t.skip|;
             if |here| <= limit then NameSet(listed) == here.Keys && maxEntries < |entries| else true
    ensures Stopped(t, maxEntries, Walked(0, 0, true, None).Failed(TooManyEntries), t.nodes)
  {
    if |t.nodes[t.top].entries| <= maxEntries + |t.skip| {
      PassedOver(t, listed, entries);
      NameSetSize(entries);
    }
    TooManyAtTop(t, rank, maxEntries);
  }

  /** A top folder with too many names in it is a tree with too many entries. */
  lemma {:induction false} TooManyAtTop(t: Task, rank: Ino -> nat, maxEntries: nat)
    requires GoodTask(t, rank)
    requires maxEntries + |t.skip| < |t.nodes[t.top].entries| || maxEntries < |TopNames(t)|
    ensures Stopped(t, maxEntries, Walked(0, 0, true, None).Failed(TooManyEntries), t.nodes)
  {
    var keys := t.nodes[t.top].entries.Keys;
    assert keys == TopNames(t) + keys * t.skip;
    SubsetSize(keys * t.skip, t.skip);
    UnderAtLeastNames(t.nodes, t.rules, t.top, TopNames(t), 0);
    assert |keys| == |t.nodes[t.top].entries|;
    TooManyExplains(t, maxEntries);
    TreeFoldersAreFolders(t, rank);
  }

  /** The stack a walk starts with. */
  function FirstFrames(top: Ino, entries: seq<Name>): seq<Frame> {
    [Frame(top, entries, None)]
  }

  lemma {:induction false} StartsAccounted(t: Task, rank: Ino -> nat, entries: seq<Name>)
    requires GoodTask(t, rank)
    requires Ascending(entries) && NameSet(entries) == TopNames(t)
    ensures Accounts(t, rank, FirstFrames(t.top, entries), Nothing())
    ensures Queued(FirstFrames(t.top, entries)) == |entries|
  {
    var frames := FirstFrames(t.top, entries);
    StartsOnPath(t, entries);
    assert FrameFits(t, frames[0]);
    StartsWithAll(t, entries);
    assert NonePinned(t, frames);
    assert AllEnteredOnce(t, rank, frames, {}) && StackEntered(frames, {});
  }

  lemma {:induction false} StartsOnPath(t: Task, entries: seq<Name>)
    requires IsFolder(t.nodes, t.top) && Ascending(entries) && NameSet(entries) == TopNames(t)
    ensures Path(t, FirstFrames(t.top, entries))
  {
    var frames := FirstFrames(t.top, entries);
    assert forall n :: n in entries ==> n in NameSet(entries);
    assert FrameFits(t, frames[0]) && FrameLinked(t, frames, 0);
  }

  lemma {:induction false} StartsWithAll(t: Task, entries: seq<Name>)
    requires Closed(t.nodes) && FrameFits(t, Frame(t.top, entries, None)) && NameSet(entries) == TopNames(t)
    ensures Plus(Nothing(), Rest(t, FirstFrames(t.top, entries))) == Whole(t)
    ensures Queued(FirstFrames(t.top, entries)) == |entries|
  {
  }

  lemma {:induction false} StartsWalking(t: Task, rank: Ino -> nat, maxEntries: nat, entries: seq<Name>)
    requires GoodTask(t, rank)
    requires Ascending(entries) && NameSet(entries) == TopNames(t) && |entries| <= maxEntries
    ensures var frames := FirstFrames(t.top, entries);
            Walking(t, rank, maxEntries, frames, 0, Walked(0, 0, true, None), Nothing(), map[t.top := LeftIn(t, frames, 0)], t.nodes)
  {
    StartsAccounted(t, rank, entries);
    StartsOnDisk(t, entries);
  }

  lemma {:induction false} StartsOnDisk(t: Task, entries: seq<Name>)
    requires IsFolder(t.nodes, t.top) && NameSet(entries) == TopNames(t)
    ensures var frames := FirstFrames(t.top, entries);
            var left := map[t.top := LeftIn(t, frames, 0)];
            LeftMatches(t, frames, {}, left) && DiskHolds(t, left, t.nodes)
  {
  }

  lemma {:induction false} EndsFinished(
    t: Task, rank: Ino -> nat, maxEntries: nat, seen: nat, walked: Walked,
    done: Summary, left: map<Ino, set<Name>>, disk: Nodes)
    requires Walking(t, rank, maxEntries, [], seen, walked, done, left, disk)
    ensures Finished(t, maxEntries, walked, disk)
  {
    DoneIsPart(t, rank, [], done);
    WalkingStaysInside(t, rank, [], done, left, disk);
    assert Whole(t) == done;
    if t.rules.mode.Remove? {
      EndsEmptied(t, rank, done.folders, left, disk);
    }
  }

  lemma {:induction false} EndsEmptied(t: Task, rank: Ino -> nat, entered: set<Ino>, left: map<Ino, set<Name>>, disk: Nodes)
    requires GoodTask(t, rank) && AllEnteredOnce(t, rank, [], entered)
    requires LeftMatches(t, [], entered, left) && DiskHolds(t, left, disk)
    ensures IsFolder(disk, t.top) && disk[t.top].entries.Keys == t.nodes[t.top].entries.Keys * t.skip
    ensures forall f :: f in entered ==> IsFolder(disk, f) && disk[f].entries == map[]
  {
    assert !OnStack([], t.top);
    assert HoldsOnly(disk[t.top], t.nodes[t.top], t.skip);
    forall f | f in entered
      ensures IsFolder(disk, f) && disk[f].entries == map[]
    {
      assert EnteredOnce(t, rank, [], entered, f);
      assert !OnStack([], f) && f in left && left[f] == {};
    }
  }

  lemma {:induction false} SubsetSize(a: set<Name>, b: set<Name>)
    requires a <= b
    ensures |a| <= |b|
  {
    assert b == a + (b - a);
  }

  /** Insertion of a new name into an ascending list. */
  method InsertName(names: seq<Name>, name: Name) returns (out: seq<Name>)
    requires Ascending(names) && name !in names
    ensures Ascending(out) && |out| == |names| + 1
    ensures forall n :: n in out <==> n in names || n == name
  {
    var i := 0;
    while i < |names| && names[i] < name
      invariant 0 <= i <= |names|
      invariant forall k :: 0 <= k < i ==> names[k] < name
    {
      i := i + 1;
    }
    InsertedAt(names, name, i);
    out := names[..i] + [name] + names[i..];
  }

  lemma {:induction false} InsertedAt(names: seq<Name>, name: Name, i: nat)
    requires Ascending(names) && name !in names && i <= |names|
    requires forall k :: 0 <= k < i ==> names[k] < name
    requires i < |names| ==> name <= names[i]
    ensures var out := names[..i] + [name] + names[i..];
            Ascending(out) && forall n :: n in out <==> n in names || n == name
  {
  }
}
