/** What the answer of a walk says about the entries of the tree, one by one. */
module TreeCount {
  import opened Options
  import opened FileTree
  import opened TreeListing
  import opened WalkState
  import opened TreeWalk

  /** A 64-bit counter shows `n`, or its largest value if `n` is beyond it. */
  predicate Shows(counter: nat, n: nat) {
    if n < 0x1_0000_0000_0000_0000 then counter == n else counter == 0xFFFF_FFFF_FFFF_FFFF
  }

  /** A walk gets to the end of a tree exactly when it can get past every entry
      in it and there are no more of them than it may visit. */
  lemma {:induction false} GetsThroughExactly(t: Task, maxEntries: nat)
    requires Closed(t.nodes) && IsFolder(t.nodes, t.top)
    ensures GetsThrough(t, maxEntries) <==>
              && AllPassable(t.nodes, t.rules, t.top, TopNames(t), 0)
              && exists paths :: Lists(t.nodes, t.top, TopNames(t), paths) && |paths| <= maxEntries
  {
    OkExactly(t.nodes, t.rules, t.top, TopNames(t), 0);
    var listing := UnderSums(t.nodes, t.rules, t.top, TopNames(t), 0);
    if Whole(t).ok {
      SumsList(t, listing);
      forall paths | Lists(t.nodes, t.top, TopNames(t), paths)
        ensures |paths| == |listing|
      {
        SameLength(t.nodes, t.top, TopNames(t), paths, listing);
      }
    }
  }

  lemma {:induction false} SumsList(t: Task, paths: seq<seq<Name>>)
    requires Closed(t.nodes) && IsFolder(t.nodes, t.top) && Whole(t).ok
    requires Sums(t.nodes, t.top, TopNames(t), Whole(t), paths)
    ensures Lists(t.nodes, t.top, TopNames(t), paths)
  {
    forall path | IsEntry(t.nodes, t.top, TopNames(t), path)
      ensures path in paths
    {
      assert Summed(t.nodes, t.top, Whole(t), paths, path);
    }
  }

  /** A walk that got to the end: its count is the number of entries that are not
      folders, its bytes are the sum of what its regular files hold,
      it got past every one, and a removal left every folder empty. */
  lemma {:induction false} FinishedMeans(t: Task, maxEntries: nat, walked: Walked, disk: Nodes) returns (paths: seq<seq<Name>>)
    requires Finished(t, maxEntries, walked, disk)
    ensures Lists(t.nodes, t.top, TopNames(t), paths) && |paths| <= maxEntries
    ensures Shows(walked.count, FilesOf(t.nodes, t.top, paths)) && Shows(walked.bytes, BytesOf(t.nodes, t.top, paths))
    ensures AllPassable(t.nodes, t.rules, t.top, TopNames(t), 0)
    ensures t.rules.mode.Count? ==> disk == t.nodes
    ensures t.rules.mode.Remove? ==>
              forall p :: p in paths && IsFolder(t.nodes, At(t.nodes, t.top, p).value) ==>
                IsFolder(disk, At(t.nodes, t.top, p).value) && disk[At(t.nodes, t.top, p).value].entries == map[]
  {
    OkExactly(t.nodes, t.rules, t.top, TopNames(t), 0);
    paths := UnderSums(t.nodes, t.rules, t.top, TopNames(t), 0);
    SumsList(t, paths);
    forall p | p in paths && IsFolder(t.nodes, At(t.nodes, t.top, p).value)
      ensures At(t.nodes, t.top, p).value in Whole(t).folders
    {
      assert Summed(t.nodes, t.top, Whole(t), paths, p);
    }
  }

  /** A walk that stopped: the tree is one it cannot get to the end of, the problem
      reported is there, it counted no more than there is, and what it changed is
      the top, or a folder below it on the walk's own device. */
  lemma {:induction false} StoppedMeans(t: Task, maxEntries: nat, walked: Walked, disk: Nodes) returns (paths: seq<seq<Name>>)
    requires Stopped(t, maxEntries, walked, disk)
    ensures walked.problem.Some? && Explains(t, maxEntries, walked.problem.value)
    ensures Distinct(paths) && AllEntries(t.nodes, t.top, TopNames(t), paths)
    ensures walked.count <= FilesOf(t.nodes, t.top, paths) && walked.bytes <= BytesOf(t.nodes, t.top, paths)
    ensures disk.Keys == t.nodes.Keys
    ensures forall f :: f in disk && f != t.top && disk[f] != t.nodes[f] ==>
              && t.rules.mode.Remove? && IsFolder(t.nodes, f) && t.nodes[f].dev == t.rules.rootDev
              && exists path :: IsEntry(t.nodes, t.top, TopNames(t), path) && At(t.nodes, t.top, path) == Some(f)
  {
    paths := UnderSums(t.nodes, t.rules, t.top, TopNames(t), 0);
    forall f | f in disk && f != t.top && disk[f] != t.nodes[f]
      ensures exists path :: IsEntry(t.nodes, t.top, TopNames(t), path) && At(t.nodes, t.top, path) == Some(f)
    {
      assert f in Whole(t).folders;
    }
  }
}
