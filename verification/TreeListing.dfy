/** What a tree holds, entry by entry: every entry is a path of names from the
    top, and the summary of a tree is what its entries come to one by one.
  */
module TreeListing {
  import opened Options
  import opened FileTree

  /** Where a path of names leads from `dir`, through folders only. */
  function At(nodes: Nodes, dir: Ino, path: seq<Name>): Option<Ino>
    decreases path
  {
    if path == [] then Some(dir)
    else if IsFolder(nodes, dir) && path[0] in nodes[dir].entries then At(nodes, nodes[dir].entries[path[0]], path[1..])
    else None
  }

  /** `path` is an entry that lies, however deep, under one of `names` in `dir`. */
  predicate IsEntry(nodes: Nodes, dir: Ino, names: set<Name>, path: seq<Name>) {
    path != [] && path[0] in names && At(nodes, dir, path).Some? && At(nodes, dir, path).value in nodes
  }

  /** A walk gets past node `node`, found `level` levels down from the top. */
  predicate Passable(node: Node, rules: WalkRules, level: nat) {
    && (rules.mode.Remove? ==> !node.pinned)
    && (node.Folder? ==>
          && node.dev == rules.rootDev
          && level <= 128
          && (node.shut ==> rules.mode.Remove? && rules.chmodWorks))
  }

  predicate Distinct(paths: seq<seq<Name>>) {
    forall i, j :: 0 <= i < j < |paths| ==> paths[i] != paths[j]
  }

  predicate AllEntries(nodes: Nodes, dir: Ino, names: set<Name>, paths: seq<seq<Name>>) {
    forall p :: p in paths ==> IsEntry(nodes, dir, names, p)
  }

  /** `paths` is every entry under `names` in `dir`, each once. */
  ghost predicate Lists(nodes: Nodes, dir: Ino, names: set<Name>, paths: seq<seq<Name>>) {
    Distinct(paths) && forall p :: p in paths <==> IsEntry(nodes, dir, names, p)
  }

  /** How many of the paths lead to something that is not a folder. */
  function FilesOf(nodes: Nodes, dir: Ino, paths: seq<seq<Name>>): nat {
    if paths == [] then 0
    else
      var at := At(nodes, dir, paths[|paths| - 1]);
      FilesOf(nodes, dir, paths[..|paths| - 1])
      + if at.Some? && at.value in nodes && !nodes[at.value].Folder? then 1 else 0
  }

  /** The sizes of the regular files they lead to, added up. */
  function BytesOf(nodes: Nodes, dir: Ino, paths: seq<seq<Name>>): nat {
    if paths == [] then 0
    else
      var at := At(nodes, dir, paths[|paths| - 1]);
      BytesOf(nodes, dir, paths[..|paths| - 1])
      + if at.Some? && at.value in nodes && nodes[at.value].File? && nodes[at.value].size > 0 then nodes[at.value].size else 0
  }

  // ---------------------------------------------------------------------
  // Whether a walk gets through
  // ---------------------------------------------------------------------

  lemma {:induction false} EntryOfChild(nodes: Nodes, dir: Ino, m: Name, rest: seq<Name>)
    requires IsFolder(nodes, dir) && m in nodes[dir].entries
    ensures At(nodes, dir, [m] + rest) == At(nodes, nodes[dir].entries[m], rest)
  {
    assert ([m] + rest)[1..] == rest;
  }

  /** An entry below the entry `m` is an entry of the folder it names. */
  lemma {:induction false} EntryBelow(nodes: Nodes, dir: Ino, names: set<Name>, m: Name, path: seq<Name>)
    requires IsFolder(nodes, dir) && m in names && m in nodes[dir].entries && |path| > 1 && path[0] == m
    ensures var c := nodes[dir].entries[m];
            && At(nodes, dir, path) == At(nodes, c, path[1..])
            && (IsEntry(nodes, dir, names, path) <==> IsFolder(nodes, c) && IsEntry(nodes, c, nodes[c].entries.Keys, path[1..]))
  {
    assert path == [m] + path[1..];
    EntryOfChild(nodes, dir, m, path[1..]);
  }

  /** Every entry under `names`, `depth` levels down, can be got past. */
  ghost predicate AllPassable(nodes: Nodes, rules: WalkRules, dir: Ino, names: set<Name>, depth: nat) {
    forall path :: IsEntry(nodes, dir, names, path) ==> Passable(nodes[At(nodes, dir, path).value], rules, depth + |path|)
  }

  /** A tree is got through exactly when every entry in it can be got past. */
  lemma {:induction false} OkExactly(nodes: Nodes, rules: WalkRules, dir: Ino, names: set<Name>, depth: nat)
    requires Closed(nodes) && IsFolder(nodes, dir) && names <= nodes[dir].entries.Keys && depth <= WALK_MAX_DEPTH
    ensures Under(nodes, rules, dir, names, depth).ok <==> AllPassable(nodes, rules, dir, names, depth)
    decreases WALK_MAX_DEPTH - depth, names
  {
    if names != {} {
      var m := MaxOf(names);
      assert Edge(nodes, dir, m, nodes[dir].entries[m]);
      OkExactly(nodes, rules, dir, names - {m}, depth);
      BelowOkExactly(nodes, rules, dir, m, depth);
      AllPassableSplits(nodes, rules, dir, names, m, depth);
    }
  }

  lemma {:induction false} AllPassableSplits(nodes: Nodes, rules: WalkRules, dir: Ino, names: set<Name>, m: Name, depth: nat)
    requires m in names
    ensures AllPassable(nodes, rules, dir, names, depth) <==>
              AllPassable(nodes, rules, dir, {m}, depth) && AllPassable(nodes, rules, dir, names - {m}, depth)
  {
    assert forall path :: IsEntry(nodes, dir, names, path) <==>
             IsEntry(nodes, dir, {m}, path) || IsEntry(nodes, dir, names - {m}, path);
  }

  lemma {:induction false} BelowOkExactly(nodes: Nodes, rules: WalkRules, dir: Ino, m: Name, depth: nat)
    requires Closed(nodes) && IsFolder(nodes, dir) && m in nodes[dir].entries && depth <= WALK_MAX_DEPTH
    requires nodes[dir].entries[m] in nodes
    ensures Below(nodes, rules, nodes[dir].entries[m], depth).ok <==> AllPassable(nodes, rules, dir, {m}, depth)
    decreases WALK_MAX_DEPTH - depth, {m}, 0
  {
    var c := nodes[dir].entries[m];
    EntryOfChild(nodes, dir, m, []);
    assert [m] + [] == [m];
    assert IsEntry(nodes, dir, {m}, [m]);
    assert Itself(nodes, rules, c, depth).ok <==> Passable(nodes[c], rules, depth + 1);
    if nodes[c].Folder? && depth < WALK_MAX_DEPTH {
      OkExactly(nodes, rules, c, nodes[c].entries.Keys, depth + 1);
      PassableBelow(nodes, rules, dir, m, depth);
    } else if !nodes[c].Folder? {
      forall path | IsEntry(nodes, dir, {m}, path)
        ensures path == [m]
      {
        if |path| > 1 {
          EntryBelow(nodes, dir, {m}, m, path);
        }
      }
    }
  }

  lemma {:induction false} PassableBelow(nodes: Nodes, rules: WalkRules, dir: Ino, m: Name, depth: nat)
    requires IsFolder(nodes, dir) && m in nodes[dir].entries && IsFolder(nodes, nodes[dir].entries[m])
    ensures var c := nodes[dir].entries[m];
            AllPassable(nodes, rules, dir, {m}, depth) <==>
              Passable(nodes[c], rules, depth + 1) && AllPassable(nodes, rules, c, nodes[c].entries.Keys, depth + 1)
  {
    var c := nodes[dir].entries[m];
    EntryOfChild(nodes, dir, m, []);
    assert [m] + [] == [m];
    assert IsEntry(nodes, dir, {m}, [m]);
    forall path | IsEntry(nodes, dir, {m}, path) && path != [m]
      ensures IsEntry(nodes, c, nodes[c].entries.Keys, path[1..]) && At(nodes, dir, path) == At(nodes, c, path[1..])
      ensures depth + |path| == depth + 1 + |path[1..]|
    {
      EntryBelow(nodes, dir, {m}, m, path);
    }
    forall rest | IsEntry(nodes, c, nodes[c].entries.Keys, rest)
      ensures IsEntry(nodes, dir, {m}, [m] + rest) && At(nodes, dir, [m] + rest) == At(nodes, c, rest)
      ensures depth + |[m] + rest| == depth + 1 + |rest|
    {
      EntryOfChild(nodes, dir, m, rest);
    }
  }

  // ---------------------------------------------------------------------
  // What there is
  // ---------------------------------------------------------------------

  /** The paths, each below the entry `m`. */
  function Prefixed(m: Name, paths: seq<seq<Name>>): (out: seq<seq<Name>>)
    ensures |out| == |paths| && forall i :: 0 <= i < |paths| ==> out[i] == [m] + paths[i]
  {
    seq(|paths|, i requires 0 <= i < |paths| => [m] + paths[i])
  }

  lemma {:induction false} SumsJoined(nodes: Nodes, dir: Ino, x: seq<seq<Name>>, y: seq<seq<Name>>)
    ensures FilesOf(nodes, dir, x + y) == FilesOf(nodes, dir, x) + FilesOf(nodes, dir, y)
    ensures BytesOf(nodes, dir, x + y) == BytesOf(nodes, dir, x) + BytesOf(nodes, dir, y)
  {
    if y == [] {
      assert x + y == x;
    } else {
      assert (x + y)[..|x + y| - 1] == x + y[..|y| - 1];
      SumsJoined(nodes, dir, x, y[..|y| - 1]);
    }
  }

  lemma {:induction false} SumsPrefixed(nodes: Nodes, dir: Ino, m: Name, paths: seq<seq<Name>>)
    requires IsFolder(nodes, dir) && m in nodes[dir].entries
    ensures FilesOf(nodes, dir, Prefixed(m, paths)) == FilesOf(nodes, nodes[dir].entries[m], paths)
    ensures BytesOf(nodes, dir, Prefixed(m, paths)) == BytesOf(nodes, nodes[dir].entries[m], paths)
  {
    if paths != [] {
      var n := |paths| - 1;
      assert Prefixed(m, paths)[..n] == Prefixed(m, paths[..n]);
      SumsPrefixed(nodes, dir, m, paths[..n]);
      EntryOfChild(nodes, dir, m, paths[n]);
    }
  }

  /** The folders a summary speaks of are entries. */
  ghost predicate FoldersAreEntries(nodes: Nodes, dir: Ino, names: set<Name>, folders: set<Ino>) {
    forall f :: f in folders ==> exists path :: IsEntry(nodes, dir, names, path) && At(nodes, dir, path) == Some(f)
  }

  /** A summary is what the entries of `paths` come to; all of the entries there
      are if the tree is got through. */
  ghost predicate Sums(nodes: Nodes, dir: Ino, names: set<Name>, s: Summary, paths: seq<seq<Name>>) {
    && Distinct(paths) && AllEntries(nodes, dir, names, paths)
    && s.entries == |paths| && s.files == FilesOf(nodes, dir, paths) && s.bytes == BytesOf(nodes, dir, paths)
    && FoldersAreEntries(nodes, dir, names, s.folders)
    && (s.ok ==> forall path :: IsEntry(nodes, dir, names, path) ==> Summed(nodes, dir, s, paths, path))
  }

  /** The entry `path` is among those summed, and if it is a folder among the folders. */
  predicate Summed(nodes: Nodes, dir: Ino, s: Summary, paths: seq<seq<Name>>, path: seq<Name>) {
    && path in paths
    && (At(nodes, dir, path).Some? && IsFolder(nodes, At(nodes, dir, path).value) ==> At(nodes, dir, path).value in s.folders)
  }

  lemma {:induction false} SumsPlus(
    nodes: Nodes, dir: Ino, x: set<Name>, y: set<Name>, a: Summary, b: Summary, p: seq<seq<Name>>, q: seq<seq<Name>>)
    requires x !! y && Sums(nodes, dir, x, a, p) && Sums(nodes, dir, y, b, q)
    ensures Sums(nodes, dir, x + y, Plus(a, b), p + q)
  {
    SumsJoined(nodes, dir, p, q);
    assert forall path :: IsEntry(nodes, dir, x + y, path) <==> IsEntry(nodes, dir, x, path) || IsEntry(nodes, dir, y, path);
    DistinctJoined(p, q);
    SumsPlusFolders(nodes, dir, x, y, a.folders, b.folders);
  }

  lemma {:induction false} DistinctJoined(p: seq<seq<Name>>, q: seq<seq<Name>>)
    requires Distinct(p) && Distinct(q) && forall path :: path in p ==> path !in q
    ensures Distinct(p + q)
  {
    var all := p + q;
    forall i, j | 0 <= i < j < |all|
      ensures all[i] != all[j]
    {
      assert i < |p| ==> all[i] == p[i] && all[i] in p;
      assert j >= |p| ==> all[j] == q[j - |p|] && all[j] in q;
    }
  }

  lemma {:induction false} SumsPlusFolders(nodes: Nodes, dir: Ino, x: set<Name>, y: set<Name>, a: set<Ino>, b: set<Ino>)
    requires FoldersAreEntries(nodes, dir, x, a) && FoldersAreEntries(nodes, dir, y, b)
    ensures FoldersAreEntries(nodes, dir, x + y, a + b)
  {
    forall f | f in a + b
      ensures exists path :: IsEntry(nodes, dir, x + y, path) && At(nodes, dir, path) == Some(f)
    {
      if f in a {
        var path :| IsEntry(nodes, dir, x, path) && At(nodes, dir, path) == Some(f);
        assert IsEntry(nodes, dir, x + y, path);
      } else {
        var path :| IsEntry(nodes, dir, y, path) && At(nodes, dir, path) == Some(f);
        assert IsEntry(nodes, dir, x + y, path);
      }
    }
  }

  /** The summary of some names of a folder is what the entries under them come to. */
  lemma {:induction false} UnderSums(nodes: Nodes, rules: WalkRules, dir: Ino, names: set<Name>, depth: nat)
    returns (paths: seq<seq<Name>>)
    requires Closed(nodes) && IsFolder(nodes, dir) && names <= nodes[dir].entries.Keys && depth <= WALK_MAX_DEPTH
    ensures Sums(nodes, dir, names, Under(nodes, rules, dir, names, depth), paths)
    decreases WALK_MAX_DEPTH - depth, names
  {
    paths := [];
    if names != {} {
      var m := MaxOf(names);
      assert Edge(nodes, dir, m, nodes[dir].entries[m]);
      var here := BelowSums(nodes, rules, dir, m, depth);
      var others := UnderSums(nodes, rules, dir, names - {m}, depth);
      SumsPlus(nodes, dir, {m}, names - {m}, Below(nodes, rules, nodes[dir].entries[m], depth),
               Under(nodes, rules, dir, names - {m}, depth), here, others);
      assert {m} + (names - {m}) == names;
      paths := here + others;
    }
  }

  lemma {:induction false} BelowSums(nodes: Nodes, rules: WalkRules, dir: Ino, m: Name, depth: nat) returns (paths: seq<seq<Name>>)
    requires Closed(nodes) && IsFolder(nodes, dir) && m in nodes[dir].entries && depth <= WALK_MAX_DEPTH
    requires nodes[dir].entries[m] in nodes
    ensures Sums(nodes, dir, {m}, Below(nodes, rules, nodes[dir].entries[m], depth), paths)
    decreases WALK_MAX_DEPTH - depth, {m}, 0
  {
    var c := nodes[dir].entries[m];
    ItselfSums(nodes, rules, dir, m, depth);
    paths := [[m]];
    if nodes[c].Folder? && depth < WALK_MAX_DEPTH {
      var below := UnderSums(nodes, rules, c, nodes[c].entries.Keys, depth + 1);
      paths := [[m]] + Prefixed(m, below);
      FolderSums(nodes, dir, m, Itself(nodes, rules, c, depth), Under(nodes, rules, c, nodes[c].entries.Keys, depth + 1), below);
    } else if !nodes[c].Folder? {
      forall path | IsEntry(nodes, dir, {m}, path)
        ensures path == [m] && path in paths
      {
        if |path| > 1 {
          EntryBelow(nodes, dir, {m}, m, path);
        }
      }
    }
  }

  /** What one entry comes to by itself. */
  lemma {:induction false} ItselfSums(nodes: Nodes, rules: WalkRules, dir: Ino, m: Name, depth: nat)
    requires IsFolder(nodes, dir) && m in nodes[dir].entries && nodes[dir].entries[m] in nodes
    ensures var it := Itself(nodes, rules, nodes[dir].entries[m], depth);
            && IsEntry(nodes, dir, {m}, [m]) && At(nodes, dir, [m]) == Some(nodes[dir].entries[m])
            && it.entries == 1 && it.files == FilesOf(nodes, dir, [[m]]) && it.bytes == BytesOf(nodes, dir, [[m]])
            && FoldersAreEntries(nodes, dir, {m}, it.folders)
            && (nodes[nodes[dir].entries[m]].Folder? ==> nodes[dir].entries[m] in it.folders)
  {
    EntryOfChild(nodes, dir, m, []);
    assert [m] + [] == [m];
    assert [[m]][..0] == [];
    assert IsEntry(nodes, dir, {m}, [m]);
  }

  /** A folder and everything in it. */
  lemma {:induction false} FolderSums(nodes: Nodes, dir: Ino, m: Name, it: Summary, s: Summary, below: seq<seq<Name>>)
    requires IsFolder(nodes, dir) && m in nodes[dir].entries && IsFolder(nodes, nodes[dir].entries[m])
    requires var c := nodes[dir].entries[m]; Sums(nodes, c, nodes[c].entries.Keys, s, below)
    requires IsEntry(nodes, dir, {m}, [m])
    requires it.entries == 1 && it.files == FilesOf(nodes, dir, [[m]]) && it.bytes == BytesOf(nodes, dir, [[m]])
    requires FoldersAreEntries(nodes, dir, {m}, it.folders) && nodes[dir].entries[m] in it.folders
    requires At(nodes, dir, [m]) == Some(nodes[dir].entries[m])
    ensures Sums(nodes, dir, {m}, Plus(it, s), [[m]] + Prefixed(m, below))
  {
    var c, paths := nodes[dir].entries[m], [[m]] + Prefixed(m, below);
    SumsJoined(nodes, dir, [[m]], Prefixed(m, below));
    SumsPrefixed(nodes, dir, m, below);
    PrefixedEntries(nodes, dir, m, below);
    forall path | IsEntry(nodes, dir, {m}, path) && s.ok
      ensures Summed(nodes, dir, Plus(it, s), paths, path)
    {
      if |path| > 1 {
        EntryBelow(nodes, dir, {m}, m, path);
        assert Summed(nodes, c, s, below, path[1..]);
        var i :| 0 <= i < |below| && below[i] == path[1..];
        assert path == [m] + path[1..];
        assert paths[i + 1] == path;
      } else {
        assert path == [m] == paths[0];
      }
    }
    FoldersPrefixed(nodes, dir, m, s.folders);
    SumsPlusFolders(nodes, dir, {m}, {m}, it.folders, s.folders);
    assert {m} + {m} == {m};
  }

  lemma {:induction false} PrefixedEntries(nodes: Nodes, dir: Ino, m: Name, below: seq<seq<Name>>)
    requires IsFolder(nodes, dir) && m in nodes[dir].entries && IsFolder(nodes, nodes[dir].entries[m])
    requires var c := nodes[dir].entries[m]; Distinct(below) && AllEntries(nodes, c, nodes[c].entries.Keys, below)
    requires IsEntry(nodes, dir, {m}, [m])
    ensures Distinct([[m]] + Prefixed(m, below)) && AllEntries(nodes, dir, {m}, [[m]] + Prefixed(m, below))
  {
    DistinctPrefixed(m, below);
    forall p | p in Prefixed(m, below)
      ensures IsEntry(nodes, dir, {m}, p) && |p| > 1
    {
      var i :| 0 <= i < |below| && Prefixed(m, below)[i] == p;
      assert below[i] in below;
      EntryOfChild(nodes, dir, m, below[i]);
    }
    DistinctJoined([[m]], Prefixed(m, below));
  }

  lemma {:induction false} DistinctPrefixed(m: Name, paths: seq<seq<Name>>)
    requires Distinct(paths)
    ensures Distinct(Prefixed(m, paths))
  {
    var out := Prefixed(m, paths);
    forall i | 0 <= i < |paths|
      ensures out[i][1..] == paths[i]
    {
      assert out[i] == [m] + paths[i];
    }
    forall i, j | 0 <= i < j < |out|
      ensures out[i] != out[j]
    {
      assert out[i][1..] == paths[i] && out[j][1..] == paths[j];
    }
  }

  lemma {:induction false} FoldersPrefixed(nodes: Nodes, dir: Ino, m: Name, folders: set<Ino>)
    requires IsFolder(nodes, dir) && m in nodes[dir].entries && IsFolder(nodes, nodes[dir].entries[m])
    requires var c := nodes[dir].entries[m]; FoldersAreEntries(nodes, c, nodes[c].entries.Keys, folders)
    ensures FoldersAreEntries(nodes, dir, {m}, folders)
  {
    var c := nodes[dir].entries[m];
    forall f | f in folders
      ensures exists path :: IsEntry(nodes, dir, {m}, path) && At(nodes, dir, path) == Some(f)
    {
      var path :| IsEntry(nodes, c, nodes[c].entries.Keys, path) && At(nodes, c, path) == Some(f);
      EntryOfChild(nodes, dir, m, path);
      assert IsEntry(nodes, dir, {m}, [m] + path);
    }
  }

  // ---------------------------------------------------------------------
  // Any listing will do
  // ---------------------------------------------------------------------

  function PathSet(paths: seq<seq<Name>>): set<seq<Name>> {
    set p | p in paths
  }

  lemma {:induction false} PathSetSize(paths: seq<seq<Name>>)
    requires Distinct(paths)
    ensures |PathSet(paths)| == |paths|
  {
    if paths == [] {
      assert PathSet(paths) == {};
    } else {
      var n := |paths| - 1;
      PathSetSize(paths[..n]);
      assert paths == paths[..n] + [paths[n]];
      assert PathSet(paths) == PathSet(paths[..n]) + {paths[n]};
    }
  }

  /** Two listings of the same entries are as long as each other. */
  lemma {:induction false} SameLength(nodes: Nodes, dir: Ino, names: set<Name>, p: seq<seq<Name>>, q: seq<seq<Name>>)
    requires Lists(nodes, dir, names, p) && Lists(nodes, dir, names, q)
    ensures |p| == |q|
  {
    PathSetSize(p);
    PathSetSize(q);
    assert PathSet(p) == PathSet(q);
  }

  // ---------------------------------------------------------------------
  // Paths from the other end
  // ---------------------------------------------------------------------

  /** One step further. */
  lemma {:induction false} AtFurther(nodes: Nodes, dir: Ino, path: seq<Name>, n: Name)
    ensures At(nodes, dir, path + [n]) ==
              match At(nodes, dir, path)
              case None => None
              case Some(d) => if IsFolder(nodes, d) && n in nodes[d].entries then Some(nodes[d].entries[n]) else None
    decreases path
  {
    if path == [] {
      assert [] + [n] == [n] && [n][1..] == [];
    } else {
      assert (path + [n])[1..] == path[1..] + [n];
      if IsFolder(nodes, dir) && path[0] in nodes[dir].entries {
        AtFurther(nodes, nodes[dir].entries[path[0]], path[1..], n);
      }
    }
  }
}
