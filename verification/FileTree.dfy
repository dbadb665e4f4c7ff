/** A filesystem as inodes, and what a walk of one of its trees amounts to. */
module FileTree {
  /** A name, as its rank in the byte order that listings are sorted by. */
  type Name = nat

  type Ino = nat

  /** `pinned`: its entry cannot be taken out of the folder holding it.
      `shut`: a folder that cannot be opened as its mode stands. */
  datatype Node =
    | File(size: int, pinned: bool)
    | Link(target: Ino, pinned: bool)
    | Special(pinned: bool)
    | Folder(entries: map<Name, Ino>, dev: int, shut: bool, pinned: bool)

  type Nodes = map<Ino, Node>

  datatype WalkMode = Count | Remove

  /** The number of levels below the top that a walk visits. */
  const WALK_MAX_DEPTH := 128

  /** The largest value of a 64-bit counter. */
  const U64_MAX := 0xFFFF_FFFF_FFFF_FFFF

  predicate IsFolder(nodes: Nodes, ino: Ino) {
    ino in nodes && nodes[ino].Folder?
  }

  /** `dir` holds `name`, which is `child`. */
  predicate Edge(nodes: Nodes, dir: Ino, name: Name, child: Ino) {
    IsFolder(nodes, dir) && name in nodes[dir].entries && nodes[dir].entries[name] == child
  }

  /** Every entry leads somewhere; a folder is held by one folder only, under
      one name, and lies deeper (by `rank`) than the one holding it. */
  ghost predicate IsForest(nodes: Nodes, rank: Ino -> nat) {
    && (forall d, n, c :: Edge(nodes, d, n, c) ==> c in nodes)
    && (forall d, n, c :: Edge(nodes, d, n, c) && nodes[c].Folder? ==> rank(d) < rank(c))
    && (forall d, n, c, d', n' ::
          Edge(nodes, d, n, c) && Edge(nodes, d', n', c) && nodes[c].Folder? ==> d == d' && n == n')
  }

  // ---------------------------------------------------------------------
  // Listings
  // ---------------------------------------------------------------------

  predicate Ascending(names: seq<Name>) {
    forall i, j :: 0 <= i < j < |names| ==> names[i] < names[j]
  }

  ghost function NameSet(names: seq<Name>): set<Name> {
    set n | n in names
  }

  predicate IsMax(s: set<Name>, m: Name) {
    m in s && forall x :: x in s ==> x <= m
  }

  lemma {:induction false} MaxExists(s: set<Name>) returns (m: Name)
    requires s != {}
    ensures IsMax(s, m)
  {
    var y :| y in s;
    var rest := s - {y};
    if rest == {} {
      m := y;
    } else {
      var m' := MaxExists(rest);
      m := if y < m' then m' else y;
    }
    assert forall x :: x in s ==> x == y || x in rest;
  }

  ghost function MaxOf(s: set<Name>): (m: Name)
    requires s != {}
    ensures m in s && forall x :: x in s ==> x <= m
  {
    assert exists m :: IsMax(s, m) by {
      var m := MaxExists(s);
    }
    var m :| IsMax(s, m);
    m
  }

  /** Popping the last name of an ascending list takes the largest of its set. */
  lemma {:induction false} LastIsMax(names: seq<Name>)
    requires Ascending(names) && names != []
    ensures var last, front := names[|names| - 1], names[..|names| - 1];
            && NameSet(names) != {}
            && last == MaxOf(NameSet(names))
            && NameSet(front) == NameSet(names) - {last}
            && Ascending(front)
  {
    var last, front := names[|names| - 1], names[..|names| - 1];
    assert names == front + [last];
    assert last in NameSet(names);
    assert forall n :: n in front ==> n < last;
  }

  lemma {:induction false} NameSetSize(names: seq<Name>)
    requires Ascending(names)
    ensures |NameSet(names)| == |names|
  {
    if names == [] {
      assert NameSet(names) == {};
    } else {
      LastIsMax(names);
      NameSetSize(names[..|names| - 1]);
    }
  }

  // ---------------------------------------------------------------------
  // What a tree holds
  // ---------------------------------------------------------------------

  /** What there is under some names: how many entries, how many of them are not
      folders, the bytes in plain files, whether a walk gets through all of it,
      and the folders among it. */
  datatype Summary = Summary(entries: nat, files: nat, bytes: nat, ok: bool, folders: set<Ino>)

  function Nothing(): Summary {
    Summary(0, 0, 0, true, {})
  }

  function Plus(a: Summary, b: Summary): Summary {
    Summary(a.entries + b.entries, a.files + b.files, a.bytes + b.bytes, a.ok && b.ok, a.folders + b.folders)
  }

  /** How a walk is run: its mode, the device it stays on, and whether the
      platform lets a mode be changed without a link being followed. */
  datatype WalkRules = WalkRules(mode: WalkMode, rootDev: int, chmodWorks: bool)

  function FileSize(node: Node): nat {
    if node.File? && node.size >= 0 then node.size else 0
  }

  predicate Removable(node: Node, rules: WalkRules) {
    rules.mode.Remove? ==> !node.pinned
  }

  /** Can a walk enter this folder, found in a folder `depth` levels down? */
  predicate Enterable(node: Node, rules: WalkRules, depth: nat)
    requires node.Folder?
  {
    && node.dev == rules.rootDev
    && depth < WALK_MAX_DEPTH
    && (node.shut ==> rules.mode.Remove? && rules.chmodWorks)
  }

  /** What one entry contributes by itself. */
  function Itself(nodes: Nodes, rules: WalkRules, child: Ino, depth: nat): Summary
    requires child in nodes
  {
    var node := nodes[child];
    if node.Folder? then Summary(1, 0, 0, Removable(node, rules) && Enterable(node, rules, depth), {child})
    else Summary(1, 1, FileSize(node), Removable(node, rules), {})
  }

  ghost predicate Closed(nodes: Nodes) {
    forall d, n, c :: Edge(nodes, d, n, c) ==> c in nodes
  }

  /** What `child` and everything under it come to. */
  ghost function Below(nodes: Nodes, rules: WalkRules, child: Ino, depth: nat): Summary
    requires Closed(nodes) && child in nodes && depth <= WALK_MAX_DEPTH
    decreases WALK_MAX_DEPTH - depth, 0
  {
    if nodes[child].Folder? && depth < WALK_MAX_DEPTH then
      Plus(Itself(nodes, rules, child, depth), Under(nodes, rules, child, nodes[child].entries.Keys, depth + 1))
    else
      Itself(nodes, rules, child, depth)
  }

  /** What the entries `names` of folder `dir`, `depth` levels down, come to. */
  ghost function Under(nodes: Nodes, rules: WalkRules, dir: Ino, names: set<Name>, depth: nat): Summary
    requires Closed(nodes) && IsFolder(nodes, dir) && names <= nodes[dir].entries.Keys && depth <= WALK_MAX_DEPTH
    decreases WALK_MAX_DEPTH - depth, 1, names
  {
    if names == {} then Nothing()
    else
      var m := MaxOf(names);
      assert Edge(nodes, dir, m, nodes[dir].entries[m]);
      Plus(Below(nodes, rules, nodes[dir].entries[m], depth), Under(nodes, rules, dir, names - {m}, depth))
  }

  /** A folder has at least as much under it as it has entries. */
  lemma {:induction false} UnderAtLeastNames(nodes: Nodes, rules: WalkRules, dir: Ino, names: set<Name>, depth: nat)
    requires Closed(nodes) && IsFolder(nodes, dir) && names <= nodes[dir].entries.Keys && depth <= WALK_MAX_DEPTH
    ensures |names| <= Under(nodes, rules, dir, names, depth).entries
    decreases names
  {
    if names != {} {
      var m := MaxOf(names);
      UnderAtLeastNames(nodes, rules, dir, names - {m}, depth);
    }
  }

  /** Everything counted among the folders under a name is a folder that really
      lies below, so never the folder it started from. */
  lemma {:induction false} FoldersLieDeeper(
    nodes: Nodes, rank: Ino -> nat, rules: WalkRules, dir: Ino, names: set<Name>, depth: nat, f: Ino)
    requires IsForest(nodes, rank) && IsFolder(nodes, dir) && names <= nodes[dir].entries.Keys
    requires depth <= WALK_MAX_DEPTH && f in Under(nodes, rules, dir, names, depth).folders
    ensures IsFolder(nodes, f) && rank(dir) < rank(f)
    decreases WALK_MAX_DEPTH - depth, names
  {
    var m := MaxOf(names);
    var child := nodes[dir].entries[m];
    assert Edge(nodes, dir, m, child);
    if f in Under(nodes, rules, dir, names - {m}, depth).folders {
      FoldersLieDeeper(nodes, rank, rules, dir, names - {m}, depth, f);
    } else if f != child {
      FoldersLieDeeper(nodes, rank, rules, child, nodes[child].entries.Keys, depth + 1, f);
    }
  }
}
