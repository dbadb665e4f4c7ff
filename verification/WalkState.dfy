/** The state of a tree walk: its stack of open folders against the tree it
    began with, and against the disk as it is now.
  */
module WalkState {
  import opened Options
  import opened FileTree
  import opened TreeListing

  /** A folder the walk has open and the names in it not visited yet; `name` is
      what the frame under it calls the folder. */
  datatype Frame = Frame(dir: Ino, entries: seq<Name>, name: Option<Name>)

  /** The walk being run: the tree as it was, the folder it starts in, and the
      names passed over there. */
  datatype Task = Task(nodes: Nodes, rules: WalkRules, top: Ino, skip: set<Name>)

  ghost predicate GoodTask(t: Task, rank: Ino -> nat) {
    IsForest(t.nodes, rank) && IsFolder(t.nodes, t.top)
  }

  /** The names a walk has to visit at the top. */
  ghost function TopNames(t: Task): set<Name>
    requires IsFolder(t.nodes, t.top)
  {
    t.nodes[t.top].entries.Keys - t.skip
  }

  /** Everything the walk has to get through. */
  ghost function Whole(t: Task): Summary
    requires Closed(t.nodes) && IsFolder(t.nodes, t.top)
  {
    Under(t.nodes, t.rules, t.top, TopNames(t), 0)
  }

  predicate FrameFits(t: Task, f: Frame) {
    && IsFolder(t.nodes, f.dir)
    && Ascending(f.entries)
    && (forall n :: n in f.entries ==> n in t.nodes[f.dir].entries)
  }

  /** What frame `f` has left to visit, `depth` levels down. */
  ghost function FrameRest(t: Task, f: Frame, depth: nat): Summary {
    if Closed(t.nodes) && FrameFits(t, f) && depth <= WALK_MAX_DEPTH
    then Under(t.nodes, t.rules, f.dir, NameSet(f.entries), depth)
    else Nothing()
  }

  /** What is left to visit on the stack. */
  ghost function Rest(t: Task, frames: seq<Frame>): Summary {
    if frames == [] then Nothing()
    else Plus(Rest(t, frames[..|frames| - 1]), FrameRest(t, frames[|frames| - 1], |frames| - 1))
  }

  /** How many entries are queued on the stack. */
  function Queued(frames: seq<Frame>): nat {
    if frames == [] then 0 else Queued(frames[..|frames| - 1]) + |frames[|frames| - 1].entries|
  }

  /** The stack is a path of the tree: each frame's folder is held, under the
      frame's name, by the folder below it, which no longer queues that name. */
  predicate FrameLinked(t: Task, frames: seq<Frame>, i: nat)
    requires i < |frames|
  {
    if i == 0 then
      frames[i].dir == t.top && frames[i].name.None? && forall n :: n in frames[i].entries ==> n !in t.skip
    else
      && frames[i].name.Some?
      && Edge(t.nodes, frames[i - 1].dir, frames[i].name.value, frames[i].dir)
      && frames[i].name.value !in frames[i - 1].entries
      && (i == 1 ==> frames[i].name.value !in t.skip)
  }

  ghost predicate Path(t: Task, frames: seq<Frame>) {
    && |frames| <= WALK_MAX_DEPTH + 1
    && AllFit(t, frames)
    && AllLinked(t, frames)
    && NoneTwice(frames)
  }

  predicate AllFit(t: Task, frames: seq<Frame>) {
    forall i :: 0 <= i < |frames| ==> FrameFits(t, frames[i])
  }

  predicate AllLinked(t: Task, frames: seq<Frame>) {
    forall i :: 0 <= i < |frames| ==> FrameLinked(t, frames, i)
  }

  predicate NoneTwice(frames: seq<Frame>) {
    forall i, j :: 0 <= i < j < |frames| ==> frames[i].dir != frames[j].dir
  }

  /** A folder entered before is on the walk's device, and was entered by its one
      edge, which is not queued any more. */
  ghost predicate EnteredOnce(t: Task, rank: Ino -> nat, frames: seq<Frame>, entered: set<Ino>, f: Ino) {
    && IsFolder(t.nodes, f)
    && t.nodes[f].dev == t.rules.rootDev
    && rank(t.top) < rank(f)
    && exists d, n :: SpentEdge(t, frames, entered, d, n, f)
  }

  ghost predicate SpentEdge(t: Task, frames: seq<Frame>, entered: set<Ino>, d: Ino, n: Name, f: Ino) {
    && Edge(t.nodes, d, n, f)
    && (d == t.top || d in entered)
    && (forall i :: 0 <= i < |frames| && frames[i].dir == d ==> n !in frames[i].entries)
  }

  /** No folder on the stack is one whose entry will refuse to go. */
  predicate NonePinned(t: Task, frames: seq<Frame>) {
    t.rules.mode.Remove? ==>
      forall i :: 1 <= i < |frames| ==> IsFolder(t.nodes, frames[i].dir) && !t.nodes[frames[i].dir].pinned
  }

  /** The stack accounts for the tree: what is done and what is left make the
      whole, and every folder entered so far was entered once. */
  ghost predicate Accounts(t: Task, rank: Ino -> nat, frames: seq<Frame>, done: Summary) {
    && GoodTask(t, rank)
    && Path(t, frames)
    && Plus(done, Rest(t, frames)) == Whole(t)
    && (done.ok <==> NonePinned(t, frames))
    && AllEnteredOnce(t, rank, frames, done.folders)
    && StackEntered(frames, done.folders)
  }

  ghost predicate AllEnteredOnce(t: Task, rank: Ino -> nat, frames: seq<Frame>, entered: set<Ino>) {
    forall f :: f in entered ==> EnteredOnce(t, rank, frames, entered, f)
  }

  predicate StackEntered(frames: seq<Frame>, entered: set<Ino>) {
    forall i :: 1 <= i < |frames| ==> frames[i].dir in entered
  }

  // ---------------------------------------------------------------------
  // The stack as a path of names
  // ---------------------------------------------------------------------

  /** The names that lead from the top to the last folder on the stack. */
  function StackPath(frames: seq<Frame>): seq<Name> {
    if |frames| <= 1 then []
    else
      var last := frames[|frames| - 1];
      StackPath(frames[..|frames| - 1]) + if last.name.Some? then [last.name.value] else []
  }

  /** `path` leads from the top, past nothing that is skipped, to `c`. */
  predicate Leads(t: Task, path: seq<Name>, c: Ino) {
    At(t.nodes, t.top, path) == Some(c) && (path != [] ==> IsFolder(t.nodes, t.top) && path[0] in t.nodes[t.top].entries.Keys - t.skip)
  }

  lemma {:induction false} StackLeads(t: Task, frames: seq<Frame>)
    requires frames != [] && AllFit(t, frames) && AllLinked(t, frames)
    ensures Leads(t, StackPath(frames), frames[|frames| - 1].dir) && |StackPath(frames)| == |frames| - 1
  {
    var k := |frames| - 1;
    assert FrameLinked(t, frames, k);
    if k > 0 {
      var front := frames[..k];
      forall i | 0 <= i < k
        ensures FrameFits(t, front[i]) && FrameLinked(t, front, i)
      {
        assert FrameFits(t, frames[i]) && FrameLinked(t, frames, i);
      }
      StackLeads(t, front);
      AtFurther(t.nodes, t.top, StackPath(front), frames[k].name.value);
    }
  }

  /** The entry about to be visited, as a path. */
  lemma {:induction false} NextLeads(t: Task, frames: seq<Frame>)
    requires frames != [] && AllFit(t, frames) && AllLinked(t, frames) && frames[|frames| - 1].entries != []
    ensures Leads(t, StackPath(frames) + [NextName(frames)], NextChild(t, frames)) && |StackPath(frames)| == |frames| - 1
  {
    StackLeads(t, frames);
    NextIsEdge(t, frames);
    assert FrameLinked(t, frames, 0);
    AtFurther(t.nodes, t.top, StackPath(frames), NextName(frames));
  }

  // ---------------------------------------------------------------------
  // The disk
  // ---------------------------------------------------------------------

  /** The names the folder of frame `i` should still hold while the walk removes:
      those queued, the one being emptied above it, and at the top those passed over. */
  ghost function LeftIn(t: Task, frames: seq<Frame>, i: nat): set<Name>
    requires i < |frames|
  {
    NameSet(frames[i].entries)
    + (if i + 1 < |frames| && frames[i + 1].name.Some? then {frames[i + 1].name.value} else {})
    + (if i == 0 then t.skip else {})
  }

  /** `now` is folder `was` with only the entries named in `left`. */
  predicate HoldsOnly(now: Node, was: Node, left: set<Name>)
    requires was.Folder?
  {
    && now.Folder?
    && now.dev == was.dev && now.pinned == was.pinned
    && now.entries == map n | n in was.entries && n in left :: was.entries[n]
  }

  predicate OnStack(frames: seq<Frame>, f: Ino) {
    exists i :: 0 <= i < |frames| && frames[i].dir == f
  }

  /** `left` says what every folder entered so far should still hold. */
  ghost predicate LeftMatches(t: Task, frames: seq<Frame>, entered: set<Ino>, left: map<Ino, set<Name>>) {
    && left.Keys == entered + {t.top}
    && LeftOnStack(t, frames, left)
    && LeftOffStack(t, frames, left)
  }

  ghost predicate LeftOnStack(t: Task, frames: seq<Frame>, left: map<Ino, set<Name>>) {
    forall i :: 0 <= i < |frames| ==> frames[i].dir in left && left[frames[i].dir] == LeftIn(t, frames, i)
  }

  ghost predicate LeftOffStack(t: Task, frames: seq<Frame>, left: map<Ino, set<Name>>) {
    forall f :: f in left && !OnStack(frames, f) ==> left[f] == if f == t.top then t.skip else {}
  }

  /** The disk while removing: folders entered hold what is left in them, and
      everything else is as it was. */
  ghost predicate DiskHolds(t: Task, left: map<Ino, set<Name>>, disk: Nodes) {
    && disk.Keys == t.nodes.Keys
    && (forall f :: f in left ==> IsFolder(t.nodes, f) && HoldsOnly(disk[f], t.nodes[f], left[f]))
    && (forall f :: f in disk && f !in left ==> disk[f] == t.nodes[f])
  }

  // ---------------------------------------------------------------------
  // Facts about the accounts
  // ---------------------------------------------------------------------

  lemma {:induction false} RestAtLeastQueued(t: Task, frames: seq<Frame>)
    requires Closed(t.nodes) && |frames| <= WALK_MAX_DEPTH + 1
    requires forall i :: 0 <= i < |frames| ==> FrameFits(t, frames[i])
    ensures Queued(frames) <= Rest(t, frames).entries
  {
    if frames != [] {
      var last := frames[|frames| - 1];
      RestAtLeastQueued(t, frames[..|frames| - 1]);
      assert FrameFits(t, last);
      NameSetSize(last.entries);
      UnderAtLeastNames(t.nodes, t.rules, last.dir, NameSet(last.entries), |frames| - 1);
    }
  }

  /** The name about to be visited: the last one queued in the last frame. */
  ghost function NextName(frames: seq<Frame>): Name
    requires frames != [] && frames[|frames| - 1].entries != []
  {
    var entries := frames[|frames| - 1].entries;
    entries[|entries| - 1]
  }

  /** The stack once that name has been popped. */
  function Popped(frames: seq<Frame>): seq<Frame>
    requires frames != [] && frames[|frames| - 1].entries != []
  {
    var k := |frames| - 1;
    frames[k := frames[k].(entries := frames[k].entries[..|frames[k].entries| - 1])]
  }

  ghost function NextChild(t: Task, frames: seq<Frame>): Ino
    requires frames != [] && frames[|frames| - 1].entries != [] && FrameFits(t, frames[|frames| - 1])
  {
    t.nodes[frames[|frames| - 1].dir].entries[NextName(frames)]
  }

  lemma {:induction false} NextIsEdge(t: Task, frames: seq<Frame>)
    requires frames != [] && frames[|frames| - 1].entries != [] && FrameFits(t, frames[|frames| - 1])
    ensures NextName(frames) in frames[|frames| - 1].entries
    ensures Edge(t.nodes, frames[|frames| - 1].dir, NextName(frames), NextChild(t, frames))
  {
  }

  lemma {:induction false} PopTakesOne(frames: seq<Frame>)
    requires frames != [] && frames[|frames| - 1].entries != []
    ensures Queued(frames) == Queued(Popped(frames)) + 1
  {
  }

  lemma {:induction false} FrontFits(t: Task, f: Frame, k: nat)
    requires FrameFits(t, f) && k <= |f.entries|
    ensures FrameFits(t, f.(entries := f.entries[..k]))
  {
  }

  /** The link of a frame survives any frame losing names. */
  lemma {:induction false} FewerNamesLinked(t: Task, frames: seq<Frame>, frames': seq<Frame>, i: nat)
    requires i < |frames| && i < |frames'| && FrameLinked(t, frames, i)
    requires forall j :: i - 1 <= j <= i && 0 <= j ==>
               frames'[j].dir == frames[j].dir && frames'[j].name == frames[j].name
               && forall n :: n in frames'[j].entries ==> n in frames[j].entries
    ensures FrameLinked(t, frames', i)
  {
  }

  lemma {:induction false} PopKeepsFit(t: Task, frames: seq<Frame>)
    requires frames != [] && frames[|frames| - 1].entries != [] && AllFit(t, frames)
    ensures AllFit(t, Popped(frames))
  {
  }

  lemma {:induction false} PopKeepsLinked(t: Task, frames: seq<Frame>)
    requires frames != [] && frames[|frames| - 1].entries != [] && AllLinked(t, frames)
    ensures AllLinked(t, Popped(frames))
  {
    forall i | 0 <= i < |frames|
      ensures FrameLinked(t, Popped(frames), i)
    {
      FewerNamesLinked(t, frames, Popped(frames), i);
    }
  }

  lemma {:induction false} PopKeepsPath(t: Task, frames: seq<Frame>)
    requires Path(t, frames) && frames != [] && frames[|frames| - 1].entries != []
    ensures Path(t, Popped(frames))
    ensures Edge(t.nodes, frames[|frames| - 1].dir, NextName(frames), NextChild(t, frames))
    ensures Queued(frames) == Queued(Popped(frames)) + 1
  {
    NextIsEdge(t, frames);
    PopTakesOne(frames);
    PopKeepsFit(t, frames);
    PopKeepsLinked(t, frames);
    assert NoneTwice(Popped(frames));
  }

  lemma {:induction false} PopSplitsFrame(t: Task, f: Frame, depth: nat)
    requires Closed(t.nodes) && FrameFits(t, f) && f.entries != [] && depth <= WALK_MAX_DEPTH
    ensures var n := |f.entries| - 1;
            var c := t.nodes[f.dir].entries[f.entries[n]];
            && c in t.nodes
            && FrameRest(t, f, depth) ==
                 Plus(Below(t.nodes, t.rules, c, depth), FrameRest(t, f.(entries := f.entries[..n]), depth))
  {
    var n := |f.entries| - 1;
    assert Edge(t.nodes, f.dir, f.entries[n], t.nodes[f.dir].entries[f.entries[n]]);
    FrontFits(t, f, n);
    LastIsMax(f.entries);
  }

  /** Popping a name splits what is left into that entry with all below it, and the rest. */
  lemma {:induction false} PopSplitsRest(t: Task, frames: seq<Frame>)
    requires Closed(t.nodes) && frames != [] && frames[|frames| - 1].entries != []
    requires FrameFits(t, frames[|frames| - 1]) && |frames| <= WALK_MAX_DEPTH + 1
    ensures NextChild(t, frames) in t.nodes
    ensures Rest(t, frames) == Plus(Rest(t, Popped(frames)), Below(t.nodes, t.rules, NextChild(t, frames), |frames| - 1))
  {
    PopSplitsFrame(t, frames[|frames| - 1], |frames| - 1);
    LastSplitsRest(t, frames, Below(t.nodes, t.rules, NextChild(t, frames), |frames| - 1));
  }

  lemma {:induction false} LastSplitsRest(t: Task, frames: seq<Frame>, b: Summary)
    requires frames != [] && frames[|frames| - 1].entries != []
    requires var k := |frames| - 1;
             FrameRest(t, frames[k], k) == Plus(b, FrameRest(t, Popped(frames)[k], k))
    ensures Rest(t, frames) == Plus(Rest(t, Popped(frames)), b)
  {
  }

  /** The edge an entered folder came by is not queued. */
  lemma {:induction false} EnteredIsNotQueued(
    t: Task, rank: Ino -> nat, frames: seq<Frame>, entered: set<Ino>, f: Ino, i: nat, n: Name)
    requires GoodTask(t, rank) && EnteredOnce(t, rank, frames, entered, f)
    requires i < |frames| && Edge(t.nodes, frames[i].dir, n, f)
    ensures n !in frames[i].entries
  {
  }

  /** A folder about to be entered was not entered before, and is not the top. */
  lemma {:induction false} NextFolderIsNew(t: Task, rank: Ino -> nat, frames: seq<Frame>, done: Summary)
    requires Accounts(t, rank, frames, done) && frames != [] && frames[|frames| - 1].entries != []
    requires IsFolder(t.nodes, NextChild(t, frames))
    ensures NextChild(t, frames) !in done.folders && rank(t.top) < rank(NextChild(t, frames))
  {
    var k := |frames| - 1;
    var n, c := NextName(frames), NextChild(t, frames);
    PopKeepsPath(t, frames);
    assert n in frames[k].entries;
    assert FrameLinked(t, frames, 0);
    if k > 0 {
      assert EnteredOnce(t, rank, frames, done.folders, frames[k].dir);
    }
    if c in done.folders {
      EnteredIsNotQueued(t, rank, frames, done.folders, c, k, n);
    }
  }

  // ---------------------------------------------------------------------
  // One step at a time: the accounts
  // ---------------------------------------------------------------------

  lemma {:induction false} PlusRegroups(a: Summary, b: Summary, c: Summary, d: Summary)
    ensures Plus(a, Plus(b, Plus(c, d))) == Plus(Plus(a, c), Plus(b, d))
    ensures Plus(a, Plus(b, c)) == Plus(Plus(a, c), b)
    ensures Plus(a, Nothing()) == a
  {
  }

  /** An entered folder stays entered while the frames of folders already
      entered only lose names. */
  lemma {:induction false} EnteredStaysEntered(
    t: Task, rank: Ino -> nat, frames: seq<Frame>, frames': seq<Frame>, entered: set<Ino>, entered': set<Ino>, f: Ino)
    requires EnteredOnce(t, rank, frames, entered, f) && entered <= entered'
    requires forall j :: 0 <= j < |frames'| && (frames'[j].dir == t.top || frames'[j].dir in entered) ==>
               j < |frames| && frames[j].dir == frames'[j].dir && NameSet(frames'[j].entries) <= NameSet(frames[j].entries)
    ensures EnteredOnce(t, rank, frames', entered', f)
  {
    var d, n :| SpentEdge(t, frames, entered, d, n, f);
    forall j | 0 <= j < |frames'| && frames'[j].dir == d
      ensures n !in frames'[j].entries
    {
      assert n !in NameSet(frames[j].entries);
    }
    assert SpentEdge(t, frames', entered', d, n, f);
  }

  lemma {:induction false} PopKeepsEntered(t: Task, rank: Ino -> nat, frames: seq<Frame>, entered: set<Ino>)
    requires frames != [] && frames[|frames| - 1].entries != []
    requires AllEnteredOnce(t, rank, frames, entered)
    ensures AllEnteredOnce(t, rank, Popped(frames), entered)
  {
    var popped := Popped(frames);
    forall j | 0 <= j < |frames|
      ensures popped[j].dir == frames[j].dir && NameSet(popped[j].entries) <= NameSet(frames[j].entries)
    {
    }
    forall f | f in entered
      ensures EnteredOnce(t, rank, popped, entered, f)
    {
      EnteredStaysEntered(t, rank, frames, popped, entered, entered, f);
    }
  }

  lemma {:induction false} PopKeepsFolders(t: Task, frames: seq<Frame>, entered: set<Ino>)
    requires frames != [] && frames[|frames| - 1].entries != []
    ensures NonePinned(t, frames) <==> NonePinned(t, Popped(frames))
    ensures StackEntered(frames, entered) <==> StackEntered(Popped(frames), entered)
  {
    assert forall j :: 0 <= j < |frames| ==> Popped(frames)[j].dir == frames[j].dir;
  }

  /** Popping a name moves that entry, and all below it, out of what is left. */
  lemma {:induction false} PopAccounts(t: Task, rank: Ino -> nat, frames: seq<Frame>, done: Summary)
    requires Accounts(t, rank, frames, done) && frames != [] && frames[|frames| - 1].entries != []
    ensures Path(t, Popped(frames)) && NextChild(t, frames) in t.nodes
    ensures Plus(done, Plus(Rest(t, Popped(frames)), Below(t.nodes, t.rules, NextChild(t, frames), |frames| - 1))) == Whole(t)
    ensures done.ok <==> NonePinned(t, Popped(frames))
    ensures AllEnteredOnce(t, rank, Popped(frames), done.folders) && StackEntered(Popped(frames), done.folders)
    ensures Queued(frames) == Queued(Popped(frames)) + 1
  {
    PopKeepsPath(t, frames);
    PopSplitsRest(t, frames);
    PopKeepsEntered(t, rank, frames, done.folders);
    PopKeepsFolders(t, frames, done.folders);
  }

  /** Visiting an entry that is not a folder. */
  lemma {:induction false} FileStepAccounts(t: Task, rank: Ino -> nat, frames: seq<Frame>, done: Summary)
    requires Accounts(t, rank, frames, done) && frames != [] && frames[|frames| - 1].entries != []
    requires NextChild(t, frames) in t.nodes && !t.nodes[NextChild(t, frames)].Folder?
    requires Removable(t.nodes[NextChild(t, frames)], t.rules)
    ensures Accounts(t, rank, Popped(frames),
                     Plus(done, Itself(t.nodes, t.rules, NextChild(t, frames), |frames| - 1)))
  {
    PopAccounts(t, rank, frames, done);
    var it := Itself(t.nodes, t.rules, NextChild(t, frames), |frames| - 1);
    PlusRegroups(done, Rest(t, Popped(frames)), it, Nothing());
    assert Plus(done, it).folders == done.folders;
  }

  /** The stack once the folder just popped off the names has been opened. */
  ghost function Pushed(t: Task, frames: seq<Frame>, names: seq<Name>): seq<Frame>
    requires frames != [] && frames[|frames| - 1].entries != [] && FrameFits(t, frames[|frames| - 1])
  {
    Popped(frames) + [Frame(NextChild(t, frames), names, Some(NextName(frames)))]
  }

  lemma {:induction false} PushKeepsLinked(t: Task, frames: seq<Frame>, names: seq<Name>)
    requires frames != [] && frames[|frames| - 1].entries != [] && FrameFits(t, frames[|frames| - 1])
    requires AllLinked(t, Popped(frames)) && FrameLinked(t, frames, |frames| - 1)
    ensures NextName(frames) !in Popped(frames)[|frames| - 1].entries
    ensures AllLinked(t, Pushed(t, frames, names))
  {
    var k, popped, pushed := |frames| - 1, Popped(frames), Pushed(t, frames, names);
    NextIsEdge(t, frames);
    LastIsMax(frames[k].entries);
    assert NextName(frames) !in NameSet(popped[k].entries);
    forall i | 0 <= i < |pushed|
      ensures FrameLinked(t, pushed, i)
    {
      if i <= k {
        FewerNamesLinked(t, popped, pushed, i);
      }
    }
  }

  lemma {:induction false} PushKeepsPath(
    t: Task, rank: Ino -> nat, frames: seq<Frame>, done: Summary, names: seq<Name>)
    requires Accounts(t, rank, frames, done) && frames != [] && frames[|frames| - 1].entries != []
    requires |frames| <= WALK_MAX_DEPTH && IsFolder(t.nodes, NextChild(t, frames))
    requires Ascending(names) && NameSet(names) == t.nodes[NextChild(t, frames)].entries.Keys
    ensures Path(t, Pushed(t, frames, names))
    ensures NextName(frames) !in Popped(frames)[|frames| - 1].entries
  {
    PopKeepsPath(t, frames);
    PushKeepsLinked(t, frames, names);
    PushKeepsFit(t, frames, names);
    NextFolderIsNew(t, rank, frames, done);
    assert FrameLinked(t, frames, 0);
    PushKeepsDistinct(t, frames, done.folders, names);
  }

  lemma {:induction false} PushKeepsFit(t: Task, frames: seq<Frame>, names: seq<Name>)
    requires frames != [] && frames[|frames| - 1].entries != [] && FrameFits(t, frames[|frames| - 1])
    requires AllFit(t, Popped(frames)) && IsFolder(t.nodes, NextChild(t, frames))
    requires Ascending(names) && NameSet(names) == t.nodes[NextChild(t, frames)].entries.Keys
    ensures AllFit(t, Pushed(t, frames, names))
  {
  }

  lemma {:induction false} PushKeepsDistinct(t: Task, frames: seq<Frame>, entered: set<Ino>, names: seq<Name>)
    requires frames != [] && frames[|frames| - 1].entries != [] && FrameFits(t, frames[|frames| - 1])
    requires NoneTwice(frames) && StackEntered(frames, entered) && frames[0].dir == t.top
    requires NextChild(t, frames) !in entered && NextChild(t, frames) != t.top
    ensures NoneTwice(Pushed(t, frames, names))
  {
  }

  /** Opening a folder replaces it, in what is left, by its own entries. */
  lemma {:induction false} PushSplitsRest(
    t: Task, frames: seq<Frame>, names: seq<Name>)
    requires Closed(t.nodes) && frames != [] && frames[|frames| - 1].entries != []
    requires FrameFits(t, frames[|frames| - 1]) && |frames| <= WALK_MAX_DEPTH
    requires FrameFits(t, Pushed(t, frames, names)[|frames|])
    requires NameSet(names) == t.nodes[NextChild(t, frames)].entries.Keys
    ensures var c, depth := NextChild(t, frames), |frames| - 1;
            && c in t.nodes
            && Rest(t, Pushed(t, frames, names)) ==
                 Plus(Rest(t, Popped(frames)), Under(t.nodes, t.rules, c, t.nodes[c].entries.Keys, depth + 1))
            && Below(t.nodes, t.rules, c, depth) ==
                 Plus(Itself(t.nodes, t.rules, c, depth), Under(t.nodes, t.rules, c, t.nodes[c].entries.Keys, depth + 1))
  {
  }

  /** The folders entered, once one more has been. */
  lemma {:induction false} PushEnters(
    t: Task, rank: Ino -> nat, frames: seq<Frame>, done: Summary, names: seq<Name>, entered: set<Ino>)
    requires Accounts(t, rank, frames, done) && frames != [] && frames[|frames| - 1].entries != []
    requires |frames| <= WALK_MAX_DEPTH && IsFolder(t.nodes, NextChild(t, frames))
    requires Ascending(names) && NameSet(names) == t.nodes[NextChild(t, frames)].entries.Keys
    requires entered == done.folders + {NextChild(t, frames)} && t.nodes[NextChild(t, frames)].dev == t.rules.rootDev
    ensures AllEnteredOnce(t, rank, Pushed(t, frames, names), entered) && StackEntered(Pushed(t, frames, names), entered)
  {
    NextFolderIsNew(t, rank, frames, done);
    PopKeepsEntered(t, rank, frames, done.folders);
    PushKeepsEntered(t, rank, frames, done.folders, names, entered);
    PushEntersNew(t, rank, frames, done, names, entered);
    PushStackEntered(t, frames, names, done.folders, entered);
  }

  lemma {:induction false} PushStackEntered(
    t: Task, frames: seq<Frame>, names: seq<Name>, before: set<Ino>, entered: set<Ino>)
    requires frames != [] && frames[|frames| - 1].entries != [] && FrameFits(t, frames[|frames| - 1])
    requires StackEntered(frames, before) && entered == before + {NextChild(t, frames)}
    ensures StackEntered(Pushed(t, frames, names), entered)
  {
  }

  lemma {:induction false} PushKeepsEntered(
    t: Task, rank: Ino -> nat, frames: seq<Frame>, before: set<Ino>, names: seq<Name>, entered: set<Ino>)
    requires frames != [] && frames[|frames| - 1].entries != [] && FrameFits(t, frames[|frames| - 1])
    requires AllEnteredOnce(t, rank, Popped(frames), before) && before <= entered
    requires NextChild(t, frames) !in before && NextChild(t, frames) != t.top
    ensures forall f :: f in before ==> EnteredOnce(t, rank, Pushed(t, frames, names), entered, f)
  {
    var popped, pushed := Popped(frames), Pushed(t, frames, names);
    assert forall j :: 0 <= j < |popped| ==> pushed[j] == popped[j];
    forall f | f in before
      ensures EnteredOnce(t, rank, pushed, entered, f)
    {
      EnteredStaysEntered(t, rank, popped, pushed, before, entered, f);
    }
  }

  lemma {:induction false} PushEntersNew(
    t: Task, rank: Ino -> nat, frames: seq<Frame>, done: Summary, names: seq<Name>, entered: set<Ino>)
    requires Accounts(t, rank, frames, done) && frames != [] && frames[|frames| - 1].entries != []
    requires |frames| <= WALK_MAX_DEPTH && IsFolder(t.nodes, NextChild(t, frames))
    requires Ascending(names) && NameSet(names) == t.nodes[NextChild(t, frames)].entries.Keys
    requires entered == done.folders + {NextChild(t, frames)} && t.nodes[NextChild(t, frames)].dev == t.rules.rootDev
    ensures EnteredOnce(t, rank, Pushed(t, frames, names), entered, NextChild(t, frames))
  {
    var k, pushed := |frames| - 1, Pushed(t, frames, names);
    PopKeepsPath(t, frames);
    NextFolderIsNew(t, rank, frames, done);
    PushKeepsPath(t, rank, frames, done, names);
    assert FrameLinked(t, frames, 0);
    assert pushed[k] == Popped(frames)[k] && pushed[k].dir == frames[k].dir;
    assert SpentEdge(t, pushed, entered, frames[k].dir, NextName(frames), NextChild(t, frames));
  }

  /** Entering a folder. */
  lemma {:induction false} FolderStepAccounts(
    t: Task, rank: Ino -> nat, frames: seq<Frame>, done: Summary, names: seq<Name>)
    requires Accounts(t, rank, frames, done) && frames != [] && frames[|frames| - 1].entries != []
    requires IsFolder(t.nodes, NextChild(t, frames))
    requires Enterable(t.nodes[NextChild(t, frames)], t.rules, |frames| - 1)
    requires Ascending(names) && NameSet(names) == t.nodes[NextChild(t, frames)].entries.Keys
    ensures Accounts(t, rank, Pushed(t, frames, names),
                     Plus(done, Itself(t.nodes, t.rules, NextChild(t, frames), |frames| - 1)))
  {
    var c, it := NextChild(t, frames), Itself(t.nodes, t.rules, NextChild(t, frames), |frames| - 1);
    PopAccounts(t, rank, frames, done);
    PushKeepsPath(t, rank, frames, done, names);
    assert FrameFits(t, Pushed(t, frames, names)[|frames|]);
    PushSplitsRest(t, frames, names);
    PlusRegroups(done, Rest(t, Popped(frames)), it, Under(t.nodes, t.rules, c, t.nodes[c].entries.Keys, |frames|));
    PushEnters(t, rank, frames, done, names, Plus(done, it).folders);
    PushKeepsPinned(t, frames, names);
  }

  lemma {:induction false} PushKeepsPinned(t: Task, frames: seq<Frame>, names: seq<Name>)
    requires frames != [] && frames[|frames| - 1].entries != [] && FrameFits(t, frames[|frames| - 1])
    requires IsFolder(t.nodes, NextChild(t, frames))
    ensures NonePinned(t, Pushed(t, frames, names)) <==>
              NonePinned(t, Popped(frames)) && Removable(t.nodes[NextChild(t, frames)], t.rules)
  {
    var popped, pushed := Popped(frames), Pushed(t, frames, names);
    assert forall i :: 0 <= i < |popped| ==> pushed[i] == popped[i];
    assert pushed[|popped|].dir == NextChild(t, frames);
  }

  lemma {:induction false} LeaveKeepsPath(t: Task, frames: seq<Frame>)
    requires Path(t, frames) && frames != []
    ensures Path(t, frames[..|frames| - 1])
  {
    var front := frames[..|frames| - 1];
    forall i | 0 <= i < |front|
      ensures FrameFits(t, front[i]) && FrameLinked(t, front, i)
    {
      assert FrameFits(t, frames[i]) && FrameLinked(t, frames, i);
    }
  }

  lemma {:induction false} LeaveKeepsRest(t: Task, frames: seq<Frame>)
    requires frames != [] && frames[|frames| - 1].entries == []
    ensures Rest(t, frames) == Rest(t, frames[..|frames| - 1])
    ensures Queued(frames) == Queued(frames[..|frames| - 1])
  {
  }

  /** Leaving a folder whose names are all done, and which is not pinned. */
  lemma {:induction false} LeaveStepAccounts(t: Task, rank: Ino -> nat, frames: seq<Frame>, done: Summary)
    requires Accounts(t, rank, frames, done) && frames != [] && frames[|frames| - 1].entries == []
    requires |frames| > 1 ==> IsFolder(t.nodes, frames[|frames| - 1].dir) && Removable(t.nodes[frames[|frames| - 1].dir], t.rules)
    ensures Accounts(t, rank, frames[..|frames| - 1], done)
    ensures Queued(frames) == Queued(frames[..|frames| - 1])
  {
    LeaveKeepsPath(t, frames);
    LeaveKeepsRest(t, frames);
    LeaveKeepsPinned(t, frames);
    LeaveKeepsEntered(t, rank, frames, done.folders);
  }

  lemma {:induction false} LeaveKeepsEntered(t: Task, rank: Ino -> nat, frames: seq<Frame>, entered: set<Ino>)
    requires frames != []
    requires AllEnteredOnce(t, rank, frames, entered) && StackEntered(frames, entered)
    ensures AllEnteredOnce(t, rank, frames[..|frames| - 1], entered) && StackEntered(frames[..|frames| - 1], entered)
  {
    var front := frames[..|frames| - 1];
    forall f | f in entered
      ensures EnteredOnce(t, rank, front, entered, f)
    {
      EnteredStaysEntered(t, rank, frames, front, entered, entered, f);
    }
  }

  lemma {:induction false} LeaveKeepsPinned(t: Task, frames: seq<Frame>)
    requires frames != []
    requires |frames| > 1 ==> IsFolder(t.nodes, frames[|frames| - 1].dir) && Removable(t.nodes[frames[|frames| - 1].dir], t.rules)
    ensures NonePinned(t, frames) <==> NonePinned(t, frames[..|frames| - 1])
  {
  }

  // ---------------------------------------------------------------------
  // One step at a time: the disk
  // ---------------------------------------------------------------------

  /** A folder with the entry `n` taken out. */
  function Without(node: Node, n: Name): Node
    requires node.Folder?
  {
    node.(entries := node.entries - {n})
  }

  /** Visiting a name changes what only the last folder should hold. */
  lemma {:induction false} PopLeft(t: Task, frames: seq<Frame>)
    requires Path(t, frames) && frames != [] && frames[|frames| - 1].entries != []
    ensures var k, popped := |frames| - 1, Popped(frames);
            && LeftIn(t, popped, k) == LeftIn(t, frames, k) - {NextName(frames)}
            && NextName(frames) in LeftIn(t, frames, k)
            && (forall i :: 0 <= i < k ==> LeftIn(t, popped, i) == LeftIn(t, frames, i))
            && (forall i :: 0 <= i < |frames| ==> popped[i].dir == frames[i].dir)
            && (forall f :: OnStack(popped, f) <==> OnStack(frames, f))
  {
    var k, popped := |frames| - 1, Popped(frames);
    LastIsMax(frames[k].entries);
    assert NextName(frames) in frames[k].entries;
    assert FrameLinked(t, frames, 0);
    forall i | 0 <= i < k
      ensures LeftIn(t, popped, i) == LeftIn(t, frames, i)
    {
      assert popped[i] == frames[i] && popped[i + 1].name == frames[i + 1].name;
    }
    assert forall i :: 0 <= i < |frames| ==> popped[i].dir == frames[i].dir;
  }

  /** The name about to be visited is still where the walk found it. */
  ghost predicate NextEntryOnDisk(t: Task, frames: seq<Frame>, disk: Nodes)
    requires frames != [] && frames[|frames| - 1].entries != [] && FrameFits(t, frames[|frames| - 1])
  {
    var dir := frames[|frames| - 1].dir;
    && IsFolder(disk, dir)
    && NextName(frames) in disk[dir].entries
    && disk[dir].entries[NextName(frames)] == NextChild(t, frames)
  }

  lemma {:induction false} EntryIsOnDisk(
    t: Task, frames: seq<Frame>, entered: set<Ino>, left: map<Ino, set<Name>>, disk: Nodes)
    requires Path(t, frames) && frames != [] && frames[|frames| - 1].entries != []
    requires LeftMatches(t, frames, entered, left) && DiskHolds(t, left, disk)
    ensures NextEntryOnDisk(t, frames, disk)
  {
    PopKeepsPath(t, frames);
    PopLeft(t, frames);
  }

  /** Taking `n` out of folder `dir`, on disk and in what should be left. */
  lemma {:induction false} UnlinkedDisk(t: Task, left: map<Ino, set<Name>>, disk: Nodes, dir: Ino, n: Name)
    requires DiskHolds(t, left, disk) && dir in left
    ensures IsFolder(disk, dir)
    ensures DiskHolds(t, left[dir := left[dir] - {n}], disk[dir := Without(disk[dir], n)])
  {
  }

  /** After unlinking the file just visited. */
  lemma {:induction false} FileStepLeft(
    t: Task, frames: seq<Frame>, entered: set<Ino>, left: map<Ino, set<Name>>)
    requires Path(t, frames) && frames != [] && frames[|frames| - 1].entries != []
    requires LeftMatches(t, frames, entered, left)
    ensures var dir := frames[|frames| - 1].dir;
            && dir in left
            && LeftMatches(t, Popped(frames), entered, left[dir := left[dir] - {NextName(frames)}])
  {
    PopLeft(t, frames);
  }

  /** `now` is `was` up to its mode. */
  predicate UpToMode(now: Node, was: Node) {
    now == was || (now.Folder? && was.Folder? && now == was.(shut := now.shut))
  }

  /** Opening a folder, whose mode may have been changed on the way. */
  lemma {:induction false} OpenedDisk(t: Task, left: map<Ino, set<Name>>, disk: Nodes, c: Ino, node: Node)
    requires DiskHolds(t, left, disk) && IsFolder(t.nodes, c) && c !in left
    requires UpToMode(node, t.nodes[c])
    ensures DiskHolds(t, left[c := t.nodes[c].entries.Keys], disk[c := node])
  {
  }

  lemma {:induction false} FolderStepLeft(
    t: Task, frames: seq<Frame>, names: seq<Name>, entered: set<Ino>, left: map<Ino, set<Name>>)
    requires Path(t, frames) && frames != [] && frames[|frames| - 1].entries != []
    requires LeftMatches(t, frames, entered, left) && NextChild(t, frames) !in left
    requires IsFolder(t.nodes, NextChild(t, frames)) && NameSet(names) == t.nodes[NextChild(t, frames)].entries.Keys
    ensures var c := NextChild(t, frames);
            LeftMatches(t, Pushed(t, frames, names), entered + {c}, left[c := t.nodes[c].entries.Keys])
  {
    PushLeftOnStack(t, frames, names, left);
    PushLeftOffStack(t, frames, names, left);
  }

  /** What each folder should hold once one more has been entered. */
  lemma {:induction false} LeftInPushed(t: Task, frames: seq<Frame>, names: seq<Name>, i: nat)
    requires Path(t, frames) && frames != [] && frames[|frames| - 1].entries != [] && i <= |frames|
    requires IsFolder(t.nodes, NextChild(t, frames)) && NameSet(names) == t.nodes[NextChild(t, frames)].entries.Keys
    ensures var pushed, c := Pushed(t, frames, names), NextChild(t, frames);
            && pushed[i].dir == (if i < |frames| then frames[i].dir else c)
            && LeftIn(t, pushed, i) == if i < |frames| then LeftIn(t, frames, i) else t.nodes[c].entries.Keys
  {
  }

  lemma {:induction false} PushLeftOnStack(t: Task, frames: seq<Frame>, names: seq<Name>, left: map<Ino, set<Name>>)
    requires Path(t, frames) && frames != [] && frames[|frames| - 1].entries != []
    requires LeftOnStack(t, frames, left) && NextChild(t, frames) !in left
    requires IsFolder(t.nodes, NextChild(t, frames)) && NameSet(names) == t.nodes[NextChild(t, frames)].entries.Keys
    ensures var c := NextChild(t, frames);
            LeftOnStack(t, Pushed(t, frames, names), left[c := t.nodes[c].entries.Keys])
  {
    var pushed, c := Pushed(t, frames, names), NextChild(t, frames);
    forall i | 0 <= i < |pushed|
      ensures pushed[i].dir in left[c := t.nodes[c].entries.Keys]
      ensures left[c := t.nodes[c].entries.Keys][pushed[i].dir] == LeftIn(t, pushed, i)
    {
      LeftInPushed(t, frames, names, i);
    }
  }

  lemma {:induction false} PushLeftOffStack(t: Task, frames: seq<Frame>, names: seq<Name>, left: map<Ino, set<Name>>)
    requires frames != [] && frames[|frames| - 1].entries != [] && FrameFits(t, frames[|frames| - 1])
    requires LeftOffStack(t, frames, left) && NextChild(t, frames) in t.nodes && t.nodes[NextChild(t, frames)].Folder?
    ensures var c := NextChild(t, frames);
            LeftOffStack(t, Pushed(t, frames, names), left[c := t.nodes[c].entries.Keys])
  {
    var pushed, c := Pushed(t, frames, names), NextChild(t, frames);
    assert pushed[|frames|].dir == c && OnStack(pushed, c);
    assert forall i :: 0 <= i < |frames| ==> pushed[i].dir == frames[i].dir;
    assert forall f :: OnStack(frames, f) ==> OnStack(pushed, f);
  }

  /** What should be left, once an emptied folder has been taken out of the one below it. */
  ghost function LeftAfterLeaving(frames: seq<Frame>, left: map<Ino, set<Name>>): map<Ino, set<Name>>
    requires frames != []
  {
    var k := |frames| - 1;
    if k > 0 && frames[k].name.Some? && frames[k - 1].dir in left
    then left[frames[k - 1].dir := left[frames[k - 1].dir] - {frames[k].name.value}]
    else left
  }

  lemma {:induction false} LeaveStepLeft(t: Task, frames: seq<Frame>, entered: set<Ino>, left: map<Ino, set<Name>>)
    requires Path(t, frames) && frames != [] && frames[|frames| - 1].entries == []
    requires LeftMatches(t, frames, entered, left)
    ensures LeftMatches(t, frames[..|frames| - 1], entered, LeftAfterLeaving(frames, left))
  {
    LeaveLeftOnStack(t, frames, left);
    LeaveLeftOffStack(t, frames, left);
  }

  /** What a folder below the one being left should hold, once that is gone. */
  lemma {:induction false} LeftInFront(t: Task, frames: seq<Frame>, i: nat)
    requires i < |frames| - 1 && FrameLinked(t, frames, |frames| - 1)
    ensures var k, front := |frames| - 1, frames[..|frames| - 1];
            && frames[k].name.Some?
            && LeftIn(t, front, i) ==
                 if i == k - 1 then LeftIn(t, frames, i) - {frames[k].name.value} else LeftIn(t, frames, i)
  {
  }

  lemma {:induction false} LeaveLeftOnStack(t: Task, frames: seq<Frame>, left: map<Ino, set<Name>>)
    requires AllLinked(t, frames) && NoneTwice(frames) && frames != [] && LeftOnStack(t, frames, left)
    ensures LeftOnStack(t, frames[..|frames| - 1], LeftAfterLeaving(frames, left))
  {
    var k := |frames| - 1;
    var front := frames[..k];
    forall i | 0 <= i < k
      ensures front[i].dir in left && LeftAfterLeaving(frames, left)[front[i].dir] == LeftIn(t, front, i)
    {
      LeftInFront(t, frames, i);
      assert front[i] == frames[i];
      assert i < k - 1 ==> frames[i].dir != frames[k - 1].dir;
    }
  }

  lemma {:induction false} LeaveLeftOffStack(t: Task, frames: seq<Frame>, left: map<Ino, set<Name>>)
    requires Path(t, frames) && frames != [] && frames[|frames| - 1].entries == []
    requires LeftOnStack(t, frames, left) && LeftOffStack(t, frames, left)
    ensures LeftOffStack(t, frames[..|frames| - 1], LeftAfterLeaving(frames, left))
  {
    LeavingIsLast(t, frames);
    forall f | f in left && !OnStack(frames[..|frames| - 1], f)
      ensures LeftAfterLeaving(frames, left)[f] == if f == t.top then t.skip else {}
    {
      LeaveLeftOffStackAt(t, frames, left, f);
    }
  }

  lemma {:induction false} LeaveLeftOffStackAt(t: Task, frames: seq<Frame>, left: map<Ino, set<Name>>, f: Ino)
    requires frames != [] && LeftOnStack(t, frames, left) && LeftOffStack(t, frames, left)
    requires LeftIn(t, frames, |frames| - 1) == if |frames| == 1 then t.skip else {}
    requires frames[|frames| - 1].dir == t.top <==> |frames| == 1
    requires f in left && !OnStack(frames[..|frames| - 1], f)
    ensures LeftAfterLeaving(frames, left)[f] == if f == t.top then t.skip else {}
  {
    NotOnFront(frames, f);
    if f != frames[|frames| - 1].dir {
      assert !OnStack(frames, f);
    }
  }

  lemma {:induction false} NotOnFront(frames: seq<Frame>, f: Ino)
    requires frames != [] && !OnStack(frames[..|frames| - 1], f)
    ensures forall i :: 0 <= i < |frames| - 1 ==> frames[i].dir != f
  {
  }

  /** The folder being left should hold nothing, or at the top what was passed over. */
  lemma {:induction false} LeavingIsLast(t: Task, frames: seq<Frame>)
    requires Path(t, frames) && frames != [] && frames[|frames| - 1].entries == []
    ensures LeftIn(t, frames, |frames| - 1) == if |frames| == 1 then t.skip else {}
    ensures frames[|frames| - 1].dir == t.top <==> |frames| == 1
    ensures !OnStack(frames[..|frames| - 1], frames[|frames| - 1].dir)
    ensures |frames| > 1 ==> frames[|frames| - 1].name.Some?
  {
    var k := |frames| - 1;
    assert FrameLinked(t, frames, 0) && FrameLinked(t, frames, k);
    assert forall i :: 0 <= i < k ==> frames[..k][i] == frames[i];
  }

  /** The folder being left is empty on disk: its removal cannot fail for want of that. */
  lemma {:induction false} LeavingIsEmpty(
    t: Task, frames: seq<Frame>, entered: set<Ino>, left: map<Ino, set<Name>>, disk: Nodes)
    requires Path(t, frames) && |frames| > 1 && frames[|frames| - 1].entries == []
    requires LeftMatches(t, frames, entered, left) && DiskHolds(t, left, disk)
    ensures var dir, p, n := frames[|frames| - 1].dir, frames[|frames| - 2].dir, frames[|frames| - 1].name;
            && IsFolder(disk, dir) && disk[dir].entries == map[]
            && IsFolder(t.nodes, dir) && disk[dir].pinned == t.nodes[dir].pinned
            && n.Some? && p in left && IsFolder(disk, p)
            && n.value in disk[p].entries && disk[p].entries[n.value] == dir
  {
    var k := |frames| - 1;
    LeavingIsLast(t, frames);
    assert FrameLinked(t, frames, k);
    assert frames[k].name.value in LeftIn(t, frames, k - 1);
  }
}
