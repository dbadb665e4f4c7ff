/** The operating system as far as process groups go, and what a run of it may do.

    Every process has a `uid` that is never reused, unlike its pid, and remembers
    the uid of the process that forked it, which its `ppid` may stop naming. A process
    group is the same group for as long as its id belongs to the same leader,
    so a group's incarnation is the uid of the process that led it (`inc`), and
    its age is that leader's age (`incStart`).
  */
module OsRun {
  datatype Proc = Proc(
    uid: nat,
    forker: nat,
    start: int,
    ppid: int,
    pgid: int,
    inc: nat,
    incStart: int,
    zombie: bool)

  datatype Os = Os(now: int, nextUid: nat, procs: map<int, Proc>)

  datatype OsStep =
    | Tick(ms: nat)
    | Fork(parent: int, child: int)
    | Lead(pid: int)
    | Join(pid: int, group: int)
    | Exit(pid: int)
    | Reap(pid: int)

  predicate GroupInUse(s: Os, g: int) {
    exists p :: p in s.procs && s.procs[p].pgid == g
  }

  predicate Running(s: Os, pid: int) {
    pid in s.procs && !s.procs[pid].zombie
  }

  /** Process `q`'s group is one `pid` may join: not younger than `pid`. */
  predicate OldEnough(s: Os, pid: int, q: int, group: int)
    requires pid in s.procs
  {
    q in s.procs && s.procs[q].pgid == group && s.procs[q].incStart <= s.procs[pid].start
  }

  /** What the system allows. An id is not issued while a process or a
      non-empty group has it, and no process joins a group younger than itself. */
  ghost predicate Allowed(s: Os, step: OsStep) {
    match step
    case Tick(_) => true
    case Fork(parent, child) => Running(s, parent) && child > 1 && child !in s.procs && !GroupInUse(s, child)
    case Lead(pid) => Running(s, pid)
    case Join(pid, group) => Running(s, pid) && exists q :: OldEnough(s, pid, q, group)
    case Exit(pid) => Running(s, pid)
    case Reap(pid) => pid in s.procs && s.procs[pid].zombie
  }

  ghost function After(s: Os, step: OsStep): Os
    requires Allowed(s, step)
  {
    match step
    case Tick(ms) => s.(now := s.now + ms)
    case Fork(parent, child) =>
      var p := s.procs[parent];
      s.(procs := s.procs[child := Proc(s.nextUid, p.uid, s.now, parent, p.pgid, p.inc, p.incStart, false)],
         nextUid := s.nextUid + 1)
    case Lead(pid) =>
      var p := s.procs[pid];
      s.(procs := s.procs[pid := p.(pgid := pid, inc := p.uid, incStart := p.start)])
    case Join(pid, group) =>
      var q :| OldEnough(s, pid, q, group);
      var leader := s.procs[q];
      s.(procs := s.procs[pid := s.procs[pid].(pgid := group, inc := leader.inc, incStart := leader.incStart)])
    case Exit(pid) =>
      // Orphans are handed to pid 1.
      s.(procs := map p | p in s.procs ::
                    if p == pid then s.procs[p].(zombie := true)
                    else if s.procs[p].ppid == pid then s.procs[p].(ppid := 1)
                    else s.procs[p])
    case Reap(pid) => s.(procs := s.procs - {pid})
  }

  /** One incarnation per group id; a pid that is also a group id is that group's leader. */
  ghost predicate Coherent(s: Os) {
    && (forall p :: p in s.procs ==>
          var a := s.procs[p];
          a.incStart <= a.start <= s.now && a.uid < s.nextUid && a.inc < s.nextUid)
    && (forall p, q :: p in s.procs && q in s.procs && s.procs[p].pgid == s.procs[q].pgid ==>
          s.procs[p].inc == s.procs[q].inc && s.procs[p].incStart == s.procs[q].incStart)
    && (forall p :: p in s.procs && s.procs[p].pgid in s.procs ==>
          var leader := s.procs[s.procs[p].pgid];
          s.procs[p].inc == leader.uid && s.procs[p].incStart == leader.start)
  }

  /** A parent pid above 1 names the live process that forked the child. */
  ghost predicate ParentLinks(s: Os) {
    forall p :: p in s.procs && s.procs[p].ppid > 1 ==>
      p > 1 && s.procs[p].ppid != p && Running(s, s.procs[p].ppid) && s.procs[s.procs[p].ppid].uid == s.procs[p].forker
  }

  ghost predicate StepOf(s: Os, s': Os) {
    exists step :: Allowed(s, step) && s' == After(s, step)
  }

  ghost predicate IsRun(run: seq<Os>) {
    && |run| > 0
    && Coherent(run[0]) && ParentLinks(run[0])
    && forall i :: 0 <= i < |run| - 1 ==> StepOf(run[i], run[i + 1])
  }

  lemma {:induction false} StepKeepsCoherent(s: Os, step: OsStep)
    requires Coherent(s) && Allowed(s, step)
    ensures Coherent(After(s, step))
    ensures s.now <= After(s, step).now
  {
    match step
    case Fork(parent, child) => ForkKeepsCoherent(s, parent, child);
    case Lead(pid) => LeadKeepsCoherent(s, pid);
    case Join(pid, group) => JoinKeepsCoherent(s, pid, group);
    case Exit(pid) => ExitKeepsCoherent(s, pid);
    case _ =>
  }

  lemma {:induction false} ExitKeepsCoherent(s: Os, pid: int)
    requires Coherent(s) && Allowed(s, Exit(pid))
    ensures Coherent(After(s, Exit(pid)))
  {
    var s' := After(s, Exit(pid));
    assert forall p :: p in s'.procs ==>
      s'.procs[p] == s.procs[p].(zombie := s'.procs[p].zombie, ppid := s'.procs[p].ppid);
  }

  lemma {:induction false} ForkKeepsCoherent(s: Os, parent: int, child: int)
    requires Coherent(s) && Allowed(s, Fork(parent, child))
    ensures Coherent(After(s, Fork(parent, child)))
  {
  }

  lemma {:induction false} LeadKeepsCoherent(s: Os, pid: int)
    requires Coherent(s) && Allowed(s, Lead(pid))
    ensures Coherent(After(s, Lead(pid)))
  {
  }

  lemma {:induction false} JoinKeepsCoherent(s: Os, pid: int, group: int)
    requires Coherent(s) && Allowed(s, Join(pid, group))
    ensures Coherent(After(s, Join(pid, group)))
  {
  }

  lemma {:induction false} RunIsCoherent(run: seq<Os>, i: nat)
    requires IsRun(run) && i < |run|
    ensures Coherent(run[i])
  {
    if i > 0 {
      RunIsCoherent(run, i - 1);
      assert StepOf(run[i - 1], run[i - 1 + 1]);
      var step :| Allowed(run[i - 1], step) && run[i] == After(run[i - 1], step);
      StepKeepsCoherent(run[i - 1], step);
    }
  }

  lemma {:induction false} StepKeepsParentLinks(s: Os, step: OsStep)
    requires ParentLinks(s) && Allowed(s, step)
    ensures ParentLinks(After(s, step))
  {
    var s' := After(s, step);
    forall p | p in s'.procs && s'.procs[p].ppid > 1
      ensures p > 1 && s'.procs[p].ppid != p && Running(s', s'.procs[p].ppid) && s'.procs[s'.procs[p].ppid].uid == s'.procs[p].forker
    {
      if !(step.Fork? && p == step.child) {
        assert p in s.procs && s.procs[p].ppid == s'.procs[p].ppid && s.procs[p].forker == s'.procs[p].forker;
      }
    }
  }

  lemma {:induction false} RunKeepsParentLinks(run: seq<Os>, i: nat)
    requires IsRun(run) && i < |run|
    ensures ParentLinks(run[i])
  {
    if i > 0 {
      RunKeepsParentLinks(run, i - 1);
      assert StepOf(run[i - 1], run[i - 1 + 1]);
      var step :| Allowed(run[i - 1], step) && run[i] == After(run[i - 1], step);
      StepKeepsParentLinks(run[i - 1], step);
    }
  }

  /** At some instant of the run process `child` was there, forked by `parent`. */
  ghost predicate Forked(run: seq<Os>, parent: nat, child: nat) {
    exists i, p :: ForkedAt(run, i, p, parent, child)
  }

  predicate ForkedAt(run: seq<Os>, i: int, p: int, parent: nat, child: nat) {
    && 0 <= i < |run| && p in run[i].procs
    && run[i].procs[p].uid == child && run[i].procs[p].forker == parent
  }

  /** `path` leads from process `root` to process `uid`, each forked by the one before it. */
  ghost predicate ForkPath(run: seq<Os>, root: nat, uid: nat, path: seq<nat>) {
    && |path| > 1 && path[0] == root && path[|path| - 1] == uid
    && forall n :: 0 <= n < |path| - 1 ==> Forked(run, path[n], path[n + 1])
  }

  /** Process `uid` is a descendant of process `root`. */
  ghost predicate Descends(run: seq<Os>, root: nat, uid: nat) {
    exists path :: ForkPath(run, root, uid, path)
  }

  lemma {:induction false} ChildDescends(run: seq<Os>, root: nat, child: nat)
    requires Forked(run, root, child)
    ensures Descends(run, root, child)
  {
    assert ForkPath(run, root, child, [root, child]);
  }

  lemma {:induction false} DescendsFurther(run: seq<Os>, root: nat, uid: nat, child: nat)
    requires Descends(run, root, uid) && Forked(run, uid, child)
    ensures Descends(run, root, child)
  {
    var path :| ForkPath(run, root, uid, path);
    var longer := path + [child];
    forall n | 0 <= n < |longer| - 1
      ensures Forked(run, longer[n], longer[n + 1])
    {
      if n < |path| - 1 {
        assert Forked(run, path[n], path[n + 1]);
      }
    }
    assert ForkPath(run, root, child, longer);
  }

  /** Group id `g` is in use, by incarnation `inc`. */
  predicate Names(s: Os, g: int, inc: nat) {
    exists p :: p in s.procs && s.procs[p].pgid == g && s.procs[p].inc == inc
  }

  /** Nothing as old as `t` goes by the id `g` except incarnation `inc`. */
  ghost predicate OnlyKnownOwner(s: Os, g: int, inc: nat, t: int) {
    && t <= s.now
    && (forall p :: p in s.procs && s.procs[p].pgid == g && s.procs[p].incStart < t ==> s.procs[p].inc == inc)
    && (g in s.procs && s.procs[g].start < t ==> s.procs[g].uid == inc)
  }

  lemma {:induction false} StepKeepsOwner(s: Os, step: OsStep, g: int, inc: nat, t: int)
    requires Coherent(s) && Allowed(s, step) && OnlyKnownOwner(s, g, inc, t)
    ensures OnlyKnownOwner(After(s, step), g, inc, t)
  {
    if step.Exit? {
      ExitKeepsOwner(s, step.pid, g, inc, t);
    } else if step.Fork? || step.Join? {
      NewMemberKeepsOwner(s, step, g, inc, t);
    }
  }

  lemma {:induction false} ExitKeepsOwner(s: Os, pid: int, g: int, inc: nat, t: int)
    requires Allowed(s, Exit(pid)) && OnlyKnownOwner(s, g, inc, t)
    ensures OnlyKnownOwner(After(s, Exit(pid)), g, inc, t)
  {
    var s' := After(s, Exit(pid));
    assert forall p :: p in s'.procs ==>
      s'.procs[p] == s.procs[p].(zombie := s'.procs[p].zombie, ppid := s'.procs[p].ppid);
  }

  lemma {:induction false} NewMemberKeepsOwner(s: Os, step: OsStep, g: int, inc: nat, t: int)
    requires Coherent(s) && Allowed(s, step) && OnlyKnownOwner(s, g, inc, t) && (step.Fork? || step.Join?)
    ensures OnlyKnownOwner(After(s, step), g, inc, t)
  {
    var s' := After(s, step);
    forall p | p in s'.procs && s'.procs[p].pgid == g && s'.procs[p].incStart < t
      ensures s'.procs[p].inc == inc
    {
      // Whoever joins a group takes the incarnation of a member it already had.
      assert (p in s.procs && s'.procs[p] == s.procs[p])
        || exists q :: q in s.procs && s.procs[q].pgid == g
             && s'.procs[p].inc == s.procs[q].inc && s'.procs[p].incStart == s.procs[q].incStart;
    }
  }

  /** Temporal continuity. If `g` named incarnation `inc` at one instant, then
      at every later one whatever goes by `g` is that same incarnation, unless
      its leader was started no earlier than that instant. */
  lemma {:induction false} GroupKeepsIncarnation(run: seq<Os>, i: nat, j: nat, g: int, inc: nat)
    requires IsRun(run) && i <= j < |run| && Names(run[i], g, inc)
    ensures OnlyKnownOwner(run[j], g, inc, run[i].now)
    decreases j
  {
    if i < j {
      GroupKeepsIncarnation(run, i, j - 1, g, inc);
      NextInRun(run, j);
      NextKeepsOwner(run[j - 1], run[j], g, inc, run[i].now);
    } else {
      RunIsCoherent(run, i);
      NamedIsOwner(run[i], g, inc);
    }
  }

  lemma {:induction false} NextInRun(run: seq<Os>, j: nat)
    requires IsRun(run) && 0 < j < |run|
    ensures Coherent(run[j - 1]) && StepOf(run[j - 1], run[j])
  {
    RunIsCoherent(run, j - 1);
    assert StepOf(run[j - 1], run[j - 1 + 1]);
  }

  lemma {:induction false} NextKeepsOwner(s: Os, s': Os, g: int, inc: nat, t: int)
    requires Coherent(s) && StepOf(s, s') && OnlyKnownOwner(s, g, inc, t)
    ensures OnlyKnownOwner(s', g, inc, t)
  {
    var step :| Allowed(s, step) && s' == After(s, step);
    StepKeepsOwner(s, step, g, inc, t);
  }

  lemma {:induction false} NamedIsOwner(s: Os, g: int, inc: nat)
    requires Coherent(s) && Names(s, g, inc)
    ensures OnlyKnownOwner(s, g, inc, s.now)
  {
  }

  /** Whatever holds `pid` is the process `p`, or was started after `p` was seen. */
  ghost predicate SameOrNewer(s: Os, pid: int, p: Proc, nextUid: nat) {
    && nextUid <= s.nextUid
    && (pid in s.procs ==>
          (s.procs[pid].uid == p.uid && s.procs[pid].start == p.start) || nextUid <= s.procs[pid].uid)
  }

  lemma {:induction false} StepKeepsSameOrNewer(s: Os, step: OsStep, pid: int, p: Proc, nextUid: nat)
    requires Allowed(s, step) && SameOrNewer(s, pid, p, nextUid)
    ensures SameOrNewer(After(s, step), pid, p, nextUid)
  {
  }

  /** A process keeps its start time; whatever takes its pid later has a new uid. */
  lemma {:induction false} ProcessKeepsStart(run: seq<Os>, i: nat, j: nat, pid: int)
    requires IsRun(run) && i <= j < |run| && pid in run[i].procs
    ensures SameOrNewer(run[j], pid, run[i].procs[pid], run[i].nextUid)
    decreases j
  {
    if i < j {
      ProcessKeepsStart(run, i, j - 1, pid);
      assert StepOf(run[j - 1], run[j - 1 + 1]);
      var step :| Allowed(run[j - 1], step) && run[j] == After(run[j - 1], step);
      StepKeepsSameOrNewer(run[j - 1], step, pid, run[i].procs[pid], run[i].nextUid);
    }
  }
}
