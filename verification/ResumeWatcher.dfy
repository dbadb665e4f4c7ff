/** The watcher that carries a stall for every agent between passes. */
module ResumeWatcher {
  import opened Options
  import opened ResumeSpec

  type AgentId = nat

  class Stall {
    var sinceMs: int
    var nudges: nat
    var lastMs: int
    var workingSinceMs: Option<int>
    var sawTokens: bool
    var rearmed: bool

    function State(): StallState
      reads this
    {
      StallState(sinceMs, nudges, lastMs, workingSinceMs, sawTokens, rearmed)
    }

    constructor (now: int)
      ensures State() == NewStall(now)
    {
      sinceMs, nudges, lastMs, workingSinceMs, sawTokens, rearmed := now, 0, 0, None, false, false;
    }

    /** The stall the watcher remembers as `s`. */
    constructor Of(s: StallState)
      ensures State() == s
    {
      sinceMs, nudges, lastMs := s.sinceMs, s.nudges, s.lastMs;
      workingSinceMs, sawTokens, rearmed := s.workingSinceMs, s.sawTokens, s.rearmed;
    }

    method Saw(verdict: Verdict)
      modifies this
      ensures State() == old(State()).Saw(verdict)
    {
      var tokens := verdict == Tokens;
      if tokens && !sawTokens {
        rearmed := true;
      }
      sawTokens := tokens;
    }

    /** Is a nudge due? */
    method Due(now: int, evidence: bool) returns (due: bool)
      ensures due == State().Due(now, evidence)
    {
      if nudges >= MAX_NUDGES {
        return false;
      }
      var scheduled: int;
      if nudges == 0 {
        scheduled := sinceMs + if evidence then 0 else PATIENCE_MS;
      } else if nudges >= DENSE_TRIES {
        scheduled := lastMs + PROBE_MS;
      } else {
        scheduled := lastMs + BackoffMs(nudges);
      }
      var earliest := scheduled;
      if rearmed && nudges > 0 && lastMs + REARM_FLOOR_MS < scheduled {
        earliest := lastMs + REARM_FLOOR_MS;
      }
      due := now >= earliest;
    }

    method Nudged(now: int)
      modifies this
      ensures State() == old(State()).Nudged(now)
    {
      nudges := nudges + 1;
      lastMs := now;
      workingSinceMs := None;
      rearmed := false;
    }

    method Stalled()
      modifies this
      ensures State() == old(State()).Stalled()
    {
      workingSinceMs := None;
    }

    /** The agent is at work: has it been for long enough to end the stall? */
    method Working(now: int) returns (over: bool)
      modifies this
      ensures State() == old(State()).WorkingAt(now)
      ensures over == old(State()).OverAt(now)
    {
      if workingSinceMs.None? {
        workingSinceMs := Some(now);
      }
      over := now - workingSinceMs.value >= PROGRESS_MS;
    }
  }

  /** The live agents by what they are doing; no agent is in it twice. */
  datatype Census = Census(stalled: seq<AgentId>, working: seq<AgentId>, held: seq<AgentId>)

  predicate GoodCensus(c: Census) {
    && Once(c.stalled) && Once(c.working)
    && (forall id :: id in c.stalled ==> id !in c.working && id !in c.held)
    && (forall id :: id in c.working ==> id !in c.held)
  }

  predicate Once(ids: seq<AgentId>) {
    forall i, j :: 0 <= i < j < |ids| ==> ids[i] != ids[j]
  }

  type Memories = map<AgentId, StallState>

  /** What a pass leaves of one agent, from what it held of it before. */
  function Passed(before: Memories, c: Census, snapshot: Option<Snapshot>, now: int, id: AgentId): Option<StallState> {
    if id in c.stalled then Some(LookedFrom(before, snapshot, now, id))
    else if id !in before then None
    else if id in c.working then
      if before[id].OverAt(now) then None else Some(before[id].WorkingAt(now))
    else if id in c.held then Some(before[id])
    else None
  }

  /** The stall of an agent found out of tokens, after the pass that found it so. */
  function LookedFrom(before: Memories, snapshot: Option<Snapshot>, now: int, id: AgentId): StallState {
    var s := if id in before then before[id] else NewStall(now);
    Looked(s, VerdictOf(snapshot, s.sinceMs, now), now)
  }

  /** Is `id` still remembered once the pass has let go of what it may? */
  predicate Kept(before: Memories, c: Census, now: int, id: AgentId)
    requires id in before
  {
    id in c.stalled || id in c.held || (id in c.working && !before[id].OverAt(now))
  }

  function Worked(before: Memories, working: seq<AgentId>, now: int, id: AgentId): StallState
    requires id in before
  {
    if id in working then before[id].WorkingAt(now) else before[id]
  }

  predicate Speaks(before: Memories, snapshot: Option<Snapshot>, now: int, id: AgentId) {
    var s := if id in before then before[id] else NewStall(now);
    Nudges(s, VerdictOf(snapshot, s.sinceMs, now), now)
  }

  lemma {:induction false} SameEntrySameLook(a: Memories, b: Memories, snapshot: Option<Snapshot>, now: int, id: AgentId)
    requires id in a <==> id in b
    requires id in a ==> a[id] == b[id]
    ensures LookedFrom(a, snapshot, now, id) == LookedFrom(b, snapshot, now, id)
    ensures Speaks(a, snapshot, now, id) == Speaks(b, snapshot, now, id)
  {
  }

  /** Look at one agent the limit stopped. */
  method LookAt(stall: Stall, snapshot: Option<Snapshot>, now: int) returns (spoke: bool)
    modifies stall
    ensures var s := old(stall.State());
            var v := VerdictOf(snapshot, s.sinceMs, now);
            stall.State() == Looked(s, v, now) && spoke == Nudges(s, v, now)
  {
    stall.Stalled();
    var verdict := VerdictOf(snapshot, stall.sinceMs, now);
    stall.Saw(verdict);
    if verdict == Held {
      return false;
    }
    spoke := stall.Due(now, verdict == Tokens);
    if spoke {
      stall.Nudged(now);
    }
  }

  class Watcher {
    /** The stalls, held by value. */
    var stalls: Memories

    constructor ()
      ensures stalls == map[]
    {
      stalls := map[];
    }

    /** Let go of what is no longer running, and of what has got somewhere. */
    method Retain(c: Census, now: int)
      requires GoodCensus(c)
      modifies this
      ensures forall id :: id in stalls <==> id in old(stalls) && Kept(old(stalls), c, now, id)
      ensures forall id :: id in stalls ==> stalls[id] == Worked(old(stalls), c.working, now, id)
    {
      stalls := map id | id in stalls && (id in c.stalled || id in c.working || id in c.held) :: stalls[id];
      var recovered := NoteWorking(c.working, now);
      stalls := stalls - recovered;
    }

    /** Note the agents at work, and tell which stalls that ends. */
    method NoteWorking(working: seq<AgentId>, now: int) returns (recovered: set<AgentId>)
      requires Once(working)
      modifies this
      ensures stalls.Keys == old(stalls).Keys
      ensures forall id :: id in stalls ==> stalls[id] == Worked(old(stalls), working, now, id)
      ensures forall id :: id in recovered <==> id in working && id in old(stalls) && old(stalls)[id].OverAt(now)
    {
      ghost var live := stalls;
      recovered := {};
      for i := 0 to |working|
        invariant stalls.Keys == live.Keys
        invariant forall id :: id in live ==> stalls[id] == Worked(live, working[..i], now, id)
        invariant forall id :: id in recovered <==> id in working[..i] && id in live && live[id].OverAt(now)
      {
        var id := working[i];
        assert working[..i + 1] == working[..i] + [id];
        assert id !in working[..i];
        if id in stalls {
          var stall := new Stall.Of(stalls[id]);
          var over := stall.Working(now);
          stalls := stalls[id := stall.State()];
          if over {
            recovered := recovered + {id};
          }
        }
      }
      assert working[..|working|] == working;
    }

    /** Look at every agent the limit stopped, remembering those met for the first time. */
    method LookAtAll(ids: seq<AgentId>, snapshot: Option<Snapshot>, now: int, reached: set<AgentId>)
      returns (resumed: seq<AgentId>)
      requires Once(ids)
      modifies this
      ensures stalls.Keys == old(stalls).Keys + set id | id in ids
      ensures forall id :: id in stalls ==>
                stalls[id] == if id in ids then LookedFrom(old(stalls), snapshot, now, id) else old(stalls)[id]
      ensures forall id :: id in resumed <==> id in ids && Speaks(old(stalls), snapshot, now, id) && id in reached
    {
      resumed := [];
      ghost var before := stalls;
      for i := 0 to |ids|
        invariant stalls.Keys == before.Keys + set id | id in ids[..i]
        invariant forall id :: id in stalls ==>
                    stalls[id] == if id in ids[..i] then LookedFrom(before, snapshot, now, id) else before[id]
        invariant forall id :: id in resumed <==> id in ids[..i] && Speaks(before, snapshot, now, id) && id in reached
      {
        var id := ids[i];
        assert ids[..i + 1] == ids[..i] + [id];
        assert id !in ids[..i];
        SameEntrySameLook(before, stalls, snapshot, now, id);
        var spoke := LookAtNext(id, snapshot, now);
        // A nudge that does not get through is counted all the same.
        if spoke && id in reached {
          resumed := resumed + [id];
        }
      }
      assert ids[..|ids|] == ids;
    }

    /** Look at one agent the limit stopped, met before or not. */
    method LookAtNext(id: AgentId, snapshot: Option<Snapshot>, now: int) returns (spoke: bool)
      modifies this
      ensures stalls == old(stalls)[id := LookedFrom(old(stalls), snapshot, now, id)]
      ensures spoke == Speaks(old(stalls), snapshot, now, id)
    {
      var stall: Stall;
      if id in stalls {
        stall := new Stall.Of(stalls[id]);
      } else {
        stall := new Stall(now);
      }
      spoke := LookAt(stall, snapshot, now);
      stalls := stalls[id := stall.State()];
    }

    /** One look at every agent: each is judged by its own stall alone. `reached`
        are the agents whose child takes a message. */
    method Pass(enabled: bool, c: Census, snapshot: Option<Snapshot>, now: int, reached: set<AgentId>)
      returns (resumed: seq<AgentId>)
      requires GoodCensus(c)
      modifies this
      ensures !enabled ==> stalls == map[] && resumed == []
      ensures enabled ==> forall id ::
                Passed(old(stalls), c, snapshot, now, id) == if id in stalls then Some(stalls[id]) else None
      ensures enabled ==> forall id ::
                id in resumed <==> id in c.stalled && Speaks(old(stalls), snapshot, now, id) && id in reached
    {
      if !enabled {
        stalls := map[];
        return [];
      }
      Retain(c, now);
      resumed := LookAtAll(c.stalled, snapshot, now, reached);
    }
  }
}
