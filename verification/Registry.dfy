/** The registry of runners: one slot per agent, claimed by a launch before
    anything else happens and given back by the launch that holds it.
  */
module Registry {
  type AgentId = nat
  type Generation = nat

  type Slots = map<AgentId, Generation>

  /** The slots after a launch tried to claim one; a slot taken is left alone. */
  function AfterClaim(slots: Slots, agent: AgentId, g: Generation): Slots {
    if agent in slots then slots else slots[agent := g]
  }

  /** The slots after generation `g` gave its own back. */
  function AfterDeregister(slots: Slots, agent: AgentId, g: Generation): Slots {
    if agent in slots && slots[agent] == g then slots - {agent} else slots
  }

  class Runners {
    var slots: Slots

    constructor ()
      ensures slots == map[]
    {
      slots := map[];
    }

    /** Check and insert in one go. */
    method Claim(agent: AgentId, g: Generation) returns (ok: bool)
      modifies this`slots
      ensures ok == (agent !in old(slots))
      ensures slots == AfterClaim(old(slots), agent, g)
    {
      if agent in slots {
        return false;
      }
      slots := slots[agent := g];
      ok := true;
    }

    /** Give a slot back; a slot some other generation holds is left alone. */
    method Deregister(agent: AgentId, g: Generation)
      modifies this`slots
      ensures slots == AfterDeregister(old(slots), agent, g)
    {
      if agent in slots && slots[agent] == g {
        slots := slots - {agent};
      }
    }
  }

  // ---------------------------------------------------------------------
  // Concurrent launches
  // ---------------------------------------------------------------------

  /** How far a launch has come. `Wanting`: has its generation, not yet a slot;
      `Claimed`: has the slot, no child yet; `Failing`: its spawn failed; `Ending`:
      its child is gone and is being cleaned up after. */
  datatype Phase = Wanting | Claimed | Running | Failing | Ending | Over | Refused

  datatype Launch = Launch(agent: AgentId, phase: Phase)

  datatype World = World(slots: Slots, next: Generation, launches: map<Generation, Launch>)

  datatype Step =
    | Begin(agent: AgentId)
    | TryClaim(g: Generation)
    | SpawnOk(g: Generation)
    | SpawnFails(g: Generation)
    | ChildExits(g: Generation)
    | GiveBack(g: Generation)

  predicate At(w: World, g: Generation, phase: Phase) {
    g in w.launches && w.launches[g].phase == phase
  }

  predicate Enabled(w: World, step: Step) {
    match step
    case Begin(_) => true
    case TryClaim(g) => At(w, g, Wanting)
    case SpawnOk(g) => At(w, g, Claimed)
    case SpawnFails(g) => At(w, g, Claimed)
    case ChildExits(g) => At(w, g, Running)
    case GiveBack(g) => At(w, g, Failing) || At(w, g, Ending)
  }

  function Moved(w: World, g: Generation, phase: Phase): map<Generation, Launch>
    requires g in w.launches
  {
    w.launches[g := Launch(w.launches[g].agent, phase)]
  }

  function After(w: World, step: Step): World
    requires Enabled(w, step)
  {
    match step
    case Begin(agent) => World(w.slots, w.next + 1, w.launches[w.next := Launch(agent, Wanting)])
    case TryClaim(g) =>
      var agent := w.launches[g].agent;
      if agent in w.slots then w.(launches := Moved(w, g, Refused))
      else w.(slots := AfterClaim(w.slots, agent, g), launches := Moved(w, g, Claimed))
    case SpawnOk(g) => w.(launches := Moved(w, g, Running))
    case SpawnFails(g) => w.(launches := Moved(w, g, Failing))
    case ChildExits(g) => w.(launches := Moved(w, g, Ending))
    case GiveBack(g) =>
      w.(slots := AfterDeregister(w.slots, w.launches[g].agent, g), launches := Moved(w, g, Over))
  }

  /** Launch `g` is under way: claimed, running or being torn down. */
  predicate UnderWay(w: World, g: Generation) {
    && g in w.launches
    && !w.launches[g].phase.Wanting? && !w.launches[g].phase.Over? && !w.launches[g].phase.Refused?
  }

  /** An agent's slot is held by the one launch of it that is under way. */
  ghost predicate Good(w: World) {
    && (forall g :: g in w.launches ==> g < w.next)
    && (forall g :: UnderWay(w, g) ==> w.launches[g].agent in w.slots && w.slots[w.launches[g].agent] == g)
    && (forall a :: a in w.slots ==> UnderWay(w, w.slots[a]) && w.launches[w.slots[a]].agent == a)
  }

  lemma {:induction false} StepKeepsGood(w: World, step: Step)
    requires Good(w) && Enabled(w, step)
    ensures Good(After(w, step))
  {
  }

  ghost predicate IsRun(worlds: seq<World>, steps: seq<Step>) {
    && |worlds| == |steps| + 1
    && worlds[0] == World(map[], 1, map[])
    && forall i :: 0 <= i < |steps| ==> StepAt(worlds, steps, i)
  }

  ghost predicate StepAt(worlds: seq<World>, steps: seq<Step>, i: int) {
    && 0 <= i < |steps| && i + 1 < |worlds|
    && Enabled(worlds[i], steps[i]) && worlds[i + 1] == After(worlds[i], steps[i])
  }

  lemma {:induction false} RunIsGood(worlds: seq<World>, steps: seq<Step>, i: nat)
    requires IsRun(worlds, steps) && i <= |steps|
    ensures Good(worlds[i])
  {
    if i > 0 {
      RunIsGood(worlds, steps, i - 1);
      assert StepAt(worlds, steps, i - 1);
      StepKeepsGood(worlds[i - 1], steps[i - 1]);
    }
  }

  /** Over every interleaving of resumes, failed spawns and exits, no agent has
      two launches claimed, running or tearing down at once. */
  lemma {:induction false} OneLaunchPerAgent(worlds: seq<World>, steps: seq<Step>, i: nat, g: Generation, h: Generation)
    requires IsRun(worlds, steps) && i <= |steps|
    requires UnderWay(worlds[i], g) && UnderWay(worlds[i], h)
    requires worlds[i].launches[g].agent == worlds[i].launches[h].agent
    ensures g == h
  {
    RunIsGood(worlds, steps, i);
  }

  /** A launch that gives its slot back, after a failed spawn or an exit, always
      holds it, so the agent can be launched again; no other slot changes. A
      launch that is refused changes no slot at all. */
  lemma {:induction false} SlotsComeBack(worlds: seq<World>, steps: seq<Step>, i: nat)
    requires IsRun(worlds, steps) && i < |steps|
    ensures steps[i].GiveBack? ==>
              steps[i].g in worlds[i].launches &&
              var agent := worlds[i].launches[steps[i].g].agent;
              && agent in worlds[i].slots && worlds[i].slots[agent] == steps[i].g
              && worlds[i + 1].slots == worlds[i].slots - {agent}
    ensures steps[i].TryClaim? && At(worlds[i + 1], steps[i].g, Refused) ==> worlds[i + 1].slots == worlds[i].slots
    ensures !steps[i].GiveBack? ==> forall a :: a in worlds[i].slots ==>
              a in worlds[i + 1].slots && worlds[i + 1].slots[a] == worlds[i].slots[a]
  {
    RunIsGood(worlds, steps, i);
    assert StepAt(worlds, steps, i);
  }

  /** Checking for a free slot and claiming it later, as two steps, would let two
      launches of one agent through: both checks pass, and both are then under way. */
  lemma {:induction false} CheckThenClaimIsNotEnough(agent: AgentId) returns (w: World, g: Generation, h: Generation)
    ensures g != h && At(w, g, Wanting) && At(w, h, Wanting) && w.launches[g].agent == w.launches[h].agent == agent
    ensures agent !in w.slots && Good(w)
    ensures var late := w.(slots := w.slots[agent := g][agent := h], launches := Moved(w.(launches := Moved(w, g, Claimed)), h, Claimed));
            UnderWay(late, g) && UnderWay(late, h) && !Good(late)
  {
    g, h := 1, 2;
    w := World(map[], 3, map[1 := Launch(agent, Wanting), 2 := Launch(agent, Wanting)]);
    var late := w.(slots := w.slots[agent := g][agent := h], launches := Moved(w.(launches := Moved(w, g, Claimed)), h, Claimed));
    assert UnderWay(late, g) && UnderWay(late, h);
  }
}
