/** What holds of a runner after every step it can take. */
module RunnerRuns {
  import opened Options
  import opened AgentStatus
  import opened PermissionLog
  import opened RunnerSpec

  // ---------------------------------------------------------------------
  // The status shown
  // ---------------------------------------------------------------------

  lemma {:induction false} SyncedHolds(r: RunnerState)
    requires r.published != [] && Shown(r) == r.status && !r.base.AwaitingApproval? && NoNewsTwice(r.published)
    ensures StatusHolds(Synced(r))
  {
  }

  lemma {:induction false} MovedHolds(r: RunnerState, t: Transition)
    requires StatusHolds(r) && FromOutside(t)
    ensures StatusHolds(Moved(r, t))
  {
  }

  /** The same, right after the prompts held have changed. */
  lemma {:induction false} AnsweredHolds(r: RunnerState, id: RequestId)
    requires StatusHolds(r) && !r.base.IsTerminal()
    ensures StatusHolds(Answered(r, id))
  {
  }

  /** After every action and every command the status shown is the status
      underneath corrected by the prompts held, the status underneath is never
      awaiting approval, and no status was announced twice in a row. */
  lemma {:induction false} StepKeepsStatus(r: RunnerState, step: Step, r': RunnerState)
    requires StatusHolds(r) && GoodTodo(r) && Next(r, step, r')
    requires step.Hear? ==> GoodLine(step.line)
    ensures StatusHolds(r') && GoodTodo(r')
  {
    match step
    case Act => ActionHolds(r.(todo := r.todo[1..]), r.todo[0]);
    case Obey(command) => CommandHolds(r, command);
    case _ =>
  }

  lemma {:induction false} ActionHolds(r: RunnerState, a: Action)
    requires StatusHolds(r) && (a.Move? ==> FromOutside(a.t))
    ensures StatusHolds(Acted(r, a)) && Acted(r, a).todo == r.todo
  {
    match a
    case Permission(id) =>
      if id !in r.pending {
        SyncedHolds(r.(pending := r.pending + {id}));
      }
    case CancelPermission(id) =>
      if id in r.pending {
        SyncedHolds(Logged(r.(pending := r.pending - {id}), Decided(id)));
      }
    case Move(t) => MovedHolds(r, t);
    case ControlResponse =>
      if r.awaitingInit {
        MovedHolds(r.(awaitingInit := false), Initialized);
      }
    case Persist(_) =>
  }

  lemma {:induction false} CommandHolds(r: RunnerState, command: Command)
    requires StatusHolds(r) && !r.base.IsTerminal()
    ensures StatusHolds(Obeyed(r, command)) && Obeyed(r, command).todo == r.todo
  {
    match command
    case Send => MovedHolds(Logged(r, OtherEvent), TurnStarted);
    case Decide(id) => AnsweredHolds(r, id);
    case OtherCommand =>
  }

  /** `states` is a run of one process, `steps[i]` taking `states[i]` to the next. */
  ghost predicate IsRun(states: seq<RunnerState>, steps: seq<Step>) {
    && |states| == |steps| + 1
    && (exists log :: OpenIds(log) == {} && states[0] == Launched(log))
    && forall i :: 0 <= i < |steps| ==> StepAt(states, steps, i)
  }

  ghost predicate StepAt(states: seq<RunnerState>, steps: seq<Step>, i: int) {
    && 0 <= i < |steps| && i + 1 < |states|
    && Next(states[i], steps[i], states[i + 1])
    && (steps[i].Hear? ==> GoodLine(steps[i].line))
  }

  lemma {:induction false} RunKeepsStatus(states: seq<RunnerState>, steps: seq<Step>, i: nat)
    requires IsRun(states, steps) && i <= |steps|
    ensures StatusHolds(states[i]) && GoodTodo(states[i])
  {
    if i > 0 {
      RunKeepsStatus(states, steps, i - 1);
      assert StepAt(states, steps, i - 1);
      StepKeepsStatus(states[i - 1], steps[i - 1], states[i]);
    }
  }

  /** A live agent shows that it awaits approval exactly while a prompt is held,
      in whatever order turn ends, limits, answers and withdrawals came. */
  lemma {:induction false} AwaitingMeansHeld(states: seq<RunnerState>, steps: seq<Step>, i: nat)
    requires IsRun(states, steps) && i <= |steps| && !states[i].base.IsTerminal()
    ensures states[i].published != [] && (Shown(states[i]).AwaitingApproval? <==> states[i].pending != {})
  {
    RunKeepsStatus(states, steps, i);
  }

  // ---------------------------------------------------------------------
  // A prompt leaves no trace in the status
  // ---------------------------------------------------------------------

  /** What a step says about the turn rather than about prompts. */
  function TurnMove(r: RunnerState, step: Step): Option<Transition> {
    match step
    case Act =>
      if r.todo == [] then None
      else
        (match r.todo[0]
         case Move(t) => if t.AboutApprovals() then None else Some(t)
         case ControlResponse => if r.awaitingInit then Some(Initialized) else None
         case _ => None)
    case Obey(c) => if c.Send? then Some(TurnStarted) else None
    case Exit(requested) => Some(if requested then Exited else Errored)
    case _ => None
  }

  /** A status moved by turns alone. */
  function MovedBy(s: Status, t: Option<Transition>): Status {
    if t.Some? && s.Apply(t.value).Some? then s.Apply(t.value).value else s
  }

  function TurnsOnly(states: seq<RunnerState>, steps: seq<Step>, n: nat): Status
    requires n <= |steps| < |states|
  {
    if n == 0 then Starting else MovedBy(TurnsOnly(states, steps, n - 1), TurnMove(states[n - 1], steps[n - 1]))
  }

  lemma {:induction false} StepMovesBaseByTurns(r: RunnerState, step: Step, r': RunnerState)
    requires Next(r, step, r')
    ensures r'.base == MovedBy(r.base, TurnMove(r, step))
  {
  }

  lemma {:induction false} BaseIsTurnsOnly(states: seq<RunnerState>, steps: seq<Step>, n: nat)
    requires IsRun(states, steps) && n <= |steps|
    ensures states[n].base == TurnsOnly(states, steps, n)
  {
    if n > 0 {
      BaseIsTurnsOnly(states, steps, n - 1);
      BaseStep(states, steps, n - 1);
    }
  }

  lemma {:induction false} BaseStep(states: seq<RunnerState>, steps: seq<Step>, i: nat)
    requires IsRun(states, steps) && i < |steps|
    ensures states[i + 1].base == MovedBy(states[i].base, TurnMove(states[i], steps[i]))
  {
    assert StepAt(states, steps, i);
    StepMovesBaseByTurns(states[i], steps[i], states[i + 1]);
  }

  /** The status shown with no prompt held is the one the turns alone would have
      led to, however many prompts came and went on the way. */
  lemma {:induction false} PromptsLeaveNoTrace(states: seq<RunnerState>, steps: seq<Step>, n: nat)
    requires IsRun(states, steps) && n <= |steps| && states[n].pending == {}
    ensures states[n].published != [] && Shown(states[n]) == TurnsOnly(states, steps, n)
  {
    RunKeepsStatus(states, steps, n);
    BaseIsTurnsOnly(states, steps, n);
  }

  // ---------------------------------------------------------------------
  // The prompts held, and those the log leaves open
  // ---------------------------------------------------------------------

  /** The prompt that has been logged but not queued yet. */
  function InFlight(r: RunnerState): set<RequestId> {
    if r.todo != [] && r.todo[0].Permission? then {r.todo[0].id} else {}
  }

  /** The actions left are the tail of one line's: a prompt is queued right
      after it was logged, and no line decides anything by itself. */
  predicate LineTail(todo: seq<Action>) {
    forall k :: 0 <= k < |todo| ==> TailAction(todo, k)
  }

  predicate TailAction(todo: seq<Action>, k: nat)
    requires k < |todo|
  {
    match todo[k]
    case Permission(id) => k == 0 || (k == 1 && todo[0] == Persist(Asked(id)))
    case Persist(Asked(id)) => k == 0 && |todo| > 1 && todo[1] == Permission(id)
    case Persist(e) => e.OtherEvent?
    case _ => true
  }

  lemma {:induction false} LinesMakeTails(line: CliLine)
    ensures LineTail(ActionsOf(line))
  {
  }

  lemma {:induction false} TailOfTail(todo: seq<Action>)
    requires todo != [] && LineTail(todo)
    ensures LineTail(todo[1..])
  {
    var rest := todo[1..];
    forall k | 0 <= k < |rest|
      ensures TailAction(rest, k)
    {
      assert rest[k] == todo[k + 1] && TailAction(todo, k + 1);
    }
  }

  /** The log leaves open the prompts held, and the one in flight. */
  predicate LogAgrees(r: RunnerState) {
    OpenIds(r.log) == r.pending + InFlight(r)
  }

  /** The one bad moment: the operator's answer to a prompt is taken while a
      second prompt with the same id has been logged but not queued. */
  predicate AnswersTheWrongOne(r: RunnerState, step: Step) {
    step.Obey? && step.command.Decide? && step.command.id in r.pending && step.command.id in InFlight(r)
  }

  lemma {:induction false} StepKeepsTail(r: RunnerState, step: Step, r': RunnerState)
    requires Next(r, step, r') && LineTail(r.todo)
    ensures LineTail(r'.todo)
  {
    match step
    case Hear(line) => LinesMakeTails(line);
    case Act => TailOfTail(r.todo); ActKeepsTodo(r.(todo := r.todo[1..]), r.todo[0]);
    case _ =>
  }

  lemma {:induction false} ActKeepsTodo(r: RunnerState, a: Action)
    ensures Acted(r, a).todo == r.todo
  {
  }

  /** What taking an action does to the prompts held and to the log. */
  lemma {:induction false} ActedLog(r: RunnerState, a: Action)
    ensures Acted(r, a).todo == r.todo
    ensures match a
            case Persist(e) => Acted(r, a).pending == r.pending && Acted(r, a).log == r.log + [e]
            case Permission(id) => Acted(r, a).pending == r.pending + {id} && Acted(r, a).log == r.log
            case CancelPermission(id) =>
              Acted(r, a).pending == r.pending - {id}
              && Acted(r, a).log == if id in r.pending then r.log + [Decided(id)] else r.log
            case _ => Acted(r, a).pending == r.pending && Acted(r, a).log == r.log
  {
  }

  lemma {:induction false} ActKeepsLog(r: RunnerState)
    requires r.todo != [] && LineTail(r.todo) && LogAgrees(r)
    ensures LogAgrees(Acted(r.(todo := r.todo[1..]), r.todo[0]))
  {
    var a, rest := r.todo[0], r.(todo := r.todo[1..]);
    InFlightNext(r, rest);
    ActedLog(rest, a);
    match a
    case Persist(e) => OpenIdsAfter(r.log, e);
    case CancelPermission(id) => OpenIdsAfter(r.log, Decided(id));
    case _ =>
  }

  /** The prompt in flight, before and after the first action left is taken. */
  lemma {:induction false} InFlightNext(r: RunnerState, rest: RunnerState)
    requires r.todo != [] && LineTail(r.todo) && rest.todo == r.todo[1..]
    ensures var a := r.todo[0];
            && InFlight(r) == (if a.Permission? then {a.id} else {})
            && InFlight(rest) == (if a.Persist? && a.e.Asked? then {a.e.id} else {})
            && (a.Persist? ==> !a.e.Decided?)
  {
    assert TailAction(r.todo, 0);
    assert |r.todo| > 1 ==> TailAction(r.todo, 1);
  }

  lemma {:induction false} AnsweredLog(r: RunnerState, id: RequestId)
    ensures Answered(r, id).pending == r.pending - {id} && Answered(r, id).todo == r.todo
    ensures OpenIds(Answered(r, id).log) == if id in r.pending then OpenIds(r.log) - {id} else OpenIds(r.log)
  {
    if id in r.pending {
      MovedKeepsPrompts(Logged(r.(pending := r.pending - {id}), Decided(id)), PermissionResolved);
      OpenIdsAfter(r.log, Decided(id));
    }
  }

  lemma {:induction false} MovedKeepsPrompts(r: RunnerState, t: Transition)
    ensures Moved(r, t).pending == r.pending && Moved(r, t).log == r.log && Moved(r, t).todo == r.todo
  {
  }

  /** While the child runs, a step keeps the log and the prompts held in
      agreement exactly when it is not that moment. */
  lemma {:induction false} LogAgreesExactlyUnlessWrongOne(r: RunnerState, step: Step, r': RunnerState)
    requires Next(r, step, r') && LineTail(r.todo) && LogAgrees(r) && !step.Exit?
    ensures LogAgrees(r') <==> !AnswersTheWrongOne(r, step)
  {
    match step
    case Hear(line) =>
    case Act => ActKeepsLog(r);
    case Stderr => OpenIdsAfter(r.log, OtherEvent);
    case Obey(command) => CommandLog(r, command);
  }

  lemma {:induction false} CommandLog(r: RunnerState, command: Command)
    requires LogAgrees(r)
    ensures LogAgrees(Obeyed(r, command)) <==> !AnswersTheWrongOne(r, Obey(command))
  {
    match command
    case Send => OpenIdsAfter(r.log, OtherEvent);
    case Decide(id) =>
      AnsweredLog(r, id);
      assert InFlight(Answered(r, id)) == InFlight(r);
    case OtherCommand =>
  }

  /** The exit closes every prompt held; what it leaves open is at most the one
      it cut off between being logged and being queued. */
  lemma {:induction false} ExitLeavesOpen(r: RunnerState, requested: bool, r': RunnerState)
    requires Next(r, Exit(requested), r') && LogAgrees(r)
    ensures OpenIds(r'.log) == InFlight(r) - r.pending
  {
    DecisionsClose(r.log, r'.log[|r.log|..], r.pending);
    assert r'.log == r.log + r'.log[|r.log|..];
  }

  lemma {:induction false} DecisionsClose(log: seq<LogEvent>, decisions: seq<LogEvent>, ids: set<RequestId>)
    requires AllDecisions(decisions, ids)
    ensures OpenIds(log + decisions) == OpenIds(log) - ids
  {
    DecisionsCloseThose(log, decisions);
    assert forall id :: id in ids <==> Decided(id) in decisions;
  }

  lemma {:induction false} DecisionsCloseThose(log: seq<LogEvent>, decisions: seq<LogEvent>)
    requires forall k :: 0 <= k < |decisions| ==> decisions[k].Decided?
    ensures forall id :: id in OpenIds(log + decisions) <==> id in OpenIds(log) && Decided(id) !in decisions
  {
    if decisions == [] {
      assert log + decisions == log;
    } else {
      var n := |decisions| - 1;
      DecisionsCloseThose(log, decisions[..n]);
      assert decisions == decisions[..n] + [decisions[n]];
      assert log + decisions == (log + decisions[..n]) + [decisions[n]];
      OpenIdsAfter(log + decisions[..n], decisions[n]);
    }
  }

  // ---------------------------------------------------------------------
  // Whole runs
  // ---------------------------------------------------------------------

  /** The child does not ask again with the id of a prompt still held. */
  ghost predicate NoLiveReuse(states: seq<RunnerState>, steps: seq<Step>)
    requires |states| == |steps| + 1
  {
    forall i :: 0 <= i < |steps| && steps[i].Hear? && steps[i].line.Prompt? ==> steps[i].line.id !in states[i].pending
  }

  /** A prompt logged or about to be is not one that is held. */
  predicate NewPrompts(r: RunnerState) {
    forall k :: 0 <= k < |r.todo| && r.todo[k].Permission? ==> r.todo[k].id !in r.pending
  }

  lemma {:induction false} StepKeepsNewPrompts(r: RunnerState, step: Step, r': RunnerState)
    requires Next(r, step, r') && LineTail(r.todo) && NewPrompts(r)
    requires step.Hear? && step.line.Prompt? ==> step.line.id !in r.pending
    ensures NewPrompts(r')
  {
    match step
    case Act =>
      ActedLog(r.(todo := r.todo[1..]), r.todo[0]);
      forall k | 0 <= k < |r'.todo| && r'.todo[k].Permission?
        ensures r'.todo[k].id !in r'.pending
      {
        assert r'.todo[k] == r.todo[k + 1] && TailAction(r.todo, k + 1);
      }
    case Obey(command) =>
      if command.Decide? {
        AnsweredLog(r, command.id);
      }
    case _ =>
  }

  /** As long as the child does not reuse the id of a prompt still held, the
      prompts held are those the log leaves open, at every point of the run
      between two lines. */
  lemma {:induction false} HeldAreOpenInTheLog(states: seq<RunnerState>, steps: seq<Step>, i: nat)
    requires IsRun(states, steps) && NoLiveReuse(states, steps) && i <= |steps|
    requires forall k :: 0 <= k < i ==> !steps[k].Exit?
    ensures LineTail(states[i].todo) && NewPrompts(states[i]) && LogAgrees(states[i])
    ensures states[i].todo == [] ==> OpenIds(states[i].log) == states[i].pending
  {
    if i > 0 {
      HeldAreOpenInTheLog(states, steps, i - 1);
      var r, step, r' := states[i - 1], steps[i - 1], states[i];
      assert StepAt(states, steps, i - 1);
      StepKeepsTail(r, step, r');
      StepKeepsNewPrompts(r, step, r');
      LogAgreesExactlyUnlessWrongOne(r, step, r');
    }
  }

  /** A child that never uses a request id twice does not reuse a live one. */
  lemma {:induction false} NeverReusedIsNotLive(states: seq<RunnerState>, steps: seq<Step>)
    requires IsRun(states, steps)
    requires forall i, j :: 0 <= i < j < |steps| && PromptAt(steps, i) && PromptAt(steps, j) ==>
               steps[i].line.id != steps[j].line.id
    ensures NoLiveReuse(states, steps)
  {
    forall i | 0 <= i < |steps| && steps[i].Hear? && steps[i].line.Prompt?
      ensures steps[i].line.id !in states[i].pending
    {
      PendingWasHeard(states, steps, i);
      assert PromptAt(steps, i);
      forall k | 0 <= k < i && PromptAt(steps, k)
        ensures steps[k].line.id != steps[i].line.id
      {
      }
    }
  }

  predicate PromptAt(steps: seq<Step>, i: nat) {
    i < |steps| && steps[i].Hear? && steps[i].line.Prompt?
  }

  predicate HeardBefore(steps: seq<Step>, i: nat, id: RequestId) {
    exists k :: 0 <= k < i && PromptAt(steps, k) && steps[k].line.id == id
  }

  lemma {:induction false} PendingWasHeard(states: seq<RunnerState>, steps: seq<Step>, i: nat)
    requires IsRun(states, steps) && i <= |steps|
    ensures forall id :: id in states[i].pending ==> HeardBefore(steps, i, id)
    ensures forall k :: 0 <= k < |states[i].todo| && states[i].todo[k].Permission? ==>
              HeardBefore(steps, i, states[i].todo[k].id)
  {
    if i > 0 {
      PendingWasHeard(states, steps, i - 1);
      assert StepAt(states, steps, i - 1);
      forall id | HeardBefore(steps, i - 1, id)
        ensures HeardBefore(steps, i, id)
      {
        var k :| 0 <= k < i - 1 && PromptAt(steps, k) && steps[k].line.id == id;
      }
      StepHears(states[i - 1], steps, i - 1, states[i]);
    }
  }

  lemma {:induction false} StepHears(r: RunnerState, steps: seq<Step>, i: nat, r': RunnerState)
    requires i < |steps| && Next(r, steps[i], r')
    ensures forall id :: id in r'.pending ==> id in r.pending || (r.todo != [] && r.todo[0] == Permission(id))
    ensures forall k :: 0 <= k < |r'.todo| && r'.todo[k].Permission? ==>
              r'.todo[k] in r.todo || (PromptAt(steps, i) && steps[i].line.id == r'.todo[k].id)
  {
    if steps[i].Act? {
      ActedLog(r.(todo := r.todo[1..]), r.todo[0]);
    } else if steps[i].Obey? && steps[i].command.Decide? {
      AnsweredLog(r, steps[i].command.id);
    }
  }

  /** Where a step other than an exit leads. */
  function Stepped(r: RunnerState, step: Step): RunnerState
    requires Enabled(r, step) && !step.Exit?
  {
    match step
    case Hear(line) => r.(todo := ActionsOf(line))
    case Act => Acted(r.(todo := r.todo[1..]), r.todo[0])
    case Obey(c) => Obeyed(r, c)
    case Stderr => Logged(r, OtherEvent)
  }

  ghost predicate Goes(states: seq<RunnerState>, steps: seq<Step>) {
    |states| == |steps| + 1 && forall i :: 0 <= i < |steps| ==> StepAt(states, steps, i)
  }

  function Last(states: seq<RunnerState>): RunnerState
    requires states != []
  {
    states[|states| - 1]
  }

  /** One step more. */
  lemma {:induction false} GoOn(states: seq<RunnerState>, steps: seq<Step>, step: Step)
    requires Goes(states, steps) && Enabled(Last(states), step) && !step.Exit? && (step.Hear? ==> GoodLine(step.line))
    ensures Goes(states + [Stepped(Last(states), step)], steps + [step])
  {
    var states', steps' := states + [Stepped(Last(states), step)], steps + [step];
    forall i | 0 <= i < |steps'|
      ensures StepAt(states', steps', i)
    {
      assert i < |steps| ==> StepAt(states, steps, i);
    }
  }

  /** A prompt taken in full by a runner between two lines. */
  lemma {:induction false} PromptTaken(states: seq<RunnerState>, steps: seq<Step>, id: RequestId)
    returns (states': seq<RunnerState>)
    requires Goes(states, steps) && Last(states).todo == [] && !Last(states).base.IsTerminal()
    ensures Goes(states', steps + [Hear(Prompt(id)), Act, Act, Act])
    ensures states'[0] == states[0] && Last(states').todo == [] && Last(states').base == Last(states).base
    ensures Last(states').pending == Last(states).pending + {id} && Last(states').log == Last(states).log + [Asked(id)]
  {
    states' := states;
    var todo := [Hear(Prompt(id)), Act, Act, Act];
    GoOn(states', steps, todo[0]);
    states' := states' + [Stepped(Last(states'), todo[0])];
    var logged := Stepped(Last(states'), Act);
    assert steps + [todo[0]] == steps + todo[..1];
    GoOn(states', steps + todo[..1], Act);
    states' := states' + [logged];
    ActedLog(logged.(todo := logged.todo[1..]), logged.todo[0]);
    var queued := Stepped(logged, Act);
    assert steps + todo[..1] + [Act] == steps + todo[..2];
    GoOn(states', steps + todo[..2], Act);
    states' := states' + [queued];
    ActedLog(queued.(todo := queued.todo[1..]), queued.todo[0]);
    assert steps + todo[..2] + [Act] == steps + todo[..3];
    GoOn(states', steps + todo[..3], Act);
    states' := states' + [Stepped(queued, Act)];
    assert steps + todo[..3] + [Act] == steps + todo;
  }

  /** The same prompt asked again while it is held, and answered in between. */
  lemma {:induction false} PromptOvertaken(states: seq<RunnerState>, steps: seq<Step>, id: RequestId)
    returns (states': seq<RunnerState>)
    requires Goes(states, steps) && Last(states).todo == [] && !Last(states).base.IsTerminal() && Last(states).pending == {id}
    ensures Goes(states', steps + [Hear(Prompt(id)), Act, Obey(Decide(id)), Act, Act])
    ensures states'[0] == states[0] && Last(states').todo == [] && Last(states').pending == {id}
    ensures Last(states').log == Last(states).log + [Asked(id)] + [Decided(id)]
  {
    states' := states;
    var todo := [Hear(Prompt(id)), Act, Obey(Decide(id)), Act, Act];
    GoOn(states', steps, todo[0]);
    states' := states' + [Stepped(Last(states'), todo[0])];
    var logged := Stepped(Last(states'), Act);
    assert steps + [todo[0]] == steps + todo[..1];
    GoOn(states', steps + todo[..1], Act);
    states' := states' + [logged];
    assert steps + todo[..1] + [Act] == steps + todo[..2];
    GoOn(states', steps + todo[..2], todo[2]);
    var answered := Stepped(logged, todo[2]);
    MovedKeepsPrompts(Logged(logged.(pending := logged.pending - {id}), Decided(id)), PermissionResolved);
    states' := states' + [answered];
    assert steps + todo[..2] + [todo[2]] == steps + todo[..3];
    GoOn(states', steps + todo[..3], Act);
    var queued := Stepped(answered, Act);
    ActedLog(answered.(todo := answered.todo[1..]), answered.todo[0]);
    states' := states' + [queued];
    assert steps + todo[..3] + [Act] == steps + todo[..4];
    ActedLog(queued.(todo := queued.todo[1..]), queued.todo[0]);
    GoOn(states', steps + todo[..4], Act);
    states' := states' + [Stepped(queued, Act)];
    assert steps + todo[..4] + [Act] == steps + todo;
  }

  /** A run that goes wrong by reusing an id: the operator answers the first
      prompt while the second is in flight, and from then on a prompt is held
      that the log says was decided. */
  lemma {:induction false} ReusedIdEscapesTheLog(log: seq<LogEvent>, id: RequestId)
    returns (states: seq<RunnerState>, steps: seq<Step>)
    requires OpenIds(log) == {}
    ensures IsRun(states, steps) && states[0] == Launched(log)
    ensures steps == [Hear(Prompt(id)), Act, Act, Act, Hear(Prompt(id)), Act, Obey(Decide(id)), Act, Act]
    ensures Last(states).todo == [] && Last(states).pending == {id} && OpenIds(Last(states).log) == {}
  {
    states := PromptTaken([Launched(log)], [], id);
    steps := [] + [Hear(Prompt(id)), Act, Act, Act];
    states := PromptOvertaken(states, steps, id);
    steps := steps + [Hear(Prompt(id)), Act, Obey(Decide(id)), Act, Act];
    OpenIdsAfter(log, Asked(id));
    OpenIdsAfter(log + [Asked(id)], Asked(id));
    OpenIdsAfter(log + [Asked(id)] + [Asked(id)], Decided(id));
  }
}
