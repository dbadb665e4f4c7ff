/** The interpreter of lines and the runner together: what `Idle` on a page tells.

    The interpreter runs ahead of the runner, which takes a line's actions one at
    a time with commands in between; `desk` is what the interpreter believed after
    the line whose actions are being taken.
  */
module AgentRuns {
  import opened Options
  import opened AgentStatus
  import opened PermissionLog
  import D = DispatchSpec
  import DispatchRuns
  import opened RunnerSpec
  import RunnerRuns

  /** A line of the CLI, for both. */
  datatype Speech = Turn(line: D.Line) | About(about: CliLine)

  datatype World = World(desk: D.Desk, runner: RunnerState)

  datatype Move = Take(speech: Speech) | Do(step: Step)

  /** What the runner is given to do for what a line says of the turn. */
  function Moves(said: seq<D.Action>): seq<Action> {
    if said == [] then []
    else Moves(said[..|said| - 1]) + MoveOf(said[|said| - 1])
  }

  function MoveOf(a: D.Action): seq<Action> {
    match a
    case Initialized => [RunnerSpec.Action.Move(AgentStatus.Initialized)]
    case TurnStarted => [RunnerSpec.Action.Move(AgentStatus.TurnStarted)]
    case TurnEnded => [RunnerSpec.Action.Move(AgentStatus.TurnEnded)]
    case LimitReached => [RunnerSpec.Action.Move(AgentStatus.LimitReached)]
    case Subagents(_) => []
  }

  function TodoOf(d: D.Desk, speech: Speech): seq<Action> {
    match speech
    case Turn(line) =>
      var moves := Moves(D.TurnActions(d, line));
      if line.Assistant? then moves + [Persist(OtherEvent)] else [Persist(OtherEvent)] + moves
    case About(line) => ActionsOf(line)
  }

  /** What each line has the runner do: log it, and move the status as it says. */
  lemma {:induction false} ResultSpeaks(d: D.Desk)
    ensures TodoOf(d, Turn(D.Result(true))) == [Persist(OtherEvent), RunnerSpec.Action.Move(LimitReached)]
    ensures TodoOf(d, Turn(D.Result(false))) ==
              [Persist(OtherEvent)] + if d.backgroundTasks == {} then [RunnerSpec.Action.Move(TurnEnded)] else []
  {
    MovesOfFew(D.LimitReached, D.TurnEnded);
    MovesOfFew(D.TurnEnded, D.TurnEnded);
  }

  lemma {:induction false} TalkSpeaks(d: D.Desk, parent: Option<D.Id>, tools: seq<D.Label>, results: seq<D.ToolResult>)
    ensures TodoOf(d, Turn(D.Assistant(parent, tools))) ==
              (if parent == None && !d.turnOpen then [RunnerSpec.Action.Move(TurnStarted)] else []) + [Persist(OtherEvent)]
    ensures TodoOf(d, Turn(D.User(results))) == [Persist(OtherEvent)]
  {
    MovesOfFew(D.TurnStarted, D.TurnEnded);
  }

  lemma {:induction false} SystemSpeaks(d: D.Desk, sys: D.SystemLine)
    ensures TodoOf(d, Turn(D.System(sys))) ==
              [Persist(OtherEvent)]
              + (if sys.subtype == D.Init then [RunnerSpec.Action.Move(Initialized)] else [])
              + (if d.deferredTurnEnd && D.After(d, D.System(sys)).backgroundTasks == {} then [RunnerSpec.Action.Move(TurnEnded)] else [])
  {
    D.TrackedKeepsTurn(d, sys);
    MovesOfFew(D.TurnEnded, D.TurnEnded);
    MovesOfFew(D.Initialized, D.TurnEnded);
  }

  lemma {:induction false} MovesOfFew(a: D.Action, b: D.Action)
    ensures Moves([]) == [] && Moves([a]) == MoveOf(a) && Moves([a] + [b]) == MoveOf(a) + MoveOf(b)
  {
    assert [a][..0] == [] && ([a] + [b])[..1] == [a];
  }

  function DeskAfter(d: D.Desk, speech: Speech): D.Desk {
    match speech
    case Turn(line) => D.After(d, line)
    case About(_) => d
  }

  /** One step of either. Lines about prompts and readiness leave the desk alone. */
  predicate Next2(w: World, move: Move, w': World) {
    match move
    case Take(speech) =>
      && !w.runner.base.IsTerminal() && w.runner.todo == []
      && (speech.About? ==> !speech.about.TurnLine?)
      && w' == World(DeskAfter(w.desk, speech), w.runner.(todo := TodoOf(w.desk, speech)))
    case Do(step) => !step.Hear? && w'.desk == w.desk && Next(w.runner, step, w'.runner)
  }

  /** No task is live and no turn end is held back. */
  predicate Quiet(d: D.Desk) {
    d.backgroundTasks == {} && !d.deferredTurnEnd
  }

  predicate IdleIsQuiet(w: World) {
    w.runner.base.Idle? ==> Quiet(w.desk)
  }

  predicate EndsQuietly(w: World) {
    forall k :: 0 <= k < |w.runner.todo| && w.runner.todo[k] == RunnerSpec.Action.Move(TurnEnded) ==> Quiet(w.desk)
  }

  predicate Good(w: World) {
    D.DeskValid(w.desk) && StatusHolds(w.runner) && GoodTodo(w.runner) && EndsQuietly(w)
  }

  lemma {:induction false} MovesMembers(said: seq<D.Action>, a: Action)
    requires a in Moves(said)
    ensures a.Move? && FromOutside(a.t)
    ensures a.t == AgentStatus.TurnEnded ==> D.TurnEnded in said
  {
    var n := |said| - 1;
    assert said == said[..n] + [said[n]];
    if a in Moves(said[..n]) {
      MovesMembers(said[..n], a);
    } else {
      assert a in MoveOf(said[n]);
    }
  }

  /** A line that announces the end of a turn leaves nothing live and nothing held. */
  lemma {:induction false} EndLeavesQuiet(d: D.Desk, line: D.Line)
    requires D.DeskValid(d) && D.TurnEnded in D.TurnActions(d, line)
    ensures Quiet(D.After(d, line))
  {
    if line.System? {
      D.TrackedKeepsTurn(d, line.sys);
    }
  }

  lemma {:induction false} TakeKeepsGood(w: World, speech: Speech, w': World)
    requires Good(w) && Next2(w, Take(speech), w')
    ensures Good(w')
  {
    match speech
    case Turn(line) =>
      DispatchRuns.LineKeepsValid(w.desk, line);
      var said := D.TurnActions(w.desk, line);
      forall k | 0 <= k < |w'.runner.todo| && w'.runner.todo[k].Move?
        ensures FromOutside(w'.runner.todo[k].t)
        ensures w'.runner.todo[k].t == AgentStatus.TurnEnded ==> Quiet(w'.desk)
      {
        assert w'.runner.todo[k] in Moves(said);
        MovesMembers(said, w'.runner.todo[k]);
        if D.TurnEnded in said {
          EndLeavesQuiet(w.desk, line);
        }
      }
    case About(line) =>
  }

  lemma {:induction false} DoKeepsGood(w: World, step: Step, w': World)
    requires Good(w) && Next2(w, Do(step), w')
    ensures Good(w')
  {
    RunnerRuns.StepKeepsStatus(w.runner, step, w'.runner);
    if step.Act? {
      RunnerRuns.ActKeepsTodo(w.runner.(todo := w.runner.todo[1..]), w.runner.todo[0]);
    } else if step.Obey? {
      RunnerRuns.CommandHolds(w.runner, step.command);
    }
  }

  // ---------------------------------------------------------------------
  // When idle is not quiet
  // ---------------------------------------------------------------------

  /** A line by which some task is live: a list of live tasks that is not empty,
      or a task started in the background. */
  predicate GoesLive(sys: D.SystemLine) {
    || (sys.subtype.BackgroundTasksChanged? && sys.tasks.Some? && sys.tasks.value != [])
    || (sys.subtype.TaskStarted? && sys.isBackgrounded == Some(true) && sys.taskId.Some?)
  }

  lemma {:induction false} LiveFromNothing(sys: D.SystemLine)
    ensures D.LiveAfter({}, sys) != {} <==> GoesLive(sys)
  {
    if sys.subtype.BackgroundTasksChanged? && sys.tasks.Some? && sys.tasks.value != [] {
      assert sys.tasks.value[0] in D.AsSet(sys.tasks.value);
    }
  }

  /** The two ways an idle agent comes to have something live: a task goes live
      with no turn open, or the agent is declared ready over one. */
  predicate Disturbs(w: World, move: Move) {
    match move
    case Take(Turn(System(sys))) => w.runner.base.Idle? && GoesLive(sys)
    case Do(Act) => w.runner.base.Starting? && DeclaresReady(w.runner) && !Quiet(w.desk)
    case _ => false
  }

  predicate DeclaresReady(r: RunnerState) {
    && r.todo != []
    && (r.todo[0] == RunnerSpec.Action.Move(AgentStatus.Initialized) || (r.todo[0].ControlResponse? && r.awaitingInit))
  }

  lemma {:induction false} TakeIsQuietUnless(w: World, speech: Speech, w': World)
    requires Good(w) && IdleIsQuiet(w) && Next2(w, Take(speech), w')
    ensures IdleIsQuiet(w') <==> !Disturbs(w, Take(speech))
  {
    if speech.Turn? {
      match speech.line
      case System(sys) =>
        D.TrackedKeepsTurn(w.desk, sys);
        LiveFromNothing(sys);
      case Assistant(parent, tools) =>
        DispatchRuns.ToolsKeepTurn(if parent.None? then w.desk.(turnOpen := true) else w.desk, parent, tools);
      case User(results) => DispatchRuns.ResultsKeepTurn(w.desk, results);
      case _ =>
    }
  }

  /** The status underneath turns `Idle` only by the end of a turn or by readiness. */
  lemma {:induction false} TurnsIdle(r: RunnerState, step: Step, r': RunnerState)
    requires Next(r, step, r') && !step.Hear?
    ensures r'.base.Idle? <==>
              if step.Act? && r.todo[0] == RunnerSpec.Action.Move(TurnEnded) then true
              else if step.Act? && DeclaresReady(r) then r.base.Idle? || r.base.Starting?
              else if step.Act? && r.todo[0].Move? && r.todo[0].t.Spawned? then false
              else r.base.Idle? && RunnerRuns.TurnMove(r, step).None?
  {
    RunnerRuns.StepMovesBaseByTurns(r, step, r');
  }

  /** While the child runs, `Idle` underneath keeps meaning that nothing is live
      and nothing is held back, exactly unless a step is one of those two. */
  lemma {:induction false} IdleIsQuietExactlyUnless(w: World, move: Move, w': World)
    requires Good(w) && IdleIsQuiet(w) && Next2(w, move, w')
    ensures IdleIsQuiet(w') <==> !Disturbs(w, move)
  {
    match move
    case Take(speech) => TakeIsQuietUnless(w, speech, w');
    case Do(step) => TurnsIdle(w.runner, step, w'.runner);
  }

  ghost predicate IsRun(worlds: seq<World>, moves: seq<Move>) {
    && |worlds| == |moves| + 1
    && (exists log :: worlds[0] == World(D.START, Launched(log)))
    && forall i :: 0 <= i < |moves| ==> MoveAt(worlds, moves, i)
  }

  ghost predicate MoveAt(worlds: seq<World>, moves: seq<Move>, i: int) {
    0 <= i < |moves| && i + 1 < |worlds| && Next2(worlds[i], moves[i], worlds[i + 1])
  }

  lemma {:induction false} MoveKeepsGood(w: World, move: Move, w': World)
    requires Good(w) && Next2(w, move, w')
    ensures Good(w')
  {
    match move
    case Take(speech) => TakeKeepsGood(w, speech, w');
    case Do(step) => DoKeepsGood(w, step, w');
  }

  lemma {:induction false} LaunchIsGood(log: seq<LogEvent>)
    ensures Good(World(D.START, Launched(log))) && IdleIsQuiet(World(D.START, Launched(log)))
  {
  }

  lemma {:induction false} RunIsGood(worlds: seq<World>, moves: seq<Move>, i: nat)
    requires IsRun(worlds, moves) && i <= |moves|
    ensures Good(worlds[i])
  {
    if i > 0 {
      RunIsGood(worlds, moves, i - 1);
      assert MoveAt(worlds, moves, i - 1);
      MoveKeepsGood(worlds[i - 1], moves[i - 1], worlds[i]);
    } else {
      var log :| worlds[0] == World(D.START, Launched(log));
      LaunchIsGood(log);
    }
  }

  lemma {:induction false} RunIsQuiet(worlds: seq<World>, moves: seq<Move>, i: nat)
    requires IsRun(worlds, moves) && i <= |moves|
    requires forall k :: 0 <= k < i ==> !Disturbs(worlds[k], moves[k])
    ensures IdleIsQuiet(worlds[i])
  {
    if i > 0 {
      RunIsQuiet(worlds, moves, i - 1);
      RunIsGood(worlds, moves, i - 1);
      assert MoveAt(worlds, moves, i - 1);
      IdleIsQuietExactlyUnless(worlds[i - 1], moves[i - 1], worlds[i]);
    }
  }

  /** Over every interleaving of lines and commands without such a step, a page
      that shows `Idle` is right: no prompt is held, no task is live and no turn
      end is held back. */
  lemma {:induction false} IdleMeansAtRest(worlds: seq<World>, moves: seq<Move>, i: nat)
    requires IsRun(worlds, moves) && i <= |moves|
    requires forall k :: 0 <= k < i ==> !Disturbs(worlds[k], moves[k])
    ensures var r := worlds[i].runner;
            r.published != [] && (Shown(r).Idle? ==> r.pending == {} && Quiet(worlds[i].desk))
  {
    RunIsGood(worlds, moves, i);
    RunIsQuiet(worlds, moves, i);
  }

  /** An agent that has just become ready starts a task in the background with no
      turn around it: its page shows `Idle` over a live task. */
  lemma {:induction false} IdleOverALiveTask(log: seq<LogEvent>, id: D.Id) returns (worlds: seq<World>, moves: seq<Move>)
    ensures IsRun(worlds, moves) && |moves| == 4
    ensures worlds[4].runner.published != [] && Shown(worlds[4].runner).Idle?
    ensures worlds[4].desk.backgroundTasks == {id}
  {
    var sys := D.SystemLine(D.TaskStarted, Some(id), true, Some(true), None, None, None, None, None, None, None);
    moves := [Take(About(Readiness)), Do(Act), Do(Act), Take(Turn(D.System(sys)))];
    var r0 := Launched(log);
    var r1 := r0.(todo := ActionsOf(Readiness));
    var r2 := Acted(r1.(todo := r1.todo[1..]), r1.todo[0]);
    var r3 := Acted(r2.(todo := r2.todo[1..]), r2.todo[0]);
    var d := D.After(D.START, D.System(sys));
    D.TrackedKeepsTurn(D.START, sys);
    worlds := [World(D.START, r0), World(D.START, r1), World(D.START, r2), World(D.START, r3),
               World(d, r3.(todo := TodoOf(D.START, Turn(D.System(sys)))))];
    assert MoveAt(worlds, moves, 0) && MoveAt(worlds, moves, 1) && MoveAt(worlds, moves, 2) && MoveAt(worlds, moves, 3);
  }
}
