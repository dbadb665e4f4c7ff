/** What each action and command does to the status of a running agent, and what
    a whole line does to its prompts.
  */
module RunnerEffects {
  import opened Options
  import opened AgentStatus
  import opened PermissionLog
  import opened RunnerSpec
  import opened RunnerRuns

  /** What a step announces about the turn. */
  predicate StartsTurn(r: RunnerState, step: Step) {
    (step.Act? && r.todo != [] && r.todo[0] == Move(TurnStarted)) || step == Obey(Send)
  }

  predicate EndsTurn(r: RunnerState, step: Step) {
    step.Act? && r.todo != [] && r.todo[0] == Move(TurnEnded)
  }

  predicate RunsOut(r: RunnerState, step: Step) {
    step.Act? && r.todo != [] && r.todo[0] == Move(LimitReached)
  }

  /** The agent is said to be ready: by its own first line, or by the first answer
      to the handshake. */
  predicate GetsReady(r: RunnerState, step: Step) {
    && step.Act? && r.todo != []
    && (r.todo[0] == Move(Initialized) || (r.todo[0] == ControlResponse && r.awaitingInit))
  }

  /** The status underneath after any step: a turn is work, its end is rest, a limit
      is a limit, readiness ends the start alone, an exit is a stop or a failure,
      and nothing else moves it. */
  lemma {:induction false} StepSetsStatus(r: RunnerState, step: Step, r': RunnerState)
    requires StatusHolds(r) && GoodTodo(r) && Next(r, step, r')
    ensures StartsTurn(r, step) ==> r'.base == Working
    ensures EndsTurn(r, step) ==> r'.base == Idle
    ensures RunsOut(r, step) ==> r'.base == RateLimited
    ensures GetsReady(r, step) ==> r'.base == if r.base == Starting then Idle else r.base
    ensures step.Exit? ==> r'.base == if step.requested then Stopped else Failed
    ensures !StartsTurn(r, step) && !EndsTurn(r, step) && !RunsOut(r, step) && !GetsReady(r, step) && !step.Exit? ==>
              r'.base == r.base
  {
    StepMovesBaseByTurns(r, step, r');
  }

  /** What is shown after any step: that approval is awaited while a prompt is held
      and the child lives, the status underneath otherwise; and it is announced
      exactly when it differs from what was shown. */
  lemma {:induction false} StepShows(r: RunnerState, step: Step, r': RunnerState)
    requires StatusHolds(r) && GoodTodo(r) && Next(r, step, r') && (step.Hear? ==> GoodLine(step.line))
    ensures r'.published != []
    ensures Shown(r') == if r'.pending != {} && !step.Exit? then AwaitingApproval else r'.base
    ensures r'.published == if Shown(r') == Shown(r) then r.published else r.published + [Shown(r')]
  {
    StepKeepsStatus(r, step, r');
    StepMovesBaseByTurns(r, step, r');
    StepPublishes(r, step, r');
  }

  lemma {:induction false} StepPublishes(r: RunnerState, step: Step, r': RunnerState)
    requires StatusHolds(r) && GoodTodo(r) && Next(r, step, r') && StatusHolds(r')
    ensures r'.published == if Shown(r') == Shown(r) then r.published else r.published + [Shown(r')]
  {
    if r'.published != r.published {
      StepAddsOne(r, step, r');
      assert r'.published[|r.published| - 1] == Shown(r) && r'.published[|r.published|] == Shown(r');
    }
  }

  lemma {:induction false} StepAddsOne(r: RunnerState, step: Step, r': RunnerState)
    requires StatusHolds(r) && GoodTodo(r) && Next(r, step, r') && r'.published != r.published
    ensures r'.published == r.published + [r'.status]
  {
  }

  /** Running out of tokens lasts, over every interleaving, until a turn starts or
      ends or the child is gone: it is the status underneath, and what is shown
      while no prompt is held. */
  lemma {:induction false} OutOfTokensLasts(states: seq<RunnerState>, steps: seq<Step>, i: nat, j: nat)
    requires IsRun(states, steps) && i < j <= |steps| && RunsOut(states[i], steps[i])
    requires forall k :: i < k < j ==> !StartsTurn(states[k], steps[k]) && !EndsTurn(states[k], steps[k]) && !steps[k].Exit?
    ensures states[j].base == RateLimited && states[j].published != []
    ensures Shown(states[j]) == if states[j].pending == {} then RateLimited else AwaitingApproval
  {
    LimitHolds(states, steps, i, j);
    RunKeepsStatus(states, steps, j);
  }

  lemma {:induction false} LimitHolds(states: seq<RunnerState>, steps: seq<Step>, i: nat, j: nat)
    requires IsRun(states, steps) && i < j <= |steps| && RunsOut(states[i], steps[i])
    requires forall k :: i < k < j ==> !StartsTurn(states[k], steps[k]) && !EndsTurn(states[k], steps[k]) && !steps[k].Exit?
    ensures states[j].base == RateLimited
  {
    if i < j - 1 {
      LimitHolds(states, steps, i, j - 1);
    }
    RunKeepsStatus(states, steps, j - 1);
    assert StepAt(states, steps, j - 1);
    LimitStays(states[j - 1], steps[j - 1], states[j]);
  }

  lemma {:induction false} LimitStays(r: RunnerState, step: Step, r': RunnerState)
    requires StatusHolds(r) && GoodTodo(r) && Next(r, step, r')
    requires RunsOut(r, step) || (r.base == RateLimited && !StartsTurn(r, step) && !EndsTurn(r, step) && !step.Exit?)
    ensures r'.base == RateLimited
  {
    StepSetsStatus(r, step, r');
  }

  // ---------------------------------------------------------------------
  // Prompts
  // ---------------------------------------------------------------------

  /** What a step does to the prompts held and to the log. An action does what it
      says; an answer to a prompt that is not held does nothing. */
  lemma {:induction false} StepHandlesPrompts(r: RunnerState, step: Step, r': RunnerState)
    requires Next(r, step, r')
    ensures r'.pending ==
              if step.Act? && r.todo[0].Permission? then r.pending + {r.todo[0].id}
              else if step.Act? && r.todo[0].CancelPermission? then r.pending - {r.todo[0].id}
              else if step.Obey? && step.command.Decide? then r.pending - {step.command.id}
              else if step.Exit? then {}
              else r.pending
    ensures step.Exit? || r'.log ==
              (if step.Act? && r.todo[0].Persist? then r.log + [r.todo[0].e]
               else if step.Act? && r.todo[0].CancelPermission? && r.todo[0].id in r.pending then r.log + [Decided(r.todo[0].id)]
               else if step.Obey? && step.command.Decide? && step.command.id in r.pending then r.log + [Decided(step.command.id)]
               else if step == Obey(Send) || step == Stderr then r.log + [OtherEvent]
               else r.log)
    ensures r'.awaitingInit <==> r.awaitingInit && !(step.Act? && r.todo[0].ControlResponse?)
    ensures r'.todo ==
              if step.Act? then r.todo[1..] else if step.Hear? then ActionsOf(step.line) else r.todo
  {
    if step.Act? {
      ActedLog(r.(todo := r.todo[1..]), r.todo[0]);
      ActedWaits(r.(todo := r.todo[1..]), r.todo[0]);
    } else if step.Obey? {
      CommandDoes(r, step.command);
    }
  }

  lemma {:induction false} ActedWaits(r: RunnerState, a: Action)
    ensures Acted(r, a).awaitingInit <==> r.awaitingInit && !a.ControlResponse?
  {
  }

  lemma {:induction false} CommandDoes(r: RunnerState, c: Command)
    ensures var r' := Obeyed(r, c);
            && r'.todo == r.todo && r'.awaitingInit == r.awaitingInit
            && r'.pending == (if c.Decide? then r.pending - {c.id} else r.pending)
            && r'.log == if c.Send? then r.log + [OtherEvent]
                         else if c.Decide? && c.id in r.pending then r.log + [Decided(c.id)] else r.log
  {
  }

  /** What a line has done once all its actions are taken with nothing in between. */
  function Taken(r: RunnerState): RunnerState
    decreases |r.todo|
  {
    if r.todo == [] then r
    else
      ActKeepsTodo(r.(todo := r.todo[1..]), r.todo[0]);
      Taken(Acted(r.(todo := r.todo[1..]), r.todo[0]))
  }

  /** Each line in full: a prompt is logged and held, one taken back is no longer
      held and logged as decided if it was, and the rest is logged. */
  lemma {:induction false} LineInFull(r: RunnerState, line: CliLine)
    requires r.todo == []
    ensures var r' := Taken(r.(todo := ActionsOf(line)));
            && r'.todo == []
            && r'.pending == (match line
                              case Prompt(id) => r.pending + {id}
                              case Withdrawal(id) => r.pending - {id}
                              case _ => r.pending)
            && r'.log == (match line
                          case Prompt(id) => r.log + [Asked(id)]
                          case Withdrawal(id) =>
                            if id in r.pending then r.log + [OtherEvent, Decided(id)] else r.log + [OtherEvent]
                          case _ => r.log + [OtherEvent])
  {
    var r0 := r.(todo := ActionsOf(line));
    TakenOne(r0);
    var r1 := Acted(r0.(todo := r0.todo[1..]), r0.todo[0]);
    if r1.todo != [] {
      TakenOne(r1);
      var r2 := Acted(r1.(todo := r1.todo[1..]), r1.todo[0]);
      if r2.todo != [] {
        TakenOne(r2);
      }
    }
  }

  lemma {:induction false} TakenOne(r: RunnerState)
    requires r.todo != []
    ensures var r', a := Acted(r.(todo := r.todo[1..]), r.todo[0]), r.todo[0];
            && Taken(r) == Taken(r') && r'.todo == r.todo[1..]
            && r'.pending == (match a
                              case Permission(id) => r.pending + {id}
                              case CancelPermission(id) => r.pending - {id}
                              case _ => r.pending)
            && r'.log == (match a
                          case Persist(e) => r.log + [e]
                          case CancelPermission(id) => if id in r.pending then r.log + [Decided(id)] else r.log
                          case _ => r.log)
  {
    ActedLog(r.(todo := r.todo[1..]), r.todo[0]);
  }

  /** A line about the turn, in full, leaves the agent at work, at rest, out of
      tokens, or ready. */
  lemma {:induction false} TurnLineInFull(r: RunnerState, t: Transition)
    requires r.todo == [] && StatusHolds(r) && !r.base.IsTerminal() && FromOutside(t)
    ensures var base := Taken(r.(todo := ActionsOf(TurnLine(t)))).base;
            && (t == TurnStarted ==> base == Working)
            && (t == TurnEnded ==> base == Idle)
            && (t == LimitReached ==> base == RateLimited)
            && (t == Initialized ==> base == if r.base == Starting then Idle else r.base)
  {
    var r0 := r.(todo := ActionsOf(TurnLine(t)));
    var r1 := Acted(r0.(todo := r0.todo[1..]), r0.todo[0]);
    TakenOne(r0);
    TakenOne(r1);
  }

  /** The first answer to the handshake makes a starting agent ready, and no other
      line of that kind does anything but be logged. */
  lemma {:induction false} ReadinessInFull(r: RunnerState)
    requires r.todo == [] && StatusHolds(r) && !r.base.IsTerminal()
    ensures var r' := Taken(r.(todo := ActionsOf(Readiness)));
            && !r'.awaitingInit
            && r'.base == if r.awaitingInit && r.base == Starting then Idle else r.base
  {
    var r0 := r.(todo := ActionsOf(Readiness));
    var r1 := Acted(r0.(todo := r0.todo[1..]), r0.todo[0]);
    TakenOne(r0);
    TakenOne(r1);
  }
}
