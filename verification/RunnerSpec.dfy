/** One agent's runner as a machine of single steps: it takes the actions of one
    CLI line after another, and the operator's commands may come between any two
    of them.
  */
module RunnerSpec {
  import opened Options
  import opened AgentStatus
  import opened PermissionLog

  /** A line of the CLI, as far as status and prompts go. */
  datatype CliLine =
    | Prompt(id: RequestId)
    | Withdrawal(id: RequestId)
    | TurnLine(t: Transition)
    | Readiness
    | Plain

  /** What the dispatcher turns lines into. */
  datatype Action =
    | Persist(e: LogEvent)
    | Permission(id: RequestId)
    | CancelPermission(id: RequestId)
    | Move(t: Transition)
    | ControlResponse

  /** A prompt is logged, then queued, and then the status moves. */
  function ActionsOf(line: CliLine): seq<Action> {
    match line
    case Prompt(id) => [Persist(Asked(id)), Permission(id), Move(PermissionRequested)]
    case Withdrawal(id) => [Persist(OtherEvent), CancelPermission(id)]
    case TurnLine(t) =>
      // A turn that starts is announced before its first line is logged.
      if t.TurnStarted? then [Move(t), Persist(OtherEvent)] else [Persist(OtherEvent), Move(t)]
    case Readiness => [Persist(OtherEvent), ControlResponse]
    case Plain => [Persist(OtherEvent)]
  }

  datatype Command = Send | Decide(id: RequestId) | OtherCommand

  /** Stderr is read by a task of its own, and the exit is reported by another,
      so both may come between two actions of one line. */
  datatype Step =
    | Hear(line: CliLine)
    | Act
    | Obey(command: Command)
    | Stderr
    | Exit(requested: bool)

  /** The runner. `published` is every status written and announced, oldest
      first; `todo` the actions left of the line being taken. */
  datatype RunnerState = RunnerState(
    base: Status,
    status: Status,
    published: seq<Status>,
    pending: set<RequestId>,
    log: seq<LogEvent>,
    awaitingInit: bool,
    todo: seq<Action>)

  /** A runner as a launch makes it, over a log of which nothing is open. */
  function Launched(log: seq<LogEvent>): RunnerState {
    RunnerState(Starting, Starting, [Starting], {}, log, true, [])
  }

  function Logged(r: RunnerState, e: LogEvent): RunnerState {
    r.(log := r.log + [e])
  }

  /** The status brought in line with the prompts held, announced if that is news. */
  function Synced(r: RunnerState): RunnerState {
    var next := r.base.WithApprovals(r.pending != {});
    if next == r.status then r else r.(status := next, published := r.published + [next])
  }

  function Moved(r: RunnerState, t: Transition): RunnerState {
    match r.base.Apply(t)
    case None => r
    case Some(applied) =>
      var r' := if t.AboutApprovals() then r else r.(base := applied);
      if t.Spawned? then
        var next := r'.base.WithApprovals(r'.pending != {});
        r'.(status := next, published := r'.published + [next])
      else Synced(r')
  }

  /** A prompt arrives; one that reuses the id of a prompt still held is ignored. */
  function Queued(r: RunnerState, id: RequestId): RunnerState {
    if id in r.pending then r else Synced(r.(pending := r.pending + {id}))
  }

  function Withdrawn(r: RunnerState, id: RequestId): RunnerState {
    if id in r.pending then Synced(Logged(r.(pending := r.pending - {id}), Decided(id))) else r
  }

  function Answered(r: RunnerState, id: RequestId): RunnerState {
    if id in r.pending then Moved(Logged(r.(pending := r.pending - {id}), Decided(id)), PermissionResolved) else r
  }

  function Acted(r: RunnerState, a: Action): RunnerState {
    match a
    case Persist(e) => Logged(r, e)
    case Permission(id) => Queued(r, id)
    case CancelPermission(id) => Withdrawn(r, id)
    case Move(t) => Moved(r, t)
    case ControlResponse => if r.awaitingInit then Moved(r.(awaitingInit := false), Initialized) else r
  }

  function Obeyed(r: RunnerState, c: Command): RunnerState {
    match c
    case Send => Moved(Logged(r, OtherEvent), TurnStarted)
    case Decide(id) => Answered(r, id)
    case OtherCommand => r
  }

  predicate AllDecisions(events: seq<LogEvent>, ids: set<RequestId>) {
    && (forall k :: 0 <= k < |events| ==> events[k].Decided? && events[k].id in ids)
    && (forall id :: id in ids ==> Decided(id) in events)
  }

  /** After the child is gone: the status is final, and every prompt held has
      been closed in the log, in some order. */
  predicate Gone(r: RunnerState, requested: bool, r': RunnerState) {
    && r'.base == r'.status == (if requested then Stopped else Failed)
    && r'.published == r.published + [r'.status]
    && r'.pending == {}
    && |r.log| <= |r'.log| && r'.log[..|r.log|] == r.log
    && AllDecisions(r'.log[|r.log|..], r.pending)
    && r'.todo == r.todo && r'.awaitingInit == r.awaitingInit
  }

  predicate Enabled(r: RunnerState, step: Step) {
    && !r.base.IsTerminal()
    && match step
       case Hear(_) => r.todo == []
       case Act => r.todo != []
       case _ => true
  }

  /** One step of the runner. */
  predicate Next(r: RunnerState, step: Step, r': RunnerState) {
    && Enabled(r, step)
    && match step
       case Hear(line) => r' == r.(todo := ActionsOf(line))
       case Act => r' == Acted(r.(todo := r.todo[1..]), r.todo[0])
       case Obey(c) => r' == Obeyed(r, c)
       case Stderr => r' == Logged(r, OtherEvent)
       case Exit(requested) => Gone(r, requested, r')
  }

  // ---------------------------------------------------------------------
  // The status
  // ---------------------------------------------------------------------

  /** The last status announced. */
  function Shown(r: RunnerState): Status
    requires r.published != []
  {
    r.published[|r.published| - 1]
  }

  /** What is shown is the status underneath, corrected by the prompts held; and
      nothing is announced twice in a row. */
  predicate StatusHolds(r: RunnerState) {
    && r.published != []
    && Shown(r) == r.status
    && r.status == r.base.WithApprovals(r.pending != {})
    && !r.base.AwaitingApproval?
    && NoNewsTwice(r.published)
  }

  predicate NoNewsTwice(published: seq<Status>) {
    forall i :: 0 <= i < |published| - 1 ==> published[i] != published[i + 1]
  }

  /** A transition from the CLI or the operator: a running agent is not spawned,
      and its end comes by its exit. */
  predicate FromOutside(t: Transition) {
    !t.Spawned? && !t.Exited? && !t.Errored?
  }

  predicate GoodTodo(r: RunnerState) {
    forall k :: 0 <= k < |r.todo| && r.todo[k].Move? ==> FromOutside(r.todo[k].t)
  }

  predicate GoodLine(line: CliLine) {
    line.TurnLine? ==> FromOutside(line.t)
  }
}
