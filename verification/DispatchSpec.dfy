/** How a line of CLI output changes what the server believes about a turn and
    its subagents, as functions of the line and the state before it.
  */
module DispatchSpec {
  import opened Options

  /** A task id or a tool call id. */
  type Id = nat

  /** A line of text shown to the operator. */
  type Label = nat

  /** How a task is going. The texts the code compares with have their own
      constructors; any other text is `Said`. */
  datatype TaskStatus = Running | Pending | Queued | InProgress | Completed | Failed | Said(text: string)

  predicate IsTerminal(status: TaskStatus) {
    !(status.Running? || status.Pending? || status.Queued? || status.InProgress?)
  }

  /** `about` never changes; `activity` and `state` do. */
  datatype Subagent = Subagent(
    taskId: Id, about: Option<Label>, activity: Option<Label>, state: TaskStatus, toolUseId: Option<Id>)
  {
    function In(status: TaskStatus): Subagent {
      this.(state := status)
    }

    function Doing(what: Label): Subagent {
      this.(activity := Some(what))
    }
  }

  datatype Subtype =
    | Init
    | TaskStarted
    | TaskProgress
    | TaskUpdated
    | TaskNotification
    | BackgroundTasksChanged
    | OtherSystem

  /** A `system` line. `isSubagent`: it is about a subagent and not, say, a
      shell; `activity`: its non-empty description, or the tool it last ran. */
  datatype SystemLine = SystemLine(
    subtype: Subtype,
    taskId: Option<Id>,
    isSubagent: bool,
    isBackgrounded: Option<bool>,
    spawnDepth: Option<nat>,
    toolUseId: Option<Id>,
    about: Option<Label>,
    activity: Option<Label>,
    patchedStatus: Option<TaskStatus>,
    status: Option<TaskStatus>,
    tasks: Option<seq<Id>>)

  datatype ToolResult = ToolResult(toolUseId: Id, isError: bool)

  datatype Line =
    | System(sys: SystemLine)
    | ApiError
    | Assistant(parent: Option<Id>, tools: seq<Label>)
    | User(results: seq<ToolResult>)
    | Result(outOfTokens: bool)
    | Other

  datatype Action =
    | Initialized
    | TurnStarted
    | TurnEnded
    | LimitReached
    | Subagents(list: seq<Subagent>)

  /** The most rows the list of subagents holds. */
  const MAX_SUBAGENTS := 32

  /** What is believed after some lines. */
  datatype Desk = Desk(
    subagents: seq<Subagent>,
    backgrounded: set<Id>,
    synchronous: set<Id>,
    topLevelSynchronous: set<Id>,
    closedByBackstop: set<Id>,
    backgroundTasks: set<Id>,
    deferredTurnEnd: bool,
    turnOpen: bool)

  const START := Desk([], {}, {}, {}, {}, {}, false, false)

  // ---------------------------------------------------------------------
  // The subagent list
  // ---------------------------------------------------------------------

  predicate Listed(subagents: seq<Subagent>, id: Id) {
    exists i :: 0 <= i < |subagents| && subagents[i].taskId == id
  }

  predicate DistinctIds(subagents: seq<Subagent>) {
    forall i, j :: 0 <= i < j < |subagents| ==> subagents[i].taskId != subagents[j].taskId
  }

  function Put(a: Subagent, id: Id, status: TaskStatus): Subagent {
    if a.taskId == id then a.In(status) else a
  }

  /** The list with task `id` in `status`. */
  function WithStatus(subagents: seq<Subagent>, id: Id, status: TaskStatus): (out: seq<Subagent>)
    ensures |out| == |subagents|
  {
    seq(|subagents|, i requires 0 <= i < |subagents| => Put(subagents[i], id, status))
  }

  function Said1(a: Subagent, id: Id, what: Option<Label>): Subagent {
    if a.taskId == id && what.Some? then a.Doing(what.value) else a
  }

  /** The list with task `id` reporting what it does. */
  function WithActivity(subagents: seq<Subagent>, id: Id, what: Option<Label>): (out: seq<Subagent>)
    ensures |out| == |subagents|
  {
    seq(|subagents|, i requires 0 <= i < |subagents| => Said1(subagents[i], id, what))
  }

  function Started(d: Desk, sys: SystemLine, id: Id): Desk {
    var known := Listed(d.subagents, id);
    var topLevel := match sys.spawnDepth case None => true case Some(depth) => depth <= 1;
    d.(
    backgrounded := if sys.isBackgrounded == Some(true) then d.backgrounded + {id} else d.backgrounded,
    synchronous := if sys.isBackgrounded == Some(false) then d.synchronous + {id} else d.synchronous,
    topLevelSynchronous :=
      if sys.isBackgrounded == Some(false) && topLevel then d.topLevelSynchronous + {id} else d.topLevelSynchronous,
    closedByBackstop := d.closedByBackstop - {id},
    subagents :=
      if known then WithStatus(d.subagents, id, Running)
      else d.subagents + [Subagent(id, sys.about, None, Running, sys.toolUseId)])
  }

  function Progressed(d: Desk, sys: SystemLine, id: Id): Desk {
    var revived := if id in d.closedByBackstop then WithStatus(d.subagents, id, Running) else d.subagents;
    d.(closedByBackstop := d.closedByBackstop - {id}, subagents := WithActivity(revived, id, sys.activity))
  }

  function Updated(d: Desk, id: Id, status: TaskStatus): Desk {
    if IsTerminal(status) then
      d.(closedByBackstop := d.closedByBackstop - {id}, subagents := WithStatus(d.subagents, id, status))
    else if id in d.closedByBackstop then
      d.(closedByBackstop := d.closedByBackstop - {id}, subagents := WithStatus(d.subagents, id, Running))
    else d
  }

  function Notified(d: Desk, sys: SystemLine, id: Id): Desk {
    var status := match sys.status case Some(s) => s case None => Completed;
    d.(closedByBackstop := d.closedByBackstop - {id}, subagents := WithStatus(d.subagents, id, status))
  }

  function Unlisted(a: Subagent, tasks: seq<Id>, backgroundTasks: set<Id>): Subagent {
    if a.taskId !in tasks && a.state.Running? && a.taskId in backgroundTasks then a.In(Completed) else a
  }

  /** The list once the backgrounded ones that dropped off the live list have ended. */
  function WithoutUnlisted(subagents: seq<Subagent>, tasks: seq<Id>, backgroundTasks: set<Id>): (out: seq<Subagent>)
    ensures |out| == |subagents|
  {
    seq(|subagents|, i requires 0 <= i < |subagents| => Unlisted(subagents[i], tasks, backgroundTasks))
  }

  /** One task line folded into the list. */
  function Folded(d: Desk, sys: SystemLine): Desk {
    match sys.subtype
    case TaskStarted => if sys.taskId.Some? && sys.isSubagent then Started(d, sys, sys.taskId.value) else d
    case TaskProgress => if sys.taskId.Some? then Progressed(d, sys, sys.taskId.value) else d
    case TaskUpdated =>
      if sys.taskId.Some? && sys.patchedStatus.Some? then Updated(d, sys.taskId.value, sys.patchedStatus.value) else d
    case TaskNotification => if sys.taskId.Some? then Notified(d, sys, sys.taskId.value) else d
    case BackgroundTasksChanged =>
      if sys.tasks.Some?
      then d.(subagents := WithoutUnlisted(d.subagents, sys.tasks.value, d.backgroundTasks)) else d
    case _ => d
  }

  /** The position of the first subagent that is not running, or the length of the list. */
  function FirstEnded(subagents: seq<Subagent>): (i: nat)
    ensures i <= |subagents|
    ensures i < |subagents| ==> !subagents[i].state.Running?
    ensures forall k :: 0 <= k < i ==> subagents[k].state.Running?
  {
    if subagents == [] || !subagents[0].state.Running? then 0 else 1 + FirstEnded(subagents[1..])
  }

  function DropAt(subagents: seq<Subagent>): (i: nat)
    requires subagents != []
    ensures i < |subagents|
  {
    var i := FirstEnded(subagents);
    if i < |subagents| then i else 0
  }

  /** A list one row too long loses a row: the first that has ended, or the very first. */
  function Trimmed(d: Desk): Desk {
    if |d.subagents| <= MAX_SUBAGENTS then d
    else
      var i := DropAt(d.subagents);
      var id := d.subagents[i].taskId;
      d.(
      subagents := d.subagents[..i] + d.subagents[i + 1..],
      backgrounded := d.backgrounded - {id},
      synchronous := d.synchronous - {id},
      topLevelSynchronous := d.topLevelSynchronous - {id},
      closedByBackstop := d.closedByBackstop - {id})
  }

  function Tracked(d: Desk, sys: SystemLine): Desk {
    Trimmed(Folded(d, sys))
  }

  /** Is the call `toolUseId` the one that started subagent `a`? */
  predicate StartedBy(a: Subagent, toolUseId: Id) {
    a.toolUseId == Some(toolUseId)
  }

  /** Does the result of the call that started `a` say that `a` has ended? */
  predicate ResultIsEnd(d: Desk, a: Subagent) {
    && (a.state.Running? || a.taskId in d.closedByBackstop)
    && a.taskId in d.synchronous
    && a.taskId !in d.backgrounded
    && a.taskId !in d.backgroundTasks
  }

  function Returned1(d: Desk, a: Subagent, r: ToolResult): Subagent {
    if StartedBy(a, r.toolUseId) && ResultIsEnd(d, a) then a.In(if r.isError then Failed else Completed) else a
  }

  /** The ids of the subagents started by call `toolUseId`. */
  function IdsStartedBy(subagents: seq<Subagent>, toolUseId: Id): set<Id> {
    set i | 0 <= i < |subagents| && StartedBy(subagents[i], toolUseId) :: subagents[i].taskId
  }

  /** The call `r.toolUseId` returned. */
  function Returned(d: Desk, r: ToolResult): Desk {
    d.(
    subagents := seq(|d.subagents|, i requires 0 <= i < |d.subagents| => Returned1(d, d.subagents[i], r)),
    closedByBackstop := d.closedByBackstop - IdsStartedBy(d.subagents, r.toolUseId))
  }

  function AllReturned(d: Desk, results: seq<ToolResult>): Desk {
    if results == [] then d else Returned(AllReturned(d, results[..|results| - 1]), results[|results| - 1])
  }

  /** Can `a` not outlive the turn that is ending? */
  predicate BoundToTurn(d: Desk, a: Subagent) {
    a.state.Running? && a.taskId in d.topLevelSynchronous && a.taskId !in d.backgroundTasks
  }

  function Closed1(d: Desk, a: Subagent): Subagent {
    if BoundToTurn(d, a) then a.In(Completed) else a
  }

  function IdsBoundToTurn(d: Desk, subagents: seq<Subagent>): set<Id> {
    set i | 0 <= i < |subagents| && BoundToTurn(d, subagents[i]) :: subagents[i].taskId
  }

  /** The subagents that cannot outlive the turn, taken to have ended with it. */
  function ClosedAtTurnEnd(d: Desk): Desk {
    d.(
    subagents := seq(|d.subagents|, i requires 0 <= i < |d.subagents| => Closed1(d, d.subagents[i])),
    closedByBackstop := d.closedByBackstop + IdsBoundToTurn(d, d.subagents))
  }

  function Used1(d: Desk, a: Subagent, parent: Id, what: Label): Subagent {
    if StartedBy(a, parent) then (if a.taskId in d.closedByBackstop then a.In(Running) else a).Doing(what) else a
  }

  /** A subagent started by call `parent` ran a tool. */
  function ToolUsed(d: Desk, parent: Id, what: Label): Desk {
    d.(
    subagents := seq(|d.subagents|, i requires 0 <= i < |d.subagents| => Used1(d, d.subagents[i], parent, what)),
    closedByBackstop := d.closedByBackstop - IdsStartedBy(d.subagents, parent))
  }

  function AllToolsUsed(d: Desk, parent: Option<Id>, tools: seq<Label>): Desk {
    if tools == [] || parent.None? then d
    else ToolUsed(AllToolsUsed(d, parent, tools[..|tools| - 1]), parent.value, tools[|tools| - 1])
  }

  /** The list is kept apart from the turn. */
  predicate SameTurn(d: Desk, d': Desk) {
    d'.backgroundTasks == d.backgroundTasks && d'.deferredTurnEnd == d.deferredTurnEnd && d'.turnOpen == d.turnOpen
  }

  lemma {:induction false} TrackedKeepsTurn(d: Desk, sys: SystemLine)
    ensures SameTurn(d, Tracked(d, sys))
  {
  }

  // ---------------------------------------------------------------------
  // The turn
  // ---------------------------------------------------------------------

  function AsSet(ids: seq<Id>): set<Id> {
    set id | id in ids
  }

  /** The live set of backgrounded tasks after a task line. */
  function LiveAfter(live: set<Id>, sys: SystemLine): set<Id> {
    match sys.subtype
    case BackgroundTasksChanged => if sys.tasks.Some? then AsSet(sys.tasks.value) else live
    case TaskStarted => if sys.isBackgrounded == Some(true) && sys.taskId.Some? then live + {sys.taskId.value} else live
    case TaskUpdated =>
      if sys.taskId.Some? && sys.patchedStatus.Some? && IsTerminal(sys.patchedStatus.value)
      then live - {sys.taskId.value} else live
    case TaskNotification => if sys.taskId.Some? then live - {sys.taskId.value} else live
    case _ => live
  }

  /** A task line: the live set, and the end of a turn held open for it. */
  function Heard(d: Desk, sys: SystemLine): Desk {
    var live := LiveAfter(d.backgroundTasks, sys);
    if live == {} && d.deferredTurnEnd
    then d.(backgroundTasks := live, deferredTurnEnd := false, turnOpen := false)
    else d.(backgroundTasks := live)
  }

  /** The state after a line. */
  function After(d: Desk, line: Line): Desk {
    match line
    case System(sys) => Heard(Tracked(d, sys), sys)
    case Assistant(parent, tools) =>
      AllToolsUsed(if parent.None? then d.(turnOpen := true) else d, parent, tools)
    case User(results) => AllReturned(d, results)
    case Result(outOfTokens) =>
      ClosedAtTurnEnd(d.(turnOpen := false)).(deferredTurnEnd := !outOfTokens && d.backgroundTasks != {})
    case _ => d
  }

  /** What a line says about the turn, beyond the list of subagents. */
  function TurnActions(d: Desk, line: Line): seq<Action> {
    match line
    case System(sys) =>
      (if sys.subtype.Init? then [Initialized] else [])
      + (if LiveAfter(d.backgroundTasks, sys) == {} && d.deferredTurnEnd then [TurnEnded] else [])
    case Assistant(parent, tools) => if parent.None? && !d.turnOpen then [TurnStarted] else []
    case Result(outOfTokens) =>
      if outOfTokens then [LimitReached] else if d.backgroundTasks == {} then [TurnEnded] else []
    case _ => []
  }

  /** The actions that are not about the list. */
  function TurnPart(actions: seq<Action>): seq<Action> {
    if actions == [] then []
    else
      var front, last := TurnPart(actions[..|actions| - 1]), actions[|actions| - 1];
      if last.Subagents? then front else front + [last]
  }

  /** The list a page shows: the last one published, or the one it had. */
  function Shown(had: seq<Subagent>, actions: seq<Action>): seq<Subagent> {
    if actions == [] then had
    else if actions[|actions| - 1].Subagents? then actions[|actions| - 1].list
    else Shown(had, actions[..|actions| - 1])
  }

  /** The actions of one line: what it says of the turn, and the new list if it changed. */
  predicate Speaks(d: Desk, line: Line, actions: seq<Action>) {
    && TurnPart(actions) == TurnActions(d, line)
    && Shown(d.subagents, actions) == After(d, line).subagents
  }

  lemma {:induction false} JustOne(had: seq<Subagent>, a: Action)
    ensures TurnPart([a]) == if a.Subagents? then [] else [a]
    ensures Shown(had, [a]) == if a.Subagents? then a.list else had
  {
  }

  /** One action more. */
  lemma {:induction false} OneMore(had: seq<Subagent>, actions: seq<Action>, a: Action)
    ensures TurnPart(actions + [a]) == if a.Subagents? then TurnPart(actions) else TurnPart(actions) + [a]
    ensures Shown(had, actions + [a]) == if a.Subagents? then a.list else Shown(had, actions)
  {
  }

  // ---------------------------------------------------------------------
  // The invariant
  // ---------------------------------------------------------------------

  function Ids(subagents: seq<Subagent>): set<Id> {
    set i | 0 <= i < |subagents| :: subagents[i].taskId
  }

  /** Every backstop mark is a guess about a subagent shown as completed. */
  predicate MarksAreGuesses(d: Desk) {
    && d.closedByBackstop <= d.topLevelSynchronous
    && forall i :: 0 <= i < |d.subagents| && d.subagents[i].taskId in d.closedByBackstop ==> d.subagents[i].state.Completed?
  }

  predicate SidesListed(d: Desk) {
    && d.backgrounded <= Ids(d.subagents)
    && d.synchronous <= Ids(d.subagents)
    && d.topLevelSynchronous <= d.synchronous
    && d.closedByBackstop <= Ids(d.subagents)
  }

  predicate HeldForSomething(d: Desk) {
    d.deferredTurnEnd ==> d.backgroundTasks != {}
  }

  predicate ListValid(d: Desk) {
    DistinctIds(d.subagents) && SidesListed(d) && MarksAreGuesses(d)
  }

  predicate DeskValid(d: Desk) {
    ListValid(d) && |d.subagents| <= MAX_SUBAGENTS && HeldForSomething(d)
  }
}
