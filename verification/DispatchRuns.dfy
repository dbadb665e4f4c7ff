/** What holds after any sequence of CLI lines. */
module DispatchRuns {
  import opened Options
  import opened DispatchSpec

  /** The state after a sequence of lines. */
  function StateAfter(lines: seq<Line>): Desk {
    if lines == [] then START else After(StateAfter(lines[..|lines| - 1]), lines[|lines| - 1])
  }

  // ---------------------------------------------------------------------
  // The invariant, line by line
  // ---------------------------------------------------------------------

  /** `d'` has the subagents of `d`, in place, with the same ids and calls. */
  ghost predicate SameIds(d: Desk, d': Desk) {
    && |d'.subagents| == |d.subagents|
    && forall i :: 0 <= i < |d.subagents| ==> d'.subagents[i].taskId == d.subagents[i].taskId
  }

  predicate SameSides(d: Desk, d': Desk) {
    && d'.backgrounded == d.backgrounded
    && d'.synchronous == d.synchronous
    && d'.topLevelSynchronous == d.topLevelSynchronous
  }

  lemma {:induction false} SameIdsKeepValid(d: Desk, d': Desk)
    requires ListValid(d) && SameIds(d, d') && SameSides(d, d')
    requires d'.closedByBackstop <= d.closedByBackstop && MarksAreGuesses(d')
    ensures ListValid(d')
  {
  }

  /** A task that starts: known, or a new row at the end of the list. */
  lemma {:induction false} StartedKeepsValid(d: Desk, sys: SystemLine, id: Id)
    requires ListValid(d)
    ensures ListValid(Started(d, sys, id)) && |Started(d, sys, id).subagents| <= |d.subagents| + 1
  {
    var d' := Started(d, sys, id);
    if Listed(d.subagents, id) {
      assert SameIds(d, d');
      assert Ids(d'.subagents) == Ids(d.subagents);
      assert id in Ids(d.subagents);
    } else {
      assert d'.subagents[|d.subagents|].taskId == id;
      assert forall i :: 0 <= i < |d.subagents| ==> d'.subagents[i] == d.subagents[i];
      IdsPlusOne(d.subagents, d'.subagents[|d.subagents|]);
    }
  }

  lemma {:induction false} IdsPlusOne(subagents: seq<Subagent>, a: Subagent)
    ensures Ids(subagents + [a]) == Ids(subagents) + {a.taskId}
  {
    var all := subagents + [a];
    assert forall i :: 0 <= i < |subagents| ==> all[i] == subagents[i];
    assert all[|subagents|] == a;
  }

  /** A task that is no longer a guess may be given any status. */
  lemma {:induction false} StatusKeepsValid(d: Desk, id: Id, status: TaskStatus)
    requires ListValid(d)
    ensures ListValid(d.(closedByBackstop := d.closedByBackstop - {id}, subagents := WithStatus(d.subagents, id, status)))
  {
    SameIdsKeepValid(d, d.(closedByBackstop := d.closedByBackstop - {id}, subagents := WithStatus(d.subagents, id, status)));
  }

  lemma {:induction false} ActivityKeepsValid(d: Desk, id: Id, what: Option<Label>)
    requires ListValid(d)
    ensures ListValid(d.(subagents := WithActivity(d.subagents, id, what)))
  {
    SameIdsKeepValid(d, d.(subagents := WithActivity(d.subagents, id, what)));
  }

  lemma {:induction false} ProgressedKeepsValid(d: Desk, sys: SystemLine, id: Id)
    requires ListValid(d)
    ensures ListValid(Progressed(d, sys, id))
  {
    if id in d.closedByBackstop {
      StatusKeepsValid(d, id, Running);
      ActivityKeepsValid(
        d.(closedByBackstop := d.closedByBackstop - {id}, subagents := WithStatus(d.subagents, id, Running)), id, sys.activity);
    } else {
      assert d.closedByBackstop - {id} == d.closedByBackstop;
      ActivityKeepsValid(d, id, sys.activity);
    }
  }

  lemma {:induction false} UnlistedKeepValid(d: Desk, tasks: seq<Id>)
    requires ListValid(d)
    ensures ListValid(d.(subagents := WithoutUnlisted(d.subagents, tasks, d.backgroundTasks)))
  {
    SameIdsKeepValid(d, d.(subagents := WithoutUnlisted(d.subagents, tasks, d.backgroundTasks)));
  }

  lemma {:induction false} FoldedKeepsValid(d: Desk, sys: SystemLine)
    requires ListValid(d)
    ensures ListValid(Folded(d, sys)) && |Folded(d, sys).subagents| <= |d.subagents| + 1
  {
    if sys.subtype.BackgroundTasksChanged? && sys.tasks.Some? {
      UnlistedKeepValid(d, sys.tasks.value);
    } else if sys.taskId.Some? {
      var id := sys.taskId.value;
      match sys.subtype
      case TaskStarted => StartedKeepsValid(d, sys, id);
      case TaskProgress => ProgressedKeepsValid(d, sys, id);
      case TaskUpdated =>
        if sys.patchedStatus.Some? {
          StatusKeepsValid(d, id, if IsTerminal(sys.patchedStatus.value) then sys.patchedStatus.value else Running);
        }
      case TaskNotification =>
        StatusKeepsValid(d, id, if sys.status.Some? then sys.status.value else Completed);
      case _ =>
    }
  }

  lemma {:induction false} TrimmedKeepsValid(d: Desk)
    requires ListValid(d) && |d.subagents| <= MAX_SUBAGENTS + 1
    ensures ListValid(Trimmed(d)) && |Trimmed(d).subagents| <= MAX_SUBAGENTS
  {
    if |d.subagents| > MAX_SUBAGENTS {
      DroppedKeepsValid(d, Trimmed(d), DropAt(d.subagents));
    }
  }

  /** A subagent dropped with all its marks. */
  lemma {:induction false} DroppedKeepsValid(d: Desk, d': Desk, at: nat)
    requires ListValid(d) && at < |d.subagents|
    requires d'.subagents == d.subagents[..at] + d.subagents[at + 1..]
    requires var gone := {d.subagents[at].taskId};
             && d'.backgrounded == d.backgrounded - gone && d'.synchronous == d.synchronous - gone
             && d'.topLevelSynchronous == d.topLevelSynchronous - gone
             && d'.closedByBackstop == d.closedByBackstop - gone
    ensures ListValid(d')
  {
    assert forall i :: 0 <= i < |d'.subagents| ==> d'.subagents[i] == d.subagents[if i < at then i else i + 1];
    DroppedIds(d.subagents, at);
  }

  lemma {:induction false} DroppedIds(subagents: seq<Subagent>, at: nat)
    requires at < |subagents| && DistinctIds(subagents)
    ensures Ids(subagents[..at] + subagents[at + 1..]) == Ids(subagents) - {subagents[at].taskId}
  {
    var rest := subagents[..at] + subagents[at + 1..];
    assert forall i :: 0 <= i < |rest| ==> rest[i] == subagents[if i < at then i else i + 1];
    forall i | 0 <= i < |subagents| && i != at
      ensures subagents[i].taskId in Ids(rest)
    {
      assert rest[if i < at then i else i - 1] == subagents[i];
    }
  }

  lemma {:induction false} ReturnedKeepsValid(d: Desk, r: ToolResult)
    requires ListValid(d)
    ensures ListValid(Returned(d, r)) && |Returned(d, r).subagents| == |d.subagents|
  {
    SameIdsKeepValid(d, Returned(d, r));
  }

  lemma {:induction false} AllReturnedKeepsValid(d: Desk, results: seq<ToolResult>)
    requires ListValid(d)
    ensures ListValid(AllReturned(d, results)) && |AllReturned(d, results).subagents| == |d.subagents|
    ensures SameTurn(d, AllReturned(d, results))
  {
    if results != [] {
      AllReturnedKeepsValid(d, results[..|results| - 1]);
      ReturnedKeepsValid(AllReturned(d, results[..|results| - 1]), results[|results| - 1]);
    }
  }

  lemma {:induction false} ToolUsedKeepsValid(d: Desk, parent: Id, what: Label)
    requires ListValid(d)
    ensures ListValid(ToolUsed(d, parent, what)) && |ToolUsed(d, parent, what).subagents| == |d.subagents|
  {
    SameIdsKeepValid(d, ToolUsed(d, parent, what));
  }

  lemma {:induction false} AllToolsUsedKeepsValid(d: Desk, parent: Option<Id>, tools: seq<Label>)
    requires ListValid(d)
    ensures ListValid(AllToolsUsed(d, parent, tools)) && |AllToolsUsed(d, parent, tools).subagents| == |d.subagents|
    ensures SameTurn(d, AllToolsUsed(d, parent, tools))
  {
    if tools != [] && parent.Some? {
      AllToolsUsedKeepsValid(d, parent, tools[..|tools| - 1]);
      ToolUsedKeepsValid(AllToolsUsed(d, parent, tools[..|tools| - 1]), parent.value, tools[|tools| - 1]);
    }
  }

  lemma {:induction false} TurnEndKeepsValid(d: Desk)
    requires ListValid(d)
    ensures ListValid(ClosedAtTurnEnd(d)) && |ClosedAtTurnEnd(d).subagents| == |d.subagents|
  {
    var d' := ClosedAtTurnEnd(d);
    assert SameIds(d, d');
    assert Ids(d'.subagents) == Ids(d.subagents);
    forall i | 0 <= i < |d.subagents| && d'.subagents[i].taskId in d'.closedByBackstop
      ensures d'.subagents[i].state.Completed?
    {
      if d.subagents[i].taskId !in d.closedByBackstop {
        var k :| 0 <= k < |d.subagents| && BoundToTurn(d, d.subagents[k]) && d.subagents[k].taskId == d.subagents[i].taskId;
        assert k == i;
      }
    }
  }

  /** Every line keeps the invariant: ids distinct, at most 32 listed, side sets
      about listed subagents only, backstop marks only on top-level synchronous
      subagents shown as completed, and a turn end held back only for something. */
  lemma {:induction false} LineKeepsValid(d: Desk, line: Line)
    requires DeskValid(d)
    ensures DeskValid(After(d, line))
  {
    match line
    case System(sys) =>
      FoldedKeepsValid(d, sys);
      TrimmedKeepsValid(Folded(d, sys));
      TrackedKeepsTurn(d, sys);
    case Assistant(parent, tools) =>
      AllToolsUsedKeepsValid(if parent.None? then d.(turnOpen := true) else d, parent, tools);
    case User(results) =>
      AllReturnedKeepsValid(d, results);
    case Result(_) =>
      TurnEndKeepsValid(d.(turnOpen := false));
    case _ =>
  }

  lemma {:induction false} RunIsValid(lines: seq<Line>)
    ensures DeskValid(StateAfter(lines))
  {
    if lines != [] {
      RunIsValid(lines[..|lines| - 1]);
      LineKeepsValid(StateAfter(lines[..|lines| - 1]), lines[|lines| - 1]);
    }
  }

  // ---------------------------------------------------------------------
  // Real ends and guessed ones
  // ---------------------------------------------------------------------

  /** Task `id` is not listed, or ended for real: it is not running, and its end
      is not the backstop's guess. */
  predicate AtRest(d: Desk, id: Id) {
    && id !in d.closedByBackstop
    && forall i :: 0 <= i < |d.subagents| && d.subagents[i].taskId == id ==> !d.subagents[i].state.Running?
  }

  /** The only lines that may bring a task back: its start, or a notification
      that says in so many words that it is running. */
  predicate Revives(line: Line, id: Id) {
    && line.System?
    && line.sys.taskId == Some(id)
    && ((line.sys.subtype.TaskStarted? && line.sys.isSubagent)
        || (line.sys.subtype.TaskNotification? && line.sys.status == Some(Running)))
  }

  lemma {:induction false} FoldedLeavesAtRest(d: Desk, sys: SystemLine, id: Id)
    requires AtRest(d, id) && !Revives(System(sys), id)
    ensures AtRest(Folded(d, sys), id)
  {
  }

  lemma {:induction false} TrimmedLeavesAtRest(d: Desk, id: Id)
    requires AtRest(d, id)
    ensures AtRest(Trimmed(d), id)
  {
  }

  lemma {:induction false} AllReturnedLeavesAtRest(d: Desk, results: seq<ToolResult>, id: Id)
    requires AtRest(d, id)
    ensures AtRest(AllReturned(d, results), id)
  {
    if results != [] {
      AllReturnedLeavesAtRest(d, results[..|results| - 1], id);
    }
  }

  lemma {:induction false} AllToolsUsedLeavesAtRest(d: Desk, parent: Option<Id>, tools: seq<Label>, id: Id)
    requires AtRest(d, id)
    ensures AtRest(AllToolsUsed(d, parent, tools), id)
  {
    if tools != [] && parent.Some? {
      AllToolsUsedLeavesAtRest(d, parent, tools[..|tools| - 1], id);
    }
  }

  lemma {:induction false} TurnEndLeavesAtRest(d: Desk, id: Id)
    requires AtRest(d, id)
    ensures AtRest(ClosedAtTurnEnd(d), id)
  {
  }

  /** A subagent that ended for real stays ended whatever is said, unless it is
      started again or said to be running. */
  lemma {:induction false} LineLeavesAtRest(d: Desk, line: Line, id: Id)
    requires AtRest(d, id) && !Revives(line, id)
    ensures AtRest(After(d, line), id)
  {
    match line
    case System(sys) =>
      FoldedLeavesAtRest(d, sys, id);
      TrimmedLeavesAtRest(Folded(d, sys), id);
    case Assistant(parent, tools) =>
      AllToolsUsedLeavesAtRest(if parent.None? then d.(turnOpen := true) else d, parent, tools, id);
    case User(results) =>
      AllReturnedLeavesAtRest(d, results, id);
    case Result(_) =>
      TurnEndLeavesAtRest(d.(turnOpen := false), id);
    case _ =>
  }

  /** Over a whole run: from the line after which `id` ended for real, it is not
      running again until one of the two lines that revive it. */
  lemma {:induction false} EndedStaysEnded(lines: seq<Line>, i: nat, id: Id)
    requires i <= |lines| && AtRest(StateAfter(lines[..i]), id)
    requires forall k :: i <= k < |lines| ==> !Revives(lines[k], id)
    ensures AtRest(StateAfter(lines), id)
  {
    if i == |lines| {
      assert lines[..i] == lines;
    } else {
      var front := lines[..|lines| - 1];
      assert front[..i] == lines[..i];
      EndedStaysEnded(front, i, id);
      LineLeavesAtRest(StateAfter(front), lines[|lines| - 1], id);
    }
  }

  /** Subagent `a` shows a sign of life in `line`. */
  predicate SignOfLife(line: Line, a: Subagent) {
    match line
    case System(sys) =>
      && sys.taskId == Some(a.taskId)
      && (sys.subtype.TaskProgress?
          || (sys.subtype.TaskUpdated? && sys.patchedStatus.Some? && !IsTerminal(sys.patchedStatus.value)))
    case Assistant(parent, tools) => parent.Some? && a.toolUseId == parent && tools != []
    case _ => false
  }

  /** A guess is undone by the first sign of life: the subagent is running
      again, in its place, and no longer marked. */
  lemma {:induction false} SignOfLifeUndoesGuess(d: Desk, line: Line, i: nat)
    requires DeskValid(d) && i < |d.subagents| && d.subagents[i].taskId in d.closedByBackstop
    requires SignOfLife(line, d.subagents[i])
    ensures var d', id := After(d, line), d.subagents[i].taskId;
            && id !in d'.closedByBackstop
            && i < |d'.subagents| && d'.subagents[i].taskId == id && d'.subagents[i].state.Running?
  {
    if line.Assistant? {
      ToolsUndoGuess(d, line.parent.value, line.tools, i);
    }
  }

  lemma {:induction false} ToolsUndoGuess(d: Desk, parent: Id, tools: seq<Label>, i: nat)
    requires ListValid(d) && i < |d.subagents| && StartedBy(d.subagents[i], parent)
    ensures var d', a := AllToolsUsed(d, Some(parent), tools), d.subagents[i];
            && i < |d'.subagents| && StartedBy(d'.subagents[i], parent) && d'.subagents[i].taskId == a.taskId
            && (tools == [] ==> d' == d)
            && (tools != [] ==> a.taskId !in d'.closedByBackstop)
            && (a.taskId in d.closedByBackstop && tools != [] ==> d'.subagents[i].state.Running?)
  {
    if tools != [] {
      ToolsUndoGuess(d, parent, tools[..|tools| - 1], i);
      AllToolsUsedKeepsValid(d, Some(parent), tools[..|tools| - 1]);
    }
  }

  /** After a `result` line nothing that could not outlive the turn still reads
      as running, and every new mark is on a subagent that did. */
  lemma {:induction false} TurnEndClosesWhatItMust(d: Desk, outOfTokens: bool)
    requires DeskValid(d)
    ensures var d' := After(d, Result(outOfTokens));
            && (forall i :: 0 <= i < |d'.subagents| && d'.subagents[i].state.Running? ==>
                  d'.subagents[i].taskId !in d'.topLevelSynchronous || d'.subagents[i].taskId in d'.backgroundTasks)
            && (forall id :: id in d'.closedByBackstop - d.closedByBackstop ==>
                  exists i :: 0 <= i < |d.subagents| && d.subagents[i].taskId == id && BoundToTurn(d, d.subagents[i]))
  {
  }

  // ---------------------------------------------------------------------
  // Turns
  // ---------------------------------------------------------------------

  /** Everything a run says about turns. */
  function TurnLog(lines: seq<Line>): seq<Action> {
    if lines == [] then []
    else TurnLog(lines[..|lines| - 1]) + TurnActions(StateAfter(lines[..|lines| - 1]), lines[|lines| - 1])
  }

  function Count(actions: seq<Action>, a: Action): nat {
    if actions == [] then 0
    else Count(actions[..|actions| - 1], a) + if actions[|actions| - 1] == a then 1 else 0
  }

  lemma {:induction false} CountJoined(x: seq<Action>, y: seq<Action>, a: Action)
    ensures Count(x + y, a) == Count(x, a) + Count(y, a)
  {
    if y == [] {
      assert x + y == x;
    } else {
      var n := |y| - 1;
      assert (x + y)[..|x + y| - 1] == x + y[..n];
      CountJoined(x, y[..n], a);
    }
  }

  lemma {:induction false} CountOne(x: Action, a: Action)
    ensures Count([], a) == 0
    ensures Count([x], a) == if x == a then 1 else 0
  {
  }

  /** How many `result` lines there were. */
  function Results(lines: seq<Line>): nat {
    if lines == [] then 0
    else Results(lines[..|lines| - 1]) + if lines[|lines| - 1].Result? then 1 else 0
  }

  /** How many of them came while the end of an earlier turn was held back. */
  function Absorbed(lines: seq<Line>): nat {
    if lines == [] then 0
    else
      var front, last := lines[..|lines| - 1], lines[|lines| - 1];
      Absorbed(front) + if last.Result? && StateAfter(front).deferredTurnEnd then 1 else 0
  }

  function One(b: bool): nat {
    if b then 1 else 0
  }

  /** What one line says of ends and limits, counted. */
  lemma {:induction false} LineCounts(d: Desk, line: Line)
    requires DeskValid(d)
    ensures var said := TurnActions(d, line);
            Count(said, TurnEnded) + Count(said, LimitReached) + One(After(d, line).deferredTurnEnd)
              + One(line.Result? && d.deferredTurnEnd)
            == One(line.Result?) + One(d.deferredTurnEnd)
  {
    var said := TurnActions(d, line);
    CountOne(TurnEnded, TurnEnded);
    CountOne(TurnEnded, LimitReached);
    CountOne(LimitReached, TurnEnded);
    CountOne(LimitReached, LimitReached);
    CountOne(TurnStarted, TurnEnded);
    CountOne(TurnStarted, LimitReached);
    match line
    case System(sys) =>
      TrackedKeepsTurn(d, sys);
      var first := if sys.subtype.Init? then [Initialized] else [];
      var last := if LiveAfter(d.backgroundTasks, sys) == {} && d.deferredTurnEnd then [TurnEnded] else [];
      assert said == first + last;
      CountJoined(first, last, TurnEnded);
      CountJoined(first, last, LimitReached);
      CountOne(Initialized, TurnEnded);
      CountOne(Initialized, LimitReached);
    case Assistant(parent, tools) =>
      AllToolsUsedKeepsValid(if parent.None? then d.(turnOpen := true) else d, parent, tools);
    case User(results) =>
      AllReturnedKeepsValid(d, results);
    case _ =>
  }

  /** Turn ends are conserved: every `result` line becomes one turn end or one
      limit, is being held back, or was folded into one held back already. */
  lemma {:induction false} TurnEndsAreConserved(lines: seq<Line>)
    ensures Count(TurnLog(lines), TurnEnded) + Count(TurnLog(lines), LimitReached)
            + One(StateAfter(lines).deferredTurnEnd) + Absorbed(lines) == Results(lines)
  {
    if lines != [] {
      var front, last := lines[..|lines| - 1], lines[|lines| - 1];
      TurnEndsAreConserved(front);
      RunIsValid(front);
      LineCounts(StateAfter(front), last);
      CountJoined(TurnLog(front), TurnActions(StateAfter(front), last), TurnEnded);
      CountJoined(TurnLog(front), TurnActions(StateAfter(front), last), LimitReached);
    }
  }

  /** The agent is only said to be at rest when nothing is left running in the
      background, nothing is held back and no turn is open. */
  lemma {:induction false} TurnEndsOnlyWhenNothingIsLive(lines: seq<Line>, i: nat)
    requires i < |lines| && TurnEnded in TurnActions(StateAfter(lines[..i]), lines[i])
    ensures var d := StateAfter(lines[..i + 1]);
            d.backgroundTasks == {} && !d.deferredTurnEnd && !d.turnOpen
  {
    assert lines[..i + 1][..i] == lines[..i];
    RunIsValid(lines[..i]);
    if lines[i].System? {
      TrackedKeepsTurn(StateAfter(lines[..i]), lines[i].sys);
    }
  }

  /** A turn end held back is let go by one line only, which says so: the end
      itself, or that the account ran out. */
  lemma {:induction false} HeldTurnIsNeverLost(d: Desk, line: Line)
    requires DeskValid(d) && d.deferredTurnEnd && !After(d, line).deferredTurnEnd
    ensures TurnEnded in TurnActions(d, line) || LimitReached in TurnActions(d, line)
  {
    LineCounts(d, line);
    NoneCounted(TurnActions(d, line), TurnEnded);
    NoneCounted(TurnActions(d, line), LimitReached);
  }

  lemma {:induction false} NoneCounted(actions: seq<Action>, a: Action)
    ensures a in actions <==> Count(actions, a) > 0
  {
    if actions != [] {
      NoneCounted(actions[..|actions| - 1], a);
      assert actions == actions[..|actions| - 1] + [actions[|actions| - 1]];
    }
  }

  /** Does the line close whatever turn is open? */
  predicate Closes(d: Desk, line: Line) {
    line.Result? || TurnEnded in TurnActions(d, line)
  }

  lemma {:induction false} OpenStaysOpen(d: Desk, line: Line)
    requires d.turnOpen && !Closes(d, line)
    ensures After(d, line).turnOpen
  {
    match line
    case System(sys) =>
      TrackedKeepsTurn(d, sys);
    case Assistant(parent, tools) =>
      ToolsKeepTurn(d, parent, tools);
    case User(results) =>
      ResultsKeepTurn(d, results);
    case _ =>
  }

  lemma {:induction false} ToolsKeepTurn(d: Desk, parent: Option<Id>, tools: seq<Label>)
    ensures SameTurn(d, AllToolsUsed(d, parent, tools))
  {
    if tools != [] && parent.Some? {
      ToolsKeepTurn(d, parent, tools[..|tools| - 1]);
    }
  }

  lemma {:induction false} ResultsKeepTurn(d: Desk, results: seq<ToolResult>)
    ensures SameTurn(d, AllReturned(d, results))
  {
    if results != [] {
      ResultsKeepTurn(d, results[..|results| - 1]);
    }
  }

  /** Line `k` of the run announces a turn. */
  predicate StartsAt(lines: seq<Line>, k: nat) {
    k < |lines| && TurnStarted in TurnActions(StateAfter(lines[..k]), lines[k])
  }

  predicate ClosesAt(lines: seq<Line>, k: nat) {
    k < |lines| && Closes(StateAfter(lines[..k]), lines[k])
  }

  lemma {:induction false} OneMoreLine(lines: seq<Line>, k: nat)
    requires k < |lines|
    ensures StateAfter(lines[..k + 1]) == After(StateAfter(lines[..k]), lines[k])
  {
    assert lines[..k + 1][..k] == lines[..k];
  }

  lemma {:induction false} StartLeavesOpen(lines: seq<Line>, k: nat)
    requires StartsAt(lines, k)
    ensures StateAfter(lines[..k + 1]).turnOpen
  {
  }

  lemma {:induction false} OneMoreLeavesOpen(lines: seq<Line>, k: nat)
    requires k < |lines| && StateAfter(lines[..k]).turnOpen && !ClosesAt(lines, k)
    ensures StateAfter(lines[..k + 1]).turnOpen
  {
    OneMoreLine(lines, k);
    OpenStaysOpen(StateAfter(lines[..k]), lines[k]);
  }

  predicate OpenAfter(lines: seq<Line>, j: nat) {
    j <= |lines| && StateAfter(lines[..j]).turnOpen
  }

  lemma {:induction false} StartedIsOpen(lines: seq<Line>, i: nat, j: nat)
    requires i < j <= |lines| && StartsAt(lines, i)
    requires forall k :: i < k < j ==> !ClosesAt(lines, k)
    ensures OpenAfter(lines, j)
  {
    if j == i + 1 {
      StartLeavesOpen(lines, i);
    } else {
      StartedIsOpen(lines, i, j - 1);
      OneMoreLeavesOpen(lines, j - 1);
    }
  }

  lemma {:induction false} StartsOnlyWhenClosed(lines: seq<Line>, k: nat)
    requires StartsAt(lines, k)
    ensures !OpenAfter(lines, k)
  {
  }

  /** A turn is announced once: between two announcements some line closed the first. */
  lemma {:induction false} TurnsAreAnnouncedOnce(lines: seq<Line>, i: nat, j: nat)
    requires i < j && StartsAt(lines, i) && StartsAt(lines, j)
    ensures exists k :: i < k < j && ClosesAt(lines, k)
  {
    if forall k :: i < k < j ==> !ClosesAt(lines, k) {
      StartedIsOpen(lines, i, j);
      StartsOnlyWhenClosed(lines, j);
    }
  }

  // ---------------------------------------------------------------------
  // What a page shows
  // ---------------------------------------------------------------------

  /** `outs[i]` is what line `i` of the run made the dispatcher say. */
  ghost predicate Said(lines: seq<Line>, outs: seq<seq<Action>>) {
    |outs| == |lines| && forall i :: 0 <= i < |lines| ==> Speaks(StateAfter(lines[..i]), lines[i], outs[i])
  }

  function ShownAfter(outs: seq<seq<Action>>): seq<Subagent> {
    if outs == [] then [] else Shown(ShownAfter(outs[..|outs| - 1]), outs[|outs| - 1])
  }

  /** A page that only ever takes the lists it is sent shows the list there is. */
  lemma {:induction false} ShownListIsTheList(lines: seq<Line>, outs: seq<seq<Action>>)
    requires Said(lines, outs)
    ensures ShownAfter(outs) == StateAfter(lines).subagents
  {
    if lines != [] {
      var n := |lines| - 1;
      forall i | 0 <= i < n
        ensures Speaks(StateAfter(lines[..n][..i]), lines[..n][i], outs[..n][i])
      {
        assert lines[..n][..i] == lines[..i];
      }
      ShownListIsTheList(lines[..n], outs[..n]);
      assert Speaks(StateAfter(lines[..n]), lines[n], outs[n]);
    }
  }
}
