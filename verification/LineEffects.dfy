/** What each kind of line does to the list of subagents and to the turn, row by
    row and mark by mark.
  */
module LineEffects {
  import opened Options
  import opened DispatchSpec
  import opened DispatchRuns

  /** `now` is row `was` in state `state`. */
  predicate OnlyState(now: Subagent, was: Subagent, state: TaskStatus) {
    && now.taskId == was.taskId && now.about == was.about && now.activity == was.activity && now.toolUseId == was.toolUseId
    && now.state == state
  }

  predicate SameTurnAs(d': Desk, d: Desk) {
    d'.deferredTurnEnd == d.deferredTurnEnd && d'.turnOpen == d.turnOpen && d'.backgroundTasks == d.backgroundTasks
  }

  /** The list has the same length, and every side set but the marks is as it was. */
  predicate SameSidesAs(d': Desk, d: Desk) {
    && |d'.subagents| == |d.subagents|
    && d'.backgrounded == d.backgrounded && d'.synchronous == d.synchronous
    && d'.topLevelSynchronous == d.topLevelSynchronous
  }

  /** Task `id` is listed as started by call `c`. */
  predicate CalledBy(d: Desk, c: Id, id: Id) {
    exists i :: 0 <= i < |d.subagents| && d.subagents[i].toolUseId == Some(c) && d.subagents[i].taskId == id
  }

  lemma {:induction false} CalledIds(d: Desk, c: Id)
    ensures forall id :: id in IdsStartedBy(d.subagents, c) <==> CalledBy(d, c, id)
  {
  }

  // ---------------------------------------------------------------------
  // Calls that return, and tools that run
  // ---------------------------------------------------------------------

  /** The end a returning call gives: a subagent it started in the foreground, that
      still runs or was only taken to have ended, is completed or, if the result is
      an error, failed; no other row changes, and the mark goes either way. */
  lemma {:induction false} ResultMeans(d: Desk, c: Id, isError: bool)
    ensures var d' := After(d, User([ToolResult(c, isError)]));
            && SameSidesAs(d', d) && SameTurnAs(d', d)
            && (forall id :: id in d'.closedByBackstop <==> id in d.closedByBackstop && !CalledBy(d, c, id))
            && forall i :: 0 <= i < |d.subagents| ==>
                 var was, now := d.subagents[i], d'.subagents[i];
                 if was.toolUseId == Some(c) && (was.state == Running || was.taskId in d.closedByBackstop)
                    && was.taskId in d.synchronous && was.taskId !in d.backgrounded && was.taskId !in d.backgroundTasks
                 then OnlyState(now, was, if isError then Failed else Completed)
                 else now == was
  {
    var results := [ToolResult(c, isError)];
    assert results[..0] == [];
    assert AllReturned(d, results) == Returned(d, results[0]);
    CalledIds(d, c);
  }

  /** Several results are taken one after the other. */
  lemma {:induction false} ResultsInTurn(d: Desk, results: seq<ToolResult>, r: ToolResult)
    ensures After(d, User([])) == d
    ensures After(d, User(results + [r])) == After(After(d, User(results)), User([r]))
  {
    assert (results + [r])[..|results|] == results;
    assert [r][..0] == [];
    var before := AllReturned(d, results);
    assert AllReturned(before, [r]) == Returned(before, r);
  }

  /** A tool run by a subagent: it is what the subagent does now, and a subagent
      only taken to have ended is running again. */
  lemma {:induction false} ToolMeans(d: Desk, c: Id, tool: Label)
    ensures var d' := After(d, Assistant(Some(c), [tool]));
            && SameSidesAs(d', d) && SameTurnAs(d', d)
            && (forall id :: id in d'.closedByBackstop <==> id in d.closedByBackstop && !CalledBy(d, c, id))
            && forall i :: 0 <= i < |d.subagents| ==>
                 var was, now := d.subagents[i], d'.subagents[i];
                 if was.toolUseId == Some(c)
                 then && now.taskId == was.taskId && now.about == was.about && now.toolUseId == was.toolUseId
                      && now.activity == Some(tool)
                      && now.state == (if was.taskId in d.closedByBackstop then Running else was.state)
                 else now == was
  {
    var tools := [tool];
    assert tools[..0] == [];
    assert AllToolsUsed(d, Some(c), tools) == ToolUsed(d, c, tool);
    CalledIds(d, c);
  }

  /** Several tools are taken one after the other; the agent's own leave the list
      alone and open a turn. */
  lemma {:induction false} ToolsInTurn(d: Desk, c: Id, tools: seq<Label>, tool: Label)
    ensures After(d, Assistant(Some(c), [])) == d
    ensures After(d, Assistant(Some(c), tools + [tool])) == After(After(d, Assistant(Some(c), tools)), Assistant(Some(c), [tool]))
    ensures After(d, Assistant(None, tools)) == d.(turnOpen := true)
  {
    assert (tools + [tool])[..|tools|] == tools;
    assert [tool][..0] == [];
    var before := AllToolsUsed(d, Some(c), tools);
    assert AllToolsUsed(before, Some(c), [tool]) == ToolUsed(before, c, tool);
  }

  // ---------------------------------------------------------------------
  // Task lines
  // ---------------------------------------------------------------------

  /** Row by row, a task line that puts task `id` in `state` and changes nothing else. */
  predicate PutIn(d: Desk, d': Desk, id: Id, state: TaskStatus) {
    && |d'.subagents| == |d.subagents|
    && forall i :: 0 <= i < |d.subagents| ==>
         if d.subagents[i].taskId == id then OnlyState(d'.subagents[i], d.subagents[i], state)
         else d'.subagents[i] == d.subagents[i]
  }

  /** A notification ends a task as it says, and as completed if it does not say. */
  lemma {:induction false} NotificationMeans(d: Desk, sys: SystemLine, id: Id)
    requires DeskValid(d) && sys.subtype == TaskNotification && sys.taskId == Some(id)
    ensures var d' := After(d, System(sys));
            && PutIn(d, d', id, if sys.status.Some? then sys.status.value else Completed)
            && SameSidesAs(d', d) && d'.closedByBackstop == d.closedByBackstop - {id}
            && d'.backgroundTasks == d.backgroundTasks - {id}
  {
  }

  /** An update to a status that is none of the four of a task under way ends it so;
      any other is only a sign of life. */
  lemma {:induction false} UpdateMeans(d: Desk, sys: SystemLine, id: Id, status: TaskStatus)
    requires DeskValid(d) && sys.subtype == TaskUpdated && sys.taskId == Some(id) && sys.patchedStatus == Some(status)
    ensures var d', ended := After(d, System(sys)), status !in {Running, Pending, Queued, InProgress};
            && SameSidesAs(d', d) && d'.closedByBackstop == d.closedByBackstop - {id}
            && d'.backgroundTasks == (if ended then d.backgroundTasks - {id} else d.backgroundTasks)
            && (ended ==> PutIn(d, d', id, status))
            && (!ended && id in d.closedByBackstop ==> PutIn(d, d', id, Running))
            && (!ended && id !in d.closedByBackstop ==> d'.subagents == d.subagents)
  {
  }

  /** Progress: what the task does now, if the line says, and a sign of life. */
  lemma {:induction false} ProgressMeans(d: Desk, sys: SystemLine, id: Id)
    requires DeskValid(d) && sys.subtype == TaskProgress && sys.taskId == Some(id)
    ensures var d' := After(d, System(sys));
            && SameSidesAs(d', d) && d'.closedByBackstop == d.closedByBackstop - {id}
            && d'.backgroundTasks == d.backgroundTasks
            && forall i :: 0 <= i < |d.subagents| ==>
                 var was, now := d.subagents[i], d'.subagents[i];
                 if was.taskId == id
                 then && now.taskId == id && now.about == was.about && now.toolUseId == was.toolUseId
                      && now.activity == (if sys.activity.Some? then sys.activity else was.activity)
                      && now.state == (if id in d.closedByBackstop then Running else was.state)
                 else now == was
  {
  }

  /** The list of live tasks is the authority on them: a backgrounded subagent that
      ran and is not on it has completed. */
  lemma {:induction false} LiveListMeans(d: Desk, sys: SystemLine, tasks: seq<Id>)
    requires DeskValid(d) && sys.subtype == BackgroundTasksChanged && sys.tasks == Some(tasks)
    ensures var d' := After(d, System(sys));
            && SameSidesAs(d', d) && d'.closedByBackstop == d.closedByBackstop
            && (forall id :: id in d'.backgroundTasks <==> id in tasks)
            && forall i :: 0 <= i < |d.subagents| ==>
                 var was, now := d.subagents[i], d'.subagents[i];
                 if was.taskId !in tasks && was.state == Running && was.taskId in d.backgroundTasks
                 then OnlyState(now, was, Completed)
                 else now == was
  {
  }

  /** Side sets once task `id` has started as `sys` says, and the tasks in `gone`
      have left the list. */
  predicate StartSides(d: Desk, d': Desk, sys: SystemLine, id: Id, gone: set<Id>) {
    && d'.backgrounded == (if sys.isBackgrounded == Some(true) then d.backgrounded + {id} else d.backgrounded) - gone
    && d'.synchronous == (if sys.isBackgrounded == Some(false) then d.synchronous + {id} else d.synchronous) - gone
    && d'.topLevelSynchronous ==
         (if sys.isBackgrounded == Some(false) && (sys.spawnDepth == None || sys.spawnDepth == Some(0) || sys.spawnDepth == Some(1))
          then d.topLevelSynchronous + {id} else d.topLevelSynchronous) - gone
    && d'.closedByBackstop == d.closedByBackstop - {id} - gone
  }

  /** A start of a listed subagent puts it in its place back to running; one of an
      unlisted subagent, with room on the list, adds its row at the end. */
  lemma {:induction false} StartMeans(d: Desk, sys: SystemLine, id: Id)
    requires DeskValid(d) && sys.subtype == TaskStarted && sys.taskId == Some(id) && sys.isSubagent
    requires (exists i :: 0 <= i < |d.subagents| && d.subagents[i].taskId == id) || |d.subagents| < 32
    ensures var d' := After(d, System(sys));
            && StartSides(d, d', sys, id, {})
            && d'.backgroundTasks == (if sys.isBackgrounded == Some(true) then d.backgroundTasks + {id} else d.backgroundTasks)
            && if exists i :: 0 <= i < |d.subagents| && d.subagents[i].taskId == id
               then PutIn(d, d', id, Running)
               else d'.subagents == d.subagents + [Subagent(id, sys.about, None, Running, sys.toolUseId)]
  {
  }

  /** What makes room on a full list: the first row, counting the new one last, that
      is not running; the very first if all are. It goes with all its marks. */
  lemma {:induction false} StartOnFullList(d: Desk, sys: SystemLine, id: Id) returns (at: nat)
    requires DeskValid(d) && sys.subtype == TaskStarted && sys.taskId == Some(id) && sys.isSubagent
    requires |d.subagents| == 32 && forall i :: 0 <= i < 32 ==> d.subagents[i].taskId != id
    ensures at < 32 && forall k :: 0 <= k < at ==> d.subagents[k].state == Running
    ensures d.subagents[at].state != Running || (at == 0 && forall k :: 0 <= k < 32 ==> d.subagents[k].state == Running)
    ensures var d' := After(d, System(sys));
            && d'.subagents == d.subagents[..at] + d.subagents[at + 1..] + [Subagent(id, sys.about, None, Running, sys.toolUseId)]
            && StartSides(d, d', sys, id, {d.subagents[at].taskId})
  {
    var longer := Started(d, sys, id);
    var added := Subagent(id, sys.about, None, Running, sys.toolUseId);
    assert longer.subagents == d.subagents + [added];
    at := RoomMadeAt(d.subagents, added);
    assert longer.subagents[at] == d.subagents[at];
    assert longer.subagents[..at] + longer.subagents[at + 1..] == d.subagents[..at] + d.subagents[at + 1..] + [added];
    assert Tracked(d, sys) == Trimmed(longer);
  }

  lemma {:induction false} RoomMadeAt(subagents: seq<Subagent>, added: Subagent) returns (at: nat)
    requires |subagents| == 32 && added.state == Running
    ensures at == DropAt(subagents + [added]) < 32
    ensures forall k :: 0 <= k < at ==> subagents[k].state == Running
    ensures subagents[at].state != Running || (at == 0 && forall k :: 0 <= k < 32 ==> subagents[k].state == Running)
  {
    var all := subagents + [added];
    var first := FirstEnded(all);
    assert all[32] == added;
    assert forall k :: 0 <= k < 32 ==> all[k] == subagents[k];
    at := DropAt(all);
  }

  /** No other line about a task, and no other system line, touches the list; and
      nothing but these lines touches the live set. */
  lemma {:induction false} OtherLinesLeaveList(d: Desk, sys: SystemLine)
    requires DeskValid(d)
    requires match sys.subtype
             case TaskStarted => sys.taskId == None || !sys.isSubagent
             case TaskProgress => sys.taskId == None
             case TaskUpdated => sys.taskId == None || sys.patchedStatus == None
             case TaskNotification => sys.taskId == None
             case BackgroundTasksChanged => sys.tasks == None
             case _ => true
    ensures var d' := After(d, System(sys));
            && d'.subagents == d.subagents && SameSidesAs(d', d) && d'.closedByBackstop == d.closedByBackstop
            && d'.backgroundTasks ==
                 (if sys.subtype.TaskStarted? && sys.isBackgrounded == Some(true) && sys.taskId.Some?
                  then d.backgroundTasks + {sys.taskId.value} else d.backgroundTasks)
    ensures After(d, ApiError) == d && After(d, Other) == d
  {
  }

  // ---------------------------------------------------------------------
  // The turn
  // ---------------------------------------------------------------------

  /** What a `result` line closes, and what it leaves held back. */
  lemma {:induction false} TurnEndMeans(d: Desk, outOfTokens: bool)
    requires DeskValid(d)
    ensures var d' := After(d, Result(outOfTokens));
            && SameSidesAs(d', d) && d'.backgroundTasks == d.backgroundTasks && !d'.turnOpen
            && (d'.deferredTurnEnd <==> !outOfTokens && d.backgroundTasks != {})
            && (forall i :: 0 <= i < |d.subagents| ==>
                  var was, now := d.subagents[i], d'.subagents[i];
                  if was.state == Running && was.taskId in d.topLevelSynchronous && was.taskId !in d.backgroundTasks
                  then OnlyState(now, was, Completed) && was.taskId in d'.closedByBackstop
                  else now == was)
            && d.closedByBackstop <= d'.closedByBackstop
  {
  }

  /** What each line says of the turn. */
  lemma {:induction false} LinesSay(d: Desk, sys: SystemLine, parent: Option<Id>, tools: seq<Label>, results: seq<ToolResult>)
    requires DeskValid(d)
    ensures TurnActions(d, Result(true)) == [LimitReached]
    ensures TurnActions(d, Result(false)) == if d.backgroundTasks == {} then [TurnEnded] else []
    ensures TurnActions(d, Assistant(parent, tools)) == if parent == None && !d.turnOpen then [TurnStarted] else []
    ensures TurnActions(d, User(results)) == TurnActions(d, ApiError) == TurnActions(d, Other) == []
    ensures var said, d' := TurnActions(d, System(sys)), After(d, System(sys));
            && (Initialized in said <==> sys.subtype == Init)
            && (TurnEnded in said <==> d.deferredTurnEnd && d'.backgroundTasks == {})
            && (d'.deferredTurnEnd <==> d.deferredTurnEnd && d'.backgroundTasks != {})
            && (d'.turnOpen <==> d.turnOpen && TurnEnded !in said)
            && TurnStarted !in said && LimitReached !in said && |said| <= 2
  {
    TrackedKeepsTurn(d, sys);
  }
}
