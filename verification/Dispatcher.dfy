/** The interpreter of CLI lines, updating its state in place. */
module Dispatching {
  import opened Options
  import opened DispatchSpec

  /** Ids of the first `i + 1` are those of the first `i` and the next one. */
  lemma {:induction false} IdsExtended(subagents: seq<Subagent>, toolUseId: Id, i: nat)
    requires i < |subagents|
    ensures IdsStartedBy(subagents[..i + 1], toolUseId) ==
              IdsStartedBy(subagents[..i], toolUseId)
              + if StartedBy(subagents[i], toolUseId) then {subagents[i].taskId} else {}
  {
  }

  lemma {:induction false} BoundIdsExtended(d: Desk, subagents: seq<Subagent>, i: nat)
    requires i < |subagents|
    ensures IdsBoundToTurn(d, subagents[..i + 1]) ==
              IdsBoundToTurn(d, subagents[..i]) + if BoundToTurn(d, subagents[i]) then {subagents[i].taskId} else {}
  {
  }

  class Dispatcher {
    var subagents: seq<Subagent>
    var backgrounded: set<Id>
    var synchronous: set<Id>
    var topLevelSynchronous: set<Id>
    var closedByBackstop: set<Id>
    var backgroundTasks: set<Id>
    var deferredTurnEnd: bool
    var turnOpen: bool

    function State(): Desk
      reads this
    {
      Desk(subagents, backgrounded, synchronous, topLevelSynchronous, closedByBackstop, backgroundTasks,
           deferredTurnEnd, turnOpen)
    }

    ghost predicate Valid()
      reads this
    {
      DeskValid(State())
    }

    constructor ()
      ensures Valid() && State() == START
    {
      subagents, backgrounded, synchronous, topLevelSynchronous := [], {}, {}, {};
      closedByBackstop, backgroundTasks, deferredTurnEnd, turnOpen := {}, {}, false, false;
    }

    /** Set the status of task `id`, wherever it is listed. */
    method SetStatus(id: Id, status: TaskStatus) returns (known: bool)
      modifies this`subagents
      ensures subagents == WithStatus(old(subagents), id, status)
      ensures known == Listed(old(subagents), id)
    {
      known := false;
      for i := 0 to |subagents|
        invariant |subagents| == |old(subagents)|
        invariant forall k :: 0 <= k < i ==> subagents[k] == Put(old(subagents)[k], id, status)
        invariant forall k :: i <= k < |subagents| ==> subagents[k] == old(subagents)[k]
        invariant known <==> exists k :: 0 <= k < i && old(subagents)[k].taskId == id
      {
        if subagents[i].taskId == id {
          subagents := subagents[i := subagents[i].In(status)];
          known := true;
        }
      }
    }

    method SetActivity(id: Id, activity: Option<Label>)
      modifies this`subagents
      ensures subagents == WithActivity(old(subagents), id, activity)
    {
      for i := 0 to |subagents|
        invariant |subagents| == |old(subagents)|
        invariant forall k :: 0 <= k < i ==> subagents[k] == Said1(old(subagents)[k], id, activity)
        invariant forall k :: i <= k < |subagents| ==> subagents[k] == old(subagents)[k]
      {
        if subagents[i].taskId == id && activity.Some? {
          subagents := subagents[i := subagents[i].Doing(activity.value)];
        }
      }
    }

    method CompleteUnlisted(tasks: seq<Id>)
      modifies this`subagents
      ensures subagents == WithoutUnlisted(old(subagents), tasks, backgroundTasks)
    {
      for i := 0 to |subagents|
        invariant |subagents| == |old(subagents)|
        invariant forall k :: 0 <= k < i ==> subagents[k] == Unlisted(old(subagents)[k], tasks, backgroundTasks)
        invariant forall k :: i <= k < |subagents| ==> subagents[k] == old(subagents)[k]
      {
        var listed := subagents[i].taskId in tasks;
        if !listed && subagents[i].state.Running? && subagents[i].taskId in backgroundTasks {
          subagents := subagents[i := subagents[i].In(Completed)];
        }
      }
    }

    /** A subagent has started. */
    method Start(sys: SystemLine, id: Id)
      modifies this
      ensures State() == Started(old(State()), sys, id)
    {
      if sys.isBackgrounded == Some(true) {
        backgrounded := backgrounded + {id};
      }
      var topLevel := sys.spawnDepth.None? || sys.spawnDepth.value <= 1;
      if sys.isBackgrounded == Some(false) {
        synchronous := synchronous + {id};
      }
      if sys.isBackgrounded == Some(false) && topLevel {
        topLevelSynchronous := topLevelSynchronous + {id};
      }
      closedByBackstop := closedByBackstop - {id};
      var known := SetStatus(id, Running);
      if !known {
        assert forall i :: 0 <= i < |subagents| ==> subagents[i] == old(subagents)[i];
        assert subagents == old(subagents);
        subagents := subagents + [Subagent(id, sys.about, None, Running, sys.toolUseId)];
      }
    }

    /** Drop the oldest finished subagent once there are too many. */
    method Trim()
      modifies this
      ensures State() == Trimmed(old(State()))
    {
      if |subagents| > MAX_SUBAGENTS {
        var at := 0;
        while at < |subagents| && subagents[at].state.Running?
          invariant 0 <= at <= FirstEnded(subagents)
        {
          at := at + 1;
        }
        if at == |subagents| {
          at := 0;
        }
        var dropped := subagents[at].taskId;
        subagents := subagents[..at] + subagents[at + 1..];
        backgrounded := backgrounded - {dropped};
        topLevelSynchronous := topLevelSynchronous - {dropped};
        synchronous := synchronous - {dropped};
        closedByBackstop := closedByBackstop - {dropped};
      }
    }

    /** Fold one task line into the list; did the list change? */
    method TrackSubagent(sys: SystemLine) returns (changed: bool)
      requires Valid()
      modifies this
      ensures State() == Tracked(old(State()), sys)
      ensures changed == (subagents != old(subagents))
    {
      var before := subagents;
      match sys.subtype {
        case TaskStarted =>
          if sys.taskId.None? || !sys.isSubagent {
            return false;
          }
          Start(sys, sys.taskId.value);
        case TaskProgress =>
          if sys.taskId.None? {
            return false;
          }
          var id := sys.taskId.value;
          if id in closedByBackstop {
            closedByBackstop := closedByBackstop - {id};
            var _ := SetStatus(id, Running);
          }
          SetActivity(id, sys.activity);
          assert State() == Progressed(old(State()), sys, id);
        case TaskUpdated =>
          if sys.taskId.None? || sys.patchedStatus.None? {
            return false;
          }
          var id, status := sys.taskId.value, sys.patchedStatus.value;
          if IsTerminal(status) {
            closedByBackstop := closedByBackstop - {id};
            var _ := SetStatus(id, status);
          } else if id in closedByBackstop {
            closedByBackstop := closedByBackstop - {id};
            var _ := SetStatus(id, Running);
          }
        case TaskNotification =>
          if sys.taskId.None? {
            return false;
          }
          var id := sys.taskId.value;
          closedByBackstop := closedByBackstop - {id};
          var _ := SetStatus(id, if sys.status.Some? then sys.status.value else Completed);
        case BackgroundTasksChanged =>
          if sys.tasks.None? {
            return false;
          }
          CompleteUnlisted(sys.tasks.value);
        case _ =>
          return false;
      }
      assert State() == Folded(old(State()), sys);
      Trim();
      changed := subagents != before;
    }

    /** The call `r.toolUseId` returned. */
    method CloseSynchronousSubagent(r: ToolResult) returns (changed: bool)
      requires DistinctIds(subagents)
      modifies this`subagents, this`closedByBackstop
      ensures State() == Returned(old(State()), r)
      ensures !changed ==> subagents == old(subagents)
    {
      changed := false;
      ghost var d := State();
      for i := 0 to |subagents|
        invariant |subagents| == |d.subagents|
        invariant forall k :: 0 <= k < i ==> subagents[k] == Returned1(d, d.subagents[k], r)
        invariant forall k :: i <= k < |subagents| ==> subagents[k] == d.subagents[k]
        invariant closedByBackstop == d.closedByBackstop - IdsStartedBy(d.subagents[..i], r.toolUseId)
        invariant !changed ==> subagents == d.subagents
      {
        var agent := subagents[i];
        IdsExtended(d.subagents, r.toolUseId, i);
        if agent.toolUseId == Some(r.toolUseId) {
          // The mark goes whether or not this result counts as an end.
          var backstop := agent.taskId in closedByBackstop;
          assert agent.taskId !in IdsStartedBy(d.subagents[..i], r.toolUseId);
          closedByBackstop := closedByBackstop - {agent.taskId};
          if (agent.state.Running? || backstop)
             && agent.taskId in synchronous && agent.taskId !in backgrounded && agent.taskId !in backgroundTasks
          {
            subagents := subagents[i := agent.In(if r.isError then Failed else Completed)];
            changed := true;
          }
        }
      }
      assert d.subagents[..|subagents|] == d.subagents;
    }

    /** The turn is over: what cannot outlive it is taken to have ended. */
    method CloseSubagentsAtTurnEnd() returns (changed: bool)
      modifies this`subagents, this`closedByBackstop
      ensures State() == ClosedAtTurnEnd(old(State()))
      ensures changed == (subagents != old(subagents))
    {
      changed := false;
      ghost var d := State();
      for i := 0 to |subagents|
        invariant |subagents| == |d.subagents|
        invariant forall k :: 0 <= k < i ==> subagents[k] == Closed1(d, d.subagents[k])
        invariant forall k :: i <= k < |subagents| ==> subagents[k] == d.subagents[k]
        invariant closedByBackstop == d.closedByBackstop + IdsBoundToTurn(d, d.subagents[..i])
        invariant changed <==> exists k :: 0 <= k < i && subagents[k] != d.subagents[k]
      {
        var agent := subagents[i];
        BoundIdsExtended(d, d.subagents, i);
        if agent.state.Running? && agent.taskId in topLevelSynchronous && agent.taskId !in backgroundTasks {
          subagents := subagents[i := agent.In(Completed)];
          closedByBackstop := closedByBackstop + {agent.taskId};
          changed := true;
          assert subagents[i] != d.subagents[i];
        }
      }
      assert d.subagents[..|subagents|] == d.subagents;
    }

    /** Revive and relabel the subagents whose starting call is `parent`. */
    method NoteSubagentTool(parent: Id, what: Label) returns (changed: bool)
      requires DistinctIds(subagents)
      modifies this`subagents, this`closedByBackstop
      ensures State() == ToolUsed(old(State()), parent, what)
      ensures !changed ==> subagents == old(subagents)
    {
      changed := false;
      ghost var d := State();
      for i := 0 to |subagents|
        invariant |subagents| == |d.subagents|
        invariant forall k :: 0 <= k < i ==> subagents[k] == Used1(d, d.subagents[k], parent, what)
        invariant forall k :: i <= k < |subagents| ==> subagents[k] == d.subagents[k]
        invariant closedByBackstop == d.closedByBackstop - IdsStartedBy(d.subagents[..i], parent)
        invariant !changed ==> subagents == d.subagents
      {
        var agent := subagents[i];
        IdsExtended(d.subagents, parent, i);
        if agent.toolUseId == Some(parent) {
          assert agent.taskId !in IdsStartedBy(d.subagents[..i], parent);
          if agent.taskId in closedByBackstop {
            closedByBackstop := closedByBackstop - {agent.taskId};
            subagents := subagents[i := agent.In(Running)];
            changed := true;
          }
          if agent.activity != Some(what) {
            subagents := subagents[i := subagents[i].Doing(what)];
            changed := true;
          }
        }
      }
      assert d.subagents[..|subagents|] == d.subagents;
    }

    /** Fold one task line into the live set; a turn end held back for it may be let go. */
    method OnTaskLine(sys: SystemLine) returns (ended: bool)
      requires HeldForSomething(State())
      modifies this`backgroundTasks, this`deferredTurnEnd, this`turnOpen
      ensures State() == Heard(old(State()), sys)
      ensures ended == (LiveAfter(old(backgroundTasks), sys) == {} && old(deferredTurnEnd))
    {
      match sys.subtype {
        case BackgroundTasksChanged =>
          if sys.tasks.None? {
            return false;
          }
          backgroundTasks := AsSet(sys.tasks.value);
        case TaskStarted =>
          if sys.isBackgrounded != Some(true) || sys.taskId.None? {
            return false;
          }
          backgroundTasks := backgroundTasks + {sys.taskId.value};
        case TaskProgress =>
          if sys.taskId.None? || sys.taskId.value !in backgroundTasks {
            return false;
          }
        case TaskUpdated =>
          if sys.taskId.None? || sys.patchedStatus.None? || !IsTerminal(sys.patchedStatus.value) {
            return false;
          }
          backgroundTasks := backgroundTasks - {sys.taskId.value};
        case TaskNotification =>
          if sys.taskId.None? {
            return false;
          }
          backgroundTasks := backgroundTasks - {sys.taskId.value};
        case _ =>
          return false;
      }
      if backgroundTasks == {} && deferredTurnEnd {
        deferredTurnEnd := false;
        turnOpen := false;
        return true;
      }
      ended := false;
    }

    /** The tools of one assistant line. */
    method OnTools(parent: Option<Id>, tools: seq<Label>) returns (changed: bool)
      requires ListValid(State())
      modifies this`subagents, this`closedByBackstop
      ensures State() == AllToolsUsed(old(State()), parent, tools)
      ensures !changed ==> subagents == old(subagents)
    {
      changed := false;
      assert tools[..0] == [];
      for i := 0 to |tools|
        invariant State() == AllToolsUsed(old(State()), parent, tools[..i])
        invariant DistinctIds(subagents)
        invariant !changed ==> subagents == old(subagents)
      {
        assert tools[..i + 1][..i] == tools[..i];
        if parent.Some? {
          var noted := NoteSubagentTool(parent.value, tools[i]);
          changed := changed || noted;
        }
      }
      assert tools[..|tools|] == tools;
    }

    /** The tool results of one user line. */
    method OnResults(results: seq<ToolResult>) returns (changed: bool)
      requires ListValid(State())
      modifies this`subagents, this`closedByBackstop
      ensures State() == AllReturned(old(State()), results)
      ensures !changed ==> subagents == old(subagents)
    {
      changed := false;
      assert results[..0] == [];
      for i := 0 to |results|
        invariant State() == AllReturned(old(State()), results[..i])
        invariant DistinctIds(subagents)
        invariant !changed ==> subagents == old(subagents)
      {
        assert results[..i + 1][..i] == results[..i];
        var closed := CloseSynchronousSubagent(results[i]);
        changed := changed || closed;
      }
      assert results[..|results|] == results;
    }

    /** Take a line: the new state, and what is to be told of it. */
    method OnStdout(line: Line) returns (out: seq<Action>)
      requires Valid()
      modifies this
      ensures State() == After(old(State()), line)
      ensures Speaks(old(State()), line, out)
    {
      match line {
        case System(sys) =>
          out := OnSystem(sys);
        case Assistant(parent, tools) =>
          out := OnAssistant(parent, tools);
        case User(results) =>
          var changed := OnResults(results);
          out := Publish(old(subagents), [], changed);
        case Result(outOfTokens) =>
          out := OnResult(outOfTokens);
        case _ =>
          out := [];
      }
    }

    /** Add the list to what a line says, if it changed. */
    method Publish(ghost had: seq<Subagent>, actions: seq<Action>, changed: bool) returns (out: seq<Action>)
      requires !changed ==> subagents == had
      requires Shown(had, actions) == had
      ensures TurnPart(out) == TurnPart(actions) && Shown(had, out) == subagents
    {
      out := actions;
      if changed {
        OneMore(had, actions, Subagents(subagents));
        out := out + [Subagents(subagents)];
      }
    }

    method OnSystem(sys: SystemLine) returns (out: seq<Action>)
      requires Valid()
      modifies this
      ensures State() == After(old(State()), System(sys))
      ensures Speaks(old(State()), System(sys), out)
    {
      out := if sys.subtype.Init? then [Initialized] else [];
      JustOne(subagents, Initialized);
      ghost var first, d := out, State();
      // Before the live set is rewritten, which this reads.
      var changed := TrackSubagent(sys);
      TrackedKeepsTurn(d, sys);
      out := Publish(old(subagents), out, changed);
      ghost var d' := State();
      assert SameTurn(d, d');
      var ended := OnTaskLine(sys);
      if ended {
        OneMore(old(subagents), out, TurnEnded);
        out := out + [TurnEnded];
      }
    }

    method OnAssistant(parent: Option<Id>, tools: seq<Label>) returns (out: seq<Action>)
      requires Valid()
      modifies this
      ensures State() == After(old(State()), Assistant(parent, tools))
      ensures Speaks(old(State()), Assistant(parent, tools), out)
    {
      out := [];
      // Whoever began the turn, output means work.
      if parent.None? && !turnOpen {
        turnOpen := true;
        out := [TurnStarted];
        JustOne(subagents, TurnStarted);
      }
      var changed := OnTools(parent, tools);
      out := Publish(old(subagents), out, changed);
    }

    method OnResult(outOfTokens: bool) returns (out: seq<Action>)
      requires Valid()
      modifies this
      ensures State() == After(old(State()), Result(outOfTokens))
      ensures Speaks(old(State()), Result(outOfTokens), out)
    {
      turnOpen := false;
      var changed := CloseSubagentsAtTurnEnd();
      out := Publish(old(subagents), [], changed);
      if outOfTokens {
        deferredTurnEnd := false;
        OneMore(old(subagents), out, LimitReached);
        out := out + [LimitReached];
      } else if backgroundTasks == {} {
        OneMore(old(subagents), out, TurnEnded);
        out := out + [TurnEnded];
      } else {
        deferredTurnEnd := true;
      }
    }
  }
}
