/** The task that owns one CLI process: it keeps the status and the prompts
    held, and writes the log.
  */
module Runners {
  import opened Options
  import opened AgentStatus
  import opened PermissionLog
  import opened RunnerSpec

  class Runner {
    var base: Status
    var status: Status
    var published: seq<Status>
    var pending: set<RequestId>
    var log: seq<LogEvent>
    var awaitingInit: bool
    var todo: seq<Action>

    ghost function State(): RunnerState
      reads this
    {
      RunnerState(base, status, published, pending, log, awaitingInit, todo)
    }

    /** A launch over a log whose open prompts have been expired. */
    constructor (log: seq<LogEvent>)
      ensures State() == Launched(log)
    {
      base, status, published, pending := Starting, Starting, [], {};
      this.log, awaitingInit, todo := log, true, [];
      new;
      SetStatus(Spawned);
    }

    method PublishStatus()
      modifies this`published
      ensures published == old(published) + [status]
    {
      published := published + [status];
    }

    method AppendEvent(e: LogEvent)
      modifies this`log
      ensures State() == Logged(old(State()), e)
    {
      log := log + [e];
    }

    method SetStatus(t: Transition)
      modifies this
      ensures State() == Moved(old(State()), t)
    {
      var applied := base.Apply(t);
      if applied.None? {
        return;
      }
      if !t.AboutApprovals() {
        base := applied.value;
      }
      var next := base.WithApprovals(pending != {});
      if t.Spawned? {
        status := next;
        PublishStatus();
        return;
      }
      if next == status {
        return;
      }
      status := next;
      PublishStatus();
    }

    method SyncApprovals()
      modifies this
      ensures State() == Synced(old(State()))
    {
      var next := base.WithApprovals(pending != {});
      if next == status {
        return;
      }
      status := next;
      PublishStatus();
    }

    /** Take the next line off the child's output. */
    method Hear(line: CliLine)
      requires Enabled(State(), RunnerSpec.Hear(line))
      modifies this
      ensures Next(old(State()), RunnerSpec.Hear(line), State())
    {
      todo := ActionsOf(line);
    }

    /** Take the next action of that line. */
    method OnAction()
      requires Enabled(State(), Act)
      modifies this
      ensures Next(old(State()), Act, State())
    {
      var action := todo[0];
      todo := todo[1..];
      match action {
        case Persist(e) => AppendEvent(e);
        case Permission(id) =>
          if id !in pending {
            pending := pending + {id};
            SyncApprovals();
          }
        case CancelPermission(id) => Withdraw(id);
        case Move(t) => SetStatus(t);
        case ControlResponse =>
          if awaitingInit {
            awaitingInit := false;
            SetStatus(Initialized);
          }
      }
    }

    method OnStderr()
      requires Enabled(State(), Stderr)
      modifies this
      ensures Next(old(State()), Stderr, State())
    {
      AppendEvent(OtherEvent);
    }

    method OnCommand(command: Command)
      requires Enabled(State(), Obey(command))
      modifies this
      ensures Next(old(State()), Obey(command), State())
    {
      match command {
        case Send =>
          AppendEvent(OtherEvent);
          SetStatus(TurnStarted);
        case Decide(id) => DecideOn(id);
        case OtherCommand =>
      }
    }

    /** Only a prompt that is outstanding may be answered. */
    method DecideOn(id: RequestId)
      modifies this
      ensures State() == Answered(old(State()), id)
    {
      if id !in pending {
        return;
      }
      pending := pending - {id};
      AppendEvent(Decided(id));
      SetStatus(PermissionResolved);
    }

    /** The CLI took a prompt back. */
    method Withdraw(id: RequestId)
      modifies this
      ensures State() == Withdrawn(old(State()), id)
    {
      if id !in pending {
        return;
      }
      pending := pending - {id};
      AppendEvent(Decided(id));
      SyncApprovals();
    }

    /** The child is gone: close out whatever it was asking for. */
    method OnExit(requested: bool)
      requires Enabled(State(), RunnerSpec.Exit(requested))
      modifies this
      ensures Next(old(State()), RunnerSpec.Exit(requested), State())
    {
      status := if requested then Stopped else Failed;
      base := status;
      ghost var n := |log|;
      while pending != {}
        invariant pending <= old(pending)
        invariant n <= |log| && log[..n] == old(log)
        invariant AllDecisions(log[n..], old(pending) - pending)
        modifies this`pending, this`log
        decreases pending
      {
        var id :| id in pending;
        ghost var before := log;
        pending := pending - {id};
        AppendEvent(Decided(id));
        assert log[n..] == before[n..] + [Decided(id)];
      }
      PublishStatus();
    }
  }
}
