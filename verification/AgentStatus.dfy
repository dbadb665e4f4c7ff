/** The status of an agent, and what may move it. */
module AgentStatus {
  import opened Options

  datatype Status = Starting | Idle | Working | AwaitingApproval | RateLimited | Stopped | Failed {
    predicate IsTerminal() {
      this.Stopped? || this.Failed?
    }

    /** The status after a transition, or nothing if it does not apply. */
    function Apply(t: Transition): Option<Status> {
      if t.Spawned? then Some(Starting)
      else if this.IsTerminal() then None
      else
        match t
        case Initialized => Some(if this.Starting? then Idle else this)
        case TurnStarted => Some(if this.AwaitingApproval? then AwaitingApproval else Working)
        case PermissionRequested => Some(AwaitingApproval)
        case PermissionResolved => Some(if this.AwaitingApproval? then Working else this)
        case LimitReached => Some(RateLimited)
        case TurnEnded => Some(Idle)
        case Exited => Some(Stopped)
        case Errored => Some(Failed)
    }

    /** The status to show over this one: approval is awaited exactly while prompts are held. */
    function WithApprovals(anyPending: bool): Status {
      if (this.Starting? || this.Idle? || this.Working? || this.RateLimited?) && anyPending then AwaitingApproval
      else if this.AwaitingApproval? && !anyPending then Working
      else this
    }
  }

  datatype Transition =
    | Spawned
    | Initialized
    | TurnStarted
    | PermissionRequested
    | PermissionResolved
    | LimitReached
    | TurnEnded
    | Exited
    | Errored
  {
    /** Does it say something about prompts only? */
    predicate AboutApprovals() {
      this.PermissionRequested? || this.PermissionResolved?
    }
  }
}
