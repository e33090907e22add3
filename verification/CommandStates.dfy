/** The life of one command: the states of its session, the moves between them, and the documented transition table. */
module CommandStates {

  datatype CommandStatus = Issued | Commanded | Executing | Completed | Canceled | Failed

  datatype Reason =
    | CanceledReason
    | Interrupted
    | ObjectiveFailed
    | ResourceFailed
    | ResourceRejected
    | ServiceFailed
    | Succeeded
    | Timeout
    | Updated
    | ValidationFailed

  /** A status and the reason for it, as a status message carries them. */
  datatype Phase = Phase(status: CommandStatus, reason: Reason)

  const FRESH := Phase(Issued, Succeeded)

  const SUCCESS_STATE_MAP: map<CommandStatus, CommandStatus> :=
    map[Issued := Commanded, Commanded := Executing, Executing := Completed]

  predicate IsStateFinal(status: CommandStatus) { status !in SUCCESS_STATE_MAP }

  lemma FinalStatuses(status: CommandStatus)
    ensures IsStateFinal(status) <==> status in {Completed, Canceled, Failed}
  {
    assert status in {Issued, Commanded, Executing, Completed, Canceled, Failed};
  }

  /** The states a failure may be announced from, reason by reason. */
  predicate MayFail(status: CommandStatus, reason: Reason) {
    match reason
    case ServiceFailed => !IsStateFinal(status)
    case Interrupted => !IsStateFinal(status)
    case Timeout => !IsStateFinal(status)
    case ResourceFailed => status == Issued || status == Executing
    case ValidationFailed => status == Issued
    case ResourceRejected => status == Commanded
    case ObjectiveFailed => status == Executing
    case _ => false
  }

  /** The transition table of the state machine's documentation, row by row. */
  predicate Documented(source: CommandStatus, target: Phase) {
    match (source, target.status)
    case (Issued, Issued) => target.reason == Updated
    case (Issued, Commanded) => target.reason == Succeeded
    case (Issued, Failed) => target.reason in {ValidationFailed, ResourceFailed, Interrupted, Timeout, ServiceFailed}
    case (Issued, Canceled) => target.reason == CanceledReason
    case (Commanded, Issued) => target.reason == Updated
    case (Commanded, Executing) => target.reason == Succeeded
    case (Commanded, Failed) => target.reason in {ResourceRejected, Interrupted, Timeout, ServiceFailed}
    case (Commanded, Canceled) => target.reason == CanceledReason
    case (Executing, Issued) => target.reason == Updated
    case (Executing, Completed) => target.reason == Succeeded
    case (Executing, Failed) =>
      target.reason in {ObjectiveFailed, ResourceFailed, Interrupted, Timeout, ServiceFailed}
    case (Executing, Canceled) => target.reason == CanceledReason
    case _ => false
  }

  /** Whether a run of phases starts where every session starts and takes only documented steps. */
  ghost predicate IsPath(trail: seq<Phase>) {
    && |trail| > 0
    && trail[0] == FRESH
    && forall i, j {:trigger trail[i], trail[j]} :: 0 <= i && j == i + 1 < |trail| ==>
         Documented(trail[i].status, trail[j])
  }

  class CommandStateMachine {
    var current: Phase

    constructor ()
      ensures current == FRESH
    {
      current := FRESH;
    }

    method AdvanceState() returns (moved: bool)
      modifies this
      ensures moved <==> !IsStateFinal(old(current.status))
      ensures moved ==> current == Phase(SUCCESS_STATE_MAP[old(current.status)], Succeeded)
      ensures moved ==> Documented(old(current.status), current)
      ensures !moved ==> current == old(current)
    {
      if current.status !in SUCCESS_STATE_MAP { return false; }
      current := Phase(SUCCESS_STATE_MAP[current.status], Succeeded);
      return true;
    }

    method Update() returns (moved: bool)
      modifies this
      ensures moved <==> !IsStateFinal(old(current.status))
      ensures moved ==> current == Phase(Issued, Updated) && Documented(old(current.status), current)
      ensures !moved ==> current == old(current)
    {
      if IsStateFinal(current.status) { return false; }
      current := Phase(Issued, Updated);
      return true;
    }

    method Cancel() returns (moved: bool)
      modifies this
      ensures moved <==> !IsStateFinal(old(current.status))
      ensures moved ==> current == Phase(Canceled, CanceledReason) && Documented(old(current.status), current)
      ensures !moved ==> current == old(current)
    {
      if IsStateFinal(current.status) { return false; }
      current := Phase(Canceled, CanceledReason);
      return true;
    }

    /** Succeeds exactly when the table has the failure for the current state. */
    method Fail(reason: Reason) returns (moved: bool)
      modifies this
      ensures moved <==> Documented(old(current.status), Phase(Failed, reason))
      ensures moved <==> MayFail(old(current.status), reason)
      ensures current == if moved then Phase(Failed, reason) else old(current)
    {
      if IsStateFinal(current.status) { return false; }
      var isValid := false;
      match reason {
        case ServiceFailed => isValid := true;
        case Interrupted => isValid := true;
        case Timeout => isValid := true;
        case ResourceFailed => isValid := current.status == Issued || current.status == Executing;
        case ValidationFailed => isValid := current.status == Issued;
        case ResourceRejected => isValid := current.status == Commanded;
        case ObjectiveFailed => isValid := current.status == Executing;
        case _ =>
      }
      if isValid { current := Phase(Failed, reason); }
      return isValid;
    }
  }
}
