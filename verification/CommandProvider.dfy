/** The command provider and its sessions as objects, each method proved against the functions of CommandModel. */
module CommandProviding {
  import opened Common
  import opened CommandStates
  import opened CommandModel

  class CommandProviderSession {
    const id: Guid
    const state: CommandStateMachine
    var command: Command
    var disposeExeStatus: bool
    ghost var trail: seq<Phase>

    constructor (command: Command)
      ensures fresh(state) && View() == Opened(command)
    {
      id := command.sessionID;
      state := new CommandStateMachine();
      this.command := command;
      disposeExeStatus := false;
      trail := [];
    }

    ghost function View(): Session
      reads this, state
    {
      Session(id, command, state.current, trail, disposeExeStatus)
    }

    function GetCommandStatus(): CommandStatus
      reads this, state
    {
      state.current.status
    }

    /** Publishes a status, given the sender's answer. */
    method SendStatus(phase: Phase, answer: SendStatus) returns (sent: SendStatus)
      modifies this`trail
      ensures sent == answer && View() == Published(old(View()), phase, answer)
    {
      if answer == SendSuccess { trail := trail + [phase]; }
      sent := answer;
    }

    method SendExecutionStatus(answer: SendStatus) returns (sent: SendStatus)
      modifies this`disposeExeStatus
      ensures sent == answer
      ensures View() == old(View()).(shown := old(View()).shown || answer == SendSuccess)
    {
      if answer == SendSuccess { disposeExeStatus := true; }
      sent := answer;
    }

    method Update(incoming: Command) returns (updated: bool)
      modifies this`command, state
      ensures updated <==> !Over(old(View())) && incoming.sessionID == id
      ensures View() ==
        if updated then old(View()).(command := incoming, phase := Phase(Issued, Updated)) else old(View())
    {
      if incoming.sessionID != id { return false; }
      updated := state.Update();
      if updated { command := incoming; }
    }
  }

  /** What the provider does with all its active sessions in turn. */
  datatype Sweeping = Canceling | Completing | Failing | Driving

  function Operating(sweeping: Sweeping, script: Script): Operation {
    match sweeping
    case Canceling => CommandModel.Canceling(script)
    case Completing => CommandModel.Completing(script)
    case Failing => CommandModel.Failing(script)
    case Driving => CommandModel.Driving(script)
  }

  class CommandProvider {
    const behavior: IncomingCommandBehavior
    var activeCommands: map<Guid, CommandProviderSession>
    var commandQueue: seq<CommandProviderSession>
    ghost var retired: seq<Session>
    ghost var arrived: seq<Guid>
    ghost var started: seq<Guid>
    ghost var withdrawn: seq<Guid>

    constructor (behavior: IncomingCommandBehavior)
      ensures Apart() && State() == IDLE && this.behavior == behavior
    {
      this.behavior := behavior;
      activeCommands := map[];
      commandQueue := [];
      retired, arrived, started, withdrawn := [], [], [], [];
    }

    /** The sessions held. */
    ghost function Sessions(): set<CommandProviderSession>
      reads this
    {
      (set g | g in activeCommands :: activeCommands[g]) + (set s | s in commandQueue)
    }

    /** The state machines of the sessions held. */
    ghost function Machines(): set<CommandStateMachine>
      reads this
    {
      set s | s in Sessions() :: s.state
    }

    /** Active sessions are held under their identifiers, and no two sessions share anything. */
    ghost predicate Apart()
      reads this
    {
      var apart :=
        && (forall g :: g in activeCommands ==> activeCommands[g].id == g)
        && (forall g, h :: g in activeCommands && h in activeCommands && g != h ==>
              activeCommands[g].state != activeCommands[h].state)
        && (forall i, j :: 0 <= i < j < |commandQueue| ==>
              commandQueue[i] != commandQueue[j] && commandQueue[i].state != commandQueue[j].state)
        && (forall g, i :: g in activeCommands && 0 <= i < |commandQueue| ==>
              activeCommands[g] != commandQueue[i] && activeCommands[g].state != commandQueue[i].state);
      apart
    }

    /** The sessions held are the ones held before and new ones. */
    twostate predicate Grown()
      reads this
    {
      var grown := forall s :: s in Sessions() ==> s in old(Sessions()) || (fresh(s) && fresh(s.state));
      grown
    }

    ghost function Views(): map<Guid, Session>
      reads this, Sessions(), Machines()
    {
      map g | g in activeCommands :: activeCommands[g].View()
    }

    ghost function Waiting(): seq<Session>
      reads this, Sessions(), Machines()
    {
      seq(|commandQueue|, i requires 0 <= i < |commandQueue| reads this, Sessions(), Machines() =>
        assert commandQueue[i] in commandQueue; commandQueue[i].View())
    }

    ghost function State(): Provider
      reads this, Sessions(), Machines()
    {
      Provider(Views(), Waiting(), retired, arrived, started, withdrawn)
    }

    // ---- handling one session ----

    method Announce(session: CommandProviderSession, a: Answers) returns (ok: bool)
      modifies session, session.state
      ensures Outcome(session.View(), ok) == CommandModel.Announce(old(session.View()), a)
    {
      if !a.ended { return false; }
      var sent := session.SendStatus(session.state.current, a.status);
      if sent == SendError { return false; }
      sent := session.SendExecutionStatus(a.execution);
      return sent != SendError;
    }

    method HandleFailure(session: CommandProviderSession, reason: Reason, a: Answers) returns (ok: bool)
      modifies session, session.state
      ensures Outcome(session.View(), ok) == CommandModel.HandleFailure(old(session.View()), reason, a)
    {
      var moved := session.state.Fail(reason);
      if !moved { return false; }
      ok := Announce(session, a);
    }

    method HandleCancel(session: CommandProviderSession, a: Answers) returns (ok: bool)
      modifies session, session.state
      ensures Outcome(session.View(), ok) == CommandModel.HandleCancel(old(session.View()), a)
    {
      var moved := session.state.Cancel();
      if !moved { return true; }
      ok := Announce(session, a);
    }

    method HandleCompleted(session: CommandProviderSession, a: Answers) returns (ok: bool)
      modifies session, session.state
      ensures Outcome(session.View(), ok) == CommandModel.HandleCompleted(old(session.View()), a)
    {
      if session.state.current.status != Executing { return false; }
      var moved := session.state.AdvanceState();
      if !moved { return false; }
      ok := Announce(session, a);
    }

    /** Acts on the result of a callback in a state other than the executing one. */
    method Proceed(session: CommandProviderSession, a: Answers) returns (ok: bool)
      requires session.state.current.status == Issued || session.state.current.status == Commanded
      modifies session, session.state
      ensures Outcome(session.View(), ok) ==
        CommandModel.Step(old(session.View()), SUCCESS_STATE_MAP[old(session.state.current.status)], a)
    {
      if a.result == Error {
        ok := HandleFailure(session, ServiceFailed, a);
        return;
      }
      if a.result == Advance {
        var moved := session.state.AdvanceState();
        if !moved { return false; }
        var sent := session.SendStatus(session.state.current, a.status);
        if sent == SendError { return false; }
      }
      return true;
    }

    method HandleIssued(session: CommandProviderSession, a: Answers) returns (ok: bool)
      modifies session, session.state
      ensures Outcome(session.View(), ok) == CommandModel.HandleIssued(old(session.View()), a)
    {
      if session.state.current.status != Issued { return false; }
      if !a.valid {
        ok := HandleFailure(session, ValidationFailed, a);
        return;
      }
      ok := Proceed(session, a);
    }

    method HandleCommanded(session: CommandProviderSession, a: Answers) returns (ok: bool)
      modifies session, session.state
      ensures Outcome(session.View(), ok) == CommandModel.HandleCommanded(old(session.View()), a)
    {
      if session.state.current.status != Commanded { return false; }
      ok := Proceed(session, a);
    }

    method HandleExecuting(session: CommandProviderSession, a: Answers) returns (ok: bool)
      modifies session, session.state
      ensures Outcome(session.View(), ok) == CommandModel.HandleExecuting(old(session.View()), a)
    {
      if session.state.current.status != Executing { return false; }
      if a.result == Error {
        ok := HandleFailure(session, ServiceFailed, a);
      } else if a.failure != Succeeded {
        ok := HandleFailure(session, a.failure, a);
      } else if a.result == Advance || a.completed {
        ok := HandleCompleted(session, a);
      } else {
        var sent := session.SendExecutionStatus(a.execution);
        ok := sent != SendError;
      }
    }

    method HandleUpdate(session: CommandProviderSession, command: Command, a: Answers, b: Answers) returns (ok: bool)
      modifies session, session.state
      ensures Outcome(session.View(), ok) == CommandModel.HandleUpdate(old(session.View()), command, a, b)
    {
      var updated := session.Update(command);
      if !updated || !a.updated { return false; }
      var sent := session.SendStatus(session.state.current, a.status);
      if sent == SendError { return false; }
      ok := HandleIssued(session, b);
    }

    method CycleSession(session: CommandProviderSession, a: Answers) returns (ok: bool, final: bool)
      modifies session, session.state
      ensures Outcome(session.View(), ok) == CommandModel.CycleSession(old(session.View()), a)
      ensures final == Over(old(session.View()))
    {
      final := false;
      match session.state.current.status {
        case Issued => ok := HandleIssued(session, a);
        case Commanded => ok := HandleCommanded(session, a);
        case Executing => ok := HandleExecuting(session, a);
        case _ => ok, final := true, true;
      }
    }

    /** Cycles a session until its status stays the same or something fails, which takes at most four rounds. */
    method Drive(session: CommandProviderSession, script: Script, first: nat)
      returns (ok: bool, final: bool, ghost rounds: nat)
      modifies session, session.state
      ensures Outcome(session.View(), ok) == CommandModel.Drive(old(session.View()), script, first)
      ensures final == (ok && Over(session.View()))
      ensures rounds == Rounds(old(session.View()), script, first) <= 4
    {
      var again := true;
      ok, final, rounds := true, false, 0;
      var k: nat := first;
      while again
        invariant k == first + rounds
        invariant var v, start := session.View(), old(session.View());
          && CommandModel.Drive(start, script, first) ==
               (if again then CommandModel.Drive(v, script, k) else Outcome(v, ok))
          && Rounds(start, script, first) == rounds + if again then Rounds(v, script, k) else 0
        invariant !again ==> final == (ok && Over(session.View()))
        decreases 3 - Rank(session.GetCommandStatus()), again
      {
        var prev := session.GetCommandStatus();
        CyclingRises(session.View(), script(k));
        ok, final := CycleSession(session, script(k));
        k, rounds := k + 1, rounds + 1;
        again := ok && prev != session.GetCommandStatus();
      }
    }

    // ---- sweeps over the active sessions ----

    /** What changing one active session does to the provider. */
    twostate lemma OneChanged(g: Guid)
      requires old(Apart()) && g in old(activeCommands)
      requires activeCommands == old(activeCommands) && unchanged(this)
      requires unchanged(old(Sessions()) - {old(activeCommands)[g]})
      requires unchanged(old(Machines()) - {old(activeCommands)[g].state})
      ensures Views() == old(Views())[g := activeCommands[g].View()] && Waiting() == old(Waiting())
    {
      forall h | h in activeCommands && h != g ensures activeCommands[h].View() == old(activeCommands[h].View()) {
        assert activeCommands[h].id != activeCommands[g].id;
        assert unchanged(activeCommands[h]) && unchanged(activeCommands[h].state);
      }
      assert Views() == old(Views())[g := activeCommands[g].View()];
      forall i | 0 <= i < |commandQueue| ensures commandQueue[i].View() == old(commandQueue[i].View()) {
        assert commandQueue[i] in commandQueue;
        assert unchanged(commandQueue[i]) && unchanged(commandQueue[i].state);
      }
      assert Waiting() == old(Waiting());
    }

    /**
     A sweep from the sessions in start has reached position i: what is left of it, applied to the sessions as they are
     now, gives what the whole of it gives.
     */
    ghost predicate Midway(op: Operation, start: map<Guid, Session>, waiting: seq<Session>, order: seq<Guid>, i: nat,
                           finals: seq<Guid>, ok: bool)
      reads this, Sessions(), Machines()
    {
      var holds :=
        && i <= |order| && (forall j :: 0 <= j < |order| ==> order[j] in Views())
        && (forall j :: 0 <= j < |finals| ==> finals[j] in Views())
        && SweepAll(op, start) == (if ok then Sweep(op, Views(), order, i, finals) else Swept(Views(), finals, false))
        && Waiting() == waiting;
      holds
    }

    /** One session has become what an operation made of it. */
    ghost predicate Changed(before: map<Guid, Session>, g: Guid, r: Outcome, ok: bool)
      reads this, Sessions(), Machines()
    {
      var changed := Views() == before[g := r.session] && ok == r.ok;
      changed
    }

    lemma SweepGoesOn(op: Operation, start: map<Guid, Session>, before: map<Guid, Session>, waiting: seq<Session>,
                      order: seq<Guid>, i: nat, finals: seq<Guid>, ok: bool)
      requires i < |order| && forall j :: 0 <= j < |order| ==> order[j] in before
      requires forall j :: 0 <= j < |finals| ==> finals[j] in before
      requires SweepAll(op, start) == Sweep(op, before, order, i, finals)
      requires Changed(before, order[i], op(before[order[i]], 4 * i), ok) && Waiting() == waiting
      ensures Midway(op, start, waiting, order, if ok then i + 1 else i,
                     if ok && Over(Views()[order[i]]) then finals + [order[i]] else finals, ok)
    {
    }

    /** Applies one of the provider's operations to one active session. */
    method Visit(sweeping: Sweeping, g: Guid, script: Script, k: nat) returns (ok: bool, final: bool)
      requires Apart() && g in activeCommands
      modifies activeCommands[g], activeCommands[g].state
      ensures Changed(old(Views()), g, Operating(sweeping, script)(old(Views())[g], k), ok)
      ensures final == (ok && Over(Views()[g])) && Waiting() == old(Waiting())
    {
      var session := activeCommands[g];
      match sweeping {
        case Canceling => ok := HandleCancel(session, script(k));
        case Completing =>
          var sent := session.SendStatus(Phase(Completed, Succeeded), script(k).status);
          ok := sent == SendSuccess;
        case Failing =>
          var handled := HandleFailure(session, ServiceFailed, script(k));
          ok := true;
        case Driving =>
          ghost var rounds;
          ok, final, rounds := Drive(session, script, k);
      }
      final := ok && IsStateFinal(session.state.current.status);
      OneChanged(g);
    }

    method VisitNext(sweeping: Sweeping, script: Script, ghost start: map<Guid, Session>, ghost waiting: seq<Session>,
                     order: seq<Guid>, i: nat, finals: seq<Guid>)
      returns (ok: bool, next: nat, more: seq<Guid>)
      requires Apart() && i < |order| && Midway(Operating(sweeping, script), start, waiting, order, i, finals, true)
      modifies activeCommands[order[i]], activeCommands[order[i]].state
      ensures next == (if ok then i + 1 else i)
      ensures Midway(Operating(sweeping, script), start, waiting, order, next, more, ok)
    {
      ghost var before := Views();
      var final;
      ok, final := Visit(sweeping, order[i], script, 4 * i);
      next := if ok then i + 1 else i;
      more := if final then finals + [order[i]] else finals;
      SweepGoesOn(Operating(sweeping, script), start, before, waiting, order, i, finals, ok);
    }

    method VisitInOrder(sweeping: Sweeping, script: Script, ghost start: map<Guid, Session>,
                        ghost waiting: seq<Session>, order: seq<Guid>)
      returns (ok: bool, finals: seq<Guid>)
      requires Apart() && Midway(Operating(sweeping, script), start, waiting, order, 0, [], true)
      modifies Sessions(), Machines()
      ensures Swept(Views(), finals, ok) == SweepAll(Operating(sweeping, script), start)
      ensures Waiting() == waiting
    {
      var i := 0;
      ok, finals := true, [];
      while ok && i < |order|
        invariant unchanged(this) && Midway(Operating(sweeping, script), start, waiting, order, i, finals, ok)
        decreases |order| - i, ok
      {
        ok, i, finals := VisitNext(sweeping, script, start, waiting, order, i, finals);
      }
    }

    /** Visits the active sessions in the order of their identifiers until something fails. */
    method VisitAll(sweeping: Sweeping, script: Script) returns (ok: bool, finals: seq<Guid>)
      requires Apart()
      modifies Sessions(), Machines()
      ensures Swept(Views(), finals, ok) == SweepAll(Operating(sweeping, script), old(Views()))
      ensures Waiting() == old(Waiting())
    {
      assert Views().Keys == activeCommands.Keys;
      ok, finals := VisitInOrder(sweeping, script, Views(), Waiting(), Ascending(activeCommands.Keys));
    }

    // ---- the collections ----

    /** Forgets sessions, which destroys them. */
    method Erase(ids: seq<Guid>)
      requires Apart() && forall i :: 0 <= i < |ids| ==> ids[i] in activeCommands
      modifies this`activeCommands, this`retired
      ensures Apart() && Sessions() <= old(Sessions())
      ensures State() == Retire(old(State()), ids)
    {
      ghost var views := Views();
      retired := retired + seq(|ids|, i requires 0 <= i < |ids| && ids[i] in views => views[ids[i]]);
      activeCommands := map g | g in activeCommands && g !in ids :: activeCommands[g];
      assert Waiting() == old(Waiting());
      assert Views() == map g | g in old(Views()) && g !in ids :: old(Views())[g];
    }

    method Clear()
      requires Apart()
      modifies this`activeCommands, this`retired
      ensures Apart() && Sessions() <= old(Sessions())
      ensures State() == RetireAll(old(State())) && activeCommands == map[]
    {
      assert Views().Keys == activeCommands.Keys;
      var order := Ascending(activeCommands.Keys);
      Erase(order);
      assert forall g :: g in Views() ==> g !in order;
      assert Views().Keys == activeCommands.Keys;
    }

    method PromoteFirst()
      requires Apart() && commandQueue != []
      modifies this`activeCommands, this`commandQueue, this`started
      ensures Apart() && Sessions() <= old(Sessions())
      ensures activeCommands == old(activeCommands)[old(commandQueue)[0].id := old(commandQueue)[0]]
      ensures commandQueue == old(commandQueue)[1..]
      ensures State() == Promote(old(State()))
    {
      var first := commandQueue[0];
      assert first in commandQueue;
      activeCommands := activeCommands[first.id := first];
      commandQueue := commandQueue[1..];
      started := started + [first.id];
      assert Waiting() == old(Waiting())[1..];
      assert Views() == old(Views())[first.id := first.View()];
    }

    // ---- one cycle ----

    function IsIdle(): (idle: bool)
      reads this, Sessions(), Machines()
      ensures idle <==> activeCommands == map[]
      ensures idle <==> State().active == map[]
    {
      assert activeCommands.Keys == Views().Keys;
      |activeCommands| == 0
    }

    /** Announces a failure for every active session and lets go of them all. */
    method FailActive(script: Script)
      requires Apart()
      modifies this, Sessions(), Machines()
      ensures Apart() && Sessions() <= old(Sessions())
      ensures State() == CommandModel.FailAll(old(State()), script)
    {
      var ok, finals := VisitAll(Sweeping.Failing, script);
      Clear();
    }

    /** Whether a session is still in the provider's collections. */
    ghost predicate Holds(session: CommandProviderSession)
      reads this
    {
      session.id in activeCommands && activeCommands[session.id] == session
    }

    ghost predicate Detached(session: CommandProviderSession)
      reads this
    {
      var detached := session !in Sessions() && session.state !in Machines();
      detached
    }

    /** Cancels a session that is active, or that has just left the collections and ends with this call. */
    method CancelHeldOrLast(session: CommandProviderSession, a: Answers) returns (ok: bool)
      requires Apart() && (Holds(session) || Detached(session))
      modifies session, session.state, this`retired
      ensures var r := CommandModel.HandleCancel(old(session.View()), a);
        && ok == r.ok
        && State() == if Holds(session) then old(State()).(active := old(Views())[session.id := r.session])
                      else old(State()).(retired := old(retired) + [r.session])
    {
      ok := HandleCancel(session, a);
      if Holds(session) {
        OneChanged(session.id);
      } else {
        NoneChanged(session);
        retired := retired + [session.View()];
      }
    }

    twostate lemma NoneChanged(session: CommandProviderSession)
      requires old(Detached(session)) && unchanged(this)
      requires unchanged(old(Sessions()) - {session}) && unchanged(old(Machines()) - {session.state})
      ensures State() == old(State())
    {
      forall s | s in Sessions() ensures s.View() == old(s.View()) {
        assert s.state in Machines();
        assert unchanged(s) && unchanged(s.state);
      }
      assert Views() == old(Views());
      forall i | 0 <= i < |commandQueue| ensures commandQueue[i].View() == old(commandQueue[i].View()) {
        assert commandQueue[i] in Sessions();
      }
      assert Waiting() == old(Waiting());
    }

    method MakeWay(session: CommandProviderSession)
      requires Apart() && Holds(session)
      modifies this`activeCommands, this`commandQueue, this`started
      ensures Apart() && Sessions() <= old(Sessions())
      ensures State() == if old(commandQueue) != [] then Promote(old(State())) else old(State())
      ensures session.id in activeCommands
      ensures if Ousted(old(State()), session.id) then Detached(session) else Holds(session)
    {
      assert Ousted(State(), session.id) <==> commandQueue != [] && commandQueue[0].id == session.id;
      if commandQueue != [] { PromoteFirst(); }
    }

    method CancelActive(id: Guid, a: Answers) returns (ok: bool)
      requires Apart() && id in activeCommands
      modifies this, Sessions(), Machines()
      ensures Apart() && Sessions() <= old(Sessions())
      ensures Handled(State(), ok) == CommandModel.CancelActive(old(State()), id, a)
    {
      var session := activeCommands[id];
      CancelingInSteps(State(), id, a);
      MakeWay(session);
      ok := CancelHeldOrLast(session, a);
      if ok { Erase([id]); }
    }

    method CancelQueued(i: nat, a: Answers) returns (ok: bool)
      requires Apart() && i < |commandQueue|
      modifies this, Sessions(), Machines()
      ensures Apart() && Sessions() <= old(Sessions())
      ensures Handled(State(), ok) == CommandModel.CancelQueued(old(State()), i, a)
    {
      var session := RemoveFromQueue(i);
      ok := CancelHeldOrLast(session, a);
    }

    method RemoveFromQueue(i: nat) returns (session: CommandProviderSession)
      requires Apart() && i < |commandQueue|
      modifies this`commandQueue, this`withdrawn
      ensures Apart() && Sessions() <= old(Sessions())
      ensures session == old(commandQueue)[i] && Detached(session) && session.View() == old(Waiting())[i]
      ensures State() == old(State()).(queue := old(Waiting())[..i] + old(Waiting())[i + 1..],
                                       withdrawn := old(withdrawn) + [session.id])
    {
      session := commandQueue[i];
      assert session in commandQueue;
      withdrawn := withdrawn + [session.id];
      commandQueue := commandQueue[..i] + commandQueue[i + 1..];
      assert Waiting() == old(Waiting())[..i] + old(Waiting())[i + 1..];
      assert Views() == old(Views());
    }

    /** The position of the first waiting session with an identifier. */
    method FindQueued(id: Guid) returns (i: nat)
      ensures i == FirstWithId(Waiting(), id) && (i < |commandQueue| ==> commandQueue[i].id == id)
    {
      i := 0;
      while i < |commandQueue| && commandQueue[i].id != id
        invariant i <= |commandQueue| && forall j :: 0 <= j < i ==> commandQueue[j].id != id
      {
        i := i + 1;
      }
      ghost var waiting := Waiting();
      FirstIs(waiting, id, i);
    }

    method Cancellation(id: Guid, a: Answers) returns (ok: bool)
      requires Apart()
      modifies this, Sessions(), Machines()
      ensures Apart() && Sessions() <= old(Sessions())
      ensures Handled(State(), ok) == CommandModel.Cancellation(old(State()), id, a)
    {
      if id in activeCommands {
        ok := CancelActive(id, a);
      } else {
        var i := FindQueued(id);
        if i == |commandQueue| { return true; }
        ok := CancelQueued(i, a);
      }
    }

    /** Opens a session for a new command and makes it active. */
    method Admit(command: Command, a: Answers) returns (ok: bool)
      requires Apart() && command.sessionID !in activeCommands
      modifies this
      ensures Apart() && Grown()
      ensures Handled(State(), ok) == CommandModel.Admit(old(State()), command, a)
    {
      var session := new CommandProviderSession(command);
      activeCommands := activeCommands[command.sessionID := session];
      arrived, started := arrived + [session.id], started + [session.id];
      var sent := session.SendStatus(FRESH, a.status);
      ok := sent != SendError && a.ack != SendError;
      assert Waiting() == old(Waiting());
      assert Views() == old(Views())[session.id := session.View()];
    }

    method Enqueue(command: Command, a: Answers)
      requires Apart()
      modifies this
      ensures Apart() && Grown()
      ensures State() == CommandModel.Enqueue(old(State()), command, a)
    {
      var session := new CommandProviderSession(command);
      var sent := session.SendStatus(FRESH, a.status);
      commandQueue := commandQueue + [session];
      arrived := arrived + [session.id];
      assert Waiting() == old(Waiting()) + [session.View()];
      assert Views() == old(Views());
    }

    /** Announces that a command is refused, in a session that ends with the call. */
    method Refuse(command: Command, a: Answers, b: Answers) returns (ghost r: Session)
      ensures r == CommandModel.Rejected(command, a, b)
    {
      var session := new CommandProviderSession(command);
      var sent := session.SendStatus(FRESH, a.status);
      var failed := session.state.Fail(ServiceFailed);
      sent := session.SendStatus(session.state.current, b.status);
      r := session.View();
    }

    method Reject(command: Command, a: Answers, b: Answers)
      requires Apart()
      modifies this`retired, this`arrived
      ensures Apart()
      ensures State() == CommandModel.Reject(old(State()), command, a, b)
    {
      ghost var r := Refuse(command, a, b);
      assert Views() == old(Views()) && Waiting() == old(Waiting());
      retired, arrived := retired + [r], arrived + [command.sessionID];
    }

    method Amend(command: Command, a: Answers, b: Answers) returns (ok: bool)
      requires Apart() && command.sessionID in activeCommands
      modifies activeCommands[command.sessionID], activeCommands[command.sessionID].state
      ensures Apart() && Handled(State(), ok) == CommandModel.Amend(old(State()), command, a, b)
    {
      ok := HandleUpdate(activeCommands[command.sessionID], command, a, b);
      OneChanged(command.sessionID);
    }

    /** Ends every active session and admits the command in their place. */
    method Replace(sweeping: Sweeping, script: Script, command: Command, a: Answers) returns (ok: bool)
      requires Apart()
      modifies this, Sessions(), Machines()
      ensures Apart() && Grown()
      ensures Handled(State(), ok) == CommandModel.Replace(old(State()), Operating(sweeping, script), command, a)
    {
      var finals;
      ok, finals := VisitAll(sweeping, script);
      Clear();
      if ok { ok := Admit(command, a); }
    }

    method Overtake(command: Command, tick: Tick) returns (ok: bool)
      requires Apart() && command.sessionID !in activeCommands
      modifies this, Sessions(), Machines()
      ensures Apart() && Grown()
      ensures Handled(State(), ok) == CommandModel.Overtake(behavior, old(State()), command, tick)
    {
      var a := tick.incoming(0);
      match behavior {
        case AcceptConcurrent => ok := Admit(command, a);
        case CancelExisting => ok := Replace(Sweeping.Canceling, tick.ending, command, a);
        case CompleteExisting => ok := Replace(Sweeping.Completing, tick.ending, command, a);
        case RejectIncoming =>
          Reject(command, a, tick.incoming(1));
          ok := true;
        case QueueIncoming =>
          Enqueue(command, a);
          ok := true;
      }
    }

    method NewCommand(command: Command, tick: Tick) returns (ok: bool)
      requires Apart()
      modifies this, Sessions(), Machines()
      ensures Apart() && Grown()
      ensures Handled(State(), ok) == CommandModel.NewCommand(behavior, old(State()), command, tick)
    {
      if IsIdle() {
        ok := Admit(command, tick.incoming(0));
      } else if command.sessionID in activeCommands {
        ok := Amend(command, tick.incoming(0), tick.incoming(1));
      } else {
        ok := Overtake(command, tick);
      }
    }

    /** Acts on what the command reader returned. */
    method HandleIncomingCommand(tick: Tick) returns (ok: bool)
      requires Apart()
      modifies this, Sessions(), Machines()
      ensures Apart() && Grown()
      ensures Handled(State(), ok) == CommandModel.HandleIncomingCommand(behavior, old(State()), tick)
    {
      match tick.sample.status {
        case ReadError => ok := false;
        case ReadNotImplemented => ok := false;
        case NoData => ok := true;
        case InvalidData => ok := true;
        case Disposed => ok := Cancellation(tick.sample.data.sessionID, tick.incoming(0));
        case ReadSuccess => ok := NewCommand(tick.sample.data, tick);
      }
    }

    method LetIn()
      requires Apart()
      modifies this
      ensures Apart() && Sessions() <= old(Sessions())
      ensures State() == CommandModel.LetIn(behavior, old(State()))
    {
      if behavior == QueueIncoming && IsIdle() && commandQueue != [] { PromoteFirst(); }
    }

    method EraseEnded(script: Script) returns (ok: bool)
      requires Apart()
      modifies this, Sessions(), Machines()
      ensures Apart() && Sessions() <= old(Sessions())
      ensures State() == Driven(old(State()), script)
      ensures ok == SweepAll(CommandModel.Driving(script), old(Views())).ok
    {
      var finals;
      assert Operating(Sweeping.Driving, script) == CommandModel.Driving(script);
      ok, finals := VisitAll(Sweeping.Driving, script);
      assert SweepAll(CommandModel.Driving(script), old(Views())) == Swept(Views(), finals, ok);
      Erase(finals);
    }

    method CycleActive(script: Script) returns (ok: bool)
      requires Apart()
      modifies this, Sessions(), Machines()
      ensures Apart() && Sessions() <= old(Sessions())
      ensures Handled(State(), ok) == CommandModel.CycleActive(behavior, old(State()), script)
    {
      ok := EraseEnded(script);
      LetIn();
    }

    method Abandon(tick: Tick) returns (ok: bool)
      requires Apart()
      modifies this, Sessions(), Machines()
      ensures Apart() && Sessions() <= old(Sessions())
      ensures Handled(State(), ok) == Handled(CommandModel.FailAll(old(State()), tick.failing), false)
    {
      FailActive(tick.failing);
      ok := false;
    }

    method Conclude(handled: bool, tick: Tick) returns (ok: bool)
      requires Apart()
      modifies this, Sessions(), Machines()
      ensures Apart() && Sessions() <= old(Sessions())
      ensures Handled(State(), ok) == CommandModel.Conclude(behavior, Handled(old(State()), handled), tick)
    {
      if !handled {
        ok := Abandon(tick);
      } else if IsIdle() {
        ok := true;
      } else {
        ok := CycleActive(tick.driving);
      }
    }

    /** The main method of the provider: one cycle of its tasks. */
    method Cycle(tick: Tick) returns (ok: bool)
      requires Apart()
      modifies this, Sessions(), Machines()
      ensures Apart() && Grown()
      ensures Handled(State(), ok) == CommandModel.Cycle(behavior, old(State()), tick)
    {
      if !tick.awake && !IsIdle() {
        ok := Abandon(tick);
      } else {
        ok := HandleIncomingCommand(tick);
        ok := Conclude(ok, tick);
      }
    }
  }

  lemma FirstIs(sessions: seq<Session>, id: Guid, i: nat)
    requires i <= |sessions| && (i < |sessions| ==> sessions[i].id == id)
    requires forall j :: 0 <= j < i ==> sessions[j].id != id
    ensures FirstWithId(sessions, id) == i
  {
  }

  ghost predicate Ousted(p: Provider, id: Guid) { p.queue != [] && p.queue[0].id == id }

  /** Letting the next session in before the active one is canceled makes no difference. */
  lemma CancelingInSteps(p: Provider, id: Guid, a: Answers)
    requires id in p.active
    ensures var r := CommandModel.HandleCancel(p.active[id], a);
      var q := if p.queue != [] then Promote(p) else p;
      var m := if Ousted(p, id) then q.(retired := q.retired + [r.session])
               else q.(active := q.active[id := r.session]);
      CommandModel.CancelActive(p, id, a) == Handled(if r.ok then Retire(m, [id]) else m, r.ok)
  {
    var r := CommandModel.HandleCancel(p.active[id], a);
    if p.queue != [] && p.queue[0].id != id {
      var first := p.queue[0];
      assert p.active[id := r.session][first.id := first] == p.active[first.id := first][id := r.session];
    }
  }
}
