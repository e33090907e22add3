/**
 The command provider as functions on values: what one session does with the answers of the service's own callbacks and
 of the status sender, and what one cycle does with the sessions it holds.
 */
module CommandModel {
  import opened Common
  import opened CommandStates

  datatype IncomingCommandBehavior =
    QueueIncoming | AcceptConcurrent | CancelExisting | CompleteExisting | RejectIncoming

  datatype CommandStateResult = Stay | Advance | Error

  datatype Command = Command(sessionID: Guid, order: string)

  /**
   What the service and the network answer during one handler call: the overridable callbacks, then the outcomes of
   sending a status, an acknowledgment and an execution status.
   */
  datatype Answers = Answers(
    valid: bool,
    result: CommandStateResult,
    failure: Reason,
    completed: bool,
    updated: bool,
    ended: bool,
    status: SendStatus,
    ack: SendStatus,
    execution: SendStatus)

  /** Answers by position in the cycle. */
  type Script = nat -> Answers

  /** A session with the statuses published for it so far, and whether an execution status needs disposing. */
  datatype Session = Session(id: Guid, command: Command, phase: Phase, trail: seq<Phase>, shown: bool)

  datatype Outcome = Outcome(session: Session, ok: bool)

  function Opened(command: Command): Session { Session(command.sessionID, command, FRESH, [], false) }

  predicate Over(s: Session) { IsStateFinal(s.phase.status) }

  function Published(s: Session, phase: Phase, sent: SendStatus): Session {
    if sent == SendSuccess then s.(trail := s.trail + [phase]) else s
  }

  // ---- one session ----

  /** The status and then the execution status of a session that has just moved. */
  function Announce(s: Session, a: Answers): (r: Outcome)
    ensures r.session.id == s.id
  {
    var t := Published(s, s.phase, a.status);
    if !a.ended || a.status == SendError then Outcome(if a.ended then t else s, false)
    else Outcome(t.(shown := t.shown || a.execution == SendSuccess), a.execution != SendError)
  }

  function HandleFailure(s: Session, reason: Reason, a: Answers): (r: Outcome)
    ensures r.session.id == s.id
  {
    if MayFail(s.phase.status, reason) then Announce(s.(phase := Phase(Failed, reason)), a) else Outcome(s, false)
  }

  function HandleCancel(s: Session, a: Answers): (r: Outcome)
    ensures r.session.id == s.id
  {
    if Over(s) then Outcome(s, true) else Announce(s.(phase := Phase(Canceled, CanceledReason)), a)
  }

  function HandleCompleted(s: Session, a: Answers): (r: Outcome)
    ensures r.session.id == s.id
  {
    if s.phase.status != Executing then Outcome(s, false)
    else Announce(s.(phase := Phase(Completed, Succeeded)), a)
  }

  function Step(s: Session, target: CommandStatus, a: Answers): (r: Outcome)
    ensures r.session.id == s.id
  {
    var t := s.(phase := Phase(target, Succeeded));
    match a.result
    case Error => HandleFailure(s, ServiceFailed, a)
    case Advance => Outcome(Published(t, t.phase, a.status), a.status != SendError)
    case Stay => Outcome(s, true)
  }

  function HandleIssued(s: Session, a: Answers): (r: Outcome)
    ensures r.session.id == s.id
  {
    if s.phase.status != Issued then Outcome(s, false)
    else if !a.valid then HandleFailure(s, ValidationFailed, a)
    else Step(s, Commanded, a)
  }

  function HandleCommanded(s: Session, a: Answers): (r: Outcome)
    ensures r.session.id == s.id
  {
    if s.phase.status != Commanded then Outcome(s, false) else Step(s, Executing, a)
  }

  function HandleExecuting(s: Session, a: Answers): (r: Outcome)
    ensures r.session.id == s.id
  {
    if s.phase.status != Executing then Outcome(s, false)
    else if a.result == Error then HandleFailure(s, ServiceFailed, a)
    else if a.failure != Succeeded then HandleFailure(s, a.failure, a)
    else if a.result == Advance || a.completed then HandleCompleted(s, a)
    else Outcome(s.(shown := s.shown || a.execution == SendSuccess), a.execution != SendError)
  }

  /** An update, which goes on to the handling of an issued command at once. */
  function HandleUpdate(s: Session, command: Command, a: Answers, b: Answers): (r: Outcome)
    ensures r.session.id == s.id
  {
    if Over(s) || command.sessionID != s.id then Outcome(s, false)
    else
      var t := s.(command := command, phase := Phase(Issued, Updated));
      if !a.updated then Outcome(t, false)
      else
        var u := Published(t, t.phase, a.status);
        if a.status == SendError then Outcome(u, false) else HandleIssued(u, b)
  }

  function CycleSession(s: Session, a: Answers): (r: Outcome)
    ensures r.session.id == s.id
  {
    match s.phase.status
    case Issued => HandleIssued(s, a)
    case Commanded => HandleCommanded(s, a)
    case Executing => HandleExecuting(s, a)
    case _ => Outcome(s, true)
  }

  function Rank(status: CommandStatus): nat {
    match status case Issued => 0 case Commanded => 1 case Executing => 2 case _ => 3
  }

  /** No cycle of a session takes it back to an earlier state. */
  lemma CyclingRises(s: Session, a: Answers)
    ensures var t := CycleSession(s, a).session;
      t.phase.status == s.phase.status || Rank(t.phase.status) > Rank(s.phase.status)
  {
  }

  /** A session is cycled again as long as its status changes; every change moves it up in rank. */
  function Drive(s: Session, script: Script, k: nat): (r: Outcome)
    ensures r.session.id == s.id
    decreases 3 - Rank(s.phase.status)
  {
    var r := CycleSession(s, script(k));
    if r.ok && r.session.phase.status != s.phase.status then Drive(r.session, script, k + 1) else r
  }

  /** How often the session is cycled. */
  function Rounds(s: Session, script: Script, k: nat): (n: nat)
    ensures 1 <= n <= 4 - Rank(s.phase.status)
    decreases 3 - Rank(s.phase.status)
  {
    var r := CycleSession(s, script(k));
    if r.ok && r.session.phase.status != s.phase.status then 1 + Rounds(r.session, script, k + 1) else 1
  }

  // ---- the sessions of a provider ----

  /** An operation on one session, given the position of the first answer it may use. */
  type Operation = (Session, nat) -> Outcome

  function Failing(script: Script): Operation {
    (s: Session, k: nat) => Outcome(HandleFailure(s, ServiceFailed, script(k)).session, true)
  }

  function Canceling(script: Script): Operation { (s: Session, k: nat) => HandleCancel(s, script(k)) }

  function Completing(script: Script): Operation {
    (s: Session, k: nat) =>
      Outcome(Published(s, Phase(Completed, Succeeded), script(k).status), script(k).status == SendSuccess)
  }

  function Driving(script: Script): Operation { (s: Session, k: nat) => Drive(s, script, k) }

  /** The sessions after a sweep, those it found or left ended in the order met, and whether it met no failure. */
  datatype Swept = Swept(active: map<Guid, Session>, finals: seq<Guid>, ok: bool)

  /** Sweeps the sessions from position i on and stops at the first failure. Each session has four answers. */
  function Sweep(op: Operation, active: map<Guid, Session>, order: seq<Guid>, i: nat, finals: seq<Guid>): (r: Swept)
    requires i <= |order| && forall j :: 0 <= j < |order| ==> order[j] in active
    requires forall j :: 0 <= j < |finals| ==> finals[j] in active
    ensures r.active.Keys == active.Keys
    ensures forall j :: 0 <= j < |r.finals| ==> r.finals[j] in r.active
    decreases |order| - i
  {
    if i == |order| then Swept(active, finals, true)
    else
      var g := order[i];
      var r := op(active[g], 4 * i);
      var next := active[g := r.session];
      if !r.ok then Swept(next, finals, false)
      else Sweep(op, next, order, i + 1, if Over(r.session) then finals + [g] else finals)
  }

  function SweepAll(op: Operation, active: map<Guid, Session>): Swept {
    Sweep(op, active, Ascending(active.Keys), 0, [])
  }

  /**
   The active sessions by identifier and the waiting ones in order. The rest is history: sessions that were destroyed,
   the identifiers of the sessions made, of those made active, and of those canceled while waiting, each in order.
   */
  datatype Provider = Provider(
    active: map<Guid, Session>,
    queue: seq<Session>,
    retired: seq<Session>,
    arrived: seq<Guid>,
    started: seq<Guid>,
    withdrawn: seq<Guid>)

  const IDLE := Provider(map[], [], [], [], [], [])

  function Retire(p: Provider, ids: seq<Guid>): Provider
    requires forall i :: 0 <= i < |ids| ==> ids[i] in p.active
  {
    p.(active := map g | g in p.active && g !in ids :: p.active[g],
       retired := p.retired + seq(|ids|, i requires 0 <= i < |ids| => p.active[ids[i]]))
  }

  function RetireAll(p: Provider): Provider { Retire(p, Ascending(p.active.Keys)) }

  /** Announces a failure for every active session and lets go of them all. */
  function FailAll(p: Provider, script: Script): Provider {
    RetireAll(p.(active := SweepAll(Failing(script), p.active).active))
  }

  function Promote(p: Provider): Provider
    requires p.queue != []
  {
    p.(active := p.active[p.queue[0].id := p.queue[0]], queue := p.queue[1..], started := p.started + [p.queue[0].id])
  }

  /**
   What one cycle meets: the result of onCycle, what the command reader returns, and the answers to its calls, one
   script for each part of the cycle.
   */
  datatype Tick = Tick(
    awake: bool,
    sample: SampleEnvelope<Command>,
    incoming: Script,
    ending: Script,
    failing: Script,
    driving: Script)

  datatype Handled = Handled(provider: Provider, ok: bool)

  /** The position of the first session with an identifier, or the number of sessions if there is none. */
  function FirstWithId(sessions: seq<Session>, id: Guid): (i: nat)
    ensures i <= |sessions| && (i < |sessions| ==> sessions[i].id == id)
    ensures forall j :: 0 <= j < i ==> sessions[j].id != id
  {
    if sessions == [] || sessions[0].id == id then 0 else 1 + FirstWithId(sessions[1..], id)
  }

  function CancelActive(p: Provider, id: Guid, a: Answers): Handled
    requires id in p.active
  {
    var r := HandleCancel(p.active[id], a);
    // A waiting session under the same identifier takes the place of the canceled one.
    var ousted := p.queue != [] && p.queue[0].id == id;
    var marked := if ousted then p.(retired := p.retired + [r.session])
                  else p.(active := p.active[id := r.session]);
    var q := if p.queue != [] then Promote(marked) else marked;
    if r.ok then Handled(Retire(q, [id]), true) else Handled(q, false)
  }

  function CancelQueued(p: Provider, i: nat, a: Answers): Handled
    requires i < |p.queue|
  {
    var r := HandleCancel(p.queue[i], a);
    Handled(p.(queue := p.queue[..i] + p.queue[i + 1..], retired := p.retired + [r.session],
               withdrawn := p.withdrawn + [p.queue[i].id]), r.ok)
  }

  function Cancellation(p: Provider, id: Guid, a: Answers): Handled {
    var i := FirstWithId(p.queue, id);
    if id in p.active then CancelActive(p, id, a)
    else if i < |p.queue| then CancelQueued(p, i, a)
    else Handled(p, true)
  }

  /** Makes the command's session active and reports it. */
  function Admit(p: Provider, command: Command, a: Answers): Handled {
    var s := Published(Opened(command), FRESH, a.status);
    Handled(p.(active := p.active[s.id := s], arrived := p.arrived + [s.id], started := p.started + [s.id]),
            a.status != SendError && a.ack != SendError)
  }

  /** A session that only reports the command as issued and then as failed. */
  function Rejected(command: Command, a: Answers, b: Answers): Session {
    var s := Published(Opened(command), FRESH, a.status).(phase := Phase(Failed, ServiceFailed));
    Published(s, s.phase, b.status)
  }

  function Reject(p: Provider, command: Command, a: Answers, b: Answers): Provider {
    p.(retired := p.retired + [Rejected(command, a, b)], arrived := p.arrived + [command.sessionID])
  }

  function Enqueue(p: Provider, command: Command, a: Answers): Provider {
    p.(queue := p.queue + [Published(Opened(command), FRESH, a.status)], arrived := p.arrived + [command.sessionID])
  }

  /** Ends every active session by a sweep, and if that went well admits the command in their place. */
  function Replace(p: Provider, op: Operation, command: Command, a: Answers): Handled {
    var swept := SweepAll(op, p.active);
    var q := RetireAll(p.(active := swept.active));
    if swept.ok then Admit(q, command, a) else Handled(q, false)
  }

  /** Updates the active session the command belongs to. */
  function Amend(p: Provider, command: Command, a: Answers, b: Answers): Handled
    requires command.sessionID in p.active
  {
    var r := HandleUpdate(p.active[command.sessionID], command, a, b);
    Handled(p.(active := p.active[command.sessionID := r.session]), r.ok)
  }

  /** A command under a new identifier while other sessions are active. */
  function Overtake(behavior: IncomingCommandBehavior, p: Provider, command: Command, tick: Tick): Handled {
    var a := tick.incoming(0);
    match behavior
    case AcceptConcurrent => Admit(p, command, a)
    case CancelExisting => Replace(p, Canceling(tick.ending), command, a)
    case CompleteExisting => Replace(p, Completing(tick.ending), command, a)
    case RejectIncoming => Handled(Reject(p, command, a, tick.incoming(1)), true)
    case QueueIncoming => Handled(Enqueue(p, command, a), true)
  }

  function NewCommand(behavior: IncomingCommandBehavior, p: Provider, command: Command, tick: Tick): Handled {
    if p.active == map[] then Admit(p, command, tick.incoming(0))
    else if command.sessionID in p.active then Amend(p, command, tick.incoming(0), tick.incoming(1))
    else Overtake(behavior, p, command, tick)
  }

  function HandleIncomingCommand(behavior: IncomingCommandBehavior, p: Provider, tick: Tick): Handled {
    match tick.sample.status
    case ReadError => Handled(p, false)
    case ReadNotImplemented => Handled(p, false)
    case NoData => Handled(p, true)
    case InvalidData => Handled(p, true)
    case Disposed => Cancellation(p, tick.sample.data.sessionID, tick.incoming(0))
    case ReadSuccess => NewCommand(behavior, p, tick.sample.data, tick)
  }

  /** Drives every active session and erases those that ended. */
  function Driven(p: Provider, script: Script): Provider {
    var swept := SweepAll(Driving(script), p.active);
    Retire(p.(active := swept.active), swept.finals)
  }

  /** Lets the first waiting session in if the provider is idle and keeps a queue. */
  function LetIn(behavior: IncomingCommandBehavior, p: Provider): Provider {
    if behavior == QueueIncoming && p.active == map[] && p.queue != [] then Promote(p) else p
  }

  function CycleActive(behavior: IncomingCommandBehavior, p: Provider, script: Script): Handled {
    Handled(LetIn(behavior, Driven(p, script)), SweepAll(Driving(script), p.active).ok)
  }

  /** The rest of a cycle after the incoming command was handled. */
  function Conclude(behavior: IncomingCommandBehavior, r: Handled, tick: Tick): Handled {
    if !r.ok then Handled(FailAll(r.provider, tick.failing), false)
    else if r.provider.active == map[] then r
    else CycleActive(behavior, r.provider, tick.driving)
  }

  function Cycle(behavior: IncomingCommandBehavior, p: Provider, tick: Tick): Handled {
    if !tick.awake && p.active != map[] then Handled(FailAll(p, tick.failing), false)
    else Conclude(behavior, HandleIncomingCommand(behavior, p, tick), tick)
  }

  /** A run of cycles from an idle provider. */
  function Run(behavior: IncomingCommandBehavior, ticks: seq<Tick>): Provider {
    if ticks == [] then IDLE else Cycle(behavior, Run(behavior, ticks[..|ticks| - 1]), ticks[|ticks| - 1]).provider
  }
}
