/**
 What a provider's calls come to, told in the fields of its sessions and collections: the outcome of every handler, of
 each policy for a command that comes while others are active, of a cancellation, and of a failing and a smooth cycle.
 */
module CommandEffects {
  import opened Common
  import opened CommandStates
  import opened CommandModel
  import opened CommandSafety

  // ---- one session ----

  /** Completed, canceled or failed. */
  predicate HasEnded(s: Session) { s.phase.status.Completed? || s.phase.status.Canceled? || s.phase.status.Failed? }

  /** The session has moved and has announced that, if the callback for its end and the senders allowed. */
  ghost predicate Moves(s: Session, r: Outcome, phase: Phase, a: Answers) {
    var t := r.session;
    var end := HasEnded(t);
    var moves :=
      && t.id == s.id && t.command == s.command && t.phase == phase
      && t.trail == s.trail + (if a.status == SendSuccess && (end ==> a.ended) then [phase] else [])
      && (r.ok <==> a.status != SendError && (end ==> a.ended && a.execution != SendError))
      && (t.shown <==> s.shown || (end && a.ended && a.status != SendError && a.execution == SendSuccess));
    moves
  }

  /** An issued command is validated before anything else. */
  lemma IssuedEffect(s: Session, a: Answers)
    requires s.phase.status == Issued
    ensures var r := CycleSession(s, a);
      && (!a.valid ==> Moves(s, r, Phase(CommandStatus.Failed, ValidationFailed), a))
      && (a.valid && a.result == Error ==> Moves(s, r, Phase(CommandStatus.Failed, ServiceFailed), a))
      && (a.valid && a.result == Advance ==> Moves(s, r, Phase(CommandStatus.Commanded, Succeeded), a))
      && (a.valid && a.result == Stay ==> r == Outcome(s, true))
  {
  }

  lemma CommandedEffect(s: Session, a: Answers)
    requires s.phase.status == Commanded
    ensures var r := CycleSession(s, a);
      && (a.result == Error ==> Moves(s, r, Phase(CommandStatus.Failed, ServiceFailed), a))
      && (a.result == Advance ==> Moves(s, r, Phase(CommandStatus.Executing, Succeeded), a))
      && (a.result == Stay ==> r == Outcome(s, true))
  {
  }

  /** An error counts before a failure, a failure before completion, and completion before carrying on. */
  lemma ExecutingEffect(s: Session, a: Answers)
    requires s.phase.status == Executing
    ensures var r := CycleSession(s, a);
      && (a.result == Error ==> Moves(s, r, Phase(CommandStatus.Failed, ServiceFailed), a))
      && (a.result != Error && a.failure != Succeeded ==>
            if Documented(Executing, Phase(CommandStatus.Failed, a.failure))
            then Moves(s, r, Phase(CommandStatus.Failed, a.failure), a) else r == Outcome(s, false))
      && (a.result != Error && a.failure == Succeeded && (a.result == Advance || a.completed) ==>
            Moves(s, r, Phase(CommandStatus.Completed, Succeeded), a))
      && (a.result == Stay && a.failure == Succeeded && !a.completed ==>
            && r.session == s.(shown := s.shown || a.execution == SendSuccess)
            && (r.ok <==> a.execution != SendError))
  {
  }

  lemma FinalEffect(s: Session, a: Answers)
    requires HasEnded(s)
    ensures CycleSession(s, a) == Outcome(s, true) && HandleCancel(s, a) == Outcome(s, true)
    ensures HandleFailure(s, ServiceFailed, a) == Outcome(s, false)
  {
    FinalStatuses(s.phase.status);
  }

  lemma CancelEffect(s: Session, a: Answers)
    requires !HasEnded(s)
    ensures Moves(s, HandleCancel(s, a), Phase(Canceled, CanceledReason), a)
    ensures Moves(s, HandleFailure(s, ServiceFailed, a), Phase(CommandStatus.Failed, ServiceFailed), a)
  {
    FinalStatuses(s.phase.status);
  }

  /** An update takes the session back to being issued, with the new command, and is handled as issued at once. */
  lemma UpdateEffect(s: Session, command: Command, a: Answers, b: Answers)
    ensures var r := HandleUpdate(s, command, a, b);
      if HasEnded(s) || command.sessionID != s.id then r == Outcome(s, false)
      else
        var t := s.(command := command, phase := Phase(Issued, Updated));
        if !a.updated || a.status == SendError then r == Outcome(t, false)
        else r == CycleSession(if a.status == SendSuccess then t.(trail := t.trail + [t.phase]) else t, b)
  {
    FinalStatuses(s.phase.status);
  }

  // ---- a session driven to its end ----

  /** Every send is delivered and every callback but the three verdicts agrees. */
  predicate Healthy(a: Answers) {
    a.updated && a.ended && a.status == SendSuccess && a.ack == SendSuccess && a.execution == SendSuccess
  }

  /** The service goes on whenever it is asked. */
  predicate Advances(a: Answers) { Healthy(a) && a.valid && a.result == Advance && a.failure == Succeeded }

  /** The phases a session still goes through on the path of success. */
  function WayTo(status: CommandStatus): seq<Phase>
    decreases 3 - Rank(status)
  {
    match status
    case Issued => [Phase(CommandStatus.Commanded, Succeeded)] + WayTo(Commanded)
    case Commanded => [Phase(CommandStatus.Executing, Succeeded)] + WayTo(Executing)
    case Executing => [Phase(CommandStatus.Completed, Succeeded)]
    case _ => []
  }

  lemma {:induction false} DriveEffect(s: Session, script: Script, k: nat)
    requires !HasEnded(s) && forall j: nat :: Advances(script(j))
    ensures var r := Drive(s, script, k);
      && r.ok && r.session.id == s.id && r.session.command == s.command
      && r.session.phase == Phase(CommandStatus.Completed, Succeeded)
      && r.session.trail == s.trail + WayTo(s.phase.status)
    decreases 3 - Rank(s.phase.status)
  {
    assert Advances(script(k));
    var r := CycleSession(s, script(k));
    CyclingRises(s, script(k));
    if s.phase.status == Executing {
      ExecutingEffect(s, script(k));
      FinalEffect(r.session, script(k + 1));
    } else {
      if s.phase.status == Issued { IssuedEffect(s, script(k)); } else { CommandedEffect(s, script(k)); }
      DriveEffect(r.session, script, k + 1);
      assert WayTo(s.phase.status) == [r.session.phase] + WayTo(r.session.phase.status);
    }
  }

  // ---- sessions that leave the provider ----

  /** The active sessions have been destroyed, in the order of their identifiers: what each had become is its fate. */
  ghost predicate Destroyed(p: Provider, retired: seq<Session>, fate: (Session, Session) -> bool) {
    var order, n := Ascending(p.active.Keys), |p.retired|;
    var destroyed :=
      && p.retired <= retired && |retired| == n + |order|
      && forall i :: 0 <= i < |order| ==> order[i] in p.active && fate(p.active[order[i]], retired[n + i]);
    destroyed
  }

  lemma RetiredAll(p: Provider, active: map<Guid, Session>, fate: (Session, Session) -> bool)
    requires active.Keys == p.active.Keys && forall g :: g in active ==> fate(p.active[g], active[g])
    ensures var q := RetireAll(p.(active := active));
      q == p.(active := map[], retired := q.retired) && Destroyed(p, q.retired, fate)
  {
    var q, order := RetireAll(p.(active := active)), Ascending(active.Keys);
    assert forall i :: 0 <= i < |order| ==> order[i] in order;
    assert forall g :: g !in q.active;
  }

  /** A session that ends in the given phase, with that as its last published status, unless it had ended before. */
  function Ending(phase: Phase): (Session, Session) -> bool {
    (s: Session, t: Session) =>
      t.id == s.id && t.command == s.command &&
      if HasEnded(s) then t == s
      else t.phase == phase && t.trail == s.trail + [phase]
  }

  const COMPLETION := Phase(CommandStatus.Completed, Succeeded)

  /** A session as it was, with the given phase published whatever its state. */
  function PublishedAnyhow(phase: Phase): (Session, Session) -> bool {
    (s: Session, t: Session) => t == s.(trail := s.trail + [phase])
  }

  // ---- sweeps ----

  /**
   An operation on all sessions goes through them in the order of their identifiers up to the first failure, and leaves
   those behind it as they are.
   */
  lemma SweepExact(op: Operation, active: map<Guid, Session>) returns (n: nat)
    ensures var r, order := SweepAll(op, active), Ascending(active.Keys);
      && n <= |order| && (r.ok <==> n == |order|)
      && (forall i :: 0 <= i < n ==> order[i] in active && op(active[order[i]], 4 * i).ok)
      && (forall i :: 0 <= i < n ==> r.active[order[i]] == op(active[order[i]], 4 * i).session)
      && (n < |order| ==> order[n] in active && !op(active[order[n]], 4 * n).ok)
      && (n < |order| ==> r.active[order[n]] == op(active[order[n]], 4 * n).session)
      && (forall i :: n < i < |order| ==> order[i] in active && r.active[order[i]] == active[order[i]])
  {
    var order := Ascending(active.Keys);
    assert forall i :: 0 <= i < |order| ==> order[i] in order;
    n := SweepFrom(op, active, order, 0, []);
  }

  lemma {:induction false} SweepFrom(
      op: Operation, active: map<Guid, Session>, order: seq<Guid>, i: nat, finals: seq<Guid>) returns (n: nat)
    requires i <= |order| && Ordered(order) && forall j :: 0 <= j < |order| ==> order[j] in active
    requires forall j :: 0 <= j < |finals| ==> finals[j] in active
    ensures var r := Sweep(op, active, order, i, finals);
      && i <= n <= |order| && (r.ok <==> n == |order|)
      && (forall j :: i <= j < n ==> op(active[order[j]], 4 * j).ok)
      && (forall j :: i <= j < n ==> r.active[order[j]] == op(active[order[j]], 4 * j).session)
      && (n < |order| ==> !op(active[order[n]], 4 * n).ok)
      && (n < |order| ==> r.active[order[n]] == op(active[order[n]], 4 * n).session)
      && (forall j :: 0 <= j < |order| && (j < i || n < j) ==> r.active[order[j]] == active[order[j]])
    decreases |order| - i
  {
    if i == |order| {
      n := i;
    } else {
      var h := op(active[order[i]], 4 * i);
      var next := active[order[i] := h.session];
      if h.ok {
        n := SweepFrom(op, next, order, i + 1, if Over(h.session) then finals + [order[i]] else finals);
      } else {
        n := i;
      }
    }
  }

  /** Sessions marked for erasing are destroyed; the others stay. */
  lemma RetireEffect(p: Provider, ids: seq<Guid>, g: Guid)
    requires (forall i :: 0 <= i < |ids| ==> ids[i] in p.active) && g in p.active
    ensures var q := Retire(p, ids);
      && (if g in ids then g !in q.active && p.active[g] in q.retired else g in q.active && q.active[g] == p.active[g])
      && q.active.Keys <= p.active.Keys && q.queue == p.queue
  {
    if g in ids {
      var i :| 0 <= i < |ids| && ids[i] == g;
      assert Retire(p, ids).retired[|p.retired| + i] == p.active[g];
    }
  }

  /** A sweep that met no failure marks exactly the sessions it left ended. */
  lemma MarkedExact(op: Operation, active: map<Guid, Session>, g: Guid)
    requires g in active && SweepAll(op, active).ok
    ensures var r := SweepAll(op, active); g in r.finals <==> HasEnded(r.active[g])
  {
    var r := SweepAll(op, active);
    SuccessMarksAll(op, active);
    SweepMarks(op, active, Ascending(active.Keys), 0, []);
    FinalStatuses(r.active[g].phase.status);
    assert r.active.Keys == active.Keys;
  }

  /** When no session fails to be driven, those that have ended are gone and the others are as driving left them. */
  lemma DrivenEffect(p: Provider, script: Script, g: Guid) returns (k: nat)
    requires g in p.active && SweepAll(Driving(script), p.active).ok
    ensures var q, t := Driven(p, script), Drive(p.active[g], script, k).session;
      if HasEnded(t) then g !in q.active && t in q.retired else g in q.active && q.active[g] == t
    ensures Driven(p, script).active.Keys <= p.active.Keys && Driven(p, script).queue == p.queue
  {
    k := SweptAt(Driving(script), p.active, g);
    var swept := SweepAll(Driving(script), p.active);
    MarkedExact(Driving(script), p.active, g);
    RetireEffect(p.(active := swept.active), swept.finals, g);
  }

  // ---- a new command ----

  /** A session as it is when its command is new: issued, with that published if it was delivered. */
  ghost predicate IsNew(s: Session, command: Command, a: Answers) {
    s == Session(command.sessionID, command, FRESH, if a.status == SendSuccess then [FRESH] else [], false)
  }

  lemma AdmitEffect(p: Provider, command: Command, a: Answers)
    ensures var r := Admit(p, command, a); var q, id := r.provider, command.sessionID;
      && q.active.Keys == p.active.Keys + {id} && IsNew(q.active[id], command, a)
      && (forall g :: g in p.active && g != id ==> q.active[g] == p.active[g])
      && q.queue == p.queue && q.retired == p.retired && q.withdrawn == p.withdrawn
      && q.arrived == p.arrived + [id] && q.started == p.started + [id]
      && (r.ok <==> a.status != SendError && a.ack != SendError)
  {
  }

  /** An idle provider takes the command whatever its policy. */
  lemma IdleEffect(behavior: IncomingCommandBehavior, p: Provider, tick: Tick)
    requires tick.sample.status == ReadSuccess && p.active == map[]
    ensures var r := HandleIncomingCommand(behavior, p, tick); var q, c := r.provider, tick.sample.data;
      && q.active.Keys == {c.sessionID} && IsNew(q.active[c.sessionID], c, tick.incoming(0))
      && q.queue == p.queue && q.retired == p.retired
      && (r.ok <==> tick.incoming(0).status != SendError && tick.incoming(0).ack != SendError)
  {
    AdmitEffect(p, tick.sample.data, tick.incoming(0));
  }

  /** A command for an active session updates that one and leaves the others alone. */
  lemma AmendEffect(behavior: IncomingCommandBehavior, p: Provider, tick: Tick)
    requires tick.sample.status == ReadSuccess && tick.sample.data.sessionID in p.active
    ensures var r := HandleIncomingCommand(behavior, p, tick); var id := tick.sample.data.sessionID;
      var s := HandleUpdate(p.active[id], tick.sample.data, tick.incoming(0), tick.incoming(1));
      r == Handled(p.(active := p.active[id := s.session]), s.ok)
  {
    assert p.active != map[];
  }

  /** A new command meets active sessions, none of them its own. */
  ghost predicate Overtakes(p: Provider, tick: Tick) {
    tick.sample.status == ReadSuccess && p.active != map[] && tick.sample.data.sessionID !in p.active
  }

  /** ACCEPT_CONCURRENT: the new session joins the others. */
  lemma ConcurrentEffect(p: Provider, tick: Tick)
    requires Overtakes(p, tick)
    ensures var r := HandleIncomingCommand(AcceptConcurrent, p, tick); var q, c := r.provider, tick.sample.data;
      && q.active.Keys == p.active.Keys + {c.sessionID} && IsNew(q.active[c.sessionID], c, tick.incoming(0))
      && (forall g :: g in p.active ==> q.active[g] == p.active[g])
      && q.queue == p.queue && q.retired == p.retired
      && (r.ok <==> tick.incoming(0).status != SendError && tick.incoming(0).ack != SendError)
  {
    AdmitEffect(p, tick.sample.data, tick.incoming(0));
  }

  /** REJECT_INCOMING: the sessions go on, and the new one is only announced, as issued and as failed. */
  lemma RejectEffect(p: Provider, tick: Tick)
    requires Overtakes(p, tick)
    ensures var r := HandleIncomingCommand(RejectIncoming, p, tick); var q, c := r.provider, tick.sample.data;
      var failed := Phase(CommandStatus.Failed, ServiceFailed);
      && r.ok && q.active == p.active && q.queue == p.queue && q.started == p.started
      && q.withdrawn == p.withdrawn && q.arrived == p.arrived + [c.sessionID]
      && |q.retired| == |p.retired| + 1 && p.retired <= q.retired
      && var x := q.retired[|p.retired|];
        && x.id == c.sessionID && x.command == c && x.phase == failed
        && x.trail == (if tick.incoming(0).status == SendSuccess then [FRESH] else [])
                      + (if tick.incoming(1).status == SendSuccess then [failed] else [])
  {
  }

  /** QUEUE_INCOMING: the sessions go on, and the new one waits behind all others. */
  lemma QueueEffect(p: Provider, tick: Tick)
    requires Overtakes(p, tick)
    ensures var r := HandleIncomingCommand(QueueIncoming, p, tick); var q, c := r.provider, tick.sample.data;
      && r.ok && q.active == p.active && q.retired == p.retired && q.started == p.started
      && |q.queue| == |p.queue| + 1 && p.queue <= q.queue && IsNew(q.queue[|p.queue|], c, tick.incoming(0))
  {
  }

  lemma CanceledAll(active: map<Guid, Session>, script: Script)
    requires forall k: nat :: script(k).status == SendSuccess
    ensures SweepAll(Canceling(script), active).ok ==> forall g :: g in active ==>
      Ending(Phase(Canceled, CanceledReason))(active[g], SweepAll(Canceling(script), active).active[g])
  {
    if SweepAll(Canceling(script), active).ok { EachCanceled(active, script); }
  }

  lemma EachCanceled(active: map<Guid, Session>, script: Script)
    requires SweepAll(Canceling(script), active).ok && forall k: nat :: script(k).status == SendSuccess
    ensures forall g :: g in active ==>
      Ending(Phase(Canceled, CanceledReason))(active[g], SweepAll(Canceling(script), active).active[g])
  {
    forall g | g in active
      ensures Ending(Phase(Canceled, CanceledReason))(active[g], SweepAll(Canceling(script), active).active[g])
    {
      var k := SweptAt(Canceling(script), active, g);
      if HasEnded(active[g]) {
        FinalEffect(active[g], script(k));
      } else {
        CancelEffect(active[g], script(k));
      }
    }
  }

  lemma OvertakesIs(behavior: IncomingCommandBehavior, p: Provider, tick: Tick)
    requires Overtakes(p, tick)
    ensures HandleIncomingCommand(behavior, p, tick) == Overtake(behavior, p, tick.sample.data, tick)
  {
  }

  /** CANCEL_EXISTING: sessions that have not ended are canceled, and all are destroyed; only the new one is active. */
  lemma CancelExistingEffect(p: Provider, tick: Tick)
    requires Overtakes(p, tick) && forall k: nat :: tick.ending(k).status == SendSuccess
    requires HandleIncomingCommand(CancelExisting, p, tick).ok
    ensures var q, c := HandleIncomingCommand(CancelExisting, p, tick).provider, tick.sample.data;
      && q.active.Keys == {c.sessionID} && IsNew(q.active[c.sessionID], c, tick.incoming(0))
      && q.queue == p.queue && Destroyed(p, q.retired, Ending(Phase(Canceled, CanceledReason)))
  {
    OvertakesIs(CancelExisting, p, tick);
    CanceledAll(p.active, tick.ending);
    ReplaceEffect(p, Canceling(tick.ending), tick.sample.data, tick.incoming(0),
                  Ending(Phase(Canceled, CanceledReason)));
  }

  lemma ReplaceEffect(p: Provider, op: Operation, command: Command, a: Answers, fate: (Session, Session) -> bool)
    requires Replace(p, op, command, a).ok
    requires SweepAll(op, p.active).ok ==>
      forall g :: g in p.active ==> fate(p.active[g], SweepAll(op, p.active).active[g])
    ensures var q := Replace(p, op, command, a).provider;
      && q.active.Keys == {command.sessionID} && IsNew(q.active[command.sessionID], command, a)
      && q.queue == p.queue && Destroyed(p, q.retired, fate)
  {
    var swept := SweepAll(op, p.active);
    RetiredAll(p, swept.active, fate);
    AdmitEffect(RetireAll(p.(active := swept.active)), command, a);
  }

  /** COMPLETE_EXISTING: a completion is published for each session, and all are destroyed; only the new is active. */
  lemma CompleteExistingEffect(p: Provider, tick: Tick)
    requires Overtakes(p, tick) && HandleIncomingCommand(CompleteExisting, p, tick).ok
    ensures var q, c := HandleIncomingCommand(CompleteExisting, p, tick).provider, tick.sample.data;
      && q.active.Keys == {c.sessionID} && IsNew(q.active[c.sessionID], c, tick.incoming(0))
      && q.queue == p.queue && Destroyed(p, q.retired, PublishedAnyhow(COMPLETION))
  {
    OvertakesIs(CompleteExisting, p, tick);
    CompletedAll(p.active, tick.ending);
    ReplaceEffect(p, Completing(tick.ending), tick.sample.data, tick.incoming(0), PublishedAnyhow(COMPLETION));
  }

  lemma CompletedOne(s: Session, script: Script, k: nat)
    requires Completing(script)(s, k).ok
    ensures PublishedAnyhow(COMPLETION)(s, Completing(script)(s, k).session)
  {
    assert Completing(script)(s, k).session == Published(s, COMPLETION, script(k).status);
  }

  lemma CompletedAll(active: map<Guid, Session>, script: Script)
    ensures var r := SweepAll(Completing(script), active);
      r.ok ==> forall g :: g in active ==> PublishedAnyhow(COMPLETION)(active[g], r.active[g])
  {
    if SweepAll(Completing(script), active).ok { EachCompleted(active, script); }
  }

  lemma EachCompleted(active: map<Guid, Session>, script: Script)
    requires SweepAll(Completing(script), active).ok
    ensures var r := SweepAll(Completing(script), active);
      forall g :: g in active ==> PublishedAnyhow(COMPLETION)(active[g], r.active[g])
  {
    var r := SweepAll(Completing(script), active);
    forall g | g in active ensures PublishedAnyhow(COMPLETION)(active[g], r.active[g]) {
      var k := SweptAt(Completing(script), active, g);
      CompletedOne(active[g], script, k);
    }
  }

  /** When a session cannot be ended, the others are dropped with it and the new command is not taken. */
  lemma ReplaceFails(behavior: IncomingCommandBehavior, p: Provider, tick: Tick)
    requires Overtakes(p, tick) && behavior in {CancelExisting, CompleteExisting}
    requires !HandleIncomingCommand(behavior, p, tick).ok
    ensures var q := HandleIncomingCommand(behavior, p, tick).provider;
      && q.active.Keys <= {tick.sample.data.sessionID} && q.queue == p.queue
      && (q.active != map[] ==> tick.incoming(0).status == SendError || tick.incoming(0).ack == SendError)
  {
  }

  // ---- the dispose of a command ----

  /** A canceled session that was active is destroyed, and the first waiting one takes its place. */
  lemma DisposedActive(behavior: IncomingCommandBehavior, p: Provider, tick: Tick)
    requires tick.sample.status == Disposed && tick.sample.data.sessionID in p.active
    requires var id := tick.sample.data.sessionID; p.queue == [] || p.queue[0].id != id
    ensures var r, id, a := HandleIncomingCommand(behavior, p, tick), tick.sample.data.sessionID, tick.incoming(0);
      var canceled := HandleCancel(p.active[id], a);
      && r.ok == canceled.ok
      && r.provider.queue == (if p.queue == [] then [] else p.queue[1..])
      && r.provider.active.Keys ==
           p.active.Keys + (if p.queue == [] then {} else {p.queue[0].id}) - (if r.ok then {id} else {})
      && (forall g :: g in r.provider.active && g != id ==>
            r.provider.active[g] == if p.queue != [] && g == p.queue[0].id then p.queue[0] else p.active[g])
      && (if r.ok then r.provider.retired == p.retired + [canceled.session]
          else r.provider.retired == p.retired && r.provider.active[id] == canceled.session)
  {
  }

  /**
   If the first waiting session has the identifier of the active one that is canceled, it takes its place and goes with
   it when that succeeds.
   */
  lemma DisposedOusted(behavior: IncomingCommandBehavior, p: Provider, tick: Tick)
    requires tick.sample.status == Disposed && tick.sample.data.sessionID in p.active
    requires p.queue != [] && p.queue[0].id == tick.sample.data.sessionID
    ensures var r, id, a := HandleIncomingCommand(behavior, p, tick), tick.sample.data.sessionID, tick.incoming(0);
      var canceled := HandleCancel(p.active[id], a);
      && r.ok == canceled.ok && r.provider.queue == p.queue[1..]
      && r.provider.active == (if r.ok then p.active - {id} else p.active[id := p.queue[0]])
      && r.provider.retired == p.retired + [canceled.session] + if r.ok then [p.queue[0]] else []
  {
  }

  /** A waiting session is canceled and destroyed; of several under one identifier, the first. */
  lemma DisposedWaiting(behavior: IncomingCommandBehavior, p: Provider, tick: Tick, i: nat)
    requires tick.sample.status == Disposed && tick.sample.data.sessionID !in p.active && i < |p.queue|
    requires p.queue[i].id == tick.sample.data.sessionID
    requires forall j :: 0 <= j < i ==> p.queue[j].id != tick.sample.data.sessionID
    ensures var r, canceled :=
        HandleIncomingCommand(behavior, p, tick), HandleCancel(p.queue[i], tick.incoming(0));
      && r.ok == canceled.ok && r.provider.active == p.active
      && r.provider.queue == p.queue[..i] + p.queue[i + 1..]
      && r.provider.retired == p.retired + [canceled.session]
  {
    assert FirstWithId(p.queue, tick.sample.data.sessionID) == i;
  }

  /** What belongs to no session, and a read that brings nothing, changes nothing; a read that fails fails the cycle. */
  lemma NothingToHandle(behavior: IncomingCommandBehavior, p: Provider, tick: Tick)
    ensures
      (&& tick.sample.status == Disposed && tick.sample.data.sessionID !in p.active
       && forall i :: 0 <= i < |p.queue| ==> p.queue[i].id != tick.sample.data.sessionID) ==>
        HandleIncomingCommand(behavior, p, tick) == Handled(p, true)
    ensures tick.sample.status in {NoData, InvalidData} ==> HandleIncomingCommand(behavior, p, tick) == Handled(p, true)
    ensures tick.sample.status in {ReadError, ReadNotImplemented} ==>
      HandleIncomingCommand(behavior, p, tick) == Handled(p, false)
  {
  }

  // ---- whole cycles ----

  lemma EachFailed(active: map<Guid, Session>, script: Script)
    requires forall k: nat :: Healthy(script(k))
    ensures forall g :: g in active ==>
      Ending(Phase(CommandStatus.Failed, ServiceFailed))(active[g], SweepAll(Failing(script), active).active[g])
  {
    if !SweepAll(Failing(script), active).ok { var g, k := StoppedAt(Failing(script), active); }
    forall g | g in active
      ensures Ending(Phase(CommandStatus.Failed, ServiceFailed))(active[g], SweepAll(Failing(script), active).active[g])
    {
      var k := SweptAt(Failing(script), active, g);
      assert Healthy(script(k));
      if HasEnded(active[g]) { FinalEffect(active[g], script(k)); } else { CancelEffect(active[g], script(k)); }
    }
  }

  lemma FailAllEffect(p: Provider, script: Script)
    requires forall k: nat :: Healthy(script(k))
    ensures var q := FailAll(p, script);
      && q == p.(active := map[], retired := q.retired)
      && Destroyed(p, q.retired, Ending(Phase(CommandStatus.Failed, ServiceFailed)))
  {
    EachFailed(p.active, script);
    RetiredAll(p, SweepAll(Failing(script), p.active).active, Ending(Phase(CommandStatus.Failed, ServiceFailed)));
  }

  /** When the service or the handling of the command fails, every session then active fails and is destroyed. */
  lemma FailingCycle(behavior: IncomingCommandBehavior, p: Provider, tick: Tick)
    requires forall k: nat :: Healthy(tick.failing(k))
    requires var asleep := !tick.awake && p.active != map[];
      asleep || !HandleIncomingCommand(behavior, p, tick).ok
    ensures var r, asleep := Cycle(behavior, p, tick), !tick.awake && p.active != map[];
      var q := if asleep then p else HandleIncomingCommand(behavior, p, tick).provider;
      && !r.ok && r.provider == q.(active := map[], retired := r.provider.retired)
      && Destroyed(q, r.provider.retired, Ending(Phase(CommandStatus.Failed, ServiceFailed)))
  {
    FailAllEffect(p, tick.failing);
    FailAllEffect(HandleIncomingCommand(behavior, p, tick).provider, tick.failing);
  }

  /**
   A command that comes to an idle provider is taken through all its states and completed in one cycle, if its service
   goes on whenever it is asked: it is published as issued, commanded, executing and completed, in that order.
   */
  lemma SmoothCycle(behavior: IncomingCommandBehavior, p: Provider, tick: Tick)
    requires p.active == map[] && p.queue == [] && tick.sample.status == ReadSuccess
    requires Healthy(tick.incoming(0)) && forall k: nat :: Advances(tick.driving(k))
    ensures var r, c := Cycle(behavior, p, tick), tick.sample.data;
      && r.ok && r.provider.active == map[] && r.provider.queue == []
      && |r.provider.retired| == |p.retired| + 1 && p.retired <= r.provider.retired
      && var x := r.provider.retired[|p.retired|];
        && x.id == c.sessionID && x.command == c && x.phase == Phase(CommandStatus.Completed, Succeeded)
        && x.trail == [FRESH, Phase(CommandStatus.Commanded, Succeeded), Phase(CommandStatus.Executing, Succeeded),
                       Phase(CommandStatus.Completed, Succeeded)]
  {
    IdleEffect(behavior, p, tick);
    var q, id := HandleIncomingCommand(behavior, p, tick).provider, tick.sample.data.sessionID;
    var s := q.active[id];
    DriveEffect(s, tick.driving, 0);
    SweepOne(Driving(tick.driving), q.active, id);
    var done := Drive(s, tick.driving, 0);
    FinalStatuses(done.session.phase.status);
    assert WayTo(Issued) == [Phase(CommandStatus.Commanded, Succeeded)] + WayTo(Commanded);
    assert WayTo(Commanded) == [Phase(CommandStatus.Executing, Succeeded)] + WayTo(Executing);
    var driven := Driven(q, tick.driving);
    assert driven.active == map[] && driven.retired == p.retired + [done.session];
  }
}
