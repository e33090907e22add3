/** What is published about each session: its status trail, over every run of a provider. */
module CommandTrails {
  import opened Common
  import opened CommandStates
  import opened CommandModel
  import opened CommandSafety

  // ---- an induction principle for what holds of every session ----

  /** What is asked of sessions between cycles, inside a cycle that is failing, and once they are destroyed. */
  datatype Standards = Standards(good: Session -> bool, loose: Session -> bool, done: Session -> bool)

  ghost predicate Kept(op: Operation, before: Session -> bool, after: Session -> bool) {
    forall s, k: nat :: before(s) ==> after(op(s, k).session)
  }

  /** What a tick has to do to single sessions for the standards to hold after it. */
  ghost predicate Upheld(st: Standards, behavior: IncomingCommandBehavior, tick: Tick) {
    var a, b := tick.incoming(0), tick.incoming(1);
    var upheld :=
      && (forall s :: st.good(s) ==> st.loose(s) && st.done(s))
      && Kept(Failing(tick.failing), st.loose, st.done)
      && Kept(Canceling(tick.ending), st.good, st.done)
      && (behavior == CompleteExisting ==> Kept(Completing(tick.ending), st.good, st.done))
      && Kept(Driving(tick.driving), st.good, st.good)
      && (forall s :: st.good(s) ==> st.good(HandleCancel(s, a).session))
      && (forall s, c :: st.good(s) ==>
            var r := HandleUpdate(s, c, a, b); st.loose(r.session) && (r.ok ==> st.good(r.session)))
      && (forall c :: st.good(Published(Opened(c), FRESH, a.status)))
      && (forall c :: st.done(Rejected(c, a, b)));
    upheld
  }

  ghost predicate Inactive(st: Standards, p: Provider) {
    var ok := (forall i :: 0 <= i < |p.queue| ==> st.good(p.queue[i])) &&
      (forall i :: 0 <= i < |p.retired| ==> st.done(p.retired[i]));
    ok
  }

  ghost predicate Active(good: Session -> bool, p: Provider) {
    forall g :: g in p.active ==> good(p.active[g])
  }

  lemma SweepKeeps(op: Operation, p: Provider, before: Session -> bool, after: Session -> bool)
    requires Active(before, p) && Kept(op, before, after)
    requires SweepAll(op, p.active).ok || forall s :: before(s) ==> after(s)
    ensures Active(after, p.(active := SweepAll(op, p.active).active))
  {
    forall g | g in p.active ensures after(SweepAll(op, p.active).active[g]) { var k := SweptAt(op, p.active, g); }
  }

  lemma RetireKeeps(st: Standards, p: Provider, ids: seq<Guid>)
    requires Inactive(st, p) && forall i :: 0 <= i < |ids| ==> ids[i] in p.active && st.done(p.active[ids[i]])
    ensures Inactive(st, Retire(p, ids))
  {
  }

  lemma FailAllKeeps(st: Standards, p: Provider, script: Script)
    requires Kept(Failing(script), st.loose, st.done) && Inactive(st, p) && Active(st.loose, p)
    ensures Inactive(st, FailAll(p, script)) && Active(st.good, FailAll(p, script))
  {
    var q := p.(active := SweepAll(Failing(script), p.active).active);
    FailingIsWhole(p.active, script);
    SweepKeeps(Failing(script), p, st.loose, st.done);
    RetireKeeps(st, q, Ascending(q.active.Keys));
  }

  /** The sweep that announces a failure to every session misses none. */
  lemma FailingIsWhole(active: map<Guid, Session>, script: Script)
    ensures SweepAll(Failing(script), active).ok
  {
    if !SweepAll(Failing(script), active).ok { var g, k := StoppedAt(Failing(script), active); }
  }

  lemma ReplaceKeeps(st: Standards, p: Provider, op: Operation, command: Command, a: Answers)
    requires Kept(op, st.good, st.done) && Inactive(st, p) && Active(st.good, p)
    requires forall s :: st.good(s) ==> st.loose(s) && st.done(s)
    requires st.good(Published(Opened(command), FRESH, a.status))
    ensures Inactive(st, Replace(p, op, command, a).provider) && Active(st.good, Replace(p, op, command, a).provider)
  {
    var q := p.(active := SweepAll(op, p.active).active);
    SweepKeeps(op, p, st.good, st.done);
    RetireKeeps(st, q, Ascending(q.active.Keys));
  }

  lemma CancelActiveKeeps(st: Standards, p: Provider, id: Guid, a: Answers)
    requires id in p.active && Inactive(st, p) && Active(st.good, p)
    requires forall s :: st.good(s) ==> st.done(s) && st.good(HandleCancel(s, a).session)
    ensures var q := CancelActive(p, id, a).provider; Inactive(st, q) && Active(st.good, q)
  {
  }

  lemma CancelQueuedKeeps(st: Standards, p: Provider, i: nat, a: Answers)
    requires i < |p.queue| && Inactive(st, p) && Active(st.good, p)
    requires forall s :: st.good(s) ==> st.done(s) && st.good(HandleCancel(s, a).session)
    ensures var q := CancelQueued(p, i, a).provider; Inactive(st, q) && Active(st.good, q)
  {
  }

  lemma CancellationKeeps(st: Standards, p: Provider, id: Guid, a: Answers)
    requires Inactive(st, p) && Active(st.good, p)
    requires forall s :: st.good(s) ==> st.done(s) && st.good(HandleCancel(s, a).session)
    ensures var q := Cancellation(p, id, a).provider; Inactive(st, q) && Active(st.good, q)
  {
    if id in p.active {
      CancelActiveKeeps(st, p, id, a);
    } else if FirstWithId(p.queue, id) < |p.queue| {
      CancelQueuedKeeps(st, p, FirstWithId(p.queue, id), a);
    }
  }

  lemma NewCommandKeeps(st: Standards, behavior: IncomingCommandBehavior, p: Provider, command: Command, tick: Tick)
    requires Upheld(st, behavior, tick) && Inactive(st, p) && Active(st.good, p)
    ensures var r := NewCommand(behavior, p, command, tick);
      Inactive(st, r.provider) && Active(if r.ok then st.good else st.loose, r.provider)
  {
    var a := tick.incoming(0);
    if p.active != map[] && command.sessionID !in p.active {
      if behavior == CancelExisting { ReplaceKeeps(st, p, Canceling(tick.ending), command, a); }
      if behavior == CompleteExisting { ReplaceKeeps(st, p, Completing(tick.ending), command, a); }
    }
  }

  lemma IncomingKeeps(st: Standards, behavior: IncomingCommandBehavior, p: Provider, tick: Tick)
    requires Upheld(st, behavior, tick) && Inactive(st, p) && Active(st.good, p)
    ensures var r := HandleIncomingCommand(behavior, p, tick);
      Inactive(st, r.provider) && Active(if r.ok then st.good else st.loose, r.provider)
  {
    if tick.sample.status == ReadSuccess { NewCommandKeeps(st, behavior, p, tick.sample.data, tick); }
    if tick.sample.status == Disposed { CancellationKeeps(st, p, tick.sample.data.sessionID, tick.incoming(0)); }
  }

  lemma DrivenKeeps(st: Standards, p: Provider, script: Script)
    requires Kept(Driving(script), st.good, st.good) && Inactive(st, p) && Active(st.good, p)
    requires forall s :: st.good(s) ==> st.done(s)
    ensures Inactive(st, Driven(p, script)) && Active(st.good, Driven(p, script))
  {
    SweepKeeps(Driving(script), p, st.good, st.good);
    var swept := SweepAll(Driving(script), p.active);
    RetireKeeps(st, p.(active := swept.active), swept.finals);
  }

  lemma CycleActiveKeeps(st: Standards, behavior: IncomingCommandBehavior, p: Provider, script: Script)
    requires Kept(Driving(script), st.good, st.good) && Inactive(st, p) && Active(st.good, p)
    requires forall s :: st.good(s) ==> st.done(s)
    ensures var q := CycleActive(behavior, p, script).provider; Inactive(st, q) && Active(st.good, q)
  {
    DrivenKeeps(st, p, script);
  }

  lemma CycleKeeps(st: Standards, behavior: IncomingCommandBehavior, p: Provider, tick: Tick)
    requires Upheld(st, behavior, tick) && Inactive(st, p) && Active(st.good, p)
    ensures var q := Cycle(behavior, p, tick).provider; Inactive(st, q) && Active(st.good, q)
  {
    var r := HandleIncomingCommand(behavior, p, tick);
    if !tick.awake && p.active != map[] {
      FailAllKeeps(st, p, tick.failing);
    } else {
      IncomingKeeps(st, behavior, p, tick);
      if !r.ok {
        FailAllKeeps(st, r.provider, tick.failing);
      } else if r.provider.active != map[] {
        CycleActiveKeeps(st, behavior, r.provider, tick.driving);
      }
    }
  }

  lemma {:induction false} RunKeeps(st: Standards, behavior: IncomingCommandBehavior, ticks: seq<Tick>)
    requires forall i :: 0 <= i < |ticks| ==> Upheld(st, behavior, ticks[i])
    ensures var q := Run(behavior, ticks); Inactive(st, q) && Active(st.good, q)
  {
    if ticks != [] {
      RunKeeps(st, behavior, ticks[..|ticks| - 1]);
      CycleKeeps(st, behavior, Run(behavior, ticks[..|ticks| - 1]), ticks[|ticks| - 1]);
    }
  }

  // ---- documented paths ----

  /** Every status sent during the tick is delivered. */
  ghost predicate Delivered(tick: Tick) {
    forall k: nat ::
      && tick.incoming(k).status == SendSuccess
      && tick.ending(k).status == SendSuccess
      && tick.failing(k).status == SendSuccess
      && tick.driving(k).status == SendSuccess
  }

  /** A documented path whose end, if final, is the session's own state. */
  ghost predicate Sound(s: Session) {
    IsPath(s.trail) && var end := s.trail[|s.trail| - 1]; IsStateFinal(end.status) ==> s.phase == end
  }

  /** Between cycles the last status published is the session's state, or the session ended without a word. */
  ghost predicate Settled(s: Session) {
    Sound(s) && (Over(s) || s.phase == s.trail[|s.trail| - 1])
  }

  /** A session overtaken under the completing policy is reported as completed after its documented path. */
  ghost predicate Overtaken(s: Session) {
    && |s.trail| > 1
    && IsPath(s.trail[..|s.trail| - 1])
    && s.trail[|s.trail| - 1] == Phase(Completed, Succeeded)
  }

  ghost function PathStandards(behavior: IncomingCommandBehavior): Standards {
    Standards(s => Settled(s), s => Sound(s),
              (s: Session) => IsPath(s.trail) || (behavior == CompleteExisting && Overtaken(s)))
  }

  /** A session stays where it is, or takes one documented step, which is published unless it fails to be. */
  ghost predicate Moves(s: Session, t: Session, delivered: bool) {
    || (t.phase == s.phase && t.trail == s.trail)
    || (&& Documented(s.phase.status, t.phase)
        && (t.trail == s.trail + [t.phase] || (t.trail == s.trail && (Over(t) || !delivered))))
  }

  lemma FailureMoves(s: Session, reason: Reason, a: Answers)
    ensures Moves(s, HandleFailure(s, reason, a).session, a.status == SendSuccess)
  {
  }

  lemma CancelMoves(s: Session, a: Answers)
    ensures Moves(s, HandleCancel(s, a).session, a.status == SendSuccess)
  {
  }

  lemma IssuedMoves(s: Session, a: Answers)
    ensures Moves(s, HandleIssued(s, a).session, a.status == SendSuccess)
  {
    FailureMoves(s, ValidationFailed, a);
    FailureMoves(s, ServiceFailed, a);
  }

  lemma ExecutingMoves(s: Session, a: Answers)
    ensures Moves(s, HandleExecuting(s, a).session, a.status == SendSuccess)
  {
    FailureMoves(s, a.failure, a);
    FailureMoves(s, ServiceFailed, a);
  }

  lemma CycleSessionMoves(s: Session, a: Answers)
    ensures Moves(s, CycleSession(s, a).session, a.status == SendSuccess)
  {
    if s.phase.status == Issued { IssuedMoves(s, a); }
    if s.phase.status == Commanded { FailureMoves(s, ServiceFailed, a); }
    if s.phase.status == Executing { ExecutingMoves(s, a); }
  }

  lemma MovesSettle(s: Session, t: Session)
    requires Moves(s, t, true) && Settled(s)
    ensures Settled(t)
  {
  }

  lemma MovesStayQuiet(s: Session, t: Session, delivered: bool)
    requires Moves(s, t, delivered) && Quiet(s)
    ensures Quiet(t)
  {
  }

  /** A service failure may follow any status that is not final, published or not. */
  lemma FailureSettles(s: Session, a: Answers)
    requires a.status == SendSuccess && Sound(s)
    ensures Sound(HandleFailure(s, ServiceFailed, a).session)
  {
    var t := HandleFailure(s, ServiceFailed, a).session;
    FailureMoves(s, ServiceFailed, a);
    if t.trail == s.trail + [t.phase] {
      assert Documented(s.trail[|s.trail| - 1].status, t.phase);
    }
  }

  lemma CancelSettles(s: Session, a: Answers)
    requires a.status == SendSuccess && Settled(s)
    ensures Settled(HandleCancel(s, a).session)
  {
    CancelMoves(s, a);
    MovesSettle(s, HandleCancel(s, a).session);
  }

  lemma UpdateSettles(s: Session, command: Command, a: Answers, b: Answers)
    requires a.status == SendSuccess && b.status == SendSuccess && Settled(s)
    ensures var r := HandleUpdate(s, command, a, b); Sound(r.session) && (r.ok ==> Settled(r.session))
  {
    var t := s.(command := command, phase := Phase(Issued, Updated));
    var u := Published(t, t.phase, a.status);
    if !Over(s) && a.updated {
      MovesSettle(s, u);
      IssuedMoves(u, b);
      MovesSettle(u, HandleIssued(u, b).session);
    }
  }

  lemma {:induction false} DriveSettles(s: Session, script: Script, k: nat)
    requires Settled(s) && forall j: nat :: script(j).status == SendSuccess
    ensures Settled(Drive(s, script, k).session)
    decreases 3 - Rank(s.phase.status)
  {
    var r := CycleSession(s, script(k));
    CycleSessionMoves(s, script(k));
    MovesSettle(s, r.session);
    if r.ok && r.session.phase.status != s.phase.status { DriveSettles(r.session, script, k + 1); }
  }

  lemma SweepsSettle(behavior: IncomingCommandBehavior, tick: Tick)
    requires Delivered(tick)
    ensures var st := PathStandards(behavior);
      && Kept(Failing(tick.failing), st.loose, st.done)
      && Kept(Canceling(tick.ending), st.good, st.done)
      && Kept(Driving(tick.driving), st.good, st.good)
  {
    forall s: Session, k: nat
      ensures Sound(s) ==> Sound(Failing(tick.failing)(s, k).session)
      ensures Settled(s) ==> Settled(Canceling(tick.ending)(s, k).session)
      ensures Settled(s) ==> Settled(Driving(tick.driving)(s, k).session)
    {
      if Sound(s) { FailureSettles(s, tick.failing(k)); }
      if Settled(s) {
        CancelSettles(s, tick.ending(k));
        DriveSettles(s, tick.driving, k);
      }
    }
  }

  lemma CompletingOvertakes(script: Script, good: Session -> bool, done: Session -> bool)
    requires forall k: nat :: script(k).status == SendSuccess
    requires (forall s :: good(s) ==> IsPath(s.trail)) && (forall s :: Overtaken(s) ==> done(s))
    ensures Kept(Completing(script), good, done)
  {
    forall s: Session, k: nat | good(s) ensures done(Completing(script)(s, k).session) {
      assert (s.trail + [Phase(Completed, Succeeded)])[..|s.trail|] == s.trail;
      assert Overtaken(Completing(script)(s, k).session);
    }
  }

  lemma IncomingSettles(a: Answers, b: Answers)
    requires a.status == SendSuccess && b.status == SendSuccess
    ensures forall s :: Settled(s) ==> Settled(HandleCancel(s, a).session)
    ensures forall s, c :: Settled(s) ==>
      var r := HandleUpdate(s, c, a, b); Sound(r.session) && (r.ok ==> Settled(r.session))
  {
    forall s | Settled(s) ensures Settled(HandleCancel(s, a).session) { CancelSettles(s, a); }
    forall s, c | Settled(s)
      ensures var r := HandleUpdate(s, c, a, b); Sound(r.session) && (r.ok ==> Settled(r.session))
    {
      UpdateSettles(s, c, a, b);
    }
  }

  lemma DeliveryUpholdsPaths(behavior: IncomingCommandBehavior, tick: Tick)
    requires Delivered(tick)
    ensures Upheld(PathStandards(behavior), behavior, tick)
  {
    var st := PathStandards(behavior);
    SweepsSettle(behavior, tick);
    if behavior == CompleteExisting { CompletingOvertakes(tick.ending, st.good, st.done); }
    IncomingSettles(tick.incoming(0), tick.incoming(1));
  }

  /**
   When statuses are delivered, whatever callbacks and other sends answer, the statuses published for each session
   start at the first and follow the documented table; only the completing policy may add a completion to a path.
   */
  lemma TrailsAreDocumented(behavior: IncomingCommandBehavior, ticks: seq<Tick>)
    requires forall i :: 0 <= i < |ticks| ==> Delivered(ticks[i])
    ensures var q := Run(behavior, ticks);
      && (forall g :: g in q.active ==> IsPath(q.active[g].trail))
      && (forall i :: 0 <= i < |q.queue| ==> IsPath(q.queue[i].trail))
      && (forall i :: 0 <= i < |q.retired| ==>
            IsPath(q.retired[i].trail) || (behavior == CompleteExisting && Overtaken(q.retired[i])))
  {
    forall i | 0 <= i < |ticks| ensures Upheld(PathStandards(behavior), behavior, ticks[i]) {
      DeliveryUpholdsPaths(behavior, ticks[i]);
    }
    RunKeeps(PathStandards(behavior), behavior, ticks);
  }

  /** The completing policy follows the table exactly when the last status published was EXECUTING. */
  lemma CompletionExact(s: Session, script: Script, k: nat)
    requires Sound(s) && script(k).status == SendSuccess
    ensures var t := Completing(script)(s, k).session.trail;
      && (IsPath(t) <==> s.trail[|s.trail| - 1].status == Executing)
      && (EndsOnce(t) <==> !IsStateFinal(s.trail[|s.trail| - 1].status))
  {
    var n := |s.trail|;
    var t := s.trail + [Phase(Completed, Succeeded)];
    assert t == Completing(script)(s, k).session.trail;
    assert t[n] == Phase(Completed, Succeeded) && t[n - 1] == s.trail[n - 1];
    forall i | 0 <= i < n - 1 ensures !IsStateFinal(t[i].status) {
      assert Documented(s.trail[i].status, s.trail[i + 1]);
    }
    if s.trail[n - 1].status == Executing {
      forall i | 0 < i < |t| ensures Documented(t[i - 1].status, t[i]) {
        if i < n { assert t[i] == s.trail[i]; }
      }
    }
  }

  const CALM := Answers(true, Stay, Succeeded, false, true, true, SendSuccess, SendSuccess, SendSuccess)

  const ALWAYS_CALM: Script := k => CALM

  /** A cycle that reads a command, in which everything succeeds and the service asks to stay where it is. */
  function CalmTick(id: Guid): Tick {
    Tick(true, SampleEnvelope(Command(id, ""), ReadSuccess), ALWAYS_CALM, ALWAYS_CALM, ALWAYS_CALM, ALWAYS_CALM)
  }

  lemma CalmDrive(p: Provider, g: Guid)
    requires p.active.Keys == {g} && p.active[g].phase == FRESH
    ensures CycleActive(CompleteExisting, p, ALWAYS_CALM) == Handled(p, true)
  {
    SweepOne(Driving(ALWAYS_CALM), p.active, g);
    assert p.active[g := p.active[g]] == p.active;
    assert Retire(p, []) == p;
  }

  lemma CalmAdmission(p: Provider, id: Guid)
    requires p.active == map[]
    ensures var r := Admit(p, Command(id, ""), CALM);
      r.ok && r.provider.retired == p.retired && r.provider.active.Keys == {id}
    ensures var q := Admit(p, Command(id, ""), CALM).provider;
      CycleActive(CompleteExisting, q, ALWAYS_CALM) == Handled(q, true)
  {
    CalmDrive(Admit(p, Command(id, ""), CALM).provider, id);
  }

  lemma CalmReplacement(p: Provider, g: Guid, id: Guid)
    requires p.active.Keys == {g} && p.retired == []
    ensures var r := Replace(p, Completing(ALWAYS_CALM), Command(id, ""), CALM);
      && r.ok && r.provider.active.Keys == {id} && r.provider.active[id].phase == FRESH
      && |r.provider.retired| == 1 && r.provider.retired[0].trail == p.active[g].trail + [Phase(Completed, Succeeded)]
  {
    SweepOne(Completing(ALWAYS_CALM), p.active, g);
    OneInOrder(p.active.Keys, g);
    CalmAdmission(RetireAll(p.(active := SweepAll(Completing(ALWAYS_CALM), p.active).active)), id);
  }

  lemma FirstCalmCycle(id: Guid)
    ensures Cycle(CompleteExisting, IDLE, CalmTick(id)) == Handled(Admit(IDLE, Command(id, ""), CALM).provider, true)
  {
    CalmAdmission(IDLE, id);
  }

  lemma NextCalmCycle(p: Provider, g: Guid, id: Guid)
    requires p.active.Keys == {g} && p.retired == [] && g != id
    ensures Cycle(CompleteExisting, p, CalmTick(id)) ==
      Handled(Replace(p, Completing(ALWAYS_CALM), Command(id, ""), CALM).provider, true)
  {
    CalmReplacement(p, g, id);
    CalmDrive(Replace(p, Completing(ALWAYS_CALM), Command(id, ""), CALM).provider, id);
  }

  lemma TwoCalmCycles(id: Guid, other: Guid)
    requires id != other
    ensures var p := Admit(IDLE, Command(id, ""), CALM).provider;
      Run(CompleteExisting, [CalmTick(id), CalmTick(other)]) ==
        Replace(p, Completing(ALWAYS_CALM), Command(other, ""), CALM).provider
  {
    var first, second := CalmTick(id), CalmTick(other);
    CalmAdmission(IDLE, id);
    FirstCalmCycle(id);
    NextCalmCycle(Admit(IDLE, Command(id, ""), CALM).provider, id, other);
    assert [first, second][..1] == [first] && [first][..0] == [];
    assert Run(CompleteExisting, []) == IDLE;
  }

  lemma StraightToCompletion()
    ensures !IsPath([FRESH, Phase(Completed, Succeeded)])
  {
    var trail := [FRESH, Phase(Completed, Succeeded)];
    assert !Documented(trail[0].status, trail[1]);
  }

  /** A command overtaken before it was executing is reported as completed straight after it was issued. */
  lemma OvertakenTooEarly()
    ensures Delivered(CalmTick(1)) && Delivered(CalmTick(2))
    ensures var q := Run(CompleteExisting, [CalmTick(1), CalmTick(2)]);
      exists s :: s in q.retired && s.trail == [FRESH, Phase(Completed, Succeeded)] && !IsPath(s.trail)
  {
    TwoCalmCycles(1, 2);
    var p := Admit(IDLE, Command(1, ""), CALM).provider;
    CalmAdmission(IDLE, 1);
    CalmReplacement(p, 1, 2);
    StraightToCompletion();
    var s := Replace(p, Completing(ALWAYS_CALM), Command(2, ""), CALM).provider.retired[0];
    assert s.trail == [FRESH, Phase(Completed, Succeeded)];
  }

  // ---- nothing after the end ----

  /** A terminal status is the last one. */
  ghost predicate EndsOnce(trail: seq<Phase>) {
    forall i :: 0 <= i < |trail| - 1 ==> !IsStateFinal(trail[i].status)
  }

  /** Nothing terminal was published, or it was published last and the session knows that it has ended. */
  ghost predicate Quiet(s: Session) {
    EndsOnce(s.trail) && (s.trail != [] && IsStateFinal(s.trail[|s.trail| - 1].status) ==> Over(s))
  }

  ghost function QuietStandards(): Standards {
    Standards(s => Quiet(s), s => Quiet(s), (s: Session) => EndsOnce(s.trail))
  }

  lemma FailureStaysQuiet(s: Session, a: Answers)
    requires Quiet(s)
    ensures Quiet(HandleFailure(s, ServiceFailed, a).session)
  {
    FailureMoves(s, ServiceFailed, a);
    MovesStayQuiet(s, HandleFailure(s, ServiceFailed, a).session, a.status == SendSuccess);
  }

  lemma CancelStaysQuiet(s: Session, a: Answers)
    requires Quiet(s)
    ensures Quiet(HandleCancel(s, a).session)
  {
    CancelMoves(s, a);
    MovesStayQuiet(s, HandleCancel(s, a).session, a.status == SendSuccess);
  }

  lemma UpdateStaysQuiet(s: Session, command: Command, a: Answers, b: Answers)
    requires Quiet(s)
    ensures Quiet(HandleUpdate(s, command, a, b).session)
  {
    var t := s.(command := command, phase := Phase(Issued, Updated));
    var u := Published(t, t.phase, a.status);
    if !Over(s) && a.updated {
      MovesStayQuiet(s, u, a.status == SendSuccess);
      IssuedMoves(u, b);
      MovesStayQuiet(u, HandleIssued(u, b).session, b.status == SendSuccess);
    }
  }

  lemma {:induction false} DriveStaysQuiet(s: Session, script: Script, k: nat)
    requires Quiet(s)
    ensures Quiet(Drive(s, script, k).session)
    decreases 3 - Rank(s.phase.status)
  {
    var r := CycleSession(s, script(k));
    CycleSessionMoves(s, script(k));
    MovesStayQuiet(s, r.session, script(k).status == SendSuccess);
    if r.ok && r.session.phase.status != s.phase.status { DriveStaysQuiet(r.session, script, k + 1); }
  }

  lemma SweepsStayQuiet(tick: Tick)
    ensures var st := QuietStandards();
      && Kept(Failing(tick.failing), st.loose, st.done)
      && Kept(Canceling(tick.ending), st.good, st.done)
      && Kept(Driving(tick.driving), st.good, st.good)
  {
    var st := QuietStandards();
    forall s: Session, k: nat | Quiet(s)
      ensures st.done(Failing(tick.failing)(s, k).session)
      ensures st.done(Canceling(tick.ending)(s, k).session)
      ensures st.good(Driving(tick.driving)(s, k).session)
    {
      FailureStaysQuiet(s, tick.failing(k));
      CancelStaysQuiet(s, tick.ending(k));
      DriveStaysQuiet(s, tick.driving, k);
    }
  }

  lemma QuietIsUpheld(behavior: IncomingCommandBehavior, tick: Tick)
    requires behavior != CompleteExisting
    ensures Upheld(QuietStandards(), behavior, tick)
  {
    SweepsStayQuiet(tick);
    CallsStayQuiet(tick.incoming(0), tick.incoming(1));
  }

  lemma CallsStayQuiet(a: Answers, b: Answers)
    ensures forall s: Session :: Quiet(s) ==> EndsOnce(s.trail) && Quiet(HandleCancel(s, a).session)
    ensures forall s: Session, c: Command :: Quiet(s) ==> Quiet(HandleUpdate(s, c, a, b).session)
    ensures forall c: Command :: Quiet(Published(Opened(c), FRESH, a.status)) && EndsOnce(Rejected(c, a, b).trail)
  {
    forall s: Session, c: Command | Quiet(s)
      ensures Quiet(HandleCancel(s, a).session) && Quiet(HandleUpdate(s, c, a, b).session)
    {
      CancelStaysQuiet(s, a);
      UpdateStaysQuiet(s, c, a, b);
    }
  }

  /** Unless commands are completed by force, nothing is published for a session after a terminal status. */
  lemma NothingAfterTheEnd(behavior: IncomingCommandBehavior, ticks: seq<Tick>)
    requires behavior != CompleteExisting
    ensures var q := Run(behavior, ticks);
      && (forall g :: g in q.active ==> EndsOnce(q.active[g].trail))
      && (forall i :: 0 <= i < |q.queue| ==> EndsOnce(q.queue[i].trail))
      && (forall i :: 0 <= i < |q.retired| ==> EndsOnce(q.retired[i].trail))
  {
    forall i | 0 <= i < |ticks| ensures Upheld(QuietStandards(), behavior, ticks[i]) {
      QuietIsUpheld(behavior, ticks[i]);
    }
    RunKeeps(QuietStandards(), behavior, ticks);
  }
}
