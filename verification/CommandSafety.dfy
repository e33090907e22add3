/** What every run of a command provider keeps, whatever its callbacks and senders answer. */
module CommandSafety {
  import opened Common
  import opened CommandStates
  import opened CommandModel

  // ---- sweeps ----

  ghost predicate Ordered(order: seq<Guid>) {
    forall i, j :: 0 <= i < j < |order| ==> order[i] < order[j]
  }

  /** What a sweep from position i on does to each session. */
  lemma {:induction false} SweepShape(
      op: Operation, active: map<Guid, Session>, order: seq<Guid>, i: nat, finals: seq<Guid>)
    requires i <= |order| && Ordered(order) && forall j :: 0 <= j < |order| ==> order[j] in active
    requires forall j :: 0 <= j < |finals| ==> finals[j] in active
    ensures var r := Sweep(op, active, order, i, finals);
      && (forall j :: 0 <= j < i ==> r.active[order[j]] == active[order[j]])
      && (forall j :: i <= j < |order| ==>
            r.active[order[j]] == active[order[j]] || r.active[order[j]] == op(active[order[j]], 4 * j).session)
      && (r.ok ==> forall j :: i <= j < |order| ==>
            r.active[order[j]] == op(active[order[j]], 4 * j).session && op(active[order[j]], 4 * j).ok)
      && (!r.ok ==> exists j :: i <= j < |order| && !op(active[order[j]], 4 * j).ok)
    decreases |order| - i
  {
    if i < |order| {
      var h := op(active[order[i]], 4 * i);
      var next := active[order[i] := h.session];
      if h.ok {
        SweepShape(op, next, order, i + 1, if Over(h.session) then finals + [order[i]] else finals);
      }
    }
  }

  /** Sessions that ended, each marked once, all before the position i of a sweep. */
  ghost predicate Marked(active: map<Guid, Session>, order: seq<Guid>, i: nat, finals: seq<Guid>) {
    && NoDuplicates(finals)
    && (forall j :: 0 <= j < |finals| ==> finals[j] in active && Over(active[finals[j]]))
    && (forall j, k :: 0 <= j < |finals| && i <= k < |order| ==> finals[j] < order[k])
  }

  lemma MarkedOn(active: map<Guid, Session>, order: seq<Guid>, i: nat, finals: seq<Guid>, s: Session)
    requires i < |order| && Ordered(order) && Marked(active, order, i, finals)
    ensures Marked(active[order[i] := s], order, i + 1, if Over(s) then finals + [order[i]] else finals)
  {
  }

  /** A sweep marks sessions it left ended, each once. */
  lemma {:induction false} SweepMarks(
      op: Operation, active: map<Guid, Session>, order: seq<Guid>, i: nat, finals: seq<Guid>)
    requires i <= |order| && Ordered(order) && forall j :: 0 <= j < |order| ==> order[j] in active
    requires Marked(active, order, i, finals)
    ensures var r := Sweep(op, active, order, i, finals); Marked(r.active, [], 0, r.finals)
    decreases |order| - i
  {
    if i < |order| {
      var h := op(active[order[i]], 4 * i);
      MarkedOn(active, order, i, finals, h.session);
      if h.ok {
        SweepMarks(op, active[order[i] := h.session], order, i + 1,
                   if Over(h.session) then finals + [order[i]] else finals);
      }
    }
  }

  /** A sweep that met no failure misses none of the sessions it left ended. */
  lemma {:induction false} SweepMissesNone(
      op: Operation, active: map<Guid, Session>, order: seq<Guid>, i: nat, finals: seq<Guid>)
    requires i <= |order| && Ordered(order) && forall j :: 0 <= j < |order| ==> order[j] in active
    requires forall j :: 0 <= j < |finals| ==> finals[j] in active
    ensures var r := Sweep(op, active, order, i, finals);
      && finals <= r.finals
      && (r.ok ==> forall j :: i <= j < |order| && Over(r.active[order[j]]) ==> order[j] in r.finals)
    decreases |order| - i
  {
    if i < |order| {
      var h := op(active[order[i]], 4 * i);
      var next := active[order[i] := h.session];
      var more := if Over(h.session) then finals + [order[i]] else finals;
      if h.ok {
        SweepMissesNone(op, next, order, i + 1, more);
        SweepShape(op, next, order, i + 1, more);
        assert Over(h.session) ==> more[|finals|] == order[i];
      }
    }
  }

  /** A sweep over all sessions that met no failure marks every one it left ended. */
  lemma SuccessMarksAll(op: Operation, active: map<Guid, Session>)
    ensures var r := SweepAll(op, active); r.ok ==> forall g :: g in r.active && Over(r.active[g]) ==> g in r.finals
  {
    var order := Ascending(active.Keys);
    SweepMissesNone(op, active, order, 0, []);
    assert forall g :: g in active ==> g in order;
  }

  /** A sweep over all sessions leaves each as it found it or as the operation makes it. */
  lemma SweptAt(op: Operation, active: map<Guid, Session>, g: Guid) returns (k: nat)
    requires g in active
    ensures var r := SweepAll(op, active);
      && (r.active[g] == active[g] || r.active[g] == op(active[g], k).session)
      && (r.ok ==> r.active[g] == op(active[g], k).session && op(active[g], k).ok)
  {
    var order := Ascending(active.Keys);
    SweepShape(op, active, order, 0, []);
    assert g in order;
    var j :| 0 <= j < |order| && order[j] == g;
    k := 4 * j;
  }

  /** A sweep that met a failure met it at some session. */
  lemma StoppedAt(op: Operation, active: map<Guid, Session>) returns (g: Guid, k: nat)
    requires !SweepAll(op, active).ok
    ensures g in active && !op(active[g], k).ok
  {
    var order := Ascending(active.Keys);
    SweepShape(op, active, order, 0, []);
    var j :| 0 <= j < |order| && !op(active[order[j]], 4 * j).ok;
    g, k := order[j], 4 * j;
  }

  lemma OneInOrder(s: set<Guid>, g: Guid)
    requires g in s && forall h :: h in s ==> h == g
    ensures Ascending(s) == [g]
  {
    var order := Ascending(s);
    assert g in order;
    assert forall i :: 0 <= i < |order| ==> order[i] in order;
    assert forall i :: 0 <= i < |order| ==> order[i] == g;
  }

  /** A sweep over one session is one operation on it. */
  lemma SweepOne(op: Operation, active: map<Guid, Session>, g: Guid)
    requires g in active && forall h :: h in active ==> h == g
    ensures var r := op(active[g], 0);
      SweepAll(op, active) == Swept(active[g := r.session], if r.ok && Over(r.session) then [g] else [], r.ok)
  {
    OneInOrder(active.Keys, g);
    var r := op(active[g], 0);
    var next := active[g := r.session];
    var finals := if Over(r.session) then [] + [g] else [];
    assert Sweep(op, next, [g], 1, finals) == Swept(next, finals, true);
  }

  // ---- sessions under their identifiers ----

  /** Sessions are held under their own identifiers, and those that wait have not been touched. */
  ghost predicate Filed(p: Provider) {
    var filed := (forall g :: g in p.active ==> p.active[g].id == g) &&
      forall i :: 0 <= i < |p.queue| ==> p.queue[i].phase == FRESH;
    filed
  }

  /** An operation that leaves a session under its identifier. */
  ghost predicate KeepsIds(op: Operation) { forall s, k: nat :: op(s, k).session.id == s.id }

  lemma OperationsKeepIds(script: Script)
    ensures KeepsIds(Failing(script)) && KeepsIds(Canceling(script)) && KeepsIds(Completing(script))
    ensures KeepsIds(Driving(script))
  {
    forall s: Session, k: nat
      ensures Failing(script)(s, k).session.id == s.id && Canceling(script)(s, k).session.id == s.id
      ensures Completing(script)(s, k).session.id == s.id && Driving(script)(s, k).session.id == s.id
    {
      assert HandleFailure(s, ServiceFailed, script(k)).session.id == s.id;
      assert HandleCancel(s, script(k)).session.id == s.id;
      assert Drive(s, script, k).session.id == s.id;
    }
  }

  lemma SweepKeepsFiled(op: Operation, p: Provider)
    requires Filed(p) && KeepsIds(op)
    ensures Filed(p.(active := SweepAll(op, p.active).active))
  {
    forall g | g in p.active ensures SweepAll(op, p.active).active[g].id == g { var k := SweptAt(op, p.active, g); }
  }

  lemma CancellationKeepsFiled(p: Provider, id: Guid, a: Answers)
    requires Filed(p)
    ensures Filed(Cancellation(p, id, a).provider)
  {
  }

  lemma ReplaceKeepsFiled(p: Provider, op: Operation, command: Command, a: Answers)
    requires Filed(p)
    ensures Filed(Replace(p, op, command, a).provider)
  {
  }

  lemma AmendKeepsFiled(p: Provider, command: Command, a: Answers, b: Answers)
    requires Filed(p) && command.sessionID in p.active
    ensures Filed(Amend(p, command, a, b).provider)
  {
  }

  lemma OvertakeKeepsFiled(behavior: IncomingCommandBehavior, p: Provider, command: Command, tick: Tick)
    requires Filed(p)
    ensures Filed(Overtake(behavior, p, command, tick).provider)
  {
    var a := tick.incoming(0);
    if behavior == CancelExisting {
      ReplaceKeepsFiled(p, Canceling(tick.ending), command, a);
    } else if behavior == CompleteExisting {
      ReplaceKeepsFiled(p, Completing(tick.ending), command, a);
    } else if behavior == AcceptConcurrent {
      assert Filed(Admit(p, command, a).provider);
    }
  }

  lemma NewCommandKeepsFiled(behavior: IncomingCommandBehavior, p: Provider, command: Command, tick: Tick)
    requires Filed(p)
    ensures Filed(NewCommand(behavior, p, command, tick).provider)
  {
    OvertakeKeepsFiled(behavior, p, command, tick);
    if command.sessionID in p.active { AmendKeepsFiled(p, command, tick.incoming(0), tick.incoming(1)); }
  }

  lemma IncomingKeepsFiled(behavior: IncomingCommandBehavior, p: Provider, tick: Tick)
    requires Filed(p)
    ensures Filed(HandleIncomingCommand(behavior, p, tick).provider)
  {
    if tick.sample.status == ReadSuccess {
      NewCommandKeepsFiled(behavior, p, tick.sample.data, tick);
    } else if tick.sample.status == Disposed {
      CancellationKeepsFiled(p, tick.sample.data.sessionID, tick.incoming(0));
    }
  }

  lemma FailAllKeepsFiled(p: Provider, script: Script)
    requires Filed(p)
    ensures Filed(FailAll(p, script))
  {
  }

  lemma CycleActiveKeepsFiled(behavior: IncomingCommandBehavior, p: Provider, script: Script)
    requires Filed(p)
    ensures Filed(CycleActive(behavior, p, script).provider)
  {
    OperationsKeepIds(script);
    SweepKeepsFiled(Driving(script), p);
  }

  lemma CycleKeepsFiled(behavior: IncomingCommandBehavior, p: Provider, tick: Tick)
    requires Filed(p)
    ensures Filed(Cycle(behavior, p, tick).provider)
  {
    var r := HandleIncomingCommand(behavior, p, tick);
    IncomingKeepsFiled(behavior, p, tick);
    FailAllKeepsFiled(p, tick.failing);
    FailAllKeepsFiled(r.provider, tick.failing);
    CycleActiveKeepsFiled(behavior, r.provider, tick.driving);
  }

  lemma DrivingLeavesNoneOver(behavior: IncomingCommandBehavior, p: Provider, script: Script)
    requires Filed(p) && CycleActive(behavior, p, script).ok
    ensures var q := CycleActive(behavior, p, script).provider; forall g :: g in q.active ==> !Over(q.active[g])
  {
    SuccessMarksAll(Driving(script), p.active);
  }

  /** A cycle that reports success leaves no session active that has ended. */
  lemma SuccessfulCycleLeavesNoneOver(behavior: IncomingCommandBehavior, p: Provider, tick: Tick)
    requires Filed(p) && Cycle(behavior, p, tick).ok
    ensures forall g :: g in Cycle(behavior, p, tick).provider.active ==>
      !Over(Cycle(behavior, p, tick).provider.active[g])
  {
    IncomingKeepsFiled(behavior, p, tick);
    var q := HandleIncomingCommand(behavior, p, tick).provider;
    if q.active != map[] { DrivingLeavesNoneOver(behavior, q, tick.driving); }
  }

  // ---- at most one session ----

  /** No two sessions are active, and only the queueing policy has any waiting. */
  ghost predicate Solo(behavior: IncomingCommandBehavior, p: Provider) {
    && (forall g, h :: g in p.active && h in p.active ==> g == h)
    && (behavior != QueueIncoming ==> p.queue == [])
  }

  lemma IncomingKeepsSolo(behavior: IncomingCommandBehavior, p: Provider, tick: Tick)
    requires behavior != AcceptConcurrent && Solo(behavior, p)
    ensures var r := HandleIncomingCommand(behavior, p, tick);
      && (r.ok ==> Solo(behavior, r.provider))
      && (behavior != QueueIncoming ==> r.provider.queue == [])
  {
  }

  lemma CycleKeepsSolo(behavior: IncomingCommandBehavior, p: Provider, tick: Tick)
    requires behavior != AcceptConcurrent && Solo(behavior, p)
    ensures Solo(behavior, Cycle(behavior, p, tick).provider)
  {
    IncomingKeepsSolo(behavior, p, tick);
  }

  /** Under every policy but the concurrent one, at most one session is active after every cycle of every run. */
  lemma {:induction false} AtMostOneActive(behavior: IncomingCommandBehavior, ticks: seq<Tick>)
    requires behavior != AcceptConcurrent
    ensures Solo(behavior, Run(behavior, ticks)) && |Run(behavior, ticks).active| <= 1
  {
    if ticks != [] {
      var before := ticks[..|ticks| - 1];
      AtMostOneActive(behavior, before);
      CycleKeepsSolo(behavior, Run(behavior, before), ticks[|ticks| - 1]);
    }
    AllAlike(Run(behavior, ticks).active.Keys);
  }

  lemma AllAlike(s: set<Guid>)
    requires forall g, h :: g in s && h in s ==> g == h
    ensures |s| <= 1
  {
    if s != {} {
      var m := SomeMember(s);
      FewerMembers(s, m);
      if s - {m} != {} { var n := SomeMember(s - {m}); }
    }
  }
}
