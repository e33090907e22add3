/** No session is lost or made twice; and under the queueing policy sessions become active in the order they arrived. */
module CommandQueue {
  import opened Common
  import opened CommandModel
  import opened CommandSafety

  function Ids(sessions: seq<Session>): (ids: seq<Guid>)
    ensures |ids| == |sessions| && forall i :: 0 <= i < |ids| ==> ids[i] == sessions[i].id
  {
    seq(|sessions|, i requires 0 <= i < |sessions| => sessions[i].id)
  }

  // ---- conservation ----

  /** The identifiers of all sessions there are or were, as often as they were used. */
  ghost function Held(p: Provider): multiset<Guid> {
    multiset(p.active.Keys) + multiset(Ids(p.queue)) + multiset(Ids(p.retired))
  }

  ghost predicate Conserved(p: Provider) { Filed(p) && multiset(p.arrived) == Held(p) }

  lemma Distinct<T>(s: seq<T>, x: T)
    requires NoDuplicates(s)
    ensures multiset(s)[x] == if x in s then 1 else 0
  {
    if s != [] {
      var n := |s| - 1;
      assert s == s[..n] + [s[n]];
      Distinct(s[..n], x);
    }
  }

  lemma TakenOut<T>(s: set<T>, ids: seq<T>, left: set<T>)
    requires NoDuplicates(ids) && forall i :: 0 <= i < |ids| ==> ids[i] in s
    requires forall x :: x in left <==> x in s && x !in ids
    ensures multiset(s) == multiset(left) + multiset(ids)
  {
    forall x ensures multiset(s)[x] == multiset(left)[x] + multiset(ids)[x] { Distinct(ids, x); }
  }

  lemma RetireConserves(p: Provider, ids: seq<Guid>)
    requires NoDuplicates(ids) && (forall i :: 0 <= i < |ids| ==> ids[i] in p.active)
    requires forall g :: g in p.active ==> p.active[g].id == g
    ensures Held(Retire(p, ids)) == Held(p)
  {
    var q := Retire(p, ids);
    var before, after, old_ids, new_ids := p.active.Keys, q.active.Keys, Ids(p.retired), Ids(q.retired);
    assert multiset(before) == multiset(after) + multiset(ids) by {
      LeftActive(p, ids);
      TakenOut(before, ids, after);
    }
    assert multiset(new_ids) == multiset(old_ids) + multiset(ids) by { RetiredIds(p, ids); }
    Regroup(multiset(after), multiset(ids), multiset(Ids(p.queue)), multiset(old_ids));
  }

  lemma RetiredIds(p: Provider, ids: seq<Guid>)
    requires forall i :: 0 <= i < |ids| ==> ids[i] in p.active && p.active[ids[i]].id == ids[i]
    ensures Ids(Retire(p, ids).retired) == Ids(p.retired) + ids
  {
  }

  lemma Regroup<T>(a: multiset<T>, b: multiset<T>, c: multiset<T>, d: multiset<T>)
    ensures (a + b) + c + d == a + c + (d + b)
  {
  }

  lemma LeftActive(p: Provider, ids: seq<Guid>)
    requires forall i :: 0 <= i < |ids| ==> ids[i] in p.active
    ensures forall g :: g in Retire(p, ids).active.Keys <==> g in p.active.Keys && g !in ids
  {
  }

  lemma OrderIsDistinct(order: seq<Guid>)
    requires Ordered(order)
    ensures NoDuplicates(order)
  {
  }

  lemma RetireAllConserves(p: Provider)
    requires Filed(p)
    ensures Held(RetireAll(p)) == Held(p)
  {
    OrderIsDistinct(Ascending(p.active.Keys));
    RetireConserves(p, Ascending(p.active.Keys));
  }

  /** Replacing the sessions held under the same identifiers changes no count. */
  lemma SameKeysConserve(p: Provider, active: map<Guid, Session>)
    requires active.Keys == p.active.Keys
    ensures Held(p.(active := active)) == Held(p)
  {
  }

  lemma FailAllConserves(p: Provider, script: Script)
    requires Filed(p)
    ensures Held(FailAll(p, script)) == Held(p)
  {
    var q := p.(active := SweepAll(Failing(script), p.active).active);
    OperationsKeepIds(script);
    SweepKeepsFiled(Failing(script), p);
    SameKeysConserve(p, q.active);
    RetireAllConserves(q);
  }

  lemma PromoteConserves(p: Provider)
    requires p.queue != [] && p.queue[0].id !in p.active
    ensures Held(Promote(p)) == Held(p)
  {
    var q := Promote(p);
    var id := p.queue[0].id;
    assert Ids(p.queue) == [id] + Ids(q.queue);
    assert q.active.Keys == p.active.Keys + {id};
    assert multiset(p.active.Keys + {id}) == multiset(p.active.Keys) + multiset{id};
    Shift(multiset(p.active.Keys), multiset{id}, multiset(Ids(q.queue)), multiset(Ids(p.retired)));
  }

  lemma Shift<T>(a: multiset<T>, b: multiset<T>, c: multiset<T>, d: multiset<T>)
    ensures (a + b) + c + d == a + (b + c) + d
  {
  }

  lemma DrivenConserves(p: Provider, script: Script)
    requires Filed(p)
    ensures Held(Driven(p, script)) == Held(p)
  {
    var swept := SweepAll(Driving(script), p.active);
    SweepMarks(Driving(script), p.active, Ascending(p.active.Keys), 0, []);
    OperationsKeepIds(script);
    SweepKeepsFiled(Driving(script), p);
    SameKeysConserve(p, swept.active);
    RetireConserves(p.(active := swept.active), swept.finals);
  }

  lemma LettingInConserves(behavior: IncomingCommandBehavior, p: Provider)
    ensures Held(LetIn(behavior, p)) == Held(p)
  {
    if p.active == map[] && p.queue != [] { PromoteConserves(p); }
  }

  lemma CycleActiveConserves(behavior: IncomingCommandBehavior, p: Provider, script: Script)
    requires Filed(p)
    ensures Held(CycleActive(behavior, p, script).provider) == Held(p)
  {
    DrivenConserves(p, script);
    LettingInConserves(behavior, Driven(p, script));
  }

  lemma AdmitConserves(p: Provider, command: Command, a: Answers)
    requires Conserved(p) && command.sessionID !in p.active
    ensures Conserved(Admit(p, command, a).provider)
  {
    var q := Admit(p, command, a).provider;
    var id := command.sessionID;
    assert q.active.Keys == p.active.Keys + {id};
    assert multiset(p.active.Keys + {id}) == multiset(p.active.Keys) + multiset{id};
    assert multiset(q.arrived) == multiset(p.arrived) + multiset{id};
    Insert(multiset(p.active.Keys), multiset{id}, multiset(Ids(p.queue)), multiset(Ids(p.retired)));
  }

  lemma Insert<T>(a: multiset<T>, b: multiset<T>, c: multiset<T>, d: multiset<T>)
    ensures (a + b) + c + d == a + c + d + b
  {
  }

  lemma EnqueueConserves(p: Provider, command: Command, a: Answers)
    requires Conserved(p)
    ensures Conserved(Enqueue(p, command, a))
  {
    var q := Enqueue(p, command, a);
    var id := command.sessionID;
    assert Ids(q.queue) == Ids(p.queue) + [id];
    assert multiset(q.arrived) == multiset(p.arrived) + multiset{id};
    Insert(multiset(p.active.Keys), multiset{id}, multiset(Ids(p.queue)), multiset(Ids(p.retired)));
    Shift(multiset(p.active.Keys), multiset(Ids(p.queue)), multiset{id}, multiset(Ids(p.retired)));
  }

  lemma RejectConserves(p: Provider, command: Command, a: Answers, b: Answers)
    requires Conserved(p)
    ensures Conserved(Reject(p, command, a, b))
  {
    var q := Reject(p, command, a, b);
    var id := command.sessionID;
    assert Ids(q.retired) == Ids(p.retired) + [id];
    assert multiset(q.arrived) == multiset(p.arrived) + multiset{id};
  }

  lemma ReplaceConserves(p: Provider, op: Operation, command: Command, a: Answers)
    requires Conserved(p) && KeepsIds(op)
    ensures Conserved(Replace(p, op, command, a).provider)
  {
    var q := p.(active := SweepAll(op, p.active).active);
    SweepKeepsFiled(op, p);
    SameKeysConserve(p, q.active);
    RetireAllConserves(q);
    if SweepAll(op, p.active).ok { AdmitConserves(RetireAll(q), command, a); }
  }

  lemma OvertakeConserves(behavior: IncomingCommandBehavior, p: Provider, command: Command, tick: Tick)
    requires Conserved(p) && command.sessionID !in p.active
    ensures Conserved(Overtake(behavior, p, command, tick).provider)
  {
    var a := tick.incoming(0);
    OperationsKeepIds(tick.ending);
    if behavior == CancelExisting {
      ReplaceConserves(p, Canceling(tick.ending), command, a);
    } else if behavior == CompleteExisting {
      ReplaceConserves(p, Completing(tick.ending), command, a);
    } else if behavior == AcceptConcurrent {
      AdmitConserves(p, command, a);
    } else if behavior == QueueIncoming {
      EnqueueConserves(p, command, a);
    } else {
      RejectConserves(p, command, a, tick.incoming(1));
    }
  }

  /** Waiting sessions wait behind at most one active one. */
  ghost predicate Behind(p: Provider) {
    p.queue != [] ==> forall g, h :: g in p.active && h in p.active ==> g == h
  }

  /** The waiting session takes the place of the canceled one under the same identifier. */
  lemma OustedConserves(p: Provider, s: Session)
    requires Filed(p) && s.id in p.active && p.queue != [] && p.queue[0].id == s.id
    ensures Held(Promote(p.(retired := p.retired + [s]))) == Held(p)
  {
    var q := Promote(p.(retired := p.retired + [s]));
    assert q.active.Keys == p.active.Keys;
    assert Ids(p.queue) == [s.id] + Ids(q.queue);
    assert Ids(q.retired) == Ids(p.retired) + [s.id];
    Swap(multiset(p.active.Keys), multiset{s.id}, multiset(Ids(q.queue)), multiset(Ids(p.retired)));
  }

  lemma Swap<T>(a: multiset<T>, b: multiset<T>, c: multiset<T>, d: multiset<T>)
    ensures a + (b + c) + d == a + c + (d + b)
  {
  }

  lemma MarkedConserves(p: Provider, s: Session)
    requires Filed(p) && Behind(p) && s.id in p.active && !(p.queue != [] && p.queue[0].id == s.id)
    ensures var marked := p.(active := p.active[s.id := s]);
      Held(if p.queue != [] then Promote(marked) else marked) == Held(p)
  {
    var marked := p.(active := p.active[s.id := s]);
    SameKeysConserve(p, marked.active);
    if p.queue != [] { PromoteConserves(marked); }
  }

  lemma CancelActiveConserves(p: Provider, id: Guid, a: Answers)
    requires Conserved(p) && Behind(p) && id in p.active
    ensures Conserved(CancelActive(p, id, a).provider)
  {
    var r := HandleCancel(p.active[id], a);
    var ousted := p.queue != [] && p.queue[0].id == id;
    var marked := if ousted then p.(retired := p.retired + [r.session])
                  else p.(active := p.active[id := r.session]);
    var q := if p.queue != [] then Promote(marked) else marked;
    assert Held(q) == Held(p) by {
      if ousted { OustedConserves(p, r.session); } else { MarkedConserves(p, r.session); }
    }
    CancellationKeepsFiled(p, id, a);
    if r.ok { RetireConserves(q, [id]); }
  }

  lemma CancelQueuedConserves(p: Provider, i: nat, a: Answers)
    requires Conserved(p) && i < |p.queue|
    ensures Conserved(CancelQueued(p, i, a).provider)
  {
    var q := CancelQueued(p, i, a).provider;
    var id := p.queue[i].id;
    var ids := Ids(p.queue);
    assert Ids(q.queue) == ids[..i] + ids[i + 1..];
    assert ids == ids[..i] + [id] + ids[i + 1..];
    assert Ids(q.retired) == Ids(p.retired) + [id];
  }

  lemma NewCommandConserves(behavior: IncomingCommandBehavior, p: Provider, command: Command, tick: Tick)
    requires Conserved(p)
    ensures Conserved(NewCommand(behavior, p, command, tick).provider)
  {
    if p.active == map[] {
      AdmitConserves(p, command, tick.incoming(0));
    } else if command.sessionID in p.active {
      AmendKeepsFiled(p, command, tick.incoming(0), tick.incoming(1));
      var q := Amend(p, command, tick.incoming(0), tick.incoming(1)).provider;
      SameKeysConserve(p, q.active);
    } else {
      OvertakeConserves(behavior, p, command, tick);
    }
  }

  lemma CancellationConserves(p: Provider, id: Guid, a: Answers)
    requires Conserved(p) && Behind(p)
    ensures Conserved(Cancellation(p, id, a).provider)
  {
    if id in p.active {
      CancelActiveConserves(p, id, a);
    } else if FirstWithId(p.queue, id) < |p.queue| {
      CancelQueuedConserves(p, FirstWithId(p.queue, id), a);
    }
  }

  lemma IncomingConserves(behavior: IncomingCommandBehavior, p: Provider, tick: Tick)
    requires Conserved(p) && Behind(p)
    ensures Conserved(HandleIncomingCommand(behavior, p, tick).provider)
  {
    if tick.sample.status == ReadSuccess {
      NewCommandConserves(behavior, p, tick.sample.data, tick);
    } else if tick.sample.status == Disposed {
      CancellationConserves(p, tick.sample.data.sessionID, tick.incoming(0));
    }
  }

  lemma CycleConserves(behavior: IncomingCommandBehavior, p: Provider, tick: Tick)
    requires Conserved(p) && Behind(p)
    ensures Conserved(Cycle(behavior, p, tick).provider)
  {
    if !tick.awake && p.active != map[] {
      AbandonConserves(p, tick.failing);
    } else {
      IncomingConserves(behavior, p, tick);
      ConcludeConserves(behavior, HandleIncomingCommand(behavior, p, tick), tick);
    }
  }

  lemma AbandonConserves(p: Provider, script: Script)
    requires Conserved(p)
    ensures Conserved(FailAll(p, script))
  {
    FailAllConserves(p, script);
    FailAllKeepsFiled(p, script);
  }

  lemma WorkConserves(behavior: IncomingCommandBehavior, p: Provider, script: Script)
    requires Conserved(p)
    ensures Conserved(CycleActive(behavior, p, script).provider)
  {
    CycleActiveConserves(behavior, p, script);
    CycleActiveKeepsFiled(behavior, p, script);
  }

  lemma ConcludeConserves(behavior: IncomingCommandBehavior, r: Handled, tick: Tick)
    requires Conserved(r.provider)
    ensures Conserved(Conclude(behavior, r, tick).provider)
  {
    if !r.ok {
      AbandonConserves(r.provider, tick.failing);
    } else if r.provider.active != map[] {
      WorkConserves(behavior, r.provider, tick.driving);
    }
  }

  lemma IncomingWithoutQueue(behavior: IncomingCommandBehavior, p: Provider, tick: Tick)
    requires behavior != QueueIncoming && p.queue == []
    ensures HandleIncomingCommand(behavior, p, tick).provider.queue == []
  {
  }

  lemma OnlyQueueingWaits(behavior: IncomingCommandBehavior, p: Provider, tick: Tick)
    requires behavior != QueueIncoming && p.queue == []
    ensures Cycle(behavior, p, tick).provider.queue == []
  {
    IncomingWithoutQueue(behavior, p, tick);
  }

  /** In every run, every session made is active, waiting or destroyed, and none is two of these. */
  lemma {:induction false} NoSessionLost(behavior: IncomingCommandBehavior, ticks: seq<Tick>)
    ensures var q := Run(behavior, ticks);
      && Behind(q) && (behavior != QueueIncoming ==> q.queue == [])
      && multiset(q.arrived) == multiset(q.active.Keys) + multiset(Ids(q.queue)) + multiset(Ids(q.retired))
      && Conserved(q)
  {
    if ticks != [] {
      var p, tick := Run(behavior, ticks[..|ticks| - 1]), ticks[|ticks| - 1];
      NoSessionLost(behavior, ticks[..|ticks| - 1]);
      CycleConserves(behavior, p, tick);
      if behavior == QueueIncoming { AtMostOneActive(behavior, ticks); } else { OnlyQueueingWaits(behavior, p, tick); }
    }
  }
}
