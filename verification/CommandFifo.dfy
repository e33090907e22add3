/** Under the queueing policy, when nothing fails, sessions become active in order of arrival and none waits idly. */
module CommandFifo {
  import opened Common
  import opened CommandStates
  import opened CommandModel
  import opened CommandSafety
  import opened CommandQueue

  /** The members of s that are not in w, in order. */
  function Without(s: seq<Guid>, w: seq<Guid>): seq<Guid> {
    if s == [] then []
    else
      var n := |s| - 1;
      if s[n] in w then Without(s[..n], w) else Without(s[..n], w) + [s[n]]
  }

  lemma {:induction false} WithoutMembers(s: seq<Guid>, w: seq<Guid>)
    ensures forall g :: g in Without(s, w) <==> g in s && g !in w
    ensures NoDuplicates(s) ==> NoDuplicates(Without(s, w))
  {
    if s != [] {
      var n := |s| - 1;
      assert s == s[..n] + [s[n]];
      WithoutMembers(s[..n], w);
    }
  }

  lemma {:induction false} WithoutOneMore(s: seq<Guid>, w: seq<Guid>, x: Guid)
    ensures Without(s, w + [x]) == Without(Without(s, w), [x])
  {
    if s != [] {
      var n := |s| - 1;
      WithoutOneMore(s[..n], w, x);
      if s[n] !in w {
        var kept := Without(s[..n], w) + [s[n]];
        assert kept[..|kept| - 1] == Without(s[..n], w);
      }
    }
  }

  lemma {:induction false} WithoutAbsent(s: seq<Guid>, x: Guid)
    requires x !in s
    ensures Without(s, [x]) == s
  {
    if s != [] {
      var n := |s| - 1;
      assert s == s[..n] + [s[n]];
      WithoutAbsent(s[..n], x);
    }
  }

  lemma {:induction false} WithoutPresent(a: seq<Guid>, x: Guid, b: seq<Guid>)
    requires x !in a && x !in b
    ensures Without(a + [x] + b, [x]) == a + b
  {
    var s := a + [x] + b;
    var n := |s| - 1;
    if b == [] {
      assert s[..n] == a && a + b == a;
      WithoutAbsent(a, x);
    } else {
      var m := |b| - 1;
      assert b == b[..m] + [b[m]];
      assert s[..n] == a + [x] + b[..m] && s[n] == b[m];
      WithoutPresent(a, x, b[..m]);
      assert a + b == a + b[..m] + [b[m]];
    }
  }

  // ---- runs without failure ----

  /** The callbacks succeed and nothing sent fails. A command may still be found invalid, or fail while it executes. */
  ghost predicate Smooth(script: Script) {
    forall k: nat ::
      && script(k).updated && script(k).ended
      && script(k).status != SendError && script(k).ack != SendError && script(k).execution != SendError
  }

  ghost predicate SmoothTick(tick: Tick) {
    && tick.awake
    && tick.sample.status != ReadError && tick.sample.status != ReadNotImplemented
    && Smooth(tick.incoming) && Smooth(tick.driving)
  }

  lemma {:induction false} SmoothDrive(s: Session, script: Script, k: nat)
    requires Smooth(script)
    ensures !Drive(s, script, k).ok ==> !Over(Drive(s, script, k).session)
    decreases 3 - Rank(s.phase.status)
  {
    var r := CycleSession(s, script(k));
    SmoothSession(s, script(k));
    if r.ok && r.session.phase.status != s.phase.status { SmoothDrive(r.session, script, k + 1); }
  }

  /** Without failing callbacks and sends, only a failure reason out of place stops a session, and leaves it running. */
  lemma SmoothSession(s: Session, a: Answers)
    requires a.ended && a.status != SendError && a.execution != SendError
    ensures !CycleSession(s, a).ok ==> s.phase.status == Executing && CycleSession(s, a).session == s
  {
  }

  /**
   The sessions that became active, then those that wait, are those that arrived and were not canceled while waiting;
   and none waits while the provider is idle.
   */
  ghost predicate Queued(p: Provider) {
    var queued :=
      && Without(p.arrived, p.withdrawn) == p.started + Ids(p.queue)
      && (p.queue != [] ==> p.active != map[])
      && (forall g :: g in p.withdrawn ==> g in p.arrived)
      && (forall g :: g in p.active ==> g in p.started);
    queued
  }

  ghost predicate Single(p: Provider) {
    var single := Filed(p) && forall g, h :: g in p.active && h in p.active ==> g == h;
    single
  }

  ghost predicate Running(p: Provider) { forall g :: g in p.active ==> !Over(p.active[g]) }

  lemma AdmitKeepsQueued(p: Provider, command: Command, a: Answers)
    requires Queued(p) && Single(p) && p.active == map[] && command.sessionID !in p.arrived
    ensures Queued(Admit(p, command, a).provider) && Single(Admit(p, command, a).provider)
  {
    var id := command.sessionID;
    assert (p.arrived + [id])[..|p.arrived|] == p.arrived;
    assert p.started + [id] + Ids(p.queue) == p.started + Ids(p.queue) + [id];
  }

  lemma EnqueueKeepsQueued(p: Provider, command: Command, a: Answers)
    requires Queued(p) && Single(p) && p.active != map[] && command.sessionID !in p.arrived
    ensures Queued(Enqueue(p, command, a)) && Single(Enqueue(p, command, a))
  {
    var q := Enqueue(p, command, a);
    var id := command.sessionID;
    assert (p.arrived + [id])[..|p.arrived|] == p.arrived;
    assert Ids(q.queue) == Ids(p.queue) + [id];
    assert p.started + Ids(q.queue) == p.started + Ids(p.queue) + [id];
  }

  lemma FrontId(queue: seq<Session>)
    requires queue != []
    ensures Ids(queue) == [queue[0].id] + Ids(queue[1..])
  {
  }

  /** The identifiers of started and waiting sessions are all different. */
  lemma StartedOrWaiting(p: Provider)
    requires Queued(p) && NoDuplicates(p.arrived)
    ensures NoDuplicates(p.started + Ids(p.queue))
  {
    WithoutMembers(p.arrived, p.withdrawn);
  }

  /** The first waiting session takes the place of the only active one. */
  lemma SucceedKeepsQueued(p: Provider, q: Provider)
    requires Queued(p) && Filed(p) && p.queue != []
    requires q.arrived == p.arrived && q.withdrawn == p.withdrawn
    requires q.queue == p.queue[1..] && q.started == p.started + [p.queue[0].id]
    requires HoldsOnly(q, p.queue[0])
    ensures Queued(q) && Single(q) && Running(q)
  {
    var front, rest := p.queue[0].id, Ids(q.queue);
    FrontId(p.queue);
    Associates(p.started, [front], rest);
  }

  lemma Associates<T>(a: seq<T>, b: seq<T>, c: seq<T>)
    ensures a + (b + c) == a + b + c
  {
  }

  ghost predicate HoldsOnly(p: Provider, s: Session) {
    s.id in p.active && p.active[s.id] == s && forall g :: g in p.active ==> g == s.id
  }

  lemma CancelActiveKeepsQueued(p: Provider, id: Guid, a: Answers)
    requires Queued(p) && Single(p) && Running(p) && NoDuplicates(p.arrived) && id in p.active
    requires a.ended && a.status != SendError && a.execution != SendError
    ensures var r := CancelActive(p, id, a); r.ok && Queued(r.provider) && Single(r.provider)
  {
    var q := CancelActive(p, id, a).provider;
    if p.queue != [] {
      var next := p.queue[0].id;
      StartedOrWaiting(p);
      assert next != id by {
        var all := p.started + Ids(p.queue);
        var i :| 0 <= i < |p.started| && p.started[i] == id;
        assert all[i] == id && all[|p.started|] == next;
      }
      assert HoldsOnly(q, p.queue[0]);
      SucceedKeepsQueued(p, q);
    }
  }

  lemma CancelQueuedKeepsQueued(p: Provider, i: nat, a: Answers)
    requires Queued(p) && Single(p) && NoDuplicates(p.arrived) && i < |p.queue|
    requires a.ended && a.status != SendError && a.execution != SendError
    ensures var r := CancelQueued(p, i, a); r.ok && Queued(r.provider) && Single(r.provider)
  {
    var q := CancelQueued(p, i, a).provider;
    var id, ids := p.queue[i].id, Ids(p.queue);
    assert Ids(q.queue) == ids[..i] + ids[i + 1..];
    WithdrawnFrom(p, i);
    assert p.started + ids[..i] + ids[i + 1..] == p.started + Ids(q.queue);
    WithoutMembers(p.arrived, p.withdrawn);
    assert id == (p.started + ids)[|p.started| + i];
  }

  lemma WithdrawnFrom(p: Provider, i: nat)
    requires Queued(p) && NoDuplicates(p.arrived) && i < |p.queue|
    ensures var ids := Ids(p.queue);
      Without(p.arrived, p.withdrawn + [ids[i]]) == p.started + ids[..i] + ids[i + 1..]
  {
    var ids := Ids(p.queue);
    var before, id, after := p.started + ids[..i], ids[i], ids[i + 1..];
    assert ids == ids[..i] + [id] + after;
    assert p.started + ids == before + [id] + after;
    StartedOrWaiting(p);
    OnlyOnce(before, id, after);
    WithoutOneMore(p.arrived, p.withdrawn, id);
    WithoutPresent(before, id, after);
  }

  lemma OnlyOnce<T>(a: seq<T>, x: T, b: seq<T>)
    requires NoDuplicates(a + [x] + b)
    ensures x !in a && x !in b
  {
    var s := a + [x] + b;
    assert s[|a|] == x;
    forall i | 0 <= i < |a| ensures a[i] != x { assert s[i] == a[i]; }
    forall i | 0 <= i < |b| ensures b[i] != x { assert s[|a| + 1 + i] == b[i]; }
  }

  lemma AmendKeepsQueued(p: Provider, command: Command, a: Answers, b: Answers)
    requires Queued(p) && Single(p) && Running(p) && command.sessionID in p.active
    requires a.updated && a.status != SendError
    requires b.ended && b.status != SendError && b.execution != SendError
    ensures var r := Amend(p, command, a, b); r.ok && Queued(r.provider) && Single(r.provider)
  {
    AmendKeepsFiled(p, command, a, b);
  }

  lemma NewCommandKeepsQueued(p: Provider, command: Command, tick: Tick)
    requires Queued(p) && Single(p) && Running(p) && Smooth(tick.incoming)
    requires command.sessionID in p.active || command.sessionID !in p.arrived
    ensures var r := NewCommand(QueueIncoming, p, command, tick); r.ok && Queued(r.provider) && Single(r.provider)
  {
    var a := tick.incoming(0);
    if p.active == map[] {
      AdmitKeepsQueued(p, command, a);
    } else if command.sessionID in p.active {
      AmendKeepsQueued(p, command, a, tick.incoming(1));
    } else {
      EnqueueKeepsQueued(p, command, a);
    }
  }

  lemma CancellationKeepsQueued(p: Provider, id: Guid, a: Answers)
    requires Queued(p) && Single(p) && Running(p) && NoDuplicates(p.arrived)
    requires a.ended && a.status != SendError && a.execution != SendError
    ensures var r := Cancellation(p, id, a); r.ok && Queued(r.provider) && Single(r.provider)
  {
    if id in p.active {
      CancelActiveKeepsQueued(p, id, a);
    } else if FirstWithId(p.queue, id) < |p.queue| {
      CancelQueuedKeepsQueued(p, FirstWithId(p.queue, id), a);
    }
  }

  /** Whether the sample makes a new session. */
  predicate Arrives(p: Provider, sample: SampleEnvelope<Command>) {
    sample.status == ReadSuccess && sample.data.sessionID !in p.active
  }

  lemma IncomingKeepsQueued(p: Provider, tick: Tick)
    requires Queued(p) && Single(p) && Running(p) && NoDuplicates(p.arrived) && SmoothTick(tick)
    requires Arrives(p, tick.sample) ==> tick.sample.data.sessionID !in p.arrived
    ensures var r := HandleIncomingCommand(QueueIncoming, p, tick); r.ok && Queued(r.provider) && Single(r.provider)
  {
    if tick.sample.status == ReadSuccess { NewCommandKeepsQueued(p, tick.sample.data, tick); }
    if tick.sample.status == Disposed { CancellationKeepsQueued(p, tick.sample.data.sessionID, tick.incoming(0)); }
  }

  /** Driving the only session erases it if it ended and otherwise leaves it running. */
  lemma DrivenAlone(p: Provider, g: Guid, script: Script)
    requires Single(p) && Smooth(script) && g in p.active
    ensures var q := Driven(p, script);
      && (q.active == map[] || Running(q)) && Single(q)
      && (forall h :: h in q.active ==> h == g)
      && q.queue == p.queue && q.arrived == p.arrived && q.withdrawn == p.withdrawn && q.started == p.started
  {
    SweepOne(Driving(script), p.active, g);
    SmoothDrive(p.active[g], script, 0);
    assert Drive(p.active[g], script, 0).session.id == g;
  }

  lemma CycleActiveKeepsQueued(p: Provider, script: Script)
    requires Queued(p) && Single(p) && Smooth(script) && p.active != map[]
    ensures var q := CycleActive(QueueIncoming, p, script).provider; Queued(q) && Single(q) && Running(q)
  {
    var g := SomeMember(p.active.Keys);
    DrivenAlone(p, g, script);
    var q := Driven(p, script);
    if q.active == map[] && q.queue != [] {
      SucceedKeepsQueued(p, Promote(q));
    }
  }

  lemma CycleKeepsQueued(p: Provider, tick: Tick)
    requires Queued(p) && Single(p) && Running(p) && NoDuplicates(p.arrived) && SmoothTick(tick)
    requires Arrives(p, tick.sample) ==> tick.sample.data.sessionID !in p.arrived
    ensures var q := Cycle(QueueIncoming, p, tick).provider; Queued(q) && Single(q) && Running(q)
  {
    IncomingKeepsQueued(p, tick);
    var r := HandleIncomingCommand(QueueIncoming, p, tick);
    if r.provider.active != map[] { CycleActiveKeepsQueued(r.provider, tick.driving); }
  }

  /** A session is made for each command read under an identifier that is not active. */
  lemma ArrivalsAreRead(p: Provider, tick: Tick)
    requires SmoothTick(tick)
    ensures Cycle(QueueIncoming, p, tick).provider.arrived ==
      p.arrived + if Arrives(p, tick.sample) then [tick.sample.data.sessionID] else []
  {
    IncomingArrivals(p, tick);
  }

  lemma IncomingArrivals(p: Provider, tick: Tick)
    requires SmoothTick(tick)
    ensures HandleIncomingCommand(QueueIncoming, p, tick).provider.arrived ==
      p.arrived + if Arrives(p, tick.sample) then [tick.sample.data.sessionID] else []
  {
  }

  /**
   First in, first out: over every run in which no identifier is used for two sessions, the sessions made active and
   then those that wait are, in order, the ones that arrived without those canceled while they waited; and a session
   waits only while another is active.
   */
  lemma {:induction false} FirstInFirstOut(ticks: seq<Tick>)
    requires forall i :: 0 <= i < |ticks| ==> SmoothTick(ticks[i])
    requires NoDuplicates(Run(QueueIncoming, ticks).arrived)
    ensures var q := Run(QueueIncoming, ticks);
      && Without(q.arrived, q.withdrawn) == q.started + Ids(q.queue)
      && (q.queue != [] ==> q.active != map[])
    ensures var q := Run(QueueIncoming, ticks); Queued(q) && Single(q) && Running(q)
  {
    if ticks != [] {
      var before, tick := ticks[..|ticks| - 1], ticks[|ticks| - 1];
      var p, q := Run(QueueIncoming, before), Run(QueueIncoming, ticks);
      ArrivalsAreRead(p, tick);
      assert p.arrived == q.arrived[..|p.arrived|];
      FirstInFirstOut(before);
      if Arrives(p, tick.sample) { assert q.arrived[|p.arrived|] == tick.sample.data.sessionID; }
      CycleKeepsQueued(p, tick);
    }
  }
}
