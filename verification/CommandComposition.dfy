/**
 One consumer and one provider over a channel that keeps commands in order. Whatever fails at either end, the provider
 never reads a command under a new identifier while it has a session.
 */
module CommandComposition {
  import opened Common
  import opened CommandStates
  import opened CommandModel
  import opened CommandConsuming

  // ---- the channel ----

  /** What an event of the consumer puts on the command channel. */
  function OnChannel(e: Event): seq<SampleEnvelope<Command>> {
    match e
    case Sent(command) => [SampleEnvelope(command, ReadSuccess)]
    case Closed(id) => [SampleEnvelope(Command(id, ""), Disposed)]
    case _ => []
  }

  function Channel(events: seq<Event>): seq<SampleEnvelope<Command>> {
    if events == [] then [] else Channel(events[..|events| - 1]) + OnChannel(events[|events| - 1])
  }

  /** Another identifier comes only right after a dispose. */
  ghost predicate Alternates(channel: seq<SampleEnvelope<Command>>) {
    forall i, j {:trigger channel[i], channel[j]} :: 0 <= i && j == i + 1 < |channel| ==>
      channel[i].status == Disposed || channel[i].data.sessionID == channel[j].data.sessionID
  }

  /** The last sample sent is a dispose, or belongs to the session that is still open. */
  ghost predicate Orderly(c: Consumer) {
    var channel := Channel(c.events);
    var orderly := Alternates(channel) && (channel != [] ==>
      var last := channel[|channel| - 1];
      last.status == Disposed || (c.open && last.data.sessionID == c.sessionId));
    orderly
  }

  lemma ChannelStep(events: seq<Event>, e: Event)
    ensures Channel(events + [e]) == Channel(events) + OnChannel(e)
  {
    assert (events + [e])[..|events|] == events;
  }

  /** The consumer goes on: it keeps its history and the order of its commands. */
  ghost predicate Proceeds(c: Consumer, d: Consumer) {
    var proceeds := c.events <= d.events && Channel(c.events) <= Channel(d.events) && Orderly(d)
      && c.destination == d.destination;
    proceeds
  }

  lemma Transitive(c: Consumer, d: Consumer, e: Consumer)
    requires Proceeds(c, d) && Proceeds(d, e)
    ensures Proceeds(c, e)
  {
  }

  /** Nothing that leaves the channel and an open session as they are disturbs the order. */
  lemma SilentProceeds(c: Consumer, d: Consumer)
    requires Orderly(c) && c.events <= d.events && Channel(d.events) == Channel(c.events)
    requires c.destination == d.destination
    requires c.open ==> d.open && d.sessionId == c.sessionId
    ensures Proceeds(c, d)
  {
  }

  lemma AlternatesOn(channel: seq<SampleEnvelope<Command>>, next: SampleEnvelope<Command>)
    requires Alternates(channel)
    requires channel != [] ==>
      var last := channel[|channel| - 1]; last.status == Disposed || last.data.sessionID == next.data.sessionID
    ensures Alternates(channel + [next])
  {
  }

  /** A sample that may follow the last one, and leaves the order open or ended. */
  lemma SpokenProceeds(c: Consumer, d: Consumer, e: Event, sample: SampleEnvelope<Command>)
    requires Orderly(c) && d.events == c.events + [e] && OnChannel(e) == [sample] && c.destination == d.destination
    requires sample.status == Disposed || (d.open && d.sessionId == sample.data.sessionID)
    requires c.open ==> c.sessionId == sample.data.sessionID
    requires !c.open ==> Channel(c.events) == [] || Channel(c.events)[|Channel(c.events)| - 1].status == Disposed
    ensures Proceeds(c, d)
  {
    var channel := Channel(c.events);
    ChannelStep(c.events, e);
    AlternatesOn(channel, sample);
    assert (channel + [sample])[|channel|] == sample;
  }

  lemma CloseProceeds(c: Consumer, replies: Replies)
    requires Orderly(c)
    ensures Proceeds(c, CloseCommandSession(c, replies).consumer)
  {
    var d := CloseCommandSession(c, replies).consumer;
    if d == c {
      SilentProceeds(c, d);
    } else {
      SpokenProceeds(c, d, Event.Closed(c.sessionId), SampleEnvelope(Command(c.sessionId, ""), Disposed));
    }
  }

  lemma NoteProceeds(c: Consumer, sample: SampleEnvelope<StatusMessage>, replies: Replies)
    requires Orderly(c)
    ensures Proceeds(c, Note(c, sample, replies).consumer)
  {
    if IsStateFinal(sample.data.phase.status) {
      var d := c.(alive := false);
      SilentProceeds(c, d);
      CloseProceeds(d, replies);
      Transitive(c, d, CloseCommandSession(d, replies).consumer);
    } else {
      SilentProceeds(c, c);
    }
  }

  lemma TakeProceeds(c: Consumer)
    requires Orderly(c) && c.pending != []
    ensures Proceeds(c, TakeNext(c))
  {
    ChannelStep(c.events, Event.Taken(c.pending[0]));
    SilentProceeds(c, TakeNext(c));
  }

  lemma {:induction false} ReadProceeds(c: Consumer, replies: Replies)
    requires Orderly(c)
    ensures Proceeds(c, ReadCommandStatus(c, replies).consumer)
    decreases |c.pending|
  {
    var e := ReadCommandStatus(c, replies).consumer;
    if c.alive && c.pending != [] {
      var sample, d := c.pending[0], TakeNext(c);
      TakeProceeds(c);
      if Delivers(sample.status) && IsValidStatus(d, sample.data) {
        NoteProceeds(d, sample, replies);
      } else if sample.status == NoData {
        SilentProceeds(d, d);
      } else {
        ReadProceeds(d, replies);
      }
      Transitive(c, d, e);
    } else {
      SilentProceeds(c, e);
    }
  }

  lemma {:induction false} TerminatedProceeds(c: Consumer, replies: Replies)
    requires Orderly(c)
    ensures Proceeds(c, HasCommandTerminated(c, replies).consumer)
    decreases |c.pending|
  {
    if c.alive {
      var r := ReadCommandStatus(c, replies);
      ReadProceeds(c, replies);
      if Delivers(r.status) {
        TerminatedProceeds(r.consumer, replies);
        Transitive(c, r.consumer, HasCommandTerminated(c, replies).consumer);
      }
    } else {
      SilentProceeds(c, c);
    }
  }

  lemma {:induction false} StaysClosed(c: Consumer, replies: Replies)
    requires !c.open
    ensures !HasCommandTerminated(c, replies).consumer.open
    decreases |c.pending|
  {
    if c.alive {
      var r := ReadCommandStatus(c, replies);
      NeverOpens(c, replies);
      if Delivers(r.status) { StaysClosed(r.consumer, replies); }
    }
  }

  lemma OpenProceeds(c: Consumer, replies: Replies)
    requires Orderly(c)
    ensures Proceeds(c, OpenCommandSession(c, replies).consumer)
  {
    var d, e := HasCommandTerminated(c, replies).consumer, OpenCommandSession(c, replies).consumer;
    if c.open {
      SilentProceeds(c, e);
    } else {
      TerminatedProceeds(c, replies);
      StaysClosed(c, replies);
      ChannelStep(d.events, Event.Opened(replies.id));
      SilentProceeds(d, e);
      Transitive(c, d, e);
    }
  }

  lemma TransmitProceeds(c: Consumer, order: string, replies: Replies)
    requires Orderly(c) && c.open
    ensures Proceeds(c, Transmit(c, order, replies).consumer)
  {
    var d, command := Transmit(c, order, replies).consumer, Command(c.sessionId, order);
    if replies.sent == SendSuccess {
      SpokenProceeds(c, d, Event.Sent(command), SampleEnvelope(command, ReadSuccess));
    } else {
      SilentProceeds(c, d);
    }
  }

  lemma SendProceeds(c: Consumer, order: string, replies: Replies)
    requires Orderly(c)
    ensures Proceeds(c, Send(c, order, replies).consumer)
  {
    var d := if c.open then HasCommandTerminated(c, replies).consumer else c;
    assert Proceeds(c, d) by { TerminatedProceeds(c, replies); }
    var r := if d.open then Checked(d, true) else OpenCommandSession(d, replies);
    assert Proceeds(d, r.consumer) by { OpenProceeds(d, replies); }
    Transitive(c, d, r.consumer);
    if r.ok {
      TransmitProceeds(r.consumer, order, replies);
      Transitive(c, r.consumer, Transmit(r.consumer, order, replies).consumer);
    }
  }

  // ---- the provider at the other end ----

  /** No session is active but, at most, the one whose command was read last. */
  ghost predicate Follows(p: Provider, read: seq<SampleEnvelope<Command>>) {
    var follows := p.queue == [] && forall g :: g in p.active ==>
      read != [] && read[|read| - 1].status == ReadSuccess && g == read[|read| - 1].data.sessionID;
    follows
  }

  /** Handling what comes next on the channel leaves at most its own session, unless the whole cycle fails. */
  lemma IncomingFollows(behavior: IncomingCommandBehavior, p: Provider, read: seq<SampleEnvelope<Command>>, tick: Tick)
    requires Follows(p, read) && Delivers(tick.sample.status) && Alternates(read + [tick.sample])
    ensures var r := HandleIncomingCommand(behavior, p, tick);
      && (r.ok ==> Follows(r.provider, read + [tick.sample]))
      && r.provider.queue == []
    ensures tick.sample.status == ReadSuccess && tick.sample.data.sessionID !in p.active ==> p.active == map[]
  {
    var next := read + [tick.sample];
    if read != [] { assert next[|read|] == tick.sample && next[|read| - 1] == read[|read| - 1]; }
    if tick.sample.status == ReadSuccess && tick.sample.data.sessionID !in p.active {
      assert forall g :: g !in p.active;
    }
  }

  lemma CycleActiveFollows(behavior: IncomingCommandBehavior, p: Provider, read: seq<SampleEnvelope<Command>>,
                           script: Script)
    requires Follows(p, read)
    ensures Follows(CycleActive(behavior, p, script).provider, read)
  {
  }

  lemma FailAllEmpties(p: Provider, script: Script)
    ensures forall g :: g !in FailAll(p, script).active
    ensures FailAll(p, script).queue == p.queue
  {
  }

  lemma CycleFollows(behavior: IncomingCommandBehavior, p: Provider, read: seq<SampleEnvelope<Command>>, tick: Tick)
    requires Follows(p, read)
    requires Delivers(tick.sample.status) ==> Alternates(read + [tick.sample])
    ensures Follows(Cycle(behavior, p, tick).provider,
                    if Delivers(tick.sample.status) then read + [tick.sample] else read)
  {
    var more := if Delivers(tick.sample.status) then read + [tick.sample] else read;
    if !tick.awake && p.active != map[] {
      FailAllEmpties(p, tick.failing);
    } else {
      var r := HandleIncomingCommand(behavior, p, tick);
      if Delivers(tick.sample.status) { IncomingFollows(behavior, p, read, tick); }
      ConcludeFollows(behavior, r, more, tick);
    }
  }

  lemma ConcludeFollows(behavior: IncomingCommandBehavior, r: Handled, read: seq<SampleEnvelope<Command>>, tick: Tick)
    requires r.provider.queue == [] && (r.ok ==> Follows(r.provider, read))
    ensures Follows(Conclude(behavior, r, tick).provider, read)
  {
    FailAllEmpties(r.provider, tick.failing);
    if r.ok { CycleActiveFollows(behavior, r.provider, read, tick.driving); }
  }

  // ---- the two together ----

  /** The consumer, how many of its samples the provider's reader has taken, and the provider. */
  datatype System = System(consumer: Consumer, taken: nat, provider: Provider)

  datatype Action =
    | Ordering(order: string, replies: Replies)
    | Checking(replies: Replies)
    | Opening(replies: Replies)
    | Closing(replies: Replies)
    | Arriving(statuses: seq<SampleEnvelope<StatusMessage>>)
    | Cycling(tick: Tick)

  /** What the provider's reader returns: the next sample on the channel if it reports one. */
  function Fetched(s: System, tick: Tick): Tick {
    var channel := Channel(s.consumer.events);
    if !Delivers(tick.sample.status) then tick
    else if s.taken < |channel| then tick.(sample := channel[s.taken])
    else tick.(sample := tick.sample.(status := NoData))
  }

  /** Whether the cycle gets as far as reading. */
  predicate Reads(s: System, tick: Tick) {
    (tick.awake || s.provider.active == map[]) && Delivers(Fetched(s, tick).sample.status)
  }

  function Act(behavior: IncomingCommandBehavior, s: System, action: Action): System {
    match action
    case Ordering(order, replies) => s.(consumer := Send(s.consumer, order, replies).consumer)
    case Checking(replies) => s.(consumer := ReadCommandStatus(s.consumer, replies).consumer)
    case Opening(replies) => s.(consumer := OpenCommandSession(s.consumer, replies).consumer)
    case Closing(replies) => s.(consumer := CloseCommandSession(s.consumer, replies).consumer)
    case Arriving(statuses) => s.(consumer := s.consumer.(pending := s.consumer.pending + statuses))
    case Cycling(tick) =>
      s.(provider := Cycle(behavior, s.provider, Fetched(s, tick)).provider,
         taken := if Reads(s, tick) then s.taken + 1 else s.taken)
  }

  function Start(destination: Guid): System {
    System(Consumer(destination, NIL_GUID, false, false, [], []), 0, IDLE)
  }

  function RunAll(behavior: IncomingCommandBehavior, destination: Guid, actions: seq<Action>): System {
    if actions == [] then Start(destination)
    else
      var n := |actions| - 1;
      Act(behavior, RunAll(behavior, destination, actions[..n]), actions[n])
  }

  ghost predicate Coupled(s: System) {
    var channel := Channel(s.consumer.events);
    var coupled := Orderly(s.consumer) && s.taken <= |channel| && Follows(s.provider, channel[..s.taken]);
    coupled
  }

  lemma ConsumerKeepsCoupled(s: System, c: Consumer)
    requires Coupled(s) && Proceeds(s.consumer, c)
    ensures Coupled(s.(consumer := c))
  {
    var before, after := Channel(s.consumer.events), Channel(c.events);
    assert after[..s.taken] == before[..s.taken];
  }

  lemma FetchedAlternates(s: System, tick: Tick)
    requires Coupled(s) && Delivers(Fetched(s, tick).sample.status)
    ensures var channel := Channel(s.consumer.events);
      && s.taken < |channel|
      && channel[..s.taken + 1] == channel[..s.taken] + [Fetched(s, tick).sample]
      && Alternates(channel[..s.taken] + [Fetched(s, tick).sample])
  {
    var channel := Channel(s.consumer.events);
    assert channel[..s.taken + 1] == channel[..s.taken] + [channel[s.taken]];
    assert Alternates(channel[..s.taken + 1]);
  }

  lemma CycleKeepsCoupled(behavior: IncomingCommandBehavior, s: System, tick: Tick)
    requires Coupled(s)
    ensures Coupled(Act(behavior, s, Cycling(tick)))
  {
    CycledFollows(behavior, s, tick);
  }

  lemma CycledFollows(behavior: IncomingCommandBehavior, s: System, tick: Tick)
    requires Coupled(s)
    ensures var r, channel := Act(behavior, s, Cycling(tick)), Channel(s.consumer.events);
      r.taken <= |channel| && Follows(r.provider, channel[..r.taken])
  {
    var fetched, channel := Fetched(s, tick), Channel(s.consumer.events);
    var read := channel[..s.taken];
    if Reads(s, tick) {
      FetchedAlternates(s, tick);
      CycleFollows(behavior, s.provider, read, fetched);
    } else {
      UnreadFollows(behavior, s.provider, read, fetched);
    }
  }

  /** A cycle that does not get as far as reading, or reads nothing. */
  lemma UnreadFollows(behavior: IncomingCommandBehavior, p: Provider, read: seq<SampleEnvelope<Command>>, tick: Tick)
    requires Follows(p, read) && ((!tick.awake && p.active != map[]) || !Delivers(tick.sample.status))
    ensures Follows(Cycle(behavior, p, tick).provider, read)
  {
    if !tick.awake && p.active != map[] {
      FailAllEmpties(p, tick.failing);
    } else {
      CycleFollows(behavior, p, read, tick);
    }
  }

  lemma ActProceeds(behavior: IncomingCommandBehavior, s: System, action: Action)
    requires Coupled(s)
    ensures Proceeds(s.consumer, Act(behavior, s, action).consumer)
  {
    match action
    case Ordering(order, replies) => SendProceeds(s.consumer, order, replies);
    case Checking(replies) => ReadProceeds(s.consumer, replies);
    case Opening(replies) => OpenProceeds(s.consumer, replies);
    case Closing(replies) => CloseProceeds(s.consumer, replies);
    case Arriving(statuses) => SilentProceeds(s.consumer, Act(behavior, s, action).consumer);
    case Cycling(tick) => SilentProceeds(s.consumer, s.consumer);
  }

  lemma ActKeepsCoupled(behavior: IncomingCommandBehavior, s: System, action: Action)
    requires Coupled(s)
    ensures Coupled(Act(behavior, s, action))
  {
    if action.Cycling? {
      CycleKeepsCoupled(behavior, s, action.tick);
    } else {
      ActProceeds(behavior, s, action);
      ConsumerKeepsCoupled(s, Act(behavior, s, action).consumer);
    }
  }

  lemma {:induction false} RunsStayCoupled(behavior: IncomingCommandBehavior, destination: Guid, actions: seq<Action>)
    ensures Coupled(RunAll(behavior, destination, actions))
    ensures RunAll(behavior, destination, actions).consumer.destination == destination
  {
    if actions != [] {
      var n := |actions| - 1;
      RunsStayCoupled(behavior, destination, actions[..n]);
      ActProceeds(behavior, RunAll(behavior, destination, actions[..n]), actions[n]);
      ActKeepsCoupled(behavior, RunAll(behavior, destination, actions[..n]), actions[n]);
    }
  }

  /**
   In every run, with any policy and whatever fails, a command under an identifier that is not active is read only
   when the provider has no session, active or waiting.
   */
  lemma NeverOvertakes(behavior: IncomingCommandBehavior, destination: Guid, actions: seq<Action>, tick: Tick)
    ensures var s := RunAll(behavior, destination, actions);
      var sample := Fetched(s, tick).sample;
      && s.provider.queue == []
      && (sample.status == ReadSuccess && sample.data.sessionID !in s.provider.active ==> s.provider.active == map[])
  {
    RunsStayCoupled(behavior, destination, actions);
    NotOvertaken(RunAll(behavior, destination, actions), tick);
  }

  /** So the policy for commands that come too early makes no difference to what the two do. */
  lemma {:induction false} PolicyIsIrrelevant(one: IncomingCommandBehavior, other: IncomingCommandBehavior,
                                              destination: Guid, actions: seq<Action>)
    ensures RunAll(one, destination, actions) == RunAll(other, destination, actions)
  {
    if actions != [] {
      var n := |actions| - 1;
      var s := RunAll(one, destination, actions[..n]);
      PolicyIsIrrelevant(one, other, destination, actions[..n]);
      RunsStayCoupled(one, destination, actions[..n]);
      SameAct(one, other, s, actions[n]);
    }
  }

  lemma SameAct(one: IncomingCommandBehavior, other: IncomingCommandBehavior, s: System, action: Action)
    requires Coupled(s)
    ensures Act(one, s, action) == Act(other, s, action)
  {
    if action.Cycling? {
      NotOvertaken(s, action.tick);
      SameCycle(one, other, s.provider, Fetched(s, action.tick));
    }
  }

  lemma NotOvertaken(s: System, tick: Tick)
    requires Coupled(s)
    ensures var sample := Fetched(s, tick).sample;
      && s.provider.queue == []
      && (sample.status == ReadSuccess && sample.data.sessionID !in s.provider.active ==> s.provider.active == map[])
  {
    var fetched := Fetched(s, tick);
    if fetched.sample.status == ReadSuccess {
      FetchedAlternates(s, tick);
      IncomingFollows(AcceptConcurrent, s.provider, Channel(s.consumer.events)[..s.taken], fetched);
    }
  }

  lemma SameIncoming(one: IncomingCommandBehavior, other: IncomingCommandBehavior, p: Provider, tick: Tick)
    requires tick.sample.status == ReadSuccess && tick.sample.data.sessionID !in p.active ==> p.active == map[]
    ensures HandleIncomingCommand(one, p, tick) == HandleIncomingCommand(other, p, tick)
  {
  }

  lemma NothingQueued(behavior: IncomingCommandBehavior, p: Provider, tick: Tick)
    requires p.queue == []
    requires tick.sample.status == ReadSuccess && tick.sample.data.sessionID !in p.active ==> p.active == map[]
    ensures HandleIncomingCommand(behavior, p, tick).provider.queue == []
  {
  }

  lemma SameConclude(one: IncomingCommandBehavior, other: IncomingCommandBehavior, r: Handled, tick: Tick)
    requires r.provider.queue == []
    ensures Conclude(one, r, tick) == Conclude(other, r, tick)
  {
    assert Driven(r.provider, tick.driving).queue == [];
  }

  lemma SameCycle(one: IncomingCommandBehavior, other: IncomingCommandBehavior, p: Provider, tick: Tick)
    requires p.queue == []
    requires tick.sample.status == ReadSuccess && tick.sample.data.sessionID !in p.active ==> p.active == map[]
    ensures Cycle(one, p, tick) == Cycle(other, p, tick)
  {
    SameIncoming(one, other, p, tick);
    NothingQueued(one, p, tick);
    SameConclude(one, other, HandleIncomingCommand(one, p, tick), tick);
  }

  // ---- the consumer's side of the protocol ----

  lemma ActKeepsDisciplined(behavior: IncomingCommandBehavior, s: System, action: Action)
    requires Disciplined(s.consumer)
    ensures Disciplined(Act(behavior, s, action).consumer)
  {
    match action
    case Ordering(order, replies) => SendKeeps(s.consumer, order, replies);
    case Checking(replies) => ReadKeeps(s.consumer, replies);
    case Opening(replies) => OpenKeeps(s.consumer, replies);
    case Closing(replies) => CloseKeeps(s.consumer, replies);
    case Arriving(statuses) =>
    case Cycling(tick) =>
  }

  /**
   In every run, between a command and a session opened after it, a sample was read that carries a terminal status of
   the command's session from its provider, and the command's dispose was sent.
   */
  lemma OpensAfterTheEnd(behavior: IncomingCommandBehavior, destination: Guid, actions: seq<Action>, i: nat, j: nat)
    requires var events := RunAll(behavior, destination, actions).consumer.events;
      i < j < |events| && events[i].Sent? && events[j].Opened?
    ensures var events := RunAll(behavior, destination, actions).consumer.events;
      var id := events[i].command.sessionID;
      && (exists k :: i < k < j && events[k].Taken? && Delivers(events[k].sample.status)
            && events[k].sample.data.source == destination && events[k].sample.data.sessionID == id
            && events[k].sample.data.phase.status in
                 {CommandStatus.Completed, CommandStatus.Canceled, CommandStatus.Failed})
      && exists k :: i < k < j && events[k] == Event.Closed(id)
  {
    RunsStayDisciplined(behavior, destination, actions);
    RunsStayCoupled(behavior, destination, actions);
    var events := RunAll(behavior, destination, actions).consumer.events;
    var id := events[i].command.sessionID;
    assert EndRead(events[..j], i, destination, id) && CloseSent(events[..j], i, id);
    var k :| i < k < j && events[..j][k].Taken? && Ends(events[..j][k].sample, destination, id);
    assert events[..j][k] == events[k];
    var l :| i < l < j && events[..j][l] == Event.Closed(id);
    assert events[..j][l] == events[l];
  }

  lemma {:induction false} RunsStayDisciplined(
      behavior: IncomingCommandBehavior, destination: Guid, actions: seq<Action>)
    ensures Disciplined(RunAll(behavior, destination, actions).consumer)
  {
    if actions != [] {
      var n := |actions| - 1;
      RunsStayDisciplined(behavior, destination, actions[..n]);
      ActKeepsDisciplined(behavior, RunAll(behavior, destination, actions[..n]), actions[n]);
    }
  }
}
