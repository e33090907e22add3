/** The command consumer: one command session at a time, opened only after the last one ended. */
module CommandConsuming {
  import opened Common
  import opened CommandStates
  import opened CommandModel

  datatype StatusMessage = StatusMessage(source: Guid, sessionID: Guid, phase: Phase)

  /** What a consumer does that others can see, and every sample it takes off its status reader. */
  datatype Event =
    | Opened(id: Guid)
    | Sent(command: Command)
    | Taken(sample: SampleEnvelope<StatusMessage>)
    | Closed(id: Guid)

  /**
   A consumer: the header's destination and session, whether a session is open, whether a command is alive, the status
   samples its reader still holds, and its history.
   */
  datatype Consumer = Consumer(
    destination: Guid,
    sessionId: Guid,
    open: bool,
    alive: bool,
    pending: seq<SampleEnvelope<StatusMessage>>,
    events: seq<Event>)

  /** The session hooks' results, the senders' answers, and the identifier the factory issues next. */
  datatype Replies = Replies(setUp: SendStatus, tearDown: SendStatus, disposed: SendStatus, sent: SendStatus, id: Guid)

  datatype Closing = Closing(consumer: Consumer, status: SendStatus)
  datatype Reading = Reading(consumer: Consumer, status: ReadStatus)
  datatype Checked = Checked(consumer: Consumer, ok: bool)

  predicate Delivers(status: ReadStatus) { status == ReadSuccess || status == Disposed }

  function CloseCommandSession(c: Consumer, replies: Replies): Closing {
    if !c.open || replies.tearDown == SendError || replies.disposed != SendSuccess then Closing(c, SendError)
    else Closing(c.(open := false, events := c.events + [Event.Closed(c.sessionId)]), SendSuccess)
  }

  predicate IsValidStatus(c: Consumer, message: StatusMessage) {
    message.source == c.destination && message.sessionID == c.sessionId
  }

  /** Notes a status; a terminal one ends the command and closes its session. */
  function Note(c: Consumer, sample: SampleEnvelope<StatusMessage>, replies: Replies): Reading {
    if !IsStateFinal(sample.data.phase.status) then Reading(c, sample.status)
    else
      var d := c.(alive := false);
      if !d.open then Reading(d, sample.status)
      else
        var r := CloseCommandSession(d, replies);
        Reading(r.consumer, if r.status == SendSuccess then sample.status else ReadError)
  }

  /** The consumer after taking the next sample off its reader. */
  function TakeNext(c: Consumer): Consumer
    requires c.pending != []
  {
    c.(pending := c.pending[1..], events := c.events + [Event.Taken(c.pending[0])])
  }

  /** Reads up to and including the next status for this consumer. */
  function ReadCommandStatus(c: Consumer, replies: Replies): (r: Reading)
    ensures Delivers(r.status) ==> |r.consumer.pending| < |c.pending|
    decreases |c.pending|
  {
    if !c.alive then Reading(c, InvalidData)
    else if c.pending == [] then Reading(c, NoData)
    else
      var sample, d := c.pending[0], TakeNext(c);
      if Delivers(sample.status) && IsValidStatus(d, sample.data) then Note(d, sample, replies)
      else if sample.status == NoData then Reading(d, NoData)
      else ReadCommandStatus(d, replies)
  }

  function HasCommandTerminated(c: Consumer, replies: Replies): Checked
    decreases |c.pending|
  {
    if !c.alive then Checked(c, true)
    else
      var r := ReadCommandStatus(c, replies);
      if Delivers(r.status) then HasCommandTerminated(r.consumer, replies) else Checked(r.consumer, false)
  }

  function OpenCommandSession(c: Consumer, replies: Replies): Checked {
    if c.open then Checked(c, false)
    else
      var r := HasCommandTerminated(c, replies);
      if !r.ok then r
      else if replies.setUp == SendError then Checked(r.consumer.(sessionId := NIL_GUID), false)
      else
        Checked(r.consumer.(sessionId := replies.id, open := true,
                            events := r.consumer.events + [Event.Opened(replies.id)]), true)
  }

  function Transmit(c: Consumer, order: string, replies: Replies): Closing {
    Closing(if replies.sent != SendSuccess then c
            else c.(alive := true, events := c.events + [Event.Sent(Command(c.sessionId, order))]), replies.sent)
  }

  function Send(c: Consumer, order: string, replies: Replies): Closing {
    var d := if c.open then HasCommandTerminated(c, replies).consumer else c;
    var r := if d.open then Checked(d, true) else OpenCommandSession(d, replies);
    if !r.ok then Closing(r.consumer, SendError) else Transmit(r.consumer, order, replies)
  }

  // ---- discipline ----

  /** A terminal status of the session `id`, delivered to a consumer of the provider `destination`. */
  predicate Ends(sample: SampleEnvelope<StatusMessage>, destination: Guid, id: Guid) {
    && Delivers(sample.status) && sample.data.source == destination && sample.data.sessionID == id
    && sample.data.phase.status in {CommandStatus.Completed, CommandStatus.Canceled, CommandStatus.Failed}
  }

  ghost predicate EndRead(events: seq<Event>, i: nat, destination: Guid, id: Guid) {
    exists k :: i < k < |events| && events[k].Taken? && Ends(events[k].sample, destination, id)
  }

  ghost predicate CloseSent(events: seq<Event>, i: nat, id: Guid) {
    exists k :: i < k < |events| && events[k] == Event.Closed(id)
  }

  /** Every command sent has been ended and closed since, unless it is the one that is alive or still open. */
  ghost predicate Tracked(c: Consumer) {
    && (forall i :: 0 <= i < |c.events| && c.events[i].Sent? ==>
          var id := c.events[i].command.sessionID;
          && (EndRead(c.events, i, c.destination, id) || (c.alive && id == c.sessionId))
          && (CloseSent(c.events, i, id) || (c.open && id == c.sessionId)))
  }

  /** Between a command and a later session, a terminal status for the command was read and its dispose was sent. */
  ghost predicate OneAtATime(events: seq<Event>, destination: Guid) {
    forall i, j :: 0 <= i < j < |events| && events[i].Sent? && events[j].Opened? ==>
      var id := events[i].command.sessionID;
      EndRead(events[..j], i, destination, id) && CloseSent(events[..j], i, id)
  }

  ghost predicate Disciplined(c: Consumer) {
    var disciplined := Tracked(c) && OneAtATime(c.events, c.destination);
    disciplined
  }

  lemma LaterStays(events: seq<Event>, e: Event)
    ensures forall i: nat, destination, id ::
      EndRead(events, i, destination, id) ==> EndRead(events + [e], i, destination, id)
    ensures forall i: nat, id :: CloseSent(events, i, id) ==> CloseSent(events + [e], i, id)
    ensures e.Closed? ==> forall i: nat :: i < |events| ==> CloseSent(events + [e], i, e.id)
    ensures e.Taken? ==> forall i: nat, destination, id ::
      i < |events| && Ends(e.sample, destination, id) ==> EndRead(events + [e], i, destination, id)
  {
    var more := events + [e];
    assert more[|events|] == e && forall k :: 0 <= k < |events| ==> more[k] == events[k];
    forall i: nat, destination, id | EndRead(events, i, destination, id) ensures EndRead(more, i, destination, id) {
      var k :| i < k < |events| && events[k].Taken? && Ends(events[k].sample, destination, id);
      assert more[k] == events[k];
    }
    forall i: nat, id | CloseSent(events, i, id) ensures CloseSent(more, i, id) {
      var k :| i < k < |events| && events[k] == Event.Closed(id);
      assert more[k] == events[k];
    }
  }

  lemma PrefixesStay(events: seq<Event>, e: Event)
    ensures forall j :: 0 <= j <= |events| ==> (events + [e])[..j] == events[..j]
  {
  }

  /** Taking a sample keeps the discipline, and if it ends the session, so does letting go of the command. */
  lemma TakeKeeps(c: Consumer)
    requires Disciplined(c) && c.pending != []
    ensures Disciplined(TakeNext(c))
    ensures Ends(c.pending[0], c.destination, c.sessionId) ==> Disciplined(TakeNext(c).(alive := false))
  {
    LaterStays(c.events, Event.Taken(c.pending[0]));
    PrefixesStay(c.events, Event.Taken(c.pending[0]));
  }

  lemma CloseKeeps(c: Consumer, replies: Replies)
    requires Disciplined(c)
    ensures Disciplined(CloseCommandSession(c, replies).consumer)
  {
    LaterStays(c.events, Event.Closed(c.sessionId));
    PrefixesStay(c.events, Event.Closed(c.sessionId));
  }

  lemma NoteKeeps(c: Consumer, replies: Replies)
    requires Disciplined(c) && c.pending != [] && Delivers(c.pending[0].status)
    requires IsValidStatus(c, c.pending[0].data)
    ensures Disciplined(Note(TakeNext(c), c.pending[0], replies).consumer)
  {
    TakeKeeps(c);
    FinalStatuses(c.pending[0].data.phase.status);
    if IsStateFinal(c.pending[0].data.phase.status) { CloseKeeps(TakeNext(c).(alive := false), replies); }
  }

  lemma {:induction false} ReadKeeps(c: Consumer, replies: Replies)
    requires Disciplined(c)
    ensures Disciplined(ReadCommandStatus(c, replies).consumer)
    decreases |c.pending|
  {
    if c.alive && c.pending != [] {
      TakeKeeps(c);
      if Delivers(c.pending[0].status) && IsValidStatus(c, c.pending[0].data) {
        NoteKeeps(c, replies);
      } else {
        ReadKeeps(TakeNext(c), replies);
      }
    }
  }

  lemma {:induction false} TerminatedKeeps(c: Consumer, replies: Replies)
    requires Disciplined(c)
    ensures var r := HasCommandTerminated(c, replies);
      Disciplined(r.consumer) && (r.ok ==> !r.consumer.alive) && (!c.open ==> !r.consumer.open)
    decreases |c.pending|
  {
    if c.alive {
      var r := ReadCommandStatus(c, replies);
      ReadKeeps(c, replies);
      if !c.open { NeverOpens(c, replies); }
      if Delivers(r.status) { TerminatedKeeps(r.consumer, replies); }
    }
  }

  lemma {:induction false} NeverOpens(c: Consumer, replies: Replies)
    requires !c.open
    ensures !ReadCommandStatus(c, replies).consumer.open
    decreases |c.pending|
  {
    if c.alive && c.pending != [] { NeverOpens(TakeNext(c), replies); }
  }

  /** A session is opened only when nothing sent is alive or unclosed. */
  lemma OpeningKeeps(c: Consumer, id: Guid)
    requires Disciplined(c) && !c.open && !c.alive
    ensures Disciplined(c.(sessionId := id, open := true, events := c.events + [Event.Opened(id)]))
    ensures Disciplined(c.(sessionId := NIL_GUID))
  {
    LaterStays(c.events, Event.Opened(id));
    PrefixesStay(c.events, Event.Opened(id));
  }

  lemma OpenKeeps(c: Consumer, replies: Replies)
    requires Disciplined(c)
    ensures Disciplined(OpenCommandSession(c, replies).consumer)
  {
    if !c.open {
      var r := HasCommandTerminated(c, replies);
      TerminatedKeeps(c, replies);
      if r.ok { OpeningKeeps(r.consumer, replies.id); }
    }
  }

  lemma TransmitKeeps(c: Consumer, order: string, replies: Replies)
    requires Disciplined(c) && c.open
    ensures Disciplined(Transmit(c, order, replies).consumer)
  {
    var e := Event.Sent(Command(c.sessionId, order));
    LaterStays(c.events, e);
    PrefixesStay(c.events, e);
  }

  lemma SendKeeps(c: Consumer, order: string, replies: Replies)
    requires Disciplined(c)
    ensures Disciplined(Send(c, order, replies).consumer)
  {
    TerminatedKeeps(c, replies);
    var d := if c.open then HasCommandTerminated(c, replies).consumer else c;
    OpenKeeps(d, replies);
    var r := if d.open then Checked(d, true) else OpenCommandSession(d, replies);
    if r.ok { TransmitKeeps(r.consumer, order, replies); }
  }

  // ---- the consumer as an object ----

  class CommandConsumer {
    const destination: Guid
    var sessionId: Guid
    var isSessionOpen: bool
    var isCommandAlive: bool
    var statuses: seq<SampleEnvelope<StatusMessage>>
    ghost var events: seq<Event>

    constructor (destination: Guid)
      ensures State() == Consumer(destination, NIL_GUID, false, false, [], [])
    {
      this.destination := destination;
      sessionId := NIL_GUID;
      isSessionOpen, isCommandAlive := false, false;
      statuses, events := [], [];
    }

    ghost function State(): Consumer
      reads this
    {
      Consumer(destination, sessionId, isSessionOpen, isCommandAlive, statuses, events)
    }

    method CloseSession(replies: Replies) returns (status: SendStatus)
      modifies this
      ensures Closing(State(), status) == CloseCommandSession(old(State()), replies)
    {
      if !isSessionOpen { return SendError; }
      if replies.tearDown == SendError { return SendError; }
      if replies.disposed != SendSuccess { return SendError; }
      events := events + [Event.Closed(sessionId)];
      isSessionOpen := false;
      status := SendSuccess;
    }

    /** Takes the next sample off the status reader. */
    method Take() returns (sample: Option<SampleEnvelope<StatusMessage>>)
      modifies this`statuses, this`events
      ensures old(statuses) == [] ==> sample == None && State() == old(State())
      ensures old(statuses) != [] ==> sample == Some(old(statuses)[0]) && State() == TakeNext(old(State()))
    {
      if statuses == [] { return None; }
      sample := Some(statuses[0]);
      events := events + [Event.Taken(statuses[0])];
      statuses := statuses[1..];
    }

    method NoteStatus(sample: SampleEnvelope<StatusMessage>, replies: Replies) returns (status: ReadStatus)
      modifies this
      ensures Reading(State(), status) == Note(old(State()), sample, replies)
    {
      status := sample.status;
      if !IsStateFinal(sample.data.phase.status) { return; }
      isCommandAlive := false;
      if isSessionOpen {
        var closed := CloseSession(replies);
        if closed != SendSuccess { status := ReadError; }
      }
    }

    method ReadStatusMessage(replies: Replies) returns (status: ReadStatus)
      modifies this
      ensures Reading(State(), status) == ReadCommandStatus(old(State()), replies)
    {
      if !isCommandAlive { return InvalidData; }
      var validData := false;
      status := ReadSuccess;
      while !validData && status != NoData
        invariant ReadCommandStatus(old(State()), replies) ==
          if validData || status == NoData then Reading(State(), status) else ReadCommandStatus(State(), replies)
        invariant !validData && status != NoData ==> isCommandAlive
        decreases |statuses|, status != NoData && !validData
      {
        var sample := Take();
        if sample == None {
          status := NoData;
        } else {
          status := sample.value.status;
          if Delivers(status) && sample.value.data.source == destination && sample.value.data.sessionID == sessionId {
            validData := true;
            status := NoteStatus(sample.value, replies);
          }
        }
      }
    }

    method HasTerminated(replies: Replies) returns (ended: bool)
      modifies this
      ensures Checked(State(), ended) == HasCommandTerminated(old(State()), replies)
    {
      while isCommandAlive
        invariant HasCommandTerminated(old(State()), replies) == HasCommandTerminated(State(), replies)
        decreases |statuses|
      {
        var status := ReadStatusMessage(replies);
        if !Delivers(status) { return false; }
      }
      ended := true;
    }

    method OpenSession(replies: Replies) returns (ok: bool)
      modifies this
      ensures Checked(State(), ok) == OpenCommandSession(old(State()), replies)
    {
      if isSessionOpen { return false; }
      var ended := HasTerminated(replies);
      if !ended { return false; }
      sessionId := NIL_GUID;
      if replies.setUp == SendError { return false; }
      sessionId := replies.id;
      isSessionOpen := true;
      events := events + [Event.Opened(sessionId)];
      ok := true;
    }

    method SendCommand(order: string, replies: Replies) returns (status: SendStatus)
      modifies this
      ensures Closing(State(), status) == Send(old(State()), order, replies)
    {
      if isSessionOpen { var ended := HasTerminated(replies); }
      if !isSessionOpen {
        var ready := OpenSession(replies);
        if !ready { return SendError; }
      }
      status := replies.sent;
      if status == SendSuccess {
        isCommandAlive := true;
        events := events + [Event.Sent(Command(sessionId, order))];
      }
    }
  }
}
