/** What the consumer's calls come to, told by the samples that wait for it and by what others see of it. */
module ConsumerEffects {
  import opened Common
  import opened CommandStates
  import opened CommandModel
  import opened CommandConsuming

  function AllTaken(samples: seq<SampleEnvelope<StatusMessage>>): (events: seq<Event>)
    ensures |events| == |samples|
  {
    seq(|samples|, i requires 0 <= i < |samples| => Event.Taken(samples[i]))
  }

  /** The sample is delivered, from the consumer's provider, and of its session. */
  predicate IsFor(c: Consumer, sample: SampleEnvelope<StatusMessage>) {
    Delivers(sample.status) && sample.data.source == c.destination && sample.data.sessionID == c.sessionId
  }

  /** The samples before position n are neither for the consumer nor the end of the data. */
  ghost predicate Passes(c: Consumer, n: nat) {
    n <= |c.pending| && forall i :: 0 <= i < n ==> c.pending[i].status != NoData && !IsFor(c, c.pending[i])
  }

  /** The consumer after the first n samples have been taken, and nothing else. */
  function After(c: Consumer, n: nat): Consumer
    requires n <= |c.pending|
  {
    c.(pending := c.pending[n..], events := c.events + AllTaken(c.pending[..n]))
  }

  lemma AfterOne(c: Consumer, n: nat)
    requires n < |c.pending|
    ensures After(TakeNext(c), n) == After(c, n + 1)
  {
    assert c.pending[1..][..n] == c.pending[1..n + 1];
    assert AllTaken(c.pending[..n + 1]) == [Event.Taken(c.pending[0])] + AllTaken(c.pending[1..n + 1]);
  }

  lemma {:induction false} PassesOver(c: Consumer, n: nat, replies: Replies)
    requires c.alive && Passes(c, n)
    ensures ReadCommandStatus(c, replies) == ReadCommandStatus(After(c, n), replies)
    decreases n
  {
    if n == 0 {
      assert After(c, 0) == c;
    } else {
      PassesOver(TakeNext(c), n - 1, replies);
      AfterOne(c, n - 1);
    }
  }

  /** A status of the session that is not terminal is returned and changes nothing. */
  lemma ReadsOn(c: Consumer, n: nat, replies: Replies)
    requires c.alive && Passes(c, n) && n < |c.pending| && IsFor(c, c.pending[n])
    requires c.pending[n].data.phase.status in {Issued, Commanded, CommandStatus.Executing}
    ensures ReadCommandStatus(c, replies) == Reading(After(c, n + 1), c.pending[n].status)
  {
    PassesOver(c, n, replies);
    FinalStatuses(c.pending[n].data.phase.status);
    assert c.pending[..n + 1] == c.pending[..n] + [c.pending[n]];
    assert TakeNext(After(c, n)) == After(c, n + 1);
  }

  /** A terminal status ends the command, and closes an open session if the hook and the dispose succeed. */
  lemma ReadsTheEnd(c: Consumer, n: nat, replies: Replies)
    requires c.alive && Passes(c, n) && n < |c.pending| && Ends(c.pending[n], c.destination, c.sessionId)
    ensures var ended := After(c, n + 1).(alive := false);
      ReadCommandStatus(c, replies) ==
        if !c.open then Reading(ended, c.pending[n].status)
        else if replies.tearDown == SendError || replies.disposed != SendSuccess then Reading(ended, ReadError)
        else Reading(ended.(open := false, events := ended.events + [Event.Closed(c.sessionId)]), c.pending[n].status)
  {
    PassesOver(c, n, replies);
    FinalStatuses(c.pending[n].data.phase.status);
    assert c.pending[..n + 1] == c.pending[..n] + [c.pending[n]];
    assert TakeNext(After(c, n)) == After(c, n + 1);
  }

  /** Without a status for the session, all samples up to the end of the data are skipped. */
  lemma ReadsNothing(c: Consumer, n: nat, replies: Replies)
    requires c.alive && Passes(c, n) && (n < |c.pending| ==> c.pending[n].status == NoData)
    ensures ReadCommandStatus(c, replies) ==
      Reading(if n < |c.pending| then After(c, n + 1) else After(c, n), NoData)
  {
    PassesOver(c, n, replies);
    if n < |c.pending| {
      assert c.pending[..n + 1] == c.pending[..n] + [c.pending[n]];
      assert TakeNext(After(c, n)) == After(c, n + 1);
    }
  }

  /** A terminal status of the session waits in front of the end of the data. */
  ghost predicate EndWaits(c: Consumer) {
    exists n :: 0 <= n < |c.pending| && Ends(c.pending[n], c.destination, c.sessionId) &&
      forall i :: 0 <= i < n ==> c.pending[i].status != NoData
  }

  lemma EndWaitsBehind(c: Consumer)
    requires c.pending != [] && c.pending[0].status != NoData && !Ends(c.pending[0], c.destination, c.sessionId)
    ensures EndWaits(c) <==> EndWaits(TakeNext(c))
  {
    var d := TakeNext(c);
    if EndWaits(c) {
      var n :| 0 <= n < |c.pending| && Ends(c.pending[n], c.destination, c.sessionId) &&
        forall i :: 0 <= i < n ==> c.pending[i].status != NoData;
      assert d.pending[n - 1] == c.pending[n];
      assert forall i :: 0 <= i < n - 1 ==> d.pending[i] == c.pending[i + 1];
    }
    if EndWaits(d) {
      var n :| 0 <= n < |d.pending| && Ends(d.pending[n], d.destination, d.sessionId) &&
        forall i :: 0 <= i < n ==> d.pending[i].status != NoData;
      assert c.pending[n + 1] == d.pending[n];
      assert forall i :: 0 < i < n + 1 ==> c.pending[i] == d.pending[i - 1];
    }
  }

  /** Closing the session fails in the hook or in the dispose. */
  predicate CannotClose(replies: Replies) { replies.tearDown == SendError || replies.disposed != SendSuccess }

  /** What one read does to the command and its session, and what is left to read. */
  lemma {:induction false} ReadSettles(c: Consumer, replies: Replies)
    requires c.alive
    ensures var r := ReadCommandStatus(c, replies); var d := r.consumer;
      && d.destination == c.destination && d.sessionId == c.sessionId
      && (d.alive ==> d.open == c.open && (Delivers(r.status) ==> (EndWaits(d) <==> EndWaits(c))))
      && (d.alive && !Delivers(r.status) ==> !EndWaits(c))
      && (!d.alive ==> EndWaits(c) && d.open == (c.open && CannotClose(replies)))
      && (!d.alive ==> (Delivers(r.status) <==> !d.open))
    decreases |c.pending|
  {
    if c.pending != [] {
      var sample := c.pending[0];
      FinalStatuses(sample.data.phase.status);
      if Ends(sample, c.destination, c.sessionId) {
        assert EndWaits(c);
      } else if sample.status == NoData {
        assert !EndWaits(c);
      } else {
        EndWaitsBehind(c);
        if !IsFor(c, sample) { ReadSettles(TakeNext(c), replies); }
      }
    }
  }

  /**
   Asking whether the command has terminated lets go of it exactly if a terminal status of its session is there to be
   read, and says so unless its session is still open and cannot be closed.
   */
  lemma {:induction false} TerminationExact(c: Consumer, replies: Replies)
    requires c.alive
    ensures var r := HasCommandTerminated(c, replies);
      && (!r.consumer.alive <==> EndWaits(c))
      && (r.ok <==> EndWaits(c) && !(c.open && CannotClose(replies)))
      && r.consumer.open == (c.open && (r.consumer.alive || CannotClose(replies)))
      && r.consumer.sessionId == c.sessionId && r.consumer.destination == c.destination
    decreases |c.pending|
  {
    ReadSettles(c, replies);
    var r := ReadCommandStatus(c, replies);
    if Delivers(r.status) && r.consumer.alive { TerminationExact(r.consumer, replies); }
  }

  // ---- what others see of a call ----

  /** Nothing was sent and no session opened. */
  ghost predicate Quiet(before: seq<Event>, after: seq<Event>) {
    before <= after && forall i :: |before| <= i < |after| ==> after[i].Taken? || after[i].Closed?
  }

  lemma {:induction false} ReadingIsQuiet(c: Consumer, replies: Replies)
    ensures Quiet(c.events, ReadCommandStatus(c, replies).consumer.events)
    decreases |c.pending|
  {
    if c.alive && c.pending != [] { ReadingIsQuiet(TakeNext(c), replies); }
  }

  lemma {:induction false} CheckingIsQuiet(c: Consumer, replies: Replies)
    ensures Quiet(c.events, HasCommandTerminated(c, replies).consumer.events)
    decreases |c.pending|
  {
    if c.alive {
      var r := ReadCommandStatus(c, replies);
      ReadingIsQuiet(c, replies);
      if Delivers(r.status) { CheckingIsQuiet(r.consumer, replies); }
    }
  }

  /** From rest, a send opens a session under a new identifier and sends the command in it. */
  lemma SendsFromRest(c: Consumer, order: string, replies: Replies)
    requires !c.open && !c.alive
    ensures Send(c, order, replies) ==
      if replies.setUp == SendError then Closing(c.(sessionId := NIL_GUID), SendError)
      else
        var begun := c.(sessionId := replies.id, open := true, events := c.events + [Event.Opened(replies.id)]);
        if replies.sent != SendSuccess then Closing(begun, replies.sent)
        else
          var sent := Event.Sent(Command(replies.id, order));
          Closing(begun.(alive := true, events := begun.events + [sent]), SendSuccess)
  {
  }

  /**
   A send succeeds only by sending the command last, in the open session it leaves alive; it opens a new session exactly
   if none was left open; and unless it succeeds, no command was sent.
   */
  lemma SendExact(c: Consumer, order: string, replies: Replies)
    ensures var r := Send(c, order, replies); var before, after := c.events, r.consumer.events;
      && before <= after
      && (r.status == SendSuccess ==>
            && r.consumer.open && r.consumer.alive && |after| > |before|
            && after[|after| - 1] == Event.Sent(Command(r.consumer.sessionId, order)))
      && (forall i :: |before| <= i < |after| && after[i].Sent? ==> r.status == SendSuccess && i == |after| - 1)
      && (r.status == SendSuccess && r.consumer.sessionId != c.sessionId ==>
            Event.Opened(r.consumer.sessionId) in after)
  {
    var d := if c.open then HasCommandTerminated(c, replies).consumer else c;
    CheckingIsQuiet(c, replies);
    CheckingIsQuiet(d, replies);
    if c.open && c.alive { TerminationExact(c, replies); }
    if !d.open && d.alive { TerminationExact(d, replies); }
    var e := if d.open then d else OpenCommandSession(d, replies).consumer;
    assert forall i :: |c.events| <= i < |e.events| ==> !e.events[i].Sent?;
    if !d.open && e.open { assert e.events[|e.events| - 1] == Event.Opened(e.sessionId); }
  }

  /** As long as no terminal status waits, a send goes out as an update in the session that is open. */
  lemma SendsUpdate(c: Consumer, order: string, replies: Replies)
    requires c.open && c.alive && !EndWaits(c)
    ensures var r := Send(c, order, replies);
      && r.status == replies.sent && r.consumer.open && r.consumer.alive && r.consumer.sessionId == c.sessionId
      && forall i :: |c.events| <= i < |r.consumer.events| ==>
           r.consumer.events[i].Taken? || r.consumer.events[i].Closed? ||
           (i == |r.consumer.events| - 1 && r.consumer.events[i] == Event.Sent(Command(c.sessionId, order)))
  {
    TerminationExact(c, replies);
    CheckingIsQuiet(c, replies);
  }
}
