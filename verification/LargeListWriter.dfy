/** The writer of a Large List, as the object that edits its elements and metadata in place. */
module LargeListWriting {
  import opened Common
  import opened Bus
  import opened LargeListModel
  import opened LargeListOps
  import opened LargeListOrder
  import opened LargeListProtocol

  /**
   What the writer has left behind when send number `k` of the operation fails. A prepend publishes one element at a
   time and is described by the prepend of the values that went through.
   */
  function Interrupt<E>(
    es: seq<ListElement<E>>, m: LargeListMetadata, op: ListOp<E>, ids: seq<Guid>, times: seq<DateTime>, k: nat)
    : Effect<E>
    requires Draws(|es|, op, |ids|, |times|) && !op.Prepend? && k < |Perform(es, m, op, ids, times).samples|
  {
    var sent := Perform(es, m, op, ids, times).samples[..k];
    match op
    case Update(_, _) => Effect(es, m, sent)
    case Append(values) =>
      if es == [] then Effect(es, m, sent)
      else
        var added := NewElements(m.listID, values, ids, times[1..], None);
        Effect(es[|es| - 1 := Relink(es, |es|, Some(ids[0]), times[0])] + added[..if k == 0 then 0 else k - 1], m, sent)
    case Insert(values, pos) => Effect(es[pos - 1 := Relink(es, pos, Some(ids[0]), times[0])], m, sent)
    case PopFront => Effect(es, m, sent)
    case PopBack => Effect(if k == 0 then es else es[|es| - 1 := Relink(es, |es|, None, times[0])], m, sent)
    case Remove(pos) => Effect(es[pos - 1 := Relink(es, pos, Some(es[pos + 1].elementID), times[0])], m, sent)
    case Clear => Effect(es[k..], if k == 0 then m else UpdateMetadata(m, es[k - 1], true, es[k..]), sent)
  }

  datatype WriterView<+E> = WriterView(
    elements: seq<ListElement<E>>,
    metadata: LargeListMetadata,
    now: DateTime,
    issued: set<Guid>,
    published: seq<Sample<E>>)

  /** The identifiers, timestamps and sends one call of an operation used. */
  datatype Trace = Trace(ids: seq<Guid>, times: seq<DateTime>, sent: nat)

  /** The identifiers are new, the clock only went forward, and what was on the topic is still there. */
  ghost predicate Draw<E>(v: WriterView<E>, op: ListOp<E>, trace: Trace, v': WriterView<E>) {
    var Trace(ids, times, _) := trace;
    var drawn :=
      && NoDuplicates(ids) && (forall i :: 0 <= i < |ids| ==> ids[i] !in v.issued)
      && v.issued + (set g | g in ids) <= v'.issued
      && Clocked(op, times, v.now) && ClockAfter(op, times, v.now) <= v'.now
      && v.published <= v'.published;
    drawn
  }

  /** The call took the writer from `v` to `v'`, either in full or up to its first failed send. */
  ghost predicate Achieves<E>(v: WriterView<E>, op: ListOp<E>, trace: Trace, status: SendStatus, v': WriterView<E>) {
    var Trace(ids, times, sent) := trace;
    var achieved :=
      && Draws(|v.elements|, op, |ids|, |times|) && Draw(v, op, trace, v')
      && if status == SendSuccess then Since(v, v') == Perform(v.elements, v.metadata, op, ids, times)
         else
           && !op.Prepend? && sent < |Perform(v.elements, v.metadata, op, ids, times).samples|
           && Since(v, v') == Interrupt(v.elements, v.metadata, op, ids, times, sent);
    achieved
  }

  /** Nothing was published and the list is as it was; identifiers and time may have been used up. */
  ghost predicate Idles<E>(v: WriterView<E>, v': WriterView<E>) {
    v.issued <= v'.issued && v.now <= v'.now && v' == v.(issued := v'.issued, now := v'.now)
  }

  /** The last `trace.sent` of the values have been prepended. */
  ghost predicate Prepended<E>(v: WriterView<E>, values: seq<E>, trace: Trace, v': WriterView<E>) {
    var Trace(ids, times, sent) := trace;
    var prepended :=
      && sent <= |values|
      && if sent == 0 then ids == [] && times == [] && Idles(v, v')
         else Achieves(v, Prepend(values[|values| - sent..]), trace, SendSuccess, v');
    prepended
  }

  /** What one call does; a batch prepend cut short is the prepend of the values that went through. */
  ghost predicate Outcome<E>(v: WriterView<E>, op: ListOp<E>, trace: Trace, status: SendStatus, v': WriterView<E>) {
    var outcome :=
      if op.Prepend? then
        && Prepended(v, op.values, trace, v')
        && (status == SendSuccess <==> trace.sent == |op.values|)
      else Achieves(v, op, trace, status, v');
    outcome
  }

  function Since<E>(v: WriterView<E>, v': WriterView<E>): Effect<E>
    requires v.published <= v'.published
  {
    Effect(v'.elements, v'.metadata, v'.published[|v.published|..])
  }

  /** Prepending one more value in front of a prepended batch. */
  lemma PrependGrows<E>(
    es: seq<ListElement<E>>, m: LargeListMetadata, value: E, values: seq<E>, ids: seq<Guid>, times: seq<DateTime>,
    e: ListElement<E>)
    requires values != [] && Draws(|es|, Prepend(values), |ids|, |times|)
    requires var f := Perform(es, m, Prepend(values), ids, times);
      e == ListElement(m.listID, e.elementID, value, HeadId(f.elements), e.elementTimestamp)
    ensures var f := Perform(es, m, Prepend(values), ids, times);
      Perform(es, m, Prepend([value] + values), [e.elementID] + ids, [e.elementTimestamp] + times) ==
      Effect([e] + f.elements, UpdateMetadata(f.metadata, e, false, [e] + f.elements), f.samples + [Alive(e)])
  {
    var added := NewElements(m.listID, values, ids, times, HeadId(es));
    var added' := NewElements(
      m.listID, [value] + values, [e.elementID] + ids, [e.elementTimestamp] + times, HeadId(es));
    assert added' == [e] + added;
    assert Reverse(added') == Reverse(added) + [e];
    assert PublishAll(Reverse(added')) == PublishAll(Reverse(added)) + [Alive(e)];
    assert added' + es == [e] + (added + es);
  }

  lemma PrependedFirst<E>(v: WriterView<E>, value: E, id: Guid, t: DateTime, v': WriterView<E>)
    requires id !in v.issued && v.issued + {id} <= v'.issued && v.now <= t <= v'.now
    requires var e := ListElement(v.metadata.listID, id, value, HeadId(v.elements), t);
      && v'.published == v.published + [Alive(e)] && v'.elements == [e] + v.elements
      && v'.metadata == UpdateMetadata(v.metadata, e, false, v'.elements)
    ensures Achieves(v, Prepend([value]), Trace([id], [t], 1), SendSuccess, v')
  {
    var e := ListElement(v.metadata.listID, id, value, HeadId(v.elements), t);
    assert NewElements(v.metadata.listID, [value], [id], [t], HeadId(v.elements)) == [e];
    assert Reverse([e]) == [e] && PublishAll([e]) == [Alive(e)];
  }

  lemma PrependIdles<E>(v: WriterView<E>, value: E, v': WriterView<E>)
    requires Idles(v, v')
    ensures Outcome(v, Prepend([value]), Trace([], [], 0), SendError, v')
  {
  }

  lemma PrependsOne<E>(v: WriterView<E>, value: E, trace: Trace, v': WriterView<E>)
    requires trace.sent == 1 && Achieves(v, Prepend([value]), trace, SendSuccess, v')
    ensures Outcome(v, Prepend([value]), trace, SendSuccess, v')
  {
    assert [value][0..] == [value];
  }

  /** What prepending one value did. */
  lemma OnePrepended<E>(w: WriterView<E>, value: E, last: Trace, v': WriterView<E>) returns (e: ListElement<E>)
    requires Achieves(w, Prepend([value]), last, SendSuccess, v')
    ensures last.ids == [e.elementID] && last.times == [e.elementTimestamp]
    ensures e == ListElement(w.metadata.listID, e.elementID, value, HeadId(w.elements), e.elementTimestamp)
    ensures Since(w, v') == Effect([e] + w.elements, UpdateMetadata(w.metadata, e, false, [e] + w.elements), [Alive(e)])
  {
    var id, t := last.ids[0], last.times[0];
    assert last.ids == [id] && last.times == [t];
    e := ListElement(w.metadata.listID, id, value, HeadId(w.elements), t);
    assert NewElements(w.metadata.listID, [value], [id], [t], HeadId(w.elements)) == [e];
    assert Reverse([e]) == [e] && PublishAll([e]) == [Alive(e)];
  }

  lemma PrependedNext<E>(
    v: WriterView<E>, w: WriterView<E>, value: E, values: seq<E>, trace: Trace, last: Trace, v': WriterView<E>)
    requires Achieves(v, Prepend(values), trace, SendSuccess, w) && w.metadata.listID == v.metadata.listID
    requires Achieves(w, Prepend([value]), last, SendSuccess, v')
    ensures Achieves(
      v, Prepend([value] + values), Trace(last.ids + trace.ids, last.times + trace.times, trace.sent + 1), SendSuccess,
      v')
  {
    var e := OnePrepended(w, value, last, v');
    PrependGrows(v.elements, v.metadata, value, values, trace.ids, trace.times, e);
    assert Since(v, v').samples == Since(v, w).samples + [Alive(e)];
  }

  lemma PrependGoesOn<E>(
    v: WriterView<E>, w: WriterView<E>, values: seq<E>, trace: Trace, value: E, last: Trace, v': WriterView<E>)
    requires Prepended(v, values, trace, w) && trace.sent < |values| && w.metadata.listID == v.metadata.listID
    requires value == values[|values| - 1 - trace.sent]
    requires Outcome(w, Prepend([value]), last, SendSuccess, v')
    ensures Prepended(v, values, Trace(last.ids + trace.ids, last.times + trace.times, trace.sent + 1), v')
  {
    var i := |values| - 1 - trace.sent;
    assert [value][0..] == [value];
    if trace.sent == 0 {
      assert values[i..] == [value];
      assert last.ids + trace.ids == last.ids && last.times + trace.times == last.times;
    } else {
      assert values[i..] == [value] + values[i + 1..];
      PrependedNext(v, w, value, values[i + 1..], trace, last, v');
    }
  }

  lemma PrependStops<E>(
    v: WriterView<E>, w: WriterView<E>, values: seq<E>, trace: Trace, value: E, last: Trace, v': WriterView<E>)
    requires Prepended(v, values, trace, w) && trace.sent < |values|
    requires Outcome(w, Prepend([value]), last, SendError, v')
    ensures Outcome(v, Prepend(values), trace, SendError, v')
  {
    if trace.sent > 0 {
      AchievedThenIdle(v, Prepend(values[|values| - trace.sent..]), trace, SendSuccess, w, v');
    }
  }

  /** The trace of a batch after one more prepend, if that went through. */
  function Extended(trace: Trace, last: Trace, status: SendStatus): Trace {
    if status == SendSuccess then Trace(last.ids + trace.ids, last.times + trace.times, trace.sent + 1) else trace
  }

  /** The values from position i on have been prepended. */
  ghost predicate PrependedFrom<E>(v: WriterView<E>, values: seq<E>, i: nat, trace: Trace, v': WriterView<E>) {
    var prepended := trace.sent + i == |values| && Prepended(v, values, trace, v');
    prepended
  }

  lemma SameList<E>(v: WriterView<E>, values: seq<E>, trace: Trace, w: WriterView<E>)
    requires Prepended(v, values, trace, w)
    ensures w.metadata.listID == v.metadata.listID
  {
  }

  lemma PrependStep<E>(
    v: WriterView<E>, w: WriterView<E>, values: seq<E>, i: nat, trace: Trace, last: Trace, status: SendStatus,
    v': WriterView<E>)
    requires i < |values| && PrependedFrom(v, values, i + 1, trace, w)
    requires (status == SendSuccess || status == SendError) && Outcome(w, Prepend([values[i]]), last, status, v')
    ensures PrependedFrom(v, values, if status == SendSuccess then i else i + 1, Extended(trace, last, status), v')
  {
    SameList(v, values, trace, w);
    if status == SendSuccess {
      PrependGoesOn(v, w, values, trace, values[i], last, v');
    } else {
      PrependStops(v, w, values, trace, values[i], last, v');
    }
  }

  lemma AchievedThenIdle<E>(
    v: WriterView<E>, op: ListOp<E>, trace: Trace, status: SendStatus, w: WriterView<E>, v': WriterView<E>)
    requires Achieves(v, op, trace, status, w) && Idles(w, v')
    ensures Achieves(v, op, trace, status, v')
  {
  }

  lemma StartedList<E>(v: WriterView<E>, value: E, id: Guid, t: DateTime, v': WriterView<E>)
    requires v.elements == [] && id !in v.issued && v.issued + {id} <= v'.issued && v.now <= t <= v'.now
    requires var e := ListElement(v.metadata.listID, id, value, None, t);
      && v'.published == v.published + [Alive(e)] && v'.elements == [e]
      && v'.metadata == UpdateMetadata(v.metadata, e, false, v'.elements)
    ensures Achieves(v, Append([value]), Trace([id], [t], 1), SendSuccess, v')
  {
    var e := ListElement(v.metadata.listID, id, value, None, t);
    assert NewElements(v.metadata.listID, [value], [id], [t], None) == [e];
    assert PublishAll([e]) == [Alive(e)];
  }

  lemma NotStarted<E>(v: WriterView<E>, value: E, id: Guid, t: DateTime, v': WriterView<E>)
    requires v.elements == [] && id !in v.issued && v.issued + {id} <= v'.issued && v.now <= t <= v'.now
    requires v' == v.(issued := v'.issued, now := v'.now)
    ensures Achieves(v, Append([value]), Trace([id], [t], 0), SendError, v')
  {
  }

  /** The first `|times|` elements of a run that is being stamped and published one by one. */
  function RunPrefix<E>(
    listId: Guid, values: seq<E>, ids: seq<Guid>, times: seq<DateTime>, tail: Option<Guid>): seq<ListElement<E>>
    requires |times| <= |values| == |ids|
  {
    var j := |times|;
    NewElements(listId, values[..j], ids[..j], times, if j < |ids| then Some(ids[j]) else tail)
  }

  lemma RunPrefixGrows<E>(
    listId: Guid, values: seq<E>, ids: seq<Guid>, times: seq<DateTime>, tail: Option<Guid>, t: DateTime)
    requires |times| < |values| == |ids|
    ensures var j := |times|;
      RunPrefix(listId, values, ids, times + [t], tail) == RunPrefix(listId, values, ids, times, tail) +
        [ListElement(listId, ids[j], values[j], if j + 1 < |ids| then Some(ids[j + 1]) else tail, t)]
  {
  }

  lemma RunPrefixIsPrefix<E>(
    listId: Guid, values: seq<E>, ids: seq<Guid>, times: seq<DateTime>, tail: Option<Guid>, j: nat)
    requires j <= |times| == |values| == |ids|
    ensures RunPrefix(listId, values, ids, times[..j], tail) == NewElements(listId, values, ids, times, tail)[..j]
    ensures PublishAll(RunPrefix(listId, values, ids, times[..j], tail)) ==
      PublishAll(NewElements(listId, values, ids, times, tail))[..j]
  {
  }

  /** Appends to a non-empty list and insertions: where the run goes and what it is linked to. */
  predicate Links<E>(es: seq<ListElement<E>>, op: ListOp<E>) {
    (op.Append? && es != []) || (op.Insert? && 0 < op.pos < |es|)
  }

  function LinkPosition<E>(es: seq<ListElement<E>>, op: ListOp<E>): nat
    requires Links(es, op)
  {
    if op.Append? then |es| else op.pos
  }

  function LinkTail<E>(es: seq<ListElement<E>>, op: ListOp<E>): Option<Guid>
    requires Links(es, op)
  {
    if op.Append? then None else Some(es[op.pos].elementID)
  }

  /** The samples of such an operation when `sent` of them have gone out, and the part of the run they carry. */
  function RunDone<E>(
    es: seq<ListElement<E>>, listId: Guid, op: ListOp<E>, ids: seq<Guid>, times: seq<DateTime>, sent: nat)
    : seq<ListElement<E>>
    requires Links(es, op) && Draws(|es|, op, |ids|, |times|) && sent <= |times|
  {
    if sent == 0 then [] else RunPrefix(listId, op.values, ids, times[1..sent], LinkTail(es, op))
  }

  function RunSent<E>(
    es: seq<ListElement<E>>, listId: Guid, op: ListOp<E>, ids: seq<Guid>, times: seq<DateTime>, sent: nat)
    : seq<Sample<E>>
    requires Links(es, op) && Draws(|es|, op, |ids|, |times|) && sent <= |times|
  {
    if sent == 0 then []
    else [Alive(Relink(es, LinkPosition(es, op), Some(ids[0]), times[0]))]
         + PublishAll(RunDone(es, listId, op, ids, times, sent))
  }

  lemma RunSentIsPrefix<E>(
    es: seq<ListElement<E>>, m: LargeListMetadata, op: ListOp<E>, ids: seq<Guid>, times: seq<DateTime>, sent: nat)
    requires Links(es, op) && Draws(|es|, op, |ids|, |times|) && sent <= |times|
    ensures var f := Perform(es, m, op, ids, times);
      && |f.samples| == |times| && f.samples[..sent] == RunSent(es, m.listID, op, ids, times, sent)
    ensures var added := NewElements(m.listID, op.values, ids, times[1..], LinkTail(es, op));
      RunDone(es, m.listID, op, ids, times, sent) == added[..if sent == 0 then 0 else sent - 1]
  {
    var added := NewElements(m.listID, op.values, ids, times[1..], LinkTail(es, op));
    var f := Perform(es, m, op, ids, times);
    assert f.samples == [Alive(Relink(es, LinkPosition(es, op), Some(ids[0]), times[0]))] + PublishAll(added);
    if sent > 0 {
      RunPrefixIsPrefix(m.listID, op.values, ids, times[1..], LinkTail(es, op), sent - 1);
      assert times[1..][..sent - 1] == times[1..sent];
    }
  }

  /** The predecessor has been relinked and sent, and with it the first samples of the run, but not all of them. */
  ghost predicate StoppedAfter<E>(
    v: WriterView<E>, op: ListOp<E>, ids: seq<Guid>, times: seq<DateTime>, sent: nat, v': WriterView<E>)
    requires Links(v.elements, op) && Draws(|v.elements|, op, |ids|, |times|) && sent < |times|
  {
    var pos := LinkPosition(v.elements, op);
    var linked := v.elements[pos - 1 := Relink(v.elements, pos, Some(ids[0]), times[0])];
    var stopped :=
      && v'.published == v.published + RunSent(v.elements, v.metadata.listID, op, ids, times, sent)
      && v'.elements ==
           (if op.Append? then linked + RunDone(v.elements, v.metadata.listID, op, ids, times, sent) else linked)
      && v'.metadata == v.metadata;
    stopped
  }

  lemma RunInterrupted<E>(
    v: WriterView<E>, op: ListOp<E>, ids: seq<Guid>, times: seq<DateTime>, sent: nat, v': WriterView<E>)
    requires Links(v.elements, op) && Draws(|v.elements|, op, |ids|, |times|) && sent < |times|
    requires Draw(v, op, Trace(ids, times, sent), v') && StoppedAfter(v, op, ids, times, sent, v')
    ensures Achieves(v, op, Trace(ids, times, sent), SendError, v')
  {
    RunSentIsPrefix(v.elements, v.metadata, op, ids, times, sent);
  }

  /** The whole run has been sent and the list and metadata are in their final state. */
  ghost predicate CompletedBy<E>(
    v: WriterView<E>, op: ListOp<E>, ids: seq<Guid>, times: seq<DateTime>, v': WriterView<E>)
    requires Links(v.elements, op) && Draws(|v.elements|, op, |ids|, |times|)
  {
    var done := RunDone(v.elements, v.metadata.listID, op, ids, times, |times|);
    var completed :=
      && v'.published == v.published + RunSent(v.elements, v.metadata.listID, op, ids, times, |times|)
      && v'.elements == Perform(v.elements, v.metadata, op, ids, times).elements
      && done != [] && v'.metadata == UpdateMetadata(v.metadata, done[|done| - 1], false, v'.elements);
    completed
  }

  lemma RunCompleted<E>(
    v: WriterView<E>, op: ListOp<E>, ids: seq<Guid>, times: seq<DateTime>, v': WriterView<E>)
    requires Links(v.elements, op) && Draws(|v.elements|, op, |ids|, |times|)
    requires Draw(v, op, Trace(ids, times, |times|), v')
    requires CompletedBy(v, op, ids, times, v')
    ensures Achieves(v, op, Trace(ids, times, |times|), SendSuccess, v')
  {
    var f := Perform(v.elements, v.metadata, op, ids, times);
    RunSentIsPrefix(v.elements, v.metadata, op, ids, times, |times|);
    assert f.samples[..|times|] == f.samples;
    RunMetadata(v.elements, v.metadata, op, ids, times);
  }

  lemma RunMetadata<E>(
    es: seq<ListElement<E>>, m: LargeListMetadata, op: ListOp<E>, ids: seq<Guid>, times: seq<DateTime>)
    requires Links(es, op) && Draws(|es|, op, |ids|, |times|)
    ensures
      var f := Perform(es, m, op, ids, times); var done := RunDone(es, m.listID, op, ids, times, |times|);
      f.metadata == UpdateMetadata(m, done[|done| - 1], false, f.elements)
  {
    var added := NewElements(m.listID, op.values, ids, times[1..], LinkTail(es, op));
    RunSentIsPrefix(es, m, op, ids, times, |times|);
    assert RunDone(es, m.listID, op, ids, times, |times|) == added;
    assert Perform(es, m, op, ids, times).metadata ==
      UpdateMetadata(m, added[|added| - 1], false, Perform(es, m, op, ids, times).elements);
  }

  /** Timestamps that were never drawn, filled in so that the whole operation can be named. */
  function Pad(times: seq<DateTime>, n: nat): (r: seq<DateTime>)
    requires 0 < |times| <= n
    ensures |r| == n && times <= r && r[n - 1] == times[|times| - 1]
  {
    times + seq(n - |times|, _ => times[|times| - 1])
  }

  lemma RunGrows<E>(
    listId: Guid, values: seq<E>, ids: seq<Guid>, times: seq<DateTime>, tail: Option<Guid>, t: DateTime)
    requires |times| < |values| == |ids|
    ensures var j := |times|; var before := RunPrefix(listId, values, ids, times, tail);
      var e := ListElement(listId, ids[j], values[j], if j + 1 < |ids| then Some(ids[j + 1]) else tail, t);
      && RunPrefix(listId, values, ids, times + [t], tail) == before + [e]
      && PublishAll(before + [e]) == PublishAll(before) + [Alive(e)]
  {
    RunPrefixGrows(listId, values, ids, times, tail, t);
  }

  ghost predicate Nondecreasing(times: seq<DateTime>) {
    forall i, j :: 0 <= i < j < |times| ==> times[i] <= times[j]
  }

  /** The run under construction, last element first, of which the first `|times|` elements are stamped. */
  function Stamping<E>(listId: Guid, values: seq<E>, ids: seq<Guid>, times: seq<DateTime>, tail: Option<Guid>)
    : seq<ListElement<E>>
    requires |times| <= |values| == |ids|
  {
    Reverse(NewElements(listId, values, ids, times + seq(|values| - |times|, _ => 0), tail))
  }

  /** Building the run from its last value: the next element is linked to the one built before it. */
  lemma RunBuilt<E>(listId: Guid, value: E, values: seq<E>, id: Guid, ids: seq<Guid>)
    requires |values| == |ids|
    ensures Stamping(listId, [value] + values, [id] + ids, [], None) ==
      Stamping(listId, values, ids, [], None) +
      [ListElement(listId, id, value, if ids == [] then None else Some(ids[0]), 0)]
  {
    var run := NewElements(listId, values, ids, [] + seq(|values| - 0, _ => 0), None);
    var run' := NewElements(listId, [value] + values, [id] + ids, [] + seq(|[value] + values| - 0, _ => 0), None);
    assert run' == [ListElement(listId, id, value, if ids == [] then None else Some(ids[0]), 0)] + run;
  }

  /** Linking the last element of the run to what follows it. */
  lemma RunTail<E>(listId: Guid, values: seq<E>, ids: seq<Guid>, tail: Option<Guid>)
    requires 0 < |values| == |ids|
    ensures var run := Stamping(listId, values, ids, [], None);
      run[0 := run[0].(nextElementID := tail)] == Stamping(listId, values, ids, [], tail)
  {
  }

  lemma RunComplete<E>(listId: Guid, values: seq<E>, ids: seq<Guid>, times: seq<DateTime>, tail: Option<Guid>)
    requires |times| == |values| == |ids|
    ensures Stamping(listId, values, ids, times, tail) == Reverse(RunPrefix(listId, values, ids, times, tail))
  {
  }

  lemma StampNext<E>(
    listId: Guid, values: seq<E>, ids: seq<Guid>, times: seq<DateTime>, tail: Option<Guid>, t: DateTime)
    requires |times| < |values| == |ids|
    ensures var run := Stamping(listId, values, ids, times, tail); var j := |values| - 1 - |times|;
      && |run| == |values|
      && run[j := run[j].(elementTimestamp := t)] == Stamping(listId, values, ids, times + [t], tail)
      && run[j].(elementTimestamp := t) ==
           ListElement(listId, ids[|times|], values[|times|],
                       if |times| + 1 < |ids| then Some(ids[|times| + 1]) else tail, t)
  {
  }

  /** The call used these identifiers and timestamps and nothing else of the world but time. */
  ghost predicate Drew<E>(v: WriterView<E>, ids: seq<Guid>, t: DateTime, stamps: seq<DateTime>, v': WriterView<E>) {
    var drew :=
      && NoDuplicates(ids) && (forall i :: 0 <= i < |ids| ==> ids[i] !in v.issued)
      && v'.issued == v.issued + (set g | g in ids)
      && v.now <= t <= v'.now && Nondecreasing(stamps)
      && (forall i :: 0 <= i < |stamps| ==> t <= stamps[i] <= v'.now);
    drew
  }

  lemma PaddedClock(t: DateTime, stamps: seq<DateTime>, n: nat, top: DateTime)
    requires |stamps| < n && t <= top && Nondecreasing(stamps)
    requires forall i :: 0 <= i < |stamps| ==> t <= stamps[i] <= top
    ensures var times := Pad([t] + stamps, n);
      && Nondecreasing(times) && times[1..|stamps| + 1] == stamps
      && forall i :: 0 <= i < n ==> t <= times[i] <= top
  {
    var times := Pad([t] + stamps, n);
    assert forall i :: 1 <= i <= |stamps| ==> times[i] == stamps[i - 1];
    assert forall i :: |stamps| < i < n ==> times[i] == times[|stamps|];
  }

  lemma PaddedDraw<E>(
    v: WriterView<E>, op: ListOp<E>, ids: seq<Guid>, t: DateTime, stamps: seq<DateTime>, n: nat, sent: nat,
    v': WriterView<E>)
    requires Drew(v, ids, t, stamps, v') && |stamps| < n && !op.Prepend? && v.published <= v'.published
    ensures var times := Pad([t] + stamps, n);
      Draw(v, op, Trace(ids, times, sent), v') && times[1..|stamps| + 1] == stamps
  {
    PaddedClock(t, stamps, n, v'.now);
  }

  /** The local list once the element before the run is `prev` and `done` has gone out, in the code's own order. */
  function Landed<E>(
    es: seq<ListElement<E>>, op: ListOp<E>, prev: ListElement<E>, done: seq<ListElement<E>>): seq<ListElement<E>>
    requires Links(es, op)
  {
    if op.Append? then es[|es| - 1 := prev] + done
    else if |done| < |op.values| then es[op.pos - 1 := prev]
    else if |op.values| == 1 then es[..op.pos - 1] + done + [prev] + es[op.pos..]
    else es[..op.pos - 1] + [prev] + Reverse(done) + es[op.pos..]
  }

  lemma LinkStops<E>(v: WriterView<E>, op: ListOp<E>, ids: seq<Guid>, t: DateTime, v': WriterView<E>)
    requires Links(v.elements, op) && 0 < |op.values| == |ids| && Drew(v, ids, t, [], v')
    requires var pos := LinkPosition(v.elements, op);
      v' == v.(elements := v.elements[pos - 1 := Relink(v.elements, pos, Some(ids[0]), t)],
               now := v'.now, issued := v'.issued)
    ensures Achieves(v, op, Trace(ids, Pad([t] + [], |ids| + 1), 0), SendError, v')
  {
    var times := Pad([t] + [], |ids| + 1);
    PaddedDraw(v, op, ids, t, [], |ids| + 1, 0, v');
    assert v.published + [] == v.published && v'.elements + [] == v'.elements;
    assert StoppedAfter(v, op, ids, times, 0, v');
    RunInterrupted(v, op, ids, times, 0, v');
  }

  /** The list, topic and metadata after the run has been linked in and `|stamps|` of its elements published. */
  ghost predicate LinkedUpTo<E>(
    v: WriterView<E>, op: ListOp<E>, ids: seq<Guid>, t: DateTime, stamps: seq<DateTime>, v': WriterView<E>)
    requires Links(v.elements, op) && 0 < |op.values| == |ids| && |stamps| <= |ids|
  {
    var prev := Relink(v.elements, LinkPosition(v.elements, op), Some(ids[0]), t);
    var done := RunPrefix(v.metadata.listID, op.values, ids, stamps, LinkTail(v.elements, op));
    var linked :=
      && v'.elements == Landed(v.elements, op, prev, done)
      && v'.published == v.published + ([Alive(prev)] + PublishAll(done))
      && v'.metadata == if |stamps| < |ids| then v.metadata
                        else UpdateMetadata(v.metadata, done[|done| - 1], false, v'.elements);
    linked
  }

  lemma LinkEnds<E>(
    v: WriterView<E>, op: ListOp<E>, ids: seq<Guid>, t: DateTime, stamps: seq<DateTime>, v': WriterView<E>)
    requires Links(v.elements, op) && 0 < |op.values| == |ids| && |stamps| <= |ids| && Drew(v, ids, t, stamps, v')
    requires LinkedUpTo(v, op, ids, t, stamps, v')
    ensures Achieves(v, op, Trace(ids, Pad([t] + stamps, |ids| + 1), |stamps| + 1),
                     if |stamps| < |ids| then SendError else SendSuccess, v')
  {
    var times, sent := Pad([t] + stamps, |ids| + 1), |stamps| + 1;
    LinkNeeds(v.elements, op);
    PaddedDraw(v, op, ids, t, stamps, |ids| + 1, sent, v');
    if |stamps| < |ids| {
      LinkCut(v, op, ids, t, stamps, times, v');
    } else {
      LinkFinished(v, op, ids, t, stamps, times, v');
    }
  }

  lemma LinkNeeds<E>(es: seq<ListElement<E>>, op: ListOp<E>)
    requires Links(es, op) && op.values != []
    ensures Draws(|es|, op, |op.values|, |op.values| + 1)
  {
  }

  lemma LinkCut<E>(
    v: WriterView<E>, op: ListOp<E>, ids: seq<Guid>, t: DateTime, stamps: seq<DateTime>, times: seq<DateTime>,
    v': WriterView<E>)
    requires Links(v.elements, op) && 0 < |op.values| == |ids| && |stamps| < |ids|
    requires Draws(|v.elements|, op, |ids|, |times|) && times == Pad([t] + stamps, |ids| + 1)
    requires LinkedUpTo(v, op, ids, t, stamps, v')
    requires Draw(v, op, Trace(ids, times, |stamps| + 1), v')
    ensures Achieves(v, op, Trace(ids, times, |stamps| + 1), SendError, v')
  {
    CutIsStop(v, op, ids, t, stamps, times, v');
    RunInterrupted(v, op, ids, times, |stamps| + 1, v');
  }

  lemma LinkFinished<E>(
    v: WriterView<E>, op: ListOp<E>, ids: seq<Guid>, t: DateTime, stamps: seq<DateTime>, times: seq<DateTime>,
    v': WriterView<E>)
    requires Links(v.elements, op) && 0 < |op.values| == |ids| == |stamps|
    requires Draws(|v.elements|, op, |ids|, |times|) && times == Pad([t] + stamps, |ids| + 1)
    requires LinkedUpTo(v, op, ids, t, stamps, v')
    requires Draw(v, op, Trace(ids, times, |times|), v')
    ensures Achieves(v, op, Trace(ids, times, |times|), SendSuccess, v')
  {
    LinkDone(v, op, ids, t, stamps, times, v');
    RunCompleted(v, op, ids, times, v');
  }

  lemma CutIsStop<E>(
    v: WriterView<E>, op: ListOp<E>, ids: seq<Guid>, t: DateTime, stamps: seq<DateTime>, times: seq<DateTime>,
    v': WriterView<E>)
    requires Links(v.elements, op) && 0 < |op.values| == |ids| && |stamps| < |ids|
    requires Draws(|v.elements|, op, |ids|, |times|) && times == Pad([t] + stamps, |ids| + 1)
    requires LinkedUpTo(v, op, ids, t, stamps, v')
    ensures StoppedAfter(v, op, ids, times, |stamps| + 1, v')
  {
    RunCut(v.elements, v.metadata.listID, op, ids, t, stamps);
  }

  lemma RunCut<E>(
    es: seq<ListElement<E>>, listId: Guid, op: ListOp<E>, ids: seq<Guid>, t: DateTime, stamps: seq<DateTime>)
    requires Links(es, op) && 0 < |op.values| == |ids| && |stamps| < |ids|
    ensures
      var times := Pad([t] + stamps, |ids| + 1);
      var prev := Relink(es, LinkPosition(es, op), Some(ids[0]), t);
      var done := RunPrefix(listId, op.values, ids, stamps, LinkTail(es, op));
      && |done| < |op.values|
      && RunDone(es, listId, op, ids, times, |stamps| + 1) == done
      && RunSent(es, listId, op, ids, times, |stamps| + 1) == [Alive(prev)] + PublishAll(done)
  {
    var times := Pad([t] + stamps, |ids| + 1);
    assert times[1..|stamps| + 1] == stamps;
  }

  lemma LinkDone<E>(
    v: WriterView<E>, op: ListOp<E>, ids: seq<Guid>, t: DateTime, stamps: seq<DateTime>, times: seq<DateTime>,
    v': WriterView<E>)
    requires Links(v.elements, op) && 0 < |op.values| == |ids| == |stamps|
    requires Draws(|v.elements|, op, |ids|, |times|) && times == Pad([t] + stamps, |ids| + 1)
    requires LinkedUpTo(v, op, ids, t, stamps, v')
    ensures CompletedBy(v, op, ids, times, v')
  {
    RunStamped(v.elements, v.metadata, op, ids, t, stamps);
  }

  lemma RunStamped<E>(
    es: seq<ListElement<E>>, m: LargeListMetadata, op: ListOp<E>, ids: seq<Guid>, t: DateTime, stamps: seq<DateTime>)
    requires Links(es, op) && 0 < |op.values| == |ids| == |stamps|
    ensures
      var times := Pad([t] + stamps, |ids| + 1);
      var prev := Relink(es, LinkPosition(es, op), Some(ids[0]), t);
      var done := RunPrefix(m.listID, op.values, ids, stamps, LinkTail(es, op));
      && Perform(es, m, op, ids, times).elements == Landed(es, op, prev, done)
      && RunDone(es, m.listID, op, ids, times, |ids| + 1) == done
      && RunSent(es, m.listID, op, ids, times, |ids| + 1) == [Alive(prev)] + PublishAll(done)
  {
    var times := Pad([t] + stamps, |ids| + 1);
    RunPrefixIsPrefix(m.listID, op.values, ids, stamps, LinkTail(es, op), |ids|);
    assert times[1..] == times[1..|ids| + 1] == stamps && stamps[..|ids|] == stamps;
    LandedIsPerformed(es, m, op, ids, times);
  }

  lemma LandedIsPerformed<E>(
    es: seq<ListElement<E>>, m: LargeListMetadata, op: ListOp<E>, ids: seq<Guid>, times: seq<DateTime>)
    requires Links(es, op) && Draws(|es|, op, |ids|, |times|)
    ensures
      var prev := Relink(es, LinkPosition(es, op), Some(ids[0]), times[0]);
      Landed(es, op, prev, NewElements(m.listID, op.values, ids, times[1..], LinkTail(es, op)))
      == Perform(es, m, op, ids, times).elements
  {
    if op.Append? {
      var prev := Relink(es, |es|, Some(ids[0]), times[0]);
      assert es[|es| - 1 := prev] == es[..|es| - 1] + [prev];
    }
  }

  lemma InsertLands<E>(
    es: seq<ListElement<E>>, listId: Guid, op: ListOp<E>, ids: seq<Guid>, stamps: seq<DateTime>,
    prev: ListElement<E>)
    requires op.Insert? && Links(es, op) && 1 < |op.values| == |ids| == |stamps|
    ensures var es' := es[op.pos - 1 := prev]; var tail := Some(es[op.pos].elementID);
      var run := Stamping(listId, op.values, ids, stamps, tail);
      var done := RunPrefix(listId, op.values, ids, stamps, tail);
      && es'[..op.pos] + run + es'[op.pos..] == Landed(es, op, prev, done)
      && run[0] == done[|done| - 1]
  {
    RunComplete(listId, op.values, ids, stamps, Some(es[op.pos].elementID));
  }

  /** The last element has been relinked and the run published and pushed, in full or up to a failed send. */
  lemma AppendEnds<E>(
    v: WriterView<E>, values: seq<E>, ids: seq<Guid>, t: DateTime, stamps: seq<DateTime>, v': WriterView<E>)
    requires v.elements != [] && 0 < |values| == |ids| && |stamps| <= |ids| && Drew(v, ids, t, stamps, v')
    requires
      var prev := Relink(v.elements, |v.elements|, Some(ids[0]), t);
      var done := RunPrefix(v.metadata.listID, values, ids, stamps, None);
      && v'.elements == v.elements[|v.elements| - 1 := prev] + done
      && v'.published == v.published + [Alive(prev)] + PublishAll(done)
      && v'.metadata == if |stamps| < |ids| then v.metadata
                        else UpdateMetadata(v.metadata, v'.elements[|v'.elements| - 1], false, v'.elements)
    ensures Achieves(v, Append(values), Trace(ids, Pad([t] + stamps, |ids| + 1), |stamps| + 1),
                     if |stamps| < |ids| then SendError else SendSuccess, v')
  {
    LinkEnds(v, Append(values), ids, t, stamps, v');
  }

  lemma InsertEnds<E>(
    v: WriterView<E>, values: seq<E>, pos: nat, ids: seq<Guid>, t: DateTime, stamps: seq<DateTime>,
    run: seq<ListElement<E>>, v': WriterView<E>)
    requires 0 < pos < |v.elements| && 1 < |values| == |ids| && |stamps| <= |ids| && Drew(v, ids, t, stamps, v')
    requires
      var prev := Relink(v.elements, pos, Some(ids[0]), t);
      var es' := v.elements[pos - 1 := prev];
      var tail := Some(v.elements[pos].elementID);
      && v'.published == v.published + [Alive(prev)] +
           PublishAll(RunPrefix(v.metadata.listID, values, ids, stamps, tail))
      && if |stamps| < |ids| then v'.elements == es' && v'.metadata == v.metadata
         else
           && run == Stamping(v.metadata.listID, values, ids, stamps, tail)
           && v'.elements == es'[..pos] + run + es'[pos..]
           && v'.metadata == UpdateMetadata(v.metadata, run[0], false, v'.elements)
    ensures Achieves(v, Insert(values, pos), Trace(ids, Pad([t] + stamps, |ids| + 1), |stamps| + 1),
                     if |stamps| < |ids| then SendError else SendSuccess, v')
  {
    var op := Insert(values, pos);
    if |stamps| == |ids| {
      InsertLands(v.elements, v.metadata.listID, op, ids, stamps, Relink(v.elements, pos, Some(ids[0]), t));
    }
    var done := RunPrefix(v.metadata.listID, values, ids, stamps, LinkTail(v.elements, op));
    assert |done| == |stamps|;
    var prev := Relink(v.elements, pos, Some(ids[0]), t);
    assert v.published + [Alive(prev)] + PublishAll(done) == v.published + ([Alive(prev)] + PublishAll(done));
    LinkEnds(v, op, ids, t, stamps, v');
  }

  /** One value has been published after the element before it, and put before that locally. */
  lemma InsertOneEnds<E>(
    v: WriterView<E>, value: E, pos: nat, e: ListElement<E>, t: DateTime, v': WriterView<E>)
    requires 0 < pos < |v.elements| && Drew(v, [e.elementID], t, [e.elementTimestamp], v')
    requires e == ListElement(
      v.metadata.listID, e.elementID, value, Some(v.elements[pos].elementID), e.elementTimestamp)
    requires
      var prev := Relink(v.elements, pos, Some(e.elementID), t);
      && v'.elements == v.elements[..pos - 1] + [e] + [prev] + v.elements[pos..]
      && v'.published == v.published + [Alive(prev)] + [Alive(e)]
      && v'.metadata == UpdateMetadata(v.metadata, e, false, v'.elements)
    ensures Achieves(
      v, Insert([value], pos), Trace([e.elementID], Pad([t] + [e.elementTimestamp], 2), 2), SendSuccess, v')
  {
    var op, u := Insert([value], pos), e.elementTimestamp;
    assert RunPrefix(v.metadata.listID, [value], [e.elementID], [u], LinkTail(v.elements, op)) == [e];
    assert PublishAll([e]) == [Alive(e)];
    LinkEnds(v, op, [e.elementID], t, [u], v');
  }

  lemma PoppedBack<E>(
    v: WriterView<E>, times: seq<DateTime>, sent: nat, status: SendStatus, v': WriterView<E>)
    requires v.elements != [] && |times| == (if |v.elements| > 1 then 1 else 0)
    requires v.issued <= v'.issued && v.now <= v'.now && (times != [] ==> v.now <= times[0] <= v'.now)
    requires sent <= |times| + 1 && (status == SendSuccess <==> sent == |times| + 1)
    requires
      var n := |v.elements|;
      var last := if n > 1 then Relink(v.elements, n, None, times[0]) else v.elements[0];
      var samples := if n > 1 then [Alive(last), Dead(last)] else [Dead(last)];
      && v'.published == v.published + samples[..sent]
      && v'.elements == (if status == SendSuccess then v.elements[..n - 1]
                         else if sent == 0 then v.elements else v.elements[n - 1 := last])
      && v'.metadata == (if status == SendSuccess then UpdateMetadata(v.metadata, last, true, v'.elements)
                         else v.metadata)
    ensures Achieves(v, PopBack, Trace([], times, sent), status, v')
  {
  }

  lemma RemovedInside<E>(
    v: WriterView<E>, pos: nat, t: DateTime, sent: nat, status: SendStatus, v': WriterView<E>)
    requires 0 < pos < |v.elements| - 1 && v.issued <= v'.issued && v.now <= t <= v'.now
    requires sent <= 2 && (status == SendSuccess <==> sent == 2)
    requires
      var prev := Relink(v.elements, pos, Some(v.elements[pos + 1].elementID), t);
      var es' := v.elements[pos - 1 := prev];
      && v'.published == v.published + [Alive(prev), Dead(v.elements[pos])][..sent]
      && v'.elements == (if status == SendSuccess then es'[..pos] + es'[pos + 1..] else es')
      && v'.metadata == (if status == SendSuccess then UpdateMetadata(v.metadata, v.elements[pos], true, v'.elements)
                         else v.metadata)
    ensures Achieves(v, Remove(pos), Trace([], [t], sent), status, v')
  {
    var prev := Relink(v.elements, pos, Some(v.elements[pos + 1].elementID), t);
    var es' := v.elements[pos - 1 := prev];
    assert es'[..pos] + es'[pos + 1..] == v.elements[..pos - 1] + [prev] + v.elements[pos + 1..];
  }

  /** The list and the topic once the first `k` elements have been popped off the front. */
  ghost predicate Cleared<E>(v: WriterView<E>, k: nat, v': WriterView<E>) {
    && k <= |v.elements| && v.issued <= v'.issued && v.now <= v'.now
    && v'.elements == v.elements[k..]
    && v'.published == v.published + DisposeAll(v.elements[..k])
    && v'.metadata == if k == 0 then v.metadata else UpdateMetadata(v.metadata, v.elements[k - 1], true, v'.elements)
  }

  lemma ClearStep<E>(v: WriterView<E>, k: nat, w: WriterView<E>, popped: Trace, status: SendStatus, v': WriterView<E>)
    requires Cleared(v, k, w) && w.elements != [] && w.metadata.listID == v.metadata.listID
    requires Outcome(w, PopFront, popped, status, v')
    ensures Cleared(v, if status == SendSuccess then k + 1 else k, v')
  {
    assert v'.published == w.published + Since(w, v').samples;
    if status == SendSuccess {
      assert DisposeAll(v.elements[..k + 1]) == DisposeAll(v.elements[..k]) + [Dead(v.elements[k])];
    }
  }

  lemma ClearedAchieves<E>(v: WriterView<E>, k: nat, status: SendStatus, v': WriterView<E>)
    requires Cleared(v, k, v') && (status == SendSuccess <==> k == |v.elements|)
    ensures Achieves(v, Clear, Trace([], [], k), status, v')
  {
    assert DisposeAll(v.elements)[..k] == DisposeAll(v.elements[..k]);
    assert v.elements[..|v.elements|] == v.elements;
  }

  /** The protocol state whose writer is in view `v`, with these samples on the way to these lists. */
  function SystemOf<E>(
    v: WriterView<E>, announced: set<LargeListMetadata>, pending: seq<Sample<E>>, lists: Lists<E>): System<E>
  {
    System(v.elements, v.metadata, announced, v.now, v.issued, pending, lists)
  }

  /** A successful call on the object is a step of the protocol, up to the passing of time. */
  lemma CallIsStep<E>(
    v: WriterView<E>, op: ListOp<E>, trace: Trace, v': WriterView<E>, announced: set<LargeListMetadata>,
    pending: seq<Sample<E>>, lists: Lists<E>)
    requires Outcome(v, op, trace, SendSuccess, v') && !(op.Prepend? && op.values == [])
    ensures
      Runs(SystemOf(v, announced, pending, lists),
           [Write(op, trace.ids, trace.times), Elapse(v'.now, v'.issued)],
           SystemOf(v', announced + {v'.metadata}, pending + v'.published[|v.published|..], lists))
  {
    if op.Prepend? { assert op.values[0..] == op.values; }
    var s := SystemOf(v, announced, pending, lists);
    var write, elapse := Write(op, trace.ids, trace.times), Elapse(v'.now, v'.issued);
    assert [write, elapse][1..] == [elapse];
    var w := Execute(s, write);
    assert w.issued + v'.issued == v'.issued;
    assert Runs(w, [elapse], Execute(w, elapse));
  }

  class LargeListWriter<E> {
    const listId: Guid
    const sender: Participant<ListElement<E>>
    var elements: seq<ListElement<E>>
    var metadata: LargeListMetadata

    ghost predicate Valid()
      reads this
    {
      metadata.listID == listId
    }

    ghost function View(): WriterView<E>
      reads this, sender
    {
      WriterView(elements, metadata, sender.now, sender.issued, sender.published)
    }

    constructor (sender: Participant<ListElement<E>>)
      modifies sender
      ensures Valid() && this.sender == sender && elements == [] && sender.published == old(sender.published)
      ensures metadata == FreshList<E>(listId).metadata
      ensures listId !in old(sender.issued) && sender.issued == old(sender.issued) + {listId}
    {
      this.sender := sender;
      var id := sender.GenerateGuid();
      listId := id;
      elements := [];
      metadata := LargeListMetadata(id, 0, NIL_GUID, NIL_GUID, None);
    }

    method TouchMetadata(e: ListElement<E>, dispose: bool)
      modifies this`metadata
      ensures metadata == UpdateMetadata(old(metadata), e, dispose, elements)
    {
      metadata := metadata.(updateElementID := e.elementID);
      metadata := metadata.(updateElementTimestamp := if dispose then None else Some(e.elementTimestamp));
      metadata := metadata.(size := |elements|);
      metadata := metadata.(startingElementID := if |elements| == 0 then NIL_GUID else elements[0].elementID);
    }

    method NewListElement(value: E) returns (e: ListElement<E>)
      modifies sender`issued
      ensures e == ListElement(listId, e.elementID, value, None, 0)
      ensures e.elementID !in old(sender.issued) && sender.issued == old(sender.issued) + {e.elementID}
    {
      var id := sender.GenerateGuid();
      e := ListElement(listId, id, value, None, 0);
    }

    method Update(value: E, pos: nat) returns (status: SendStatus, ghost trace: Trace)
      requires Valid()
      modifies this, sender
      ensures Valid()
      ensures pos >= |old(elements)| ==> status == SendError && View() == old(View())
      ensures pos < |old(elements)| ==> Achieves(old(View()), LargeListOps.Update(value, pos), trace, status, View())
    {
      trace := Trace([], [], 0);
      if pos >= |elements| { return SendError, trace; }
      var e := elements[pos];
      e := e.(element := value);
      var t := sender.GetTimestamp();
      e := e.(elementTimestamp := t);
      trace := Trace([], [t], 0);
      status := sender.Send(e);
      if status == SendError { return; }
      elements := elements[pos := e];
      TouchMetadata(e, false);
    }

    method PrependOne(value: E) returns (status: SendStatus, ghost trace: Trace)
      requires Valid()
      modifies this, sender
      ensures Valid()
      ensures status == SendSuccess || status == SendError
      ensures Outcome(old(View()), LargeListOps.Prepend([value]), trace, status, View())
    {
      var e := NewListElement(value);
      if |elements| != 0 { e := e.(nextElementID := Some(elements[0].elementID)); }
      var t := sender.GetTimestamp();
      e := e.(elementTimestamp := t);
      trace := Trace([], [], 0);
      status := sender.Send(e);
      if status == SendError {
        PrependIdles(old(View()), value, View());
        return;
      }
      elements := [e] + elements;
      TouchMetadata(e, false);
      trace := Trace([e.elementID], [t], 1);
      PrependedFirst(old(View()), value, e.elementID, t, View());
      PrependsOne(old(View()), value, trace, View());
    }

    method PrependAll(values: seq<E>) returns (status: SendStatus, ghost trace: Trace)
      requires Valid() && values != []
      modifies this, sender
      ensures Valid()
      ensures Outcome(old(View()), LargeListOps.Prepend(values), trace, status, View())
    {
      ghost var v := View();
      trace := Trace([], [], 0);
      var i := |values|;
      status := SendSuccess;
      while i > 0 && status == SendSuccess
        invariant 0 <= i <= |values| && Valid()
        invariant PrependedFrom(v, values, if status == SendSuccess then i else i + 1, trace, View())
        invariant status == SendSuccess || status == SendError
      {
        i := i - 1;
        ghost var before, last := View(), trace;
        status, last := PrependOne(values[i]);
        PrependStep(v, before, values, i, trace, last, status, View());
        trace := Extended(trace, last, status);
      }
    }

    /** A batch that stops part-way leaves the list as if only the values that went through had been prepended. */
    method Prepend(values: seq<E>) returns (status: SendStatus, ghost trace: Trace)
      requires Valid()
      modifies this, sender
      ensures Valid()
      ensures values == [] ==> status == SendError && View() == old(View())
      ensures values != [] ==> Outcome(old(View()), LargeListOps.Prepend(values), trace, status, View())
    {
      trace := Trace([], [], 0);
      if |values| == 0 {
        return SendError, trace;
      } else if |values| == 1 {
        assert values == [values[0]];
        status, trace := PrependOne(values[0]);
        return;
      }
      status, trace := PrependAll(values);
    }

    method AppendOne(value: E) returns (status: SendStatus, ghost trace: Trace)
      requires Valid()
      modifies this, sender
      ensures Valid()
      ensures Achieves(old(View()), LargeListOps.Append([value]), trace, status, View())
    {
      ghost var v, op := View(), LargeListOps.Append([value]);
      var e := NewListElement(value);
      ghost var ids := [e.elementID];
      var t := 0;
      if |elements| != 0 {
        status, t := LinkPrevious(|elements|, e.elementID);
        if status == SendError {
          trace := Trace(ids, Pad([t] + [], 2), 0);
          LinkStops(v, op, ids, t, View());
          return;
        }
      }
      var u := sender.GetTimestamp();
      e := e.(elementTimestamp := u);
      status := sender.Send(e);
      if status == SendError {
        if |v.elements| == 0 {
          trace := Trace(ids, [u], 0);
          NotStarted(v, value, e.elementID, u, View());
        } else {
          trace := Trace(ids, Pad([t] + [], 2), 1);
          LinkEnds(v, op, ids, t, [], View());
        }
        return;
      }
      assert RunPrefix(listId, [value], ids, [u], None) == [e] && PublishAll([e]) == [Alive(e)];
      elements := elements + [e];
      TouchMetadata(e, false);
      if |v.elements| == 0 {
        trace := Trace(ids, [u], 1);
        StartedList(v, value, e.elementID, u, View());
      } else {
        trace := Trace(ids, Pad([t] + [u], 2), 2);
        LinkEnds(v, op, ids, t, [u], View());
      }
    }

    /** Links the element before `pos` to `next`, stamps it and sends it; it stays linked even if the send fails. */
    method LinkPrevious(pos: nat, next: Guid) returns (status: SendStatus, t: DateTime)
      requires 0 < pos <= |elements|
      modifies this`elements, sender`now, sender`published
      ensures old(sender.now) <= t == sender.now && (status == SendSuccess || status == SendError)
      ensures elements == old(elements)[pos - 1 := Relink(old(elements), pos, Some(next), t)]
      ensures sender.published == old(sender.published) +
        if status == SendSuccess then [Alive(Relink(old(elements), pos, Some(next), t))] else []
    {
      elements := elements[pos - 1 := elements[pos - 1].(nextElementID := Some(next))];
      t := sender.GetTimestamp();
      elements := elements[pos - 1 := elements[pos - 1].(elementTimestamp := t)];
      status := sender.Send(elements[pos - 1]);
    }

    /** New elements for the values, last value first, each linked to the one made before it. */
    method BuildRun(values: seq<E>) returns (newElements: seq<ListElement<E>>, ghost ids: seq<Guid>)
      modifies sender`issued
      ensures |ids| == |values| && NoDuplicates(ids)
      ensures forall i :: 0 <= i < |ids| ==> ids[i] !in old(sender.issued)
      ensures sender.issued == old(sender.issued) + (set g | g in ids)
      ensures newElements == Stamping(listId, values, ids, [], None)
    {
      newElements, ids := [], [];
      for i := |values| downto 0
        invariant |ids| == |values| - i && NoDuplicates(ids)
        invariant forall q :: 0 <= q < |ids| ==> ids[q] !in old(sender.issued)
        invariant sender.issued == old(sender.issued) + (set g | g in ids)
        invariant newElements == Stamping(listId, values[i..], ids, [], None)
      {
        var e := NewListElement(values[i]);
        if |newElements| != 0 {
          e := e.(nextElementID := Some(newElements[|newElements| - 1].elementID));
        }
        newElements := newElements + [e];
        RunBuilt(listId, values[i], values[i + 1..], e.elementID, ids);
        assert values[i..] == [values[i]] + values[i + 1..];
        assert forall q :: 0 <= q < |ids| ==> ids[q] in set g | g in ids;
        ids := [e.elementID] + ids;
      }
      assert values[0..] == values;
    }

    /**
     Stamps and publishes a run in list order, pushing each element onto the list as it goes out when `push` is set.
     */
    method PublishRun(
      run: seq<ListElement<E>>, push: bool, ghost values: seq<E>, ghost ids: seq<Guid>, ghost tail: Option<Guid>)
      returns (status: SendStatus, newElements: seq<ListElement<E>>, ghost times: seq<DateTime>)
      requires |ids| == |values| && run == Stamping(listId, values, ids, [], tail)
      modifies this`elements, sender`now, sender`published
      ensures if status == SendSuccess then |times| == |ids| else status == SendError && |times| < |ids|
      ensures status == SendSuccess ==> newElements == Stamping(listId, values, ids, times, tail)
      ensures Nondecreasing(times) && forall i :: 0 <= i < |times| ==> old(sender.now) <= times[i] <= sender.now
      ensures old(sender.now) <= sender.now
      ensures elements == old(elements) + if push then RunPrefix(listId, values, ids, times, tail) else []
      ensures sender.published == old(sender.published) + PublishAll(RunPrefix(listId, values, ids, times, tail))
    {
      newElements, times := run, [];
      var j := |run|;
      while j > 0
        invariant 0 <= j == |ids| - |times| <= |ids|
        invariant newElements == Stamping(listId, values, ids, times, tail)
        invariant Nondecreasing(times) && forall i :: 0 <= i < |times| ==> old(sender.now) <= times[i] <= sender.now
        invariant old(sender.now) <= sender.now
        invariant elements == old(elements) + if push then RunPrefix(listId, values, ids, times, tail) else []
        invariant sender.published == old(sender.published) + PublishAll(RunPrefix(listId, values, ids, times, tail))
      {
        j := j - 1;
        var t := sender.GetTimestamp();
        StampNext(listId, values, ids, times, tail, t);
        newElements := newElements[j := newElements[j].(elementTimestamp := t)];
        RunGrows(listId, values, ids, times, tail, t);
        status := sender.Send(newElements[j]);
        if status == SendError { return; }
        if push { elements := elements + [newElements[j]]; }
        times := times + [t];
      }
      status := SendSuccess;
    }

    method AppendInside(values: seq<E>) returns (status: SendStatus, ghost trace: Trace)
      requires Valid() && elements != [] && values != []
      modifies this, sender
      ensures Valid()
      ensures Achieves(old(View()), LargeListOps.Append(values), trace, status, View())
    {
      ghost var v := View();
      var newElements; ghost var ids, stamps;
      newElements, ids := BuildRun(values);
      var t;
      status, t := LinkPrevious(|elements|, newElements[|newElements| - 1].elementID);
      if status == SendError {
        trace := Trace(ids, Pad([t] + [], |ids| + 1), 0);
        LinkStops(v, LargeListOps.Append(values), ids, t, View());
        return;
      }
      status, newElements, stamps := PublishRun(newElements, true, values, ids, None);
      trace := Trace(ids, Pad([t] + stamps, |ids| + 1), |stamps| + 1);
      if status == SendSuccess {
        TouchMetadata(elements[|elements| - 1], false);
      }
      AppendEnds(v, values, ids, t, stamps, View());
    }

    method Append(values: seq<E>) returns (status: SendStatus, ghost trace: Trace)
      requires Valid() && (elements != [] || |values| <= 1)
      modifies this, sender
      ensures Valid()
      ensures values == [] ==> status == SendError && View() == old(View())
      ensures values != [] ==> Outcome(old(View()), LargeListOps.Append(values), trace, status, View())
    {
      trace := Trace([], [], 0);
      if |values| == 0 {
        return SendError, trace;
      } else if |values| == 1 {
        assert values == [values[0]];
        status, trace := AppendOne(values[0]);
        return;
      }
      status, trace := AppendInside(values);
    }

    method InsertOneInside(value: E, pos: nat) returns (status: SendStatus, ghost trace: Trace)
      requires Valid() && 0 < pos < |elements|
      modifies this, sender
      ensures Valid()
      ensures Achieves(old(View()), LargeListOps.Insert([value], pos), trace, status, View())
    {
      ghost var v, op := View(), LargeListOps.Insert([value], pos);
      var e := NewListElement(value);
      var t;
      status, t := LinkPrevious(pos, e.elementID);
      if status == SendError {
        trace := Trace([e.elementID], Pad([t] + [], 2), 0);
        LinkStops(v, op, [e.elementID], t, View());
        return;
      }
      e := e.(nextElementID := Some(elements[pos].elementID));
      var u := sender.GetTimestamp();
      e := e.(elementTimestamp := u);
      status := sender.Send(e);
      if status == SendError {
        trace := Trace([e.elementID], Pad([t] + [], 2), 1);
        LinkEnds(v, op, [e.elementID], t, [], View());
        return;
      }
      elements := elements[..pos - 1] + [e] + elements[pos - 1..];
      TouchMetadata(e, false);
      trace := Trace([e.elementID], Pad([t] + [u], 2), 2);
      InsertOneEnds(v, value, pos, e, t, View());
    }

    method InsertOne(value: E, pos: nat) returns (status: SendStatus, ghost trace: Trace)
      requires Valid()
      modifies this, sender
      ensures Valid()
      ensures pos > |old(elements)| ==> status == SendError && View() == old(View())
      ensures pos <= |old(elements)| ==>
        Outcome(old(View()), Dispatch(|old(elements)|, LargeListOps.Insert([value], pos)), trace, status, View())
    {
      trace := Trace([], [], 0);
      if pos > |elements| {
        return SendError, trace;
      } else if pos == |elements| {
        status, trace := AppendOne(value);
        return;
      } else if pos == 0 {
        status, trace := PrependOne(value);
        return;
      }
      status, trace := InsertOneInside(value, pos);
    }

    method InsertInside(values: seq<E>, pos: nat) returns (status: SendStatus, ghost trace: Trace)
      requires Valid() && 0 < pos < |elements| && |values| > 1
      modifies this, sender
      ensures Valid()
      ensures Achieves(old(View()), LargeListOps.Insert(values, pos), trace, status, View())
    {
      ghost var v, op := View(), LargeListOps.Insert(values, pos);
      var newElements; ghost var ids, stamps;
      newElements, ids := BuildRun(values);
      var t;
      status, t := LinkPrevious(pos, newElements[|newElements| - 1].elementID);
      if status == SendError {
        trace := Trace(ids, Pad([t] + [], |ids| + 1), 0);
        LinkStops(v, op, ids, t, View());
        return;
      }
      newElements := newElements[0 := newElements[0].(nextElementID := Some(elements[pos].elementID))];
      RunTail(listId, values, ids, Some(elements[pos].elementID));
      status, newElements, stamps := PublishRun(newElements, false, values, ids, Some(elements[pos].elementID));
      trace := Trace(ids, Pad([t] + stamps, |ids| + 1), |stamps| + 1);
      if status == SendSuccess {
        elements := elements[..pos] + newElements + elements[pos..];
        TouchMetadata(newElements[0], false);
      }
      InsertEnds(v, values, pos, ids, t, stamps, newElements, View());
    }

    method Insert(values: seq<E>, pos: nat) returns (status: SendStatus, ghost trace: Trace)
      requires Valid() && (elements != [] || |values| <= 1)
      modifies this, sender
      ensures Valid()
      ensures values == [] || pos > |old(elements)| ==> status == SendError && View() == old(View())
      ensures values != [] && pos <= |old(elements)| ==>
        Outcome(old(View()), Dispatch(|old(elements)|, LargeListOps.Insert(values, pos)), trace, status, View())
    {
      trace := Trace([], [], 0);
      if |values| == 0 {
        return SendError, trace;
      } else if |values| == 1 {
        assert values == [values[0]];
        status, trace := InsertOne(values[0], pos);
        return;
      }
      if pos > |elements| {
        return SendError, trace;
      } else if pos == |elements| {
        status, trace := Append(values);
        return;
      } else if pos == 0 {
        status, trace := Prepend(values);
        return;
      }
      status, trace := InsertInside(values, pos);
    }

    method PopBack() returns (status: SendStatus, ghost trace: Trace)
      requires Valid()
      modifies this, sender
      ensures Valid() && (status == SendSuccess || status == SendError)
      ensures old(elements) == [] ==> status == SendError && View() == old(View())
      ensures old(elements) != [] ==> Outcome(old(View()), LargeListOps.PopBack, trace, status, View())
    {
      trace := Trace([], [], 0);
      ghost var v := View();
      if |elements| == 0 { return SendError, trace; }
      if |elements| > 1 {
        var newLast := |elements| - 1;
        var e := elements[newLast];
        e := e.(nextElementID := None);
        var t := sender.GetTimestamp();
        e := e.(elementTimestamp := t);
        trace := Trace([], [t], 0);
        status := sender.Send(e);
        if status == SendError {
          PoppedBack(v, [t], 0, status, View());
          return;
        }
        elements := elements[newLast := e];
      }
      status := sender.Dispose(elements[|elements| - 1]);
      trace := trace.(sent := |trace.times|);
      if status == SendError {
        PoppedBack(v, trace.times, trace.sent, status, View());
        return;
      }
      var removed := elements[|elements| - 1];
      elements := elements[..|elements| - 1];
      TouchMetadata(removed, true);
      trace := trace.(sent := trace.sent + 1);
      PoppedBack(v, trace.times, trace.sent, status, View());
    }

    method PopFront() returns (status: SendStatus, ghost trace: Trace)
      requires Valid()
      modifies this, sender
      ensures Valid() && (status == SendSuccess || status == SendError)
      ensures old(elements) == [] ==> status == SendError && View() == old(View())
      ensures old(elements) != [] ==> Outcome(old(View()), LargeListOps.PopFront, trace, status, View())
    {
      trace := Trace([], [], 0);
      if |elements| == 0 { return SendError, trace; }
      status := sender.Dispose(elements[0]);
      if status == SendError { return; }
      var removed := elements[0];
      elements := elements[1..];
      TouchMetadata(removed, true);
    }

    /** Asking for the position one past the last element is not admitted: the code would step off its list. */
    method Remove(pos: nat) returns (status: SendStatus, ghost trace: Trace)
      requires Valid() && (pos != |elements| || elements == [])
      modifies this, sender
      ensures Valid()
      ensures pos >= |old(elements)| ==> status == SendError && View() == old(View())
      ensures pos < |old(elements)| ==>
        Outcome(old(View()), Dispatch<E>(|old(elements)|, LargeListOps.Remove(pos)), trace, status, View())
    {
      trace := Trace([], [], 0);
      if |elements| == 0 || pos > |elements| { return SendError, trace; }
      if pos == 0 {
        status, trace := PopFront();
        return;
      }
      if pos == |elements| - 1 {
        status, trace := PopBack();
        return;
      }
      status, trace := RemoveInside(pos);
    }

    method RemoveInside(pos: nat) returns (status: SendStatus, ghost trace: Trace)
      requires Valid() && 0 < pos < |elements| - 1
      modifies this, sender
      ensures Valid()
      ensures Achieves(old(View()), LargeListOps.Remove(pos), trace, status, View())
    {
      ghost var v := View();
      var t := sender.GetTimestamp();
      var prev := elements[pos - 1].(elementTimestamp := t);
      prev := prev.(nextElementID := Some(elements[pos + 1].elementID));
      elements := elements[pos - 1 := prev];
      trace := Trace([], [t], 0);
      status := sender.Send(prev);
      if status == SendError {
        RemovedInside(v, pos, t, 0, status, View());
        return;
      }
      var removed := elements[pos];
      status := sender.Dispose(removed);
      trace := Trace([], [t], 1);
      if status == SendError {
        RemovedInside(v, pos, t, 1, status, View());
        return;
      }
      elements := elements[..pos] + elements[pos + 1..];
      TouchMetadata(removed, true);
      trace := Trace([], [t], 2);
      RemovedInside(v, pos, t, 2, status, View());
    }

    method Clear() returns (status: SendStatus, ghost trace: Trace)
      requires Valid()
      modifies this, sender
      ensures Valid()
      ensures Achieves(old(View()), LargeListOps.Clear, trace, status, View())
    {
      ghost var v, k: nat := View(), 0;
      trace := Trace([], [], 0);
      status := SendSuccess;
      while |elements| > 0 && status == SendSuccess
        invariant Valid() && Cleared(v, k, View())
        invariant status == SendSuccess || (status == SendError && k < |v.elements|)
        decreases |elements|, status == SendSuccess
      {
        ghost var before, popped := View(), trace;
        status, popped := PopFront();
        ClearStep(v, k, before, popped, status, View());
        if status == SendSuccess { k := k + 1; }
      }
      trace := Trace([], [], k);
      ClearedAchieves(v, k, status, View());
    }
  }
}
