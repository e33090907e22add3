/**
 The Large List protocol as a whole: one writer, the topic as a FIFO queue shared with other lists, and a reader that
 takes the metadata. The main results are the round trip over every run and the absence of torn reads.
 */
module LargeListProtocol {
  import opened Common
  import opened LargeListModel
  import opened LargeListOps
  import opened LargeListOrder

  // ----- The reader's lists

  type Lists<+E> = map<Guid, LargeListState<E>>

  /** Batches of ten are read until more than fifty samples have been taken. */
  const READ_BUFFER_SIZE := 10
  const MAX_READ_PER_UPDATE := 50
  const READ_LIMIT := 60

  function Lookup<E>(lists: Lists<E>, id: Guid): LargeListState<E> {
    if id in lists then lists[id] else FreshList(id)
  }

  function ConsumeOne<E>(lists: Lists<E>, s: Sample<E>): Lists<E> {
    if s.status == InvalidData then lists
    else
      var l := Lookup(lists, s.data.listID);
      lists[s.data.listID := l.(elementTable := ApplySample(l.elementTable, s, s.data.listID))]
  }

  function Consume<E>(lists: Lists<E>, samples: seq<Sample<E>>): Lists<E>
    decreases |samples|
  {
    if samples == [] then lists else Consume(ConsumeOne(lists, samples[0]), samples[1..])
  }

  function TakeMetadata<E>(lists: Lists<E>, m: LargeListMetadata): (Lists<E>, LargeListResult<E>) {
    var (l, r) :=
      if m.listID in lists then ReceiveMetadata(lists[m.listID], m) else GetList(FromMetadata(m));
    (lists[m.listID := l], r)
  }

  function TakeById<E>(lists: Lists<E>, listId: Guid): (Lists<E>, LargeListResult<E>) {
    if listId !in lists then (lists, LargeListResult(InvalidList, None))
    else
      var (l, r) := GetList(lists[listId]);
      (lists[listId := l], r)
  }

  /** Lists are kept under their own IDs, and what they have cached fits their latest metadata. */
  ghost predicate Keyed<E>(lists: Lists<E>) {
    forall id :: id in lists ==> lists[id].listId == id && lists[id].metadata.listID == id && CacheFits(lists[id])
  }

  /** Samples change the table of their own list and nothing else. */
  lemma {:induction false} ConsumeIsReplay<E>(lists: Lists<E>, samples: seq<Sample<E>>, id: Guid)
    requires Keyed(lists)
    ensures Keyed(Consume(lists, samples))
    ensures var l := Lookup(lists, id);
      Lookup(Consume(lists, samples), id) == l.(elementTable := Replay(l.elementTable, samples, id))
    ensures id in lists ==> id in Consume(lists, samples)
    decreases |samples|
  {
    if samples != [] {
      ConsumeIsReplay(ConsumeOne(lists, samples[0]), samples[1..], id);
    }
  }

  lemma {:induction false} ConsumeConcat<E>(lists: Lists<E>, a: seq<Sample<E>>, b: seq<Sample<E>>)
    ensures Consume(lists, a + b) == Consume(Consume(lists, a), b)
    decreases |a|
  {
    if a == [] {
      assert a + b == b;
    } else {
      assert (a + b)[1..] == a[1..] + b;
      ConsumeConcat(ConsumeOne(lists, a[0]), a[1..], b);
    }
  }

  // ----- The system and its runs

  /** `announced` is the metadata the writer has had, any of which may still be on its way to the reader. */
  datatype System<+E> = System(
    elements: seq<ListElement<E>>,
    metadata: LargeListMetadata,
    announced: set<LargeListMetadata>,
    now: DateTime,
    issued: set<Guid>,
    pending: seq<Sample<E>>,
    lists: Lists<E>)

  /**
   The writer acts, another list's sample arrives, time passes and identifiers go elsewhere; or the reader takes the
   samples that have arrived, gets a list for metadata that reached it, gets a list by ID, or removes one.
   */
  datatype Step<+E> =
    | Write(op: ListOp<E>, ids: seq<Guid>, times: seq<DateTime>)
    | Foreign(sample: Sample<E>)
    | Elapse(time: DateTime, others: set<Guid>)
    | Drain(arrived: nat)
    | ReadMetadata(arrived: nat, metadata: LargeListMetadata)
    | ReadById(arrived: nat, listId: Guid)
    | RemoveById(arrived: nat, listId: Guid)

  ghost predicate Initial<E>(s: System<E>) {
    && s.elements == [] && s.pending == [] && s.lists == map[]
    && s.metadata == FreshList<E>(s.metadata.listID).metadata && s.announced == {s.metadata}
    && NIL_GUID in s.issued
  }

  ghost predicate Enabled<E>(s: System<E>, step: Step<E>) {
    match step
    case Write(op, ids, times) =>
      && Draws(|s.elements|, op, |ids|, |times|)
      && NoDuplicates(ids) && (forall i :: 0 <= i < |ids| ==> ids[i] !in s.issued)
      && Clocked(op, times, s.now)
    case Foreign(sample) => sample.data.listID != s.metadata.listID || sample.status == InvalidData
    case Elapse(time, _) => s.now <= time
    case Drain(_) => true
    case ReadMetadata(_, m) => m.listID != s.metadata.listID || m in s.announced
    case ReadById(_, _) => true
    case RemoveById(_, _) => true
  }

  /** The reader takes the oldest samples, of which no more than `arrived` have reached it. */
  function TakeArrived<E>(s: System<E>, arrived: nat): System<E> {
    var n := Min(arrived, Min(|s.pending|, READ_LIMIT));
    s.(pending := s.pending[n..], lists := Consume(s.lists, s.pending[..n]))
  }

  function DrainLists<E>(s: System<E>): System<E> { TakeArrived(s, |s.pending|) }

  ghost function Execute<E>(s: System<E>, step: Step<E>): System<E>
    requires Enabled(s, step)
  {
    match step
    case Write(op, ids, times) =>
      var f := Perform(s.elements, s.metadata, op, ids, times);
      s.(elements := f.elements, metadata := f.metadata, announced := s.announced + {f.metadata},
         now := ClockAfter(op, times, s.now), issued := s.issued + (set g | g in ids), pending := s.pending + f.samples)
    case Foreign(sample) => s.(pending := s.pending + [sample])
    case Elapse(time, others) => s.(now := time, issued := s.issued + others)
    case Drain(arrived) => TakeArrived(s, arrived)
    case ReadMetadata(arrived, m) =>
      var s' := TakeArrived(s, arrived);
      s'.(lists := TakeMetadata(s'.lists, m).0)
    case ReadById(arrived, listId) =>
      var s' := TakeArrived(s, arrived);
      s'.(lists := TakeById(s'.lists, listId).0)
    case RemoveById(arrived, listId) =>
      var s' := TakeArrived(s, arrived);
      s'.(lists := s'.lists - {listId})
  }

  /** What the reader returns for metadata when no more than `arrived` of the samples have reached it. */
  function ReadWith<E>(s: System<E>, arrived: nat, m: LargeListMetadata): LargeListResult<E> {
    TakeMetadata(TakeArrived(s, arrived).lists, m).1
  }

  /** What the reader returns when it takes the writer's current metadata. */
  function ReadResult<E>(s: System<E>): LargeListResult<E> { ReadWith(s, |s.pending|, s.metadata) }

  ghost predicate Runs<E>(s: System<E>, steps: seq<Step<E>>, s': System<E>)
    decreases |steps|
  {
    if steps == [] then s' == s
    else Enabled(s, steps[0]) && Runs(Execute(s, steps[0]), steps[1..], s')
  }

  /** The reader does not remove the writer's list while that has elements. */
  ghost predicate Retains<E>(s: System<E>, step: Step<E>) {
    step.RemoveById? && step.listId == s.metadata.listID ==> s.elements == []
  }

  ghost predicate Retaining<E>(s: System<E>, steps: seq<Step<E>>)
    decreases |steps|
  {
    steps != [] ==> Retains(s, steps[0]) && Enabled(s, steps[0]) && Retaining(Execute(s, steps[0]), steps[1..])
  }

  predicate OrderlySteps<E>(steps: seq<Step<E>>) {
    forall i :: 0 <= i < |steps| && steps[i].Write? ==> Orderly(steps[i].op)
  }

  /** The plain sequence the run builds, starting from `c`. */
  function ReferenceRun<E>(c: seq<E>, steps: seq<Step<E>>): seq<E>
    decreases |steps|
  {
    if steps == [] then c
    else ReferenceRun(if steps[0].Write? then Reference(c, steps[0].op) else c, steps[1..])
  }

  // ----- What every step keeps

  /** Whatever the reader does: the writer's state, the reader's caches and the order of metadata. */
  ghost predicate Basic<E>(s: System<E>) {
    var basic := WriterKnown(s) && Keyed(s.lists) && NoneNewer(s);
    basic
  }

  ghost predicate Consistent<E>(s: System<E>) { Basic(s) && Mirrored(s) }

  /** Delivering what is pending leaves nothing in the reader's table that is not the writer's. */
  ghost predicate Sound<E>(s: System<E>) { Basic(s) && Within(Delivered(s), s.elements) }

  ghost predicate Within<E>(table: Table<E>, es: seq<ListElement<E>>) {
    forall g :: g in table ==> table[g] in es && table[g].elementID == g
  }

  /** The reader's table of the writer's list once everything pending has been delivered. */
  function Delivered<E>(s: System<E>): Table<E> {
    Replay(Lookup(s.lists, s.metadata.listID).elementTable, s.pending, s.metadata.listID)
  }

  /** The writer's elements are in order, their IDs are in use, and none is from the future. */
  ghost predicate WriterKnown<E>(s: System<E>) {
    var known :=
      && WellFormed(s.metadata.listID, s.elements)
      && NIL_GUID in s.issued && (forall e :: e in s.elements ==> e.elementID in s.issued)
      && NotAfter(s.elements, s.now);
    known
  }

  /** Delivering what is pending makes the reader's table the writer's elements. */
  ghost predicate Mirrored<E>(s: System<E>) {
    Represents(Delivered(s), s.elements)
  }

  /** No metadata the writer has had, or the reader has of its list, is newer than the current one or the clock. */
  ghost predicate NoneNewer<E>(s: System<E>) {
    var latest := Lookup(s.lists, s.metadata.listID).metadata;
    var none :=
      && s.metadata in s.announced && (forall m :: m in s.announced ==> m.listID == s.metadata.listID)
      && (forall m :: m in s.announced ==> Timely(m, s.now) && !IsStale(s.metadata, m))
      && Timely(latest, s.now) && !IsStale(s.metadata, latest);
    none
  }

  predicate Timely(m: LargeListMetadata, now: DateTime) {
    m.updateElementTimestamp.Some? ==> m.updateElementTimestamp.value <= now
  }

  ghost predicate Sequenced<E>(s: System<E>) {
    Linked(s.elements, None) && Describes(s.metadata, s.elements)
  }

  // ----- Writing

  lemma WriteKeepsBasic<E>(s: System<E>, step: Step<E>)
    requires Basic(s) && Enabled(s, step) && step.Write?
    ensures Basic(Execute(s, step))
  {
    WriteKeepsKnown(s, step);
    WriteKeepsNoneNewer(s, step);
  }

  lemma WriteFollows<E>(s: System<E>, step: Step<E>, table: Table<E>)
    requires WriterKnown(s) && Enabled(s, step) && step.Write? && Represents(table, s.elements)
    ensures var s', id := Execute(s, step), s.metadata.listID;
      var f := Perform(s.elements, s.metadata, step.op, step.ids, step.times);
      && s'.metadata.listID == id && WellFormed(id, s'.elements)
      && Represents(Replay(table, f.samples, id), s'.elements)
  {
    assert Fresh(s.elements, step.ids);
    TableFollows(table, s.elements, s.metadata, step.op, step.ids, step.times);
    MetadataRewritten(s.elements, s.metadata, step.op, step.ids, step.times, s.now);
  }

  lemma WriteDelivers<E>(s: System<E>, step: Step<E>)
    requires Enabled(s, step) && step.Write?
    ensures Delivered(Execute(s, step)) ==
      Replay(Delivered(s), Perform(s.elements, s.metadata, step.op, step.ids, step.times).samples, s.metadata.listID)
  {
    var Write(op, ids, times) := step;
    var id, f := s.metadata.listID, Perform(s.elements, s.metadata, op, ids, times);
    MetadataRewritten(s.elements, s.metadata, op, ids, times, s.now);
    ReplayConcat(Lookup(s.lists, id).elementTable, s.pending, f.samples, id);
  }

  lemma WriteKeepsMirrored<E>(s: System<E>, step: Step<E>)
    requires WriterKnown(s) && Mirrored(s) && Enabled(s, step) && step.Write?
    ensures Mirrored(Execute(s, step))
  {
    WriteFollows(s, step, Delivered(s));
    WriteDelivers(s, step);
  }

  /** The table that holds exactly these elements. */
  ghost function TableOf<E>(listId: Guid, es: seq<ListElement<E>>): (table: Table<E>)
    requires WellFormed(listId, es)
    ensures Represents(table, es)
  {
    map e | e in es :: e.elementID := e
  }

  lemma WriteKeepsWithin<E>(s: System<E>, step: Step<E>)
    requires WriterKnown(s) && Within(Delivered(s), s.elements) && Enabled(s, step) && step.Write?
    ensures var s' := Execute(s, step); Within(Delivered(s'), s'.elements)
  {
    var whole, id := TableOf(s.metadata.listID, s.elements), s.metadata.listID;
    WriteFollows(s, step, whole);
    WriteDelivers(s, step);
    PartReplayed(Delivered(s), whole, Perform(s.elements, s.metadata, step.op, step.ids, step.times).samples, id);
  }

  ghost predicate PartOf<E>(part: Table<E>, whole: Table<E>) {
    forall g :: g in part ==> g in whole && part[g] == whole[g]
  }

  /** Samples make a part of a table into a part of what they make of the table. */
  lemma {:induction false} PartReplayed<E>(part: Table<E>, whole: Table<E>, samples: seq<Sample<E>>, id: Guid)
    requires PartOf(part, whole)
    ensures PartOf(Replay(part, samples, id), Replay(whole, samples, id))
    decreases |samples|
  {
    if samples != [] {
      PartReplayed(ApplySample(part, samples[0], id), ApplySample(whole, samples[0], id), samples[1..], id);
    }
  }

  lemma WriteKeepsKnown<E>(s: System<E>, step: Step<E>)
    requires WriterKnown(s) && Enabled(s, step) && step.Write?
    ensures WriterKnown(Execute(s, step))
  {
    WriteFollows(s, step, TableOf(s.metadata.listID, s.elements));
    ClockFollows(s.elements, s.metadata, step.op, step.ids, step.times, s.now);
    IdentifiersFollow(s.elements, s.metadata, step.op, step.ids, step.times);
  }

  lemma WriteKeepsNoneNewer<E>(s: System<E>, step: Step<E>)
    requires NoneNewer(s) && NotAfter(s.elements, s.now) && Enabled(s, step) && step.Write?
    ensures NoneNewer(Execute(s, step))
  {
    WrittenIsNewest(s, step);
  }

  /** Metadata that was timely and not newer than the writer's is neither after a write. */
  lemma WrittenIsNewest<E>(s: System<E>, step: Step<E>)
    requires NotAfter(s.elements, s.now) && Timely(s.metadata, s.now) && Enabled(s, step) && step.Write?
    ensures var s' := Execute(s, step);
      && s'.metadata.listID == s.metadata.listID && Timely(s'.metadata, s'.now) && s'.lists == s.lists
      && forall m :: Timely(m, s.now) && !IsStale(s.metadata, m) ==>
           Timely(m, s'.now) && !IsStale(s'.metadata, m)
  {
    MetadataRewritten(s.elements, s.metadata, step.op, step.ids, step.times, s.now);
    ClockFollows(s.elements, s.metadata, step.op, step.ids, step.times, s.now);
  }

  lemma IdentifiersFollow<E>(
    es: seq<ListElement<E>>, m: LargeListMetadata, op: ListOp<E>, ids: seq<Guid>, times: seq<DateTime>)
    requires Draws(|es|, op, |ids|, |times|)
    ensures forall e :: e in Perform(es, m, op, ids, times).elements ==> e.elementID in ids || Has(es, e.elementID)
  {
    if op.Insert? { InsertedIdentifiers(es, m, op, ids, times); }
  }

  lemma InsertedIdentifiers<E>(
    es: seq<ListElement<E>>, m: LargeListMetadata, op: ListOp<E>, ids: seq<Guid>, times: seq<DateTime>)
    requires op.Insert? && Draws(|es|, op, |ids|, |times|)
    ensures forall e :: e in Perform(es, m, op, ids, times).elements ==> e.elementID in ids || Has(es, e.elementID)
  {
    var added := NewElements(m.listID, op.values, ids, times[1..], Some(es[op.pos].elementID));
    assert forall e :: e in Reverse(added) ==> e in added;
    assert es[op.pos - 1].elementID == Relink(es, op.pos, Some(ids[0]), times[0]).elementID;
  }

  // ----- Reading

  lemma TakingKeepsBasic<E>(s: System<E>, arrived: nat)
    requires Basic(s)
    ensures Basic(TakeArrived(s, arrived)) && Delivered(TakeArrived(s, arrived)) == Delivered(s)
  {
    var id, n := s.metadata.listID, Min(arrived, Min(|s.pending|, READ_LIMIT));
    ConsumeIsReplay(s.lists, s.pending[..n], id);
    ReplayConcat(Lookup(s.lists, id).elementTable, s.pending[..n], s.pending[n..], id);
    assert s.pending == s.pending[..n] + s.pending[n..];
  }

  lemma ForeignKeepsBasic<E>(s: System<E>, sample: Sample<E>)
    requires Basic(s) && Enabled(s, Foreign(sample))
    ensures var s' := Execute(s, Foreign(sample)); Basic(s') && Delivered(s') == Delivered(s)
  {
    var id := s.metadata.listID;
    var table := Lookup(s.lists, id).elementTable;
    ReplayConcat(table, s.pending, [sample], id);
    ReplayOne(Replay(table, s.pending, id), sample, id);
  }

  lemma CachesStayFit<E>(lists: Lists<E>, m: LargeListMetadata)
    requires Keyed(lists)
    ensures Keyed(TakeMetadata(lists, m).0)
  {
    if m.listID in lists { CacheStaysFit(lists[m.listID], m); } else { CacheStaysFit(FreshList<E>(m.listID), m); }
  }

  /** Taking metadata changes neither a table nor what the writer's list may be told next. */
  lemma MetadataKeepsBasic<E>(s: System<E>, m: LargeListMetadata)
    requires Basic(s) && (m.listID != s.metadata.listID || m in s.announced)
    ensures var s' := s.(lists := TakeMetadata(s.lists, m).0); Basic(s') && Delivered(s') == Delivered(s)
  {
    CachesStayFit(s.lists, m);
  }

  lemma ReadingKeepsBasic<E>(s: System<E>, listId: Guid)
    requires Basic(s)
    ensures var s' := s.(lists := TakeById(s.lists, listId).0); Basic(s') && Delivered(s') == Delivered(s)
  {
  }

  lemma RemovalKeepsBasic<E>(s: System<E>, listId: Guid)
    requires Basic(s)
    ensures var s' := s.(lists := s.lists - {listId});
      && Basic(s') && (listId != s.metadata.listID ==> Delivered(s') == Delivered(s))
      && PartOf(Delivered(s'), Delivered(s))
  {
    var id, s' := s.metadata.listID, s.(lists := s.lists - {listId});
    PartReplayed(Lookup(s'.lists, id).elementTable, Lookup(s.lists, id).elementTable, s.pending, id);
  }

  // ----- Every step

  lemma StepKeepsBasic<E>(s: System<E>, step: Step<E>)
    requires Basic(s) && Enabled(s, step)
    ensures Basic(Execute(s, step))
    ensures !step.Write? && !step.RemoveById? ==> Delivered(Execute(s, step)) == Delivered(s)
    ensures step.RemoveById? ==> var before, after := Delivered(s), Delivered(Execute(s, step));
      (step.listId != s.metadata.listID ==> after == before) && PartOf(after, before)
  {
    match step
    case Write(_, _, _) => WriteKeepsBasic(s, step);
    case Foreign(sample) => ForeignKeepsBasic(s, sample);
    case Elapse(_, _) =>
    case Drain(arrived) => TakingKeepsBasic(s, arrived);
    case ReadMetadata(arrived, m) =>
      TakingKeepsBasic(s, arrived);
      MetadataKeepsBasic(TakeArrived(s, arrived), m);
    case ReadById(arrived, listId) =>
      TakingKeepsBasic(s, arrived);
      ReadingKeepsBasic(TakeArrived(s, arrived), listId);
    case RemoveById(arrived, listId) =>
      TakingKeepsBasic(s, arrived);
      RemovalKeepsBasic(TakeArrived(s, arrived), listId);
  }

  lemma StepKeepsConsistent<E>(s: System<E>, step: Step<E>)
    requires Consistent(s) && Enabled(s, step) && Retains(s, step)
    ensures Consistent(Execute(s, step))
  {
    StepKeepsBasic(s, step);
    if step.Write? { WriteKeepsMirrored(s, step); }
  }

  lemma StepKeepsSound<E>(s: System<E>, step: Step<E>)
    requires Sound(s) && Enabled(s, step)
    ensures Sound(Execute(s, step))
  {
    StepKeepsBasic(s, step);
    if step.Write? { WriteKeepsWithin(s, step); }
  }

  lemma StepKeepsSequenced<E>(s: System<E>, step: Step<E>)
    requires Basic(s) && Sequenced(s) && Enabled(s, step) && (step.Write? ==> Orderly(step.op))
    ensures Sequenced(Execute(s, step))
    ensures Values(Execute(s, step).elements) ==
      if step.Write? then Reference(Values(s.elements), step.op) else Values(s.elements)
  {
    if step.Write? {
      OrderFollows(s.elements, s.metadata, step.op, step.ids, step.times);
      MetadataFollows(s.elements, s.metadata, step.op, step.ids, step.times, s.now);
    }
  }

  /**
   Over every run of every operation, whatever the reader does and however many samples have arrived when it does it,
   delivering what is pending leaves only the writer's elements in the reader's table, and every cached list has the
   size of the latest metadata. If the reader does not remove the list while that has elements, the table then is
   exactly the writer's elements.
   */
  lemma {:induction false} RunsStayConsistent<E>(s: System<E>, steps: seq<Step<E>>, s': System<E>)
    requires Sound(s) && Runs(s, steps, s')
    ensures Sound(s')
    ensures Consistent(s) && Retaining(s, steps) ==> Consistent(s')
    decreases |steps|
  {
    if steps != [] {
      StepKeepsSound(s, steps[0]);
      if Consistent(s) && Retaining(s, steps) { StepKeepsConsistent(s, steps[0]); }
      RunsStayConsistent(Execute(s, steps[0]), steps[1..], s');
    }
  }

  lemma {:induction false} RunsStaySequenced<E>(s: System<E>, steps: seq<Step<E>>, s': System<E>)
    requires Basic(s) && Sequenced(s) && Runs(s, steps, s') && OrderlySteps(steps)
    ensures Sequenced(s') && Basic(s') && s'.metadata.listID == s.metadata.listID
    ensures Values(s'.elements) == ReferenceRun(Values(s.elements), steps)
    decreases |steps|
  {
    if steps != [] {
      StepKeepsBasic(s, steps[0]);
      StepKeepsSequenced(s, steps[0]);
      assert Execute(s, steps[0]).metadata.listID == s.metadata.listID;
      RunsStaySequenced(Execute(s, steps[0]), steps[1..], s');
    }
  }

  lemma InitialIsConsistent<E>(s: System<E>)
    requires Initial(s)
    ensures Consistent(s) && Sequenced(s) && Sound(s)
  {
  }

  lemma DrainedRead<E>(s: System<E>)
    requires Consistent(s) && Sequenced(s) && |s.pending| <= READ_LIMIT
    ensures ReadResult(s) ==
      if s.elements == [] then LargeListResult(EmptyList, None)
      else LargeListResult(ValidList, Some(Values(s.elements)))
  {
    var id := s.metadata.listID;
    TakingKeepsBasic(s, |s.pending|);
    var lists := DrainLists(s).lists;
    assert DrainLists(s).pending == [];
    var l := if id in lists then lists[id].(metadata := s.metadata, cached := None) else FromMetadata(s.metadata);
    assert Represents(l.elementTable, s.elements);
    ReadsBack(l, s.elements);
  }

  /**
   The round trip: after any run of list operations with successful sends, a reader that has not removed the list, and
   that catches up and takes the metadata, holds exactly the sequence the operations describe.
   */
  lemma RoundTrip<E>(s: System<E>, steps: seq<Step<E>>, s': System<E>)
    requires Initial(s) && Runs(s, steps, s') && OrderlySteps(steps) && Retaining(s, steps)
    requires |s'.pending| <= READ_LIMIT
    ensures var c := ReferenceRun([], steps);
      ReadResult(s') == if c == [] then LargeListResult(EmptyList, None) else LargeListResult(ValidList, Some(c))
  {
    InitialIsConsistent(s);
    RunsStaySequenced(s, steps, s');
    RunsStayConsistent(s, steps, s');
    DrainedRead(s');
    assert Values(s.elements) == [];
    assert Values(s'.elements) == [] <==> s'.elements == [];
  }
}
