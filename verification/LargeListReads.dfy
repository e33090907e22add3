/**
 What a reader can see at the edges of the round trip: while the samples of an operation are still arriving, and after
 the operations whose local list order differs from the links they publish.
 */
module LargeListReads {
  import opened Common
  import opened LargeListModel
  import opened LargeListOps
  import opened LargeListOrder
  import opened LargeListProtocol

  function ListAt<E>(m: LargeListMetadata, table: Table<E>): LargeListState<E> {
    LargeListState(m.listID, m, table, None)
  }

  /** If a linked run starts where the metadata says, a valid read can only return that run. */
  lemma ReadsRun<E>(m: LargeListMetadata, table: Table<E>, es: seq<ListElement<E>>)
    requires Holds(table, es) && Linked(es, None)
    requires m.startingElementID == Target(Lead(es, None))
    ensures var r := Generate(ListAt(m, table)).1;
      r.status == ValidList ==> r.list == Some(Values(es)) && m.size == |es|
  {
    var s := ListAt(m, table);
    if Generate(s).1.status == ValidList {
      GenerateExact(s);
      var path: seq<Guid> :|
        IsChain(table, m.updateElementTimestamp, m.startingElementID, path) && |path| == m.size;
      ChainFollowsLinks(table, m.updateElementTimestamp, es, None, path);
      assert path[|es|..] == [];
      assert path == Ids(es);
      assert forall i :: 0 <= i < |es| ==> es[i] in es;
      assert Payloads(table, path) == Values(es);
    }
  }

  /** A run whose last link leads to an element that is not in the table cannot be read. */
  lemma BrokenLink<E>(m: LargeListMetadata, table: Table<E>, es: seq<ListElement<E>>, missing: Guid)
    requires Holds(table, es) && Linked(es, Some(missing)) && missing != NIL_GUID && missing !in table
    requires m.startingElementID == Target(Lead(es, Some(missing)))
    ensures Generate(ListAt(m, table)).1.status != ValidList
  {
    var s := ListAt(m, table);
    if Generate(s).1.status == ValidList {
      GenerateExact(s);
      var path: seq<Guid> :|
        IsChain(table, m.updateElementTimestamp, m.startingElementID, path) && |path| == m.size;
      ChainFollowsLinks(table, m.updateElementTimestamp, es, Some(missing), path);
    }
  }

  // ----- Torn reads

  /** The reader's table when the first `k` samples of the operation have arrived. */
  function TornTable<E>(
    table: Table<E>, es: seq<ListElement<E>>, m: LargeListMetadata, op: ListOp<E>, ids: seq<Guid>,
    times: seq<DateTime>, k: nat): Table<E>
    requires Draws(|es|, op, |ids|, |times|) && k <= |Perform(es, m, op, ids, times).samples|
  {
    Replay(table, Perform(es, m, op, ids, times).samples[..k], m.listID)
  }

  /** A read of table `t` under metadata `m` shows the list before or after the operation, or nothing. */
  ghost predicate NotTorn<E>(t: Table<E>, m: LargeListMetadata, es: seq<ListElement<E>>, es': seq<ListElement<E>>) {
    var r := Generate(ListAt(m, t)).1;
    r.status == ValidList ==> r.list == Some(Values(es)) || r.list == Some(Values(es'))
  }

  ghost predicate UpToDate<E>(table: Table<E>, es: seq<ListElement<E>>, m: LargeListMetadata) {
    && WellFormed(m.listID, es) && Represents(table, es)
    && Linked(es, None) && m.size == |es| && m.startingElementID == Target(Lead(es, None))
  }

  lemma PartlyPublished<E>(table: Table<E>, es: seq<ListElement<E>>, added: seq<ListElement<E>>, k: nat, listId: Guid)
    requires WellFormed(listId, es) && WellFormed(listId, added) && Represents(table, es) && Disjoint(es, added)
    requires k <= |added|
    ensures var t := Replay(table, PublishAll(added)[..k], listId);
      && Holds(t, es) && Holds(t, added[..k])
      && forall i :: k <= i < |added| ==> added[i].elementID !in t
  {
    assert PublishAll(added)[..k] == PublishAll(added[..k]);
    ReplayPublish(table, added[..k], listId);
    forall e | e in es ensures !Has(added[..k], e.elementID) {
      var i :| 0 <= i < |es| && es[i] == e;
    }
  }

  lemma PrependNotTorn<E>(
    table: Table<E>, es: seq<ListElement<E>>, m: LargeListMetadata, op: ListOp<E>, ids: seq<Guid>,
    times: seq<DateTime>, k: nat)
    requires UpToDate(table, es, m) && op.Prepend? && Draws(|es|, op, |ids|, |times|) && Fresh(es, ids)
    requires k <= |Perform(es, m, op, ids, times).samples|
    ensures var f := Perform(es, m, op, ids, times); var t := TornTable(table, es, m, op, ids, times, k);
      NotTorn(t, m, es, f.elements) && NotTorn(t, f.metadata, es, f.elements)
  {
    var f := Perform(es, m, op, ids, times);
    var t := TornTable(table, es, m, op, ids, times, k);
    var added := NewElements(m.listID, op.values, ids, times, HeadId(es));
    NewElementsWellFormed(es, m.listID, op.values, ids, times, HeadId(es));
    ReversedElements(m.listID, added);
    PartlyPublished(table, es, Reverse(added), k, m.listID);
    ReadsRun(m, t, es);
    if k < |added| {
      assert Reverse(added)[|added| - 1] == added[0];
      BrokenLink<E>(f.metadata, t, [], added[0].elementID);
    } else {
      assert Reverse(added)[..k] == Reverse(added);
      OrderFollows(es, m, op, ids, times);
      ReadsRun(f.metadata, t, f.elements);
    }
  }

  lemma StartNotTorn<E>(
    table: Table<E>, m: LargeListMetadata, op: ListOp<E>, ids: seq<Guid>, times: seq<DateTime>, k: nat)
    requires UpToDate(table, [], m) && op.Append? && Draws(0, op, |ids|, |times|) && Fresh<E>([], ids)
    requires k <= |Perform([], m, op, ids, times).samples|
    ensures var f := Perform([], m, op, ids, times); var t := TornTable(table, [], m, op, ids, times, k);
      NotTorn(t, m, [], f.elements) && NotTorn(t, f.metadata, [], f.elements)
  {
    var f := Perform([], m, op, ids, times);
    var t := TornTable(table, [], m, op, ids, times, k);
    if k == 0 {
      BrokenLink<E>(f.metadata, t, [], ids[0]);
    } else {
      assert f.samples[..k] == f.samples;
      OrderFollows([], m, op, ids, times);
      TableFollows(table, [], m, op, ids, times);
      ReadsRun(f.metadata, t, f.elements);
    }
  }

  /** Once the relinked last element has arrived, the list is cut short until the whole run has. */
  lemma PartlyAppended<E>(
    table: Table<E>, es: seq<ListElement<E>>, m: LargeListMetadata, op: ListOp<E>, ids: seq<Guid>,
    times: seq<DateTime>, k: nat)
    requires UpToDate(table, es, m) && es != [] && op.Append? && Draws(|es|, op, |ids|, |times|) && Fresh(es, ids)
    requires k <= |op.values|
    ensures var f := Perform(es, m, op, ids, times); var t := TornTable(table, es, m, op, ids, times, k + 1);
      && |f.elements| == |es| + |op.values|
      && Holds(t, f.elements[..|es| + k])
      && (k < |op.values| ==> f.elements[|es| + k].elementID !in t)
  {
    var f := Perform(es, m, op, ids, times);
    var last := Relink(es, |es|, Some(ids[0]), times[0]);
    var es' := es[|es| - 1 := last];
    var added := NewElements(m.listID, op.values, ids, times[1..], None);
    RelinkedTable(table, es, |es| - 1, last, m.listID);
    NewElementsWellFormed(es', m.listID, op.values, ids, times[1..], None);
    PartlyPublished(table[last.elementID := last], es', added, k, m.listID);
    AppendedSamples(es, m, op, ids, times, k);
    assert f.elements == es' + added;
    assert f.elements[..|es| + k] == es' + added[..k];
  }

  lemma AppendedSamples<E>(
    es: seq<ListElement<E>>, m: LargeListMetadata, op: ListOp<E>, ids: seq<Guid>, times: seq<DateTime>, k: nat)
    requires es != [] && op.Append? && Draws(|es|, op, |ids|, |times|) && k <= |op.values|
    ensures var added := NewElements(m.listID, op.values, ids, times[1..], None);
      var samples := Perform(es, m, op, ids, times).samples;
      && |samples| == |op.values| + 1
      && samples[..k + 1] == [Alive(Relink(es, |es|, Some(ids[0]), times[0]))] + PublishAll(added)[..k]
  {
  }

  lemma AppendNotTorn<E>(
    table: Table<E>, es: seq<ListElement<E>>, m: LargeListMetadata, op: ListOp<E>, ids: seq<Guid>,
    times: seq<DateTime>, k: nat)
    requires UpToDate(table, es, m) && es != [] && op.Append? && Draws(|es|, op, |ids|, |times|) && Fresh(es, ids)
    requires k <= |Perform(es, m, op, ids, times).samples|
    ensures var f := Perform(es, m, op, ids, times); var t := TornTable(table, es, m, op, ids, times, k);
      NotTorn(t, m, es, f.elements) && NotTorn(t, f.metadata, es, f.elements)
  {
    var f := Perform(es, m, op, ids, times);
    var t := TornTable(table, es, m, op, ids, times, k);
    if k == 0 {
      ReadsRun(m, t, es);
      ReadsRun(f.metadata, t, es);
    } else {
      PartlyAppended(table, es, m, op, ids, times, k - 1);
      OrderFollows(es, m, op, ids, times);
      var n := |es| + k - 1;
      if n < |f.elements| {
        LinkedSplit(f.elements, None, n);
        TableFollows(table, es, m, op, ids, times);
        BrokenLink(m, t, f.elements[..n], f.elements[n].elementID);
        BrokenLink(f.metadata, t, f.elements[..n], f.elements[n].elementID);
      } else {
        assert f.elements[..n] == f.elements;
        ReadsRun(m, t, f.elements);
        ReadsRun(f.metadata, t, f.elements);
      }
    }
  }

  lemma PopFrontNotTorn<E>(table: Table<E>, es: seq<ListElement<E>>, m: LargeListMetadata, k: nat)
    requires UpToDate(table, es, m) && es != [] && k <= 1
    ensures var f := Perform(es, m, PopFront, [], []); var t := TornTable(table, es, m, PopFront, [], [], k);
      NotTorn(t, m, es, f.elements) && NotTorn(t, f.metadata, es, f.elements)
  {
    var f := Perform(es, m, PopFront, [], []);
    var t := TornTable(table, es, m, PopFront, [], [], k);
    LinkedSplit(es, None, 1);
    if k == 0 {
      ReadsRun(m, t, es);
    } else {
      assert f.samples[..k] == f.samples;
      PopFrontInStep(table, es, m);
      RemovedTable(table, es, 0, m.listID);
      ReplayOne(table, f.samples[0], m.listID);
      BrokenLink<E>(m, t, [], es[0].elementID);
    }
    ReadsRun(f.metadata, t, es[1..]);
  }

  lemma PartlyRemoved<E>(
    table: Table<E>, es: seq<ListElement<E>>, m: LargeListMetadata, op: ListOp<E>, times: seq<DateTime>, k: nat)
    requires UpToDate(table, es, m) && op.Remove? && Draws(|es|, op, 0, |times|) && 1 <= k <= 2
    ensures Holds(TornTable(table, es, m, op, [], times, k), Perform(es, m, op, [], times).elements)
  {
    if k == 1 {
      PredecessorArrived(table, es, m, op, times);
    } else {
      RemoveInStep(table, es, m, op, times);
      assert Perform(es, m, op, [], times).samples[..k] == Perform(es, m, op, [], times).samples;
    }
  }

  lemma PredecessorArrived<E>(
    table: Table<E>, es: seq<ListElement<E>>, m: LargeListMetadata, op: ListOp<E>, times: seq<DateTime>)
    requires UpToDate(table, es, m) && op.Remove? && Draws(|es|, op, 0, |times|)
    ensures Holds(TornTable(table, es, m, op, [], times, 1), Perform(es, m, op, [], times).elements)
  {
    var f := Perform(es, m, op, [], times);
    var prev := Relink(es, op.pos, Some(es[op.pos + 1].elementID), times[0]);
    RelinkedTable(table, es, op.pos - 1, prev, m.listID);
    assert f.samples[..1] == [Alive(prev)];
    ReplayOne(table, Alive(prev), m.listID);
    var es' := es[op.pos - 1 := prev];
    assert f.elements == es'[..op.pos] + es'[op.pos + 1..];
    assert forall e :: e in f.elements ==> e in es';
  }

  lemma RemoveNotTorn<E>(
    table: Table<E>, es: seq<ListElement<E>>, m: LargeListMetadata, op: ListOp<E>, times: seq<DateTime>, k: nat)
    requires UpToDate(table, es, m) && op.Remove? && Draws(|es|, op, 0, |times|) && k <= 2
    ensures var f := Perform(es, m, op, [], times); var t := TornTable(table, es, m, op, [], times, k);
      NotTorn(t, m, es, f.elements) && NotTorn(t, f.metadata, es, f.elements)
  {
    var f := Perform(es, m, op, [], times);
    var t := TornTable(table, es, m, op, [], times, k);
    if k == 0 {
      ReadsRun(m, t, es);
      ReadsRun(f.metadata, t, es);
    } else {
      PartlyRemoved(table, es, m, op, times, k);
      OrderFollows(es, m, op, [], times);
      ReadsRun(m, t, f.elements);
      ReadsRun(f.metadata, t, f.elements);
    }
  }

  lemma UpdateNotTorn<E>(
    table: Table<E>, es: seq<ListElement<E>>, m: LargeListMetadata, op: ListOp<E>, times: seq<DateTime>, k: nat)
    requires UpToDate(table, es, m) && op.Update? && Draws(|es|, op, 0, |times|) && k <= 1
    ensures var f := Perform(es, m, op, [], times); var t := TornTable(table, es, m, op, [], times, k);
      NotTorn(t, m, es, f.elements) && NotTorn(t, f.metadata, es, f.elements)
  {
    var f := Perform(es, m, op, [], times);
    var t := TornTable(table, es, m, op, [], times, k);
    if k == 0 {
      ReadsRun(m, t, es);
      ReadsRun(f.metadata, t, es);
    } else {
      assert f.samples[..k] == f.samples;
      UpdateInStep(table, es, m, op, times);
      OrderFollows(es, m, op, [], times);
      ReadsRun(m, t, f.elements);
      ReadsRun(f.metadata, t, f.elements);
    }
  }

  lemma ClearNotTorn<E>(table: Table<E>, es: seq<ListElement<E>>, m: LargeListMetadata, k: nat)
    requires UpToDate(table, es, m) && k <= |es|
    ensures var f := Perform(es, m, Clear, [], []); var t := TornTable(table, es, m, Clear, [], [], k);
      NotTorn(t, m, es, f.elements) && NotTorn(t, f.metadata, es, f.elements)
  {
    var f := Perform(es, m, Clear, [], []);
    var t := TornTable(table, es, m, Clear, [], [], k);
    if k == 0 {
      ReadsRun(m, t, es);
    } else {
      assert f.samples[..k] == DisposeAll(es[..k]);
      ReplayDispose(table, es[..k], m.listID);
      assert es[..k][0] == es[0];
      BrokenLink<E>(m, t, [], es[0].elementID);
    }
  }

  /**
   No torn reads. Any prefix of the samples of one operation, under the old metadata or already under the new, shows
   the list before the operation or after it, and never a mixture.
   */
  lemma NoTornReads<E>(
    table: Table<E>, es: seq<ListElement<E>>, m: LargeListMetadata, op: ListOp<E>, ids: seq<Guid>,
    times: seq<DateTime>, k: nat)
    requires UpToDate(table, es, m) && Orderly(op) && Draws(|es|, op, |ids|, |times|) && Fresh(es, ids)
    requires k <= |Perform(es, m, op, ids, times).samples|
    ensures var f := Perform(es, m, op, ids, times); var t := TornTable(table, es, m, op, ids, times, k);
      NotTorn(t, m, es, f.elements) && NotTorn(t, f.metadata, es, f.elements)
  {
    match op
    case Update(value, pos) => UpdateNotTorn(table, es, m, op, times, k);
    case Prepend(values) => PrependNotTorn(table, es, m, op, ids, times, k);
    case Append(values) =>
      if es == [] { StartNotTorn(table, m, op, ids, times, k); }
      else { AppendNotTorn(table, es, m, op, ids, times, k); }
    case PopFront => PopFrontNotTorn(table, es, m, k);
    case Remove(pos) => RemoveNotTorn(table, es, m, op, times, k);
    case Clear => ClearNotTorn(table, es, m, k);
  }

  /** The same for a reader whose cache still holds the list it read before the operation. */
  lemma ReaderNotTorn<E>(
    l: LargeListState<E>, es: seq<ListElement<E>>, op: ListOp<E>, ids: seq<Guid>, times: seq<DateTime>, k: nat)
    requires l.listId == l.metadata.listID && UpToDate(l.elementTable, es, l.metadata)
    requires l.cached.Some? ==> l.cached.value == Values(es)
    requires Orderly(op) && Draws(|es|, op, |ids|, |times|) && Fresh(es, ids)
    requires k <= |Perform(es, l.metadata, op, ids, times).samples|
    ensures var f := Perform(es, l.metadata, op, ids, times);
      var torn := l.(elementTable := TornTable(l.elementTable, es, l.metadata, op, ids, times, k));
      forall r :: r in [GetList(torn).1, ReceiveMetadata(torn, l.metadata).1, ReceiveMetadata(torn, f.metadata).1] ==>
        r.status == ValidList ==> r.list == Some(Values(es)) || r.list == Some(Values(f.elements))
  {
    NoTornReads(l.elementTable, es, l.metadata, op, ids, times, k);
  }

  // ----- Insertion and popBack, whose local order differs from the published links

  /** The sequence the published links spell out after an insertion, whatever order is kept locally. */
  function PublishedOrder<E>(
    es: seq<ListElement<E>>, m: LargeListMetadata, op: ListOp<E>, ids: seq<Guid>, times: seq<DateTime>)
    : seq<ListElement<E>>
    requires op.Insert? && Draws(|es|, op, |ids|, |times|)
  {
    es[..op.pos - 1] + [Relink(es, op.pos, Some(ids[0]), times[0])]
    + NewElements(m.listID, op.values, ids, times[1..], Some(es[op.pos].elementID)) + es[op.pos..]
  }

  lemma InsertPublishes<E>(
    table: Table<E>, es: seq<ListElement<E>>, m: LargeListMetadata, op: ListOp<E>, ids: seq<Guid>,
    times: seq<DateTime>)
    requires op.Insert? && Draws(|es|, op, |ids|, |times|) && Fresh(es, ids)
    requires WellFormed(m.listID, es) && Represents(table, es) && Linked(es, None)
    ensures var all := PublishedOrder(es, m, op, ids, times); var f := Perform(es, m, op, ids, times);
      && Represents(Replay(table, f.samples, m.listID), all) && WellFormed(m.listID, all)
      && Linked(all, None) && Values(all) == Reference(Values(es), op)
  {
    var all := PublishedOrder(es, m, op, ids, times);
    var tail := Some(es[op.pos].elementID);
    LinkedIn(es, m, op.pos, op.values, ids, times, tail);
    LinkInTable(table, es, m, op.pos, op.values, ids, times, tail, op.pos, false);
    var prev := Relink(es, op.pos, Some(ids[0]), times[0]);
    var es' := es[op.pos - 1 := prev];
    var added := NewElements(m.listID, op.values, ids, times[1..], tail);
    assert all == es'[..op.pos] + added + es'[op.pos..];
  }

  lemma InsertKeepsMembers<E>(
    es: seq<ListElement<E>>, m: LargeListMetadata, op: ListOp<E>, ids: seq<Guid>, times: seq<DateTime>)
    requires op.Insert? && Draws(|es|, op, |ids|, |times|)
    ensures var all := PublishedOrder(es, m, op, ids, times); var f := Perform(es, m, op, ids, times);
      |all| == |f.elements| && forall e :: e in all ==> e in f.elements
  {
    var added := NewElements(m.listID, op.values, ids, times[1..], Some(es[op.pos].elementID));
    forall e | e in added ensures e in Reverse(added) {
      var i :| 0 <= i < |added| && added[i] == e;
      assert Reverse(added)[|added| - 1 - i] == e;
    }
  }

  /** A reader to which everything has come reads the table it makes, unless the metadata is stale. */
  lemma ArrivedRead<E>(s: System<E>, arrived: nat, m: LargeListMetadata)
    requires Basic(s) && |s.pending| <= Min(arrived, READ_LIMIT) && m.listID == s.metadata.listID
    requires !IsStale(m, Lookup(s.lists, m.listID).metadata)
    ensures ReadWith(s, arrived, m) == Generate(ListAt(m, Delivered(s))).1
  {
    ConsumeIsReplay(s.lists, s.pending, m.listID);
    assert s.pending[..|s.pending|] == s.pending;
  }

  lemma InsertArrives<E>(s: System<E>, step: Step<E>)
    requires Consistent(s) && Sequenced(s) && step.Write? && step.op.Insert? && Enabled(s, step)
    ensures var s' := Execute(s, step); var id := s.metadata.listID;
      var all := PublishedOrder(s.elements, s.metadata, step.op, step.ids, step.times);
      && Represents(Delivered(s'), all) && WellFormed(id, all)
      && Linked(all, None) && Values(all) == Reference(Values(s.elements), step.op)
      && s'.metadata.size == |all|
      && (s'.metadata.updateElementTimestamp.Some? ==> NotAfter(all, s'.metadata.updateElementTimestamp.value))
  {
    var id, es, op := s.metadata.listID, s.elements, step.op;
    var f := Perform(es, s.metadata, op, step.ids, step.times);
    var table := Lookup(s.lists, id).elementTable;
    assert Fresh(es, step.ids);
    InsertPublishes(Replay(table, s.pending, id), es, s.metadata, op, step.ids, step.times);
    ReplayConcat(table, s.pending, f.samples, id);
    InsertKeepsMembers(es, s.metadata, op, step.ids, step.times);
    MetadataFollows(es, s.metadata, op, step.ids, step.times, s.now);
  }

  /**
   An insertion inside the list reads back as an insertion, except for a single value at position 1: the writer puts
   it before the first element, announces it as the start, and the list cannot be read.
   */
  lemma InsertReadsBack<E>(s: System<E>, step: Step<E>)
    requires Consistent(s) && Sequenced(s) && step.Write? && step.op.Insert? && Enabled(s, step)
    requires |Execute(s, step).pending| <= READ_LIMIT
    ensures ReadResult(Execute(s, step)) ==
      if |step.op.values| == 1 && step.op.pos == 1 then LargeListResult(InvalidList, None)
      else LargeListResult(ValidList, Some(Reference(Values(s.elements), step.op)))
  {
    var s', id := Execute(s, step), s.metadata.listID;
    var all := PublishedOrder(s.elements, s.metadata, step.op, step.ids, step.times);
    StepKeepsConsistent(s, step);
    ArrivedRead(s', |s'.pending|, s'.metadata);
    InsertArrives(s, step);
    var l := ListAt(s'.metadata, Delivered(s'));
    if |step.op.values| == 1 && step.op.pos == 1 {
      LinkedSplit(all, None, 1);
      ReadsRun(s'.metadata, l.elementTable, all[1..]);
    } else {
      ReadsBack(l, all);
    }
  }

  /** popBack relinks the element it then disposes: what is left can be read only if nothing is left. */
  lemma PopBackReadsBack<E>(s: System<E>, step: Step<E>)
    requires Consistent(s) && Sequenced(s) && step.Write? && step.op.PopBack? && Enabled(s, step)
    requires |Execute(s, step).pending| <= READ_LIMIT
    ensures ReadResult(Execute(s, step)) ==
      LargeListResult(if |s.elements| == 1 then EmptyList else InvalidList, None)
  {
    var s', id, es := Execute(s, step), s.metadata.listID, s.elements;
    StepKeepsConsistent(s, step);
    ArrivedRead(s', |s'.pending|, s'.metadata);
    var l := ListAt(s'.metadata, Delivered(s'));
    if |es| > 1 {
      LinkedSplit(es, None, |es| - 1);
      assert !Has(s'.elements, es[|es| - 1].elementID);
      BrokenLink(s'.metadata, l.elementTable, es[..|es| - 1], es[|es| - 1].elementID);
      GenerateExact(l);
    }
  }

  /** Once the reader has removed the writer's list, what it had taken is lost: only an empty list reads back. */
  lemma RemovedReadsBack<E>(s: System<E>)
    requires Consistent(s) && Sequenced(s) && |s.pending| <= READ_LIMIT
    ensures ReadResult(Execute(s, RemoveById(|s.pending|, s.metadata.listID))) ==
      LargeListResult(if s.elements == [] then EmptyList else InvalidList, None)
  {
    var removed := Execute(s, RemoveById(|s.pending|, s.metadata.listID));
    assert removed.pending == [];
    assert DrainLists(removed) == removed;
    if s.elements != [] { assert s.elements[0].elementID != NIL_GUID; }
  }
}
