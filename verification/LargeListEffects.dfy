/**
 More of what the writer's operations do: the order kept locally, what the dispatch at the ends means, which element the
 metadata names, what failed sends leave behind, and how a reader tells new metadata from old.
 */
module LargeListEffects {
  import opened Common
  import opened LargeListModel
  import opened LargeListOps
  import opened LargeListOrder
  import opened LargeListProtocol
  import opened LargeListReads
  import opened LargeListWriting

  /** Carrying out an insertion or removal at an end by the operation for that end does not change its meaning. */
  lemma DispatchKeepsMeaning<E>(c: seq<E>, op: ListOp<E>)
    requires op.Insert? ==> op.pos <= |c|
    requires op.Remove? ==> op.pos < |c|
    ensures Reference(c, Dispatch(|c|, op)) == Reference(c, op)
  {
  }

  /** An insertion does not keep the order locally: one value goes before the predecessor, several are reversed. */
  lemma LocalOrder<E>(
    es: seq<ListElement<E>>, m: LargeListMetadata, op: ListOp<E>, ids: seq<Guid>, times: seq<DateTime>)
    requires op.Insert? && Draws(|es|, op, |ids|, |times|)
    ensures var c, f := Values(es), Perform(es, m, op, ids, times);
      Values(f.elements) ==
        if |op.values| == 1 then c[..op.pos - 1] + op.values + c[op.pos - 1..]
        else c[..op.pos] + Reverse(op.values) + c[op.pos..]
  {
    InsertedOrder(es, m, op, ids, times);
    var c, pos := Values(es), op.pos;
    var es' := es[pos - 1 := Relink(es, pos, Some(ids[0]), times[0])];
    var added := NewElements(m.listID, op.values, ids, times[1..], Some(es[pos].elementID));
    assert Values(es') == c && Values(added) == op.values && Values(Reverse(added)) == Reverse(op.values);
    if |op.values| == 1 {
      ValuesAround(es', pos - 1, added);
    } else {
      ValuesAround(es', pos, Reverse(added));
    }
  }

  lemma ValuesAround<E>(es: seq<ListElement<E>>, k: nat, mid: seq<ListElement<E>>)
    requires k <= |es|
    ensures Values(es[..k] + mid + es[k..]) == Values(es)[..k] + Values(mid) + Values(es)[k..]
  {
  }

  /** The metadata names the element that was published or disposed last, with its time if it was published. */
  lemma MetadataNamesLast<E>(
    es: seq<ListElement<E>>, m: LargeListMetadata, op: ListOp<E>, ids: seq<Guid>, times: seq<DateTime>)
    requires Draws(|es|, op, |ids|, |times|)
    ensures var f := Perform(es, m, op, ids, times);
      if f.samples == [] then f.metadata == m
      else
        var last := f.samples[|f.samples| - 1];
        && f.metadata.updateElementID == last.data.elementID
        && f.metadata.updateElementTimestamp ==
             (if last.status == Disposed then None else Some(last.data.elementTimestamp))
        && f.metadata.size == |f.elements|
  {
    match op
    case Prepend(values) =>
      var added := NewElements(m.listID, values, ids, times, HeadId(es));
      assert PublishAll(Reverse(added))[|added| - 1] == Alive(added[0]);
    case Append(values) =>
      if es != [] {
        var added := NewElements(m.listID, values, ids, times[1..], None);
        assert PublishAll(added)[|added| - 1] == Alive(added[|added| - 1]);
      }
    case Insert(values, pos) =>
      var added := NewElements(m.listID, values, ids, times[1..], Some(es[pos].elementID));
      assert PublishAll(added)[|added| - 1] == Alive(added[|added| - 1]);
    case _ =>
  }

  // ----- Failed sends

  /** The operation changes the link of a neighbouring element before it sends anything. */
  predicate LinksFirst<E>(n: nat, op: ListOp<E>) { (op.Append? && n > 0) || op.Insert? || op.Remove? }

  /** What is on the topic still makes a reader's table of the writer's elements. */
  ghost predicate StillMirrored<E>(
    table: Table<E>, es: seq<ListElement<E>>, m: LargeListMetadata, op: ListOp<E>, ids: seq<Guid>,
    times: seq<DateTime>, k: nat)
    requires Draws(|es|, op, |ids|, |times|) && !op.Prepend? && k < |Perform(es, m, op, ids, times).samples|
  {
    var f := Interrupt(es, m, op, ids, times, k);
    Represents(Replay(table, f.samples, m.listID), f.elements)
  }

  /** A relinked element that was not sent is not what the reader has. */
  lemma UnsentIsMissing<E>(table: Table<E>, es: seq<ListElement<E>>, pos: nat, next: Option<Guid>, t: DateTime)
    requires Represents(table, es) && 0 < pos <= |es| && es[pos - 1].nextElementID != next
    ensures !Represents(table, es[pos - 1 := Relink(es, pos, next, t)])
  {
    var e := Relink(es, pos, next, t);
    assert es[pos - 1 := e][pos - 1] == e && table[es[pos - 1].elementID] == es[pos - 1];
  }

  /** One that was sent is. */
  lemma SentIsThere<E>(
    table: Table<E>, es: seq<ListElement<E>>, pos: nat, next: Option<Guid>, t: DateTime, listId: Guid)
    requires WellFormed(listId, es) && Represents(table, es) && 0 < pos <= |es|
    ensures var e := Relink(es, pos, next, t);
      WellFormed(listId, es[pos - 1 := e]) && Represents(Replay(table, [Alive(e)], listId), es[pos - 1 := e])
  {
    var e := Relink(es, pos, next, t);
    RelinkedTable(table, es, pos - 1, e, listId);
    ReplayOne(table, Alive(e), listId);
  }

  lemma AppendStopped<E>(
    table: Table<E>, es: seq<ListElement<E>>, m: LargeListMetadata, op: ListOp<E>, ids: seq<Guid>,
    times: seq<DateTime>, k: nat)
    requires WellFormed(m.listID, es) && Represents(table, es) && Fresh(es, ids)
    requires op.Append? && es != [] && Draws(|es|, op, |ids|, |times|) && 0 < k <= |op.values|
    ensures StillMirrored(table, es, m, op, ids, times, k)
  {
    var prev := Relink(es, |es|, Some(ids[0]), times[0]);
    var es' := es[|es| - 1 := prev];
    var added := NewElements(m.listID, op.values, ids, times[1..], None);
    var done := added[..k - 1];
    RelinkedTable(table, es, |es| - 1, prev, m.listID);
    NewElementsWellFormed(es', m.listID, op.values, ids, times[1..], None);
    AddedTable(table[prev.elementID := prev], es', done, es' + done, m.listID);
    AppendedSamples(es, m, op, ids, times, k - 1);
    assert PublishAll(added)[..k - 1] == PublishAll(done);
    assert ([Alive(prev)] + PublishAll(done))[1..] == PublishAll(done);
  }

  lemma InsertStopped<E>(
    table: Table<E>, es: seq<ListElement<E>>, m: LargeListMetadata, op: ListOp<E>, ids: seq<Guid>,
    times: seq<DateTime>, k: nat)
    requires WellFormed(m.listID, es) && Represents(table, es) && Fresh(es, ids)
    requires op.Insert? && Draws(|es|, op, |ids|, |times|) && 0 < k <= |op.values|
    ensures StillMirrored(table, es, m, op, ids, times, k) <==> k == 1
  {
    var f := Interrupt(es, m, op, ids, times, k);
    var prev := Relink(es, op.pos, Some(ids[0]), times[0]);
    var es' := es[op.pos - 1 := prev];
    var added := NewElements(m.listID, op.values, ids, times[1..], Some(es[op.pos].elementID));
    SentIsThere(table, es, op.pos, Some(ids[0]), times[0], m.listID);
    assert f.samples == [Alive(prev)] + PublishAll(added[..k - 1]);
    if k == 1 {
      assert f.samples == [Alive(prev)];
    } else {
      ReplayConcat(table, [Alive(prev)], PublishAll(added[..k - 1]), m.listID);
      NewElementsWellFormed(es', m.listID, op.values, ids, times[1..], Some(es[op.pos].elementID));
      assert added[..k - 1][0].elementID == ids[0];
      RelinkedTable(table, es, op.pos - 1, prev, m.listID);
      SentIsExtra(Replay(table, [Alive(prev)], m.listID), es', added[..k - 1], m.listID);
    }
  }

  /** A reader that was sent elements the writer does not have. */
  lemma SentIsExtra<E>(table: Table<E>, es: seq<ListElement<E>>, sent: seq<ListElement<E>>, listId: Guid)
    requires WellFormed(listId, sent) && sent != [] && !Has(es, sent[0].elementID)
    ensures !Represents(Replay(table, PublishAll(sent), listId), es)
  {
    ReplayPublish(table, sent, listId);
  }

  lemma OthersStopped<E>(
    table: Table<E>, es: seq<ListElement<E>>, m: LargeListMetadata, op: ListOp<E>, times: seq<DateTime>, k: nat)
    requires WellFormed(m.listID, es) && Represents(table, es)
    requires (op.PopBack? || op.Remove? || op.Clear?) && Draws(|es|, op, 0, |times|)
    requires k < |Perform(es, m, op, [], times).samples| && (op.Remove? ==> k > 0)
    ensures StillMirrored(table, es, m, op, [], times, k)
  {
    var f := Interrupt(es, m, op, [], times, k);
    match op
    case PopBack =>
      if k == 1 {
        SentIsThere(table, es, |es|, None, times[0], m.listID);
        assert f.samples == [Alive(Relink(es, |es|, None, times[0]))];
      }
    case Remove(pos) =>
      SentIsThere(table, es, pos, Some(es[pos + 1].elementID), times[0], m.listID);
      assert f.samples == [Alive(Relink(es, pos, Some(es[pos + 1].elementID), times[0]))];
    case Clear =>
      assert f.samples == DisposeAll(es[..k]);
      ReplayDispose(table, es[..k], m.listID);
      RestStays(Replay(table, f.samples, m.listID), table, es, k);
  }

  lemma RestStays<E>(rest: Table<E>, table: Table<E>, es: seq<ListElement<E>>, k: nat)
    requires Represents(table, es) && k <= |es|
    requires forall i, j :: 0 <= i < j < |es| ==> es[i].elementID != es[j].elementID
    requires forall g :: g in rest <==> g in table && !Has(es[..k], g)
    requires forall g :: g in rest ==> rest[g] == table[g]
    ensures Represents(rest, es[k..])
  {
    forall i | 0 <= i < |es| - k ensures es[k..][i].elementID in rest { assert es[k..][i] == es[i + k]; }
    forall j | 0 <= j < k ensures Has(es[..k], es[j].elementID) { assert es[..k][j] == es[j]; }
    forall g | g in rest ensures Has(es[k..], g) {
      var i :| 0 <= i < |es| && es[i].elementID == g;
      assert es[k..][i - k].elementID == g;
    }
  }

  /**
   What a failed send leaves behind, exactly: a reader that takes everything sent still has the writer's elements,
   unless the operation had linked a neighbour that it could not send, or had sent elements it then did not insert.
   Except for clear, which goes element by element, the metadata is as it was.
   */
  lemma InterruptExact<E>(
    table: Table<E>, es: seq<ListElement<E>>, m: LargeListMetadata, op: ListOp<E>, ids: seq<Guid>,
    times: seq<DateTime>, k: nat)
    requires WellFormed(m.listID, es) && Represents(table, es) && Linked(es, None) && Fresh(es, ids)
    requires Draws(|es|, op, |ids|, |times|) && !op.Prepend? && k < |Perform(es, m, op, ids, times).samples|
    ensures StillMirrored(table, es, m, op, ids, times, k) <==>
      !(LinksFirst(|es|, op) && k == 0) && !(op.Insert? && k > 1)
    ensures !op.Clear? ==> Interrupt(es, m, op, ids, times, k).metadata == m
  {
    if LinksFirst(|es|, op) && k == 0 {
      var pos := if op.Append? then |es| else op.pos;
      var next := if op.Remove? then Some(es[pos + 1].elementID) else Some(ids[0]);
      assert !op.Remove? ==> forall i :: 0 <= i < |es| ==> Has(es, es[i].elementID);
      UnsentIsMissing(table, es, pos, next, times[0]);
    } else if op.Append? && es != [] {
      AppendStopped(table, es, m, op, ids, times, k);
    } else if op.Insert? {
      InsertStopped(table, es, m, op, ids, times, k);
    } else if op.PopBack? || op.Remove? || op.Clear? {
      OthersStopped(table, es, m, op, times, k);
    }
  }

  // ----- Old and new metadata

  /** The reader's list after some metadata has come, one after the other. */
  function Told<E>(l: LargeListState<E>, ms: seq<LargeListMetadata>): LargeListState<E> {
    if ms == [] then l else ReceiveMetadata(Told(l, ms[..|ms| - 1]), ms[|ms| - 1]).0
  }

  /** Metadata for another list, or older than what the reader has, is refused and changes nothing. */
  lemma RefusedExact<E>(l: LargeListState<E>, m: LargeListMetadata)
    ensures var (l', r) := ReceiveMetadata(l, m);
      var older := m.updateElementTimestamp.Some? && l.metadata.updateElementTimestamp.Some? &&
        m.updateElementTimestamp.value < l.metadata.updateElementTimestamp.value;
      if m.listID != l.listId || older then l' == l && r == LargeListResult(InvalidList, None)
      else l'.metadata == m && l'.elementTable == l.elementTable && r == Generate(ListAt(m, l.elementTable)).1
  {
    assert l.(metadata := m, cached := None).elementTable == ListAt(m, l.elementTable).elementTable;
  }

  /** As long as all metadata is dated, the reader keeps what is newest, in whatever order it comes. */
  lemma {:induction false} NewestIsKept<E>(l: LargeListState<E>, ms: seq<LargeListMetadata>)
    requires l.metadata.updateElementTimestamp.Some?
    requires forall i :: 0 <= i < |ms| ==> ms[i].listID == l.listId && ms[i].updateElementTimestamp.Some?
    ensures var l' := Told(l, ms);
      && l'.listId == l.listId && (l'.metadata == l.metadata || l'.metadata in ms)
      && l'.metadata.updateElementTimestamp.Some?
      && l'.metadata.updateElementTimestamp.value >= l.metadata.updateElementTimestamp.value
      && forall i :: 0 <= i < |ms| ==>
           l'.metadata.updateElementTimestamp.value >= ms[i].updateElementTimestamp.value
    decreases |ms|
  {
    if ms != [] {
      var n := |ms| - 1;
      NewestIsKept(l, ms[..n]);
      assert ms == ms[..n] + [ms[n]];
    }
  }

  /** What was read for metadata is what is read by ID until other metadata comes, even if elements come meanwhile. */
  lemma ReadsAgain<E>(lists: Lists<E>, m: LargeListMetadata, samples: seq<Sample<E>>)
    requires Keyed(lists) && TakeMetadata(lists, m).1.status == ValidList
    ensures TakeById(Consume(TakeMetadata(lists, m).0, samples), m.listID).1 == TakeMetadata(lists, m).1
  {
    CachesStayFit(lists, m);
    ConsumeIsReplay(TakeMetadata(lists, m).0, samples, m.listID);
  }

  /** By ID the reader returns only lists it knows of. */
  lemma UnknownIsInvalid<E>(lists: Lists<E>, listId: Guid)
    requires listId !in lists
    ensures TakeById(lists, listId) == (lists, LargeListResult(InvalidList, None))
  {
  }

  /** One call takes at most sixty samples, and all there are if they are no more. */
  lemma DrainExact<E>(s: System<E>)
    ensures |DrainLists(s).pending| == if |s.pending| <= 60 then 0 else |s.pending| - 60
  {
  }
}
