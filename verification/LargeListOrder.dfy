/**
 The links between the writer's elements, and what a reader that holds exactly those elements rebuilds from them.
 */
module LargeListOrder {
  import opened Common
  import opened LargeListModel
  import opened LargeListOps

  /** The identifier that leads into the run `es` when it is followed by `tail`. */
  function Lead<E>(es: seq<ListElement<E>>, tail: Option<Guid>): Option<Guid> {
    if es == [] then tail else Some(es[0].elementID)
  }

  function Target(link: Option<Guid>): Guid { if link.Some? then link.value else NIL_GUID }

  ghost predicate Linked<E>(es: seq<ListElement<E>>, tail: Option<Guid>) {
    && (forall i :: 0 <= i < |es| - 1 ==> es[i].nextElementID == Some(es[i + 1].elementID))
    && (es != [] ==> es[|es| - 1].nextElementID == tail)
  }

  ghost predicate NotAfter<E>(es: seq<ListElement<E>>, t: DateTime) {
    forall e :: e in es ==> e.elementTimestamp <= t
  }

  /** The metadata describes this list, and no element is newer than the update it announces. */
  ghost predicate Describes<E>(m: LargeListMetadata, es: seq<ListElement<E>>) {
    && m.size == |es|
    && m.startingElementID == Target(Lead(es, None))
    && (m.updateElementTimestamp.Some? ==> NotAfter(es, m.updateElementTimestamp.value))
  }

  function Values<E>(es: seq<ListElement<E>>): seq<E> {
    seq(|es|, i requires 0 <= i < |es| => es[i].element)
  }

  function Ids<E>(es: seq<ListElement<E>>): seq<Guid> {
    seq(|es|, i requires 0 <= i < |es| => es[i].elementID)
  }

  /** Each element of the run is in the table as it stands, and its link can be followed. */
  ghost predicate Holds<E>(table: Table<E>, es: seq<ListElement<E>>) {
    forall e :: e in es ==> e.elementID != NIL_GUID && e.elementID in table && table[e.elementID] == e
  }

  // ----- Linked runs

  lemma LinkedConcat<E>(a: seq<ListElement<E>>, b: seq<ListElement<E>>, tail: Option<Guid>)
    requires Linked(a, Lead(b, tail)) && Linked(b, tail)
    ensures Linked(a + b, tail)
  {
  }

  lemma LinkedSplit<E>(es: seq<ListElement<E>>, tail: Option<Guid>, k: nat)
    requires Linked(es, tail) && k <= |es|
    ensures Linked(es[..k], Lead(es[k..], tail)) && Linked(es[k..], tail)
  {
  }

  lemma NewElementsLinked<E>(
    listId: Guid, values: seq<E>, ids: seq<Guid>, times: seq<DateTime>, tail: Option<Guid>)
    requires |values| == |ids| == |times|
    ensures var added := NewElements(listId, values, ids, times, tail);
      Linked(added, tail) && Values(added) == values
  {
  }

  // ----- The operations that keep list order

  predicate Orderly<E>(op: ListOp<E>) { !op.Insert? && !op.PopBack? }

  /** Timestamps are drawn from a clock that never goes back; a prepend draws them last element first. */
  predicate Clocked<E>(op: ListOp<E>, times: seq<DateTime>, now: DateTime) {
    && (forall i :: 0 <= i < |times| ==> now <= times[i])
    && (forall i, j :: 0 <= i < j < |times| ==> if op.Prepend? then times[j] <= times[i] else times[i] <= times[j])
  }

  function ClockAfter<E>(op: ListOp<E>, times: seq<DateTime>, now: DateTime): DateTime {
    if times == [] then now else if op.Prepend? then times[0] else times[|times| - 1]
  }

  /** The list after the operation is linked in order and reads as the operation on the plain sequence. */
  ghost predicate InOrder<E>(
    es: seq<ListElement<E>>, m: LargeListMetadata, op: ListOp<E>, ids: seq<Guid>, times: seq<DateTime>)
    requires Draws(|es|, op, |ids|, |times|)
  {
    var f := Perform(es, m, op, ids, times);
    Linked(f.elements, None) && Values(f.elements) == Reference(Values(es), op)
  }

  lemma OrderFollows<E>(
    es: seq<ListElement<E>>, m: LargeListMetadata, op: ListOp<E>, ids: seq<Guid>, times: seq<DateTime>)
    requires Draws(|es|, op, |ids|, |times|) && Orderly(op) && Linked(es, None)
    ensures InOrder(es, m, op, ids, times)
  {
    match op
    case Update(value, pos) =>
    case Prepend(values) =>
      NewElementsLinked(m.listID, values, ids, times, HeadId(es));
      LinkedConcat(NewElements(m.listID, values, ids, times, HeadId(es)), es, None);
    case Append(values) => AppendInOrder(es, m, op, ids, times);
    case PopFront => LinkedSplit(es, None, 1);
    case Remove(pos) => RemoveInOrder(es, m, op, times);
    case Clear =>
  }

  lemma AppendInOrder<E>(
    es: seq<ListElement<E>>, m: LargeListMetadata, op: ListOp<E>, ids: seq<Guid>, times: seq<DateTime>)
    requires op.Append? && Draws(|es|, op, |ids|, |times|) && Linked(es, None)
    ensures InOrder(es, m, op, ids, times)
  {
    if es == [] {
      NewElementsLinked(m.listID, op.values, ids, times, None);
    } else {
      LinkedIn(es, m, |es|, op.values, ids, times, None);
      var f := Perform(es, m, op, ids, times);
      assert f.elements == f.elements + es[|es|..];
      assert Values(es)[..|es|] == Values(es);
    }
  }

  lemma RemoveInOrder<E>(
    es: seq<ListElement<E>>, m: LargeListMetadata, op: ListOp<E>, times: seq<DateTime>)
    requires op.Remove? && Draws(|es|, op, 0, |times|) && Linked(es, None)
    ensures InOrder(es, m, op, [], times)
  {
    LinkedOut(es, op.pos, times[0]);
  }

  lemma LinkedOut<E>(es: seq<ListElement<E>>, pos: nat, t: DateTime)
    requires Linked(es, None) && 0 < pos < |es| - 1
    ensures
      var all := es[..pos - 1] + [Relink(es, pos, Some(es[pos + 1].elementID), t)] + es[pos + 1..];
      Linked(all, None) && Values(all) == Values(es)[..pos] + Values(es)[pos + 1..]
  {
    var prev := Relink(es, pos, Some(es[pos + 1].elementID), t);
    LinkedSplit(es, None, pos - 1);
    LinkedSplit(es, None, pos + 1);
    LinkedConcat([prev], es[pos + 1..], None);
    LinkedConcat(es[..pos - 1], [prev] + es[pos + 1..], None);
    assert es[..pos - 1] + [prev] + es[pos + 1..] == es[..pos - 1] + ([prev] + es[pos + 1..]);
  }

  /** Relinking the element before `pos` and publishing a run after it splices the run in, in order. */
  lemma LinkedIn<E>(
    es: seq<ListElement<E>>, m: LargeListMetadata, pos: nat, values: seq<E>, ids: seq<Guid>, times: seq<DateTime>,
    tail: Option<Guid>)
    requires Linked(es, None) && 0 < pos <= |es| && tail == Lead(es[pos..], None)
    requires 0 < |values| == |ids| && |times| == |ids| + 1
    ensures
      var added := NewElements(m.listID, values, ids, times[1..], tail);
      var all := es[..pos - 1] + [Relink(es, pos, Some(ids[0]), times[0])] + added + es[pos..];
      Linked(all, None) && Values(all) == Values(es)[..pos] + values + Values(es)[pos..]
  {
    var added := NewElements(m.listID, values, ids, times[1..], tail);
    var prev := Relink(es, pos, Some(ids[0]), times[0]);
    NewElementsLinked(m.listID, values, ids, times[1..], tail);
    SplicedIn(es, pos, prev, added, tail);
    assert Values([prev]) == [Values(es)[pos - 1]];
  }

  lemma SplicedIn<E>(
    es: seq<ListElement<E>>, pos: nat, prev: ListElement<E>, added: seq<ListElement<E>>, tail: Option<Guid>)
    requires Linked(es, None) && 0 < pos <= |es| && tail == Lead(es[pos..], None)
    requires Linked(added, tail) && added != []
    requires prev == es[pos - 1].(nextElementID := Some(added[0].elementID), elementTimestamp := prev.elementTimestamp)
    ensures Linked(es[..pos - 1] + [prev] + added + es[pos..], None)
  {
    LinkedSplit(es, None, pos - 1);
    LinkedSplit(es, None, pos);
    LinkedConcat(added, es[pos..], None);
    LinkedConcat([prev], added + es[pos..], None);
    LinkedConcat(es[..pos - 1], [prev] + (added + es[pos..]), None);
    assert es[..pos - 1] + [prev] + added + es[pos..] == es[..pos - 1] + ([prev] + (added + es[pos..]));
  }

  // ----- The metadata and the clock

  /** Every element left by an operation was there before or carries one of the timestamps drawn. */
  ghost predicate Stamped<E>(
    es: seq<ListElement<E>>, m: LargeListMetadata, op: ListOp<E>, ids: seq<Guid>, times: seq<DateTime>)
    requires Draws(|es|, op, |ids|, |times|)
  {
    forall e :: e in Perform(es, m, op, ids, times).elements ==> e in es || e.elementTimestamp in times
  }

  lemma ElementsStamped<E>(
    es: seq<ListElement<E>>, m: LargeListMetadata, op: ListOp<E>, ids: seq<Guid>, times: seq<DateTime>)
    requires Draws(|es|, op, |ids|, |times|)
    ensures Stamped(es, m, op, ids, times)
  {
    match op
    case Update(value, pos) => UpdateStamped(es, m, op, times);
    case Prepend(values) =>
    case Append(values) => LinkStamped(es, m, op, ids, times);
    case Insert(values, pos) => LinkStamped(es, m, op, ids, times);
    case PopFront =>
    case PopBack =>
    case Remove(pos) =>
    case Clear =>
  }

  lemma UpdateStamped<E>(es: seq<ListElement<E>>, m: LargeListMetadata, op: ListOp<E>, times: seq<DateTime>)
    requires op.Update? && Draws(|es|, op, 0, |times|)
    ensures Stamped(es, m, op, [], times)
  {
    var f := Perform(es, m, op, [], times);
    forall e | e in f.elements ensures e in es || e.elementTimestamp in times {
      var i :| 0 <= i < |f.elements| && f.elements[i] == e;
      assert i == op.pos || e == es[i];
    }
  }

  lemma LinkStamped<E>(
    es: seq<ListElement<E>>, m: LargeListMetadata, op: ListOp<E>, ids: seq<Guid>, times: seq<DateTime>)
    requires (op.Append? || op.Insert?) && Draws(|es|, op, |ids|, |times|)
    ensures Stamped(es, m, op, ids, times)
  {
    var f := Perform(es, m, op, ids, times);
    if es != [] {
      var tail := if op.Append? then None else Some(es[op.pos].elementID);
      var added := NewElements(m.listID, op.values, ids, times[1..], tail);
      assert forall i :: 0 <= i < |added| ==> added[i].elementTimestamp == times[i + 1];
      assert forall e :: e in Reverse(added) ==> e in added;
    }
  }

  lemma ClockFollows<E>(
    es: seq<ListElement<E>>, m: LargeListMetadata, op: ListOp<E>, ids: seq<Guid>, times: seq<DateTime>, now: DateTime)
    requires Draws(|es|, op, |ids|, |times|) && NotAfter(es, now) && Clocked(op, times, now)
    ensures now <= ClockAfter(op, times, now)
    ensures NotAfter(Perform(es, m, op, ids, times).elements, ClockAfter(op, times, now))
  {
    ElementsStamped(es, m, op, ids, times);
  }

  /** Except for clearing an empty list, the metadata is rewritten, with the last timestamp drawn or none. */
  lemma MetadataRewritten<E>(
    es: seq<ListElement<E>>, m: LargeListMetadata, op: ListOp<E>, ids: seq<Guid>, times: seq<DateTime>, now: DateTime)
    requires Draws(|es|, op, |ids|, |times|)
    ensures var f := Perform(es, m, op, ids, times);
      && f.metadata.listID == m.listID
      && if op.Clear? && es == [] then f.metadata == m
         else
           && f.metadata.size == |f.elements|
           && f.metadata.startingElementID == Target(Lead(f.elements, None))
           && f.metadata.updateElementTimestamp in {None, Some(ClockAfter(op, times, now))}
  {
  }

  lemma MetadataFollows<E>(
    es: seq<ListElement<E>>, m: LargeListMetadata, op: ListOp<E>, ids: seq<Guid>, times: seq<DateTime>, now: DateTime)
    requires Draws(|es|, op, |ids|, |times|) && NotAfter(es, now) && Clocked(op, times, now) && Describes(m, es)
    ensures var f := Perform(es, m, op, ids, times);
      Describes(f.metadata, f.elements) && f.metadata.listID == m.listID
  {
    ClockFollows(es, m, op, ids, times, now);
    MetadataRewritten(es, m, op, ids, times, now);
  }

  // ----- Following the links

  lemma {:induction false} LinkedIsChain<E>(
    table: Table<E>, limit: Option<DateTime>, es: seq<ListElement<E>>, tail: Option<Guid>, rest: seq<Guid>)
    requires Linked(es, tail) && Holds(table, es) && forall e :: e in es ==> !TooNew(e, limit)
    requires IsChain(table, limit, Target(tail), rest)
    ensures IsChain(table, limit, Target(Lead(es, tail)), Ids(es) + rest)
    decreases |es|
  {
    if es == [] {
      assert Ids(es) + rest == rest;
    } else {
      LinkedSplit(es, tail, 1);
      LinkedIsChain(table, limit, es[1..], tail, rest);
      assert (Ids(es) + rest)[1..] == Ids(es[1..]) + rest;
      assert Next(es[0]) == Target(Lead(es[1..], tail));
    }
  }

  /** Conversely, any chain that enters a linked run passes through the whole of it. */
  lemma {:induction false} ChainFollowsLinks<E>(
    table: Table<E>, limit: Option<DateTime>, es: seq<ListElement<E>>, tail: Option<Guid>, path: seq<Guid>)
    requires Linked(es, tail) && Holds(table, es)
    requires IsChain(table, limit, Target(Lead(es, tail)), path)
    ensures |es| <= |path| && path[..|es|] == Ids(es)
    ensures IsChain(table, limit, Target(tail), path[|es|..])
    decreases |es|
  {
    if es == [] {
      assert path[0..] == path;
    } else {
      LinkedSplit(es, tail, 1);
      assert Next(es[0]) == Target(Lead(es[1..], tail));
      ChainFollowsLinks(table, limit, es[1..], tail, path[1..]);
      assert path[1..][|es| - 1..] == path[|es|..];
      assert path[..|es|] == [path[0]] + path[1..][..|es| - 1];
    }
  }

  /** A reader holding exactly the writer's elements and its metadata rebuilds exactly the writer's list. */
  lemma ReadsBack<E>(s: LargeListState<E>, es: seq<ListElement<E>>)
    requires WellFormed(s.listId, es) && Represents(s.elementTable, es)
    requires Linked(es, None) && Describes(s.metadata, es)
    ensures Generate(s).1 ==
      if es == [] then LargeListResult(EmptyList, None) else LargeListResult(ValidList, Some(Values(es)))
  {
    if es != [] {
      LinkedIsChain(s.elementTable, s.metadata.updateElementTimestamp, es, None, []);
      assert Ids(es) + [] == Ids(es);
      GenerateExact(s);
      assert Payloads(s.elementTable, Ids(es)) == Values(es);
    }
  }
}
