/**
 What each operation of the Large List writer does: the local list and metadata it leaves and the samples it
 publishes, as functions of the identifiers and timestamps it draws. The lemmas say what a reader's table and the
 links between elements become.
 */
module LargeListOps {
  import opened Common
  import opened LargeListModel

  datatype ListOp<+E> =
    | Update(value: E, pos: nat)
    | Prepend(values: seq<E>)
    | Append(values: seq<E>)
    | Insert(values: seq<E>, pos: nat)
    | PopFront
    | PopBack
    | Remove(pos: nat)
    | Clear

  datatype Effect<+E> = Effect(elements: seq<ListElement<E>>, metadata: LargeListMetadata, samples: seq<Sample<E>>)

  function Alive<E>(e: ListElement<E>): Sample<E> { SampleEnvelope(e, ReadSuccess) }

  function Dead<E>(e: ListElement<E>): Sample<E> { SampleEnvelope(e, Disposed) }

  function PublishAll<E>(es: seq<ListElement<E>>): seq<Sample<E>> {
    seq(|es|, i requires 0 <= i < |es| => Alive(es[i]))
  }

  function DisposeAll<E>(es: seq<ListElement<E>>): seq<Sample<E>> {
    seq(|es|, i requires 0 <= i < |es| => Dead(es[i]))
  }

  function HeadId<E>(es: seq<ListElement<E>>): Option<Guid> {
    if es == [] then None else Some(es[0].elementID)
  }

  /** A run of new elements, each linked to the following one and the last to `tail`. */
  function NewElements<E>(
    listId: Guid, values: seq<E>, ids: seq<Guid>, times: seq<DateTime>, tail: Option<Guid>): seq<ListElement<E>>
    requires |values| == |ids| == |times|
  {
    seq(|values|, i requires 0 <= i < |values| =>
      ListElement(listId, ids[i], values[i], if i + 1 < |ids| then Some(ids[i + 1]) else tail, times[i]))
  }

  function UpdateMetadata<E>(m: LargeListMetadata, e: ListElement<E>, dispose: bool, es: seq<ListElement<E>>)
    : LargeListMetadata
  {
    m.(updateElementID := e.elementID,
       updateElementTimestamp := if dispose then None else Some(e.elementTimestamp),
       size := |es|,
       startingElementID := if es == [] then NIL_GUID else es[0].elementID)
  }

  /** The element before position `pos`, once it has been linked to `next` and stamped. */
  function Relink<E>(es: seq<ListElement<E>>, pos: nat, next: Option<Guid>, t: DateTime): ListElement<E>
    requires 0 < pos <= |es|
  {
    es[pos - 1].(nextElementID := next, elementTimestamp := t)
  }

  /** Insertions and removals at an end of the list are carried out by the operation for that end. */
  function Dispatch<E>(n: nat, op: ListOp<E>): ListOp<E> {
    match op
    case Insert(values, pos) => if pos == n then Append(values) else if pos == 0 then Prepend(values) else op
    case Remove(pos) => if pos == 0 then PopFront else if pos == n - 1 then PopBack else op
    case _ => op
  }

  /** How many identifiers and timestamps the operation draws on a list of `n` elements, if it is admissible there. */
  function Needs<E>(n: nat, op: ListOp<E>): Option<(nat, nat)> {
    match op
    case Update(_, pos) => if pos < n then Some((0, 1)) else None
    case Prepend(values) => if values != [] then Some((|values|, |values|)) else None
    case Append(values) =>
      if values != [] && (n > 0 || |values| == 1) then Some((|values|, if n > 0 then |values| + 1 else 1)) else None
    case Insert(values, pos) => if values != [] && 0 < pos < n then Some((|values|, |values| + 1)) else None
    case PopFront => if n > 0 then Some((0, 0)) else None
    case PopBack => if n > 0 then Some((0, if n > 1 then 1 else 0)) else None
    case Remove(pos) => if 0 < pos < n - 1 then Some((0, 1)) else None
    case Clear => Some((0, 0))
  }

  predicate Draws<E>(n: nat, op: ListOp<E>, ids: nat, times: nat) { Needs(n, op) == Some((ids, times)) }

  /** New identifiers and timestamps are listed in list order, not in the order they are drawn. */
  function Perform<E>(
    es: seq<ListElement<E>>, m: LargeListMetadata, op: ListOp<E>, ids: seq<Guid>, times: seq<DateTime>): Effect<E>
    requires Draws(|es|, op, |ids|, |times|)
  {
    match op
    case Update(value, pos) =>
      var e := es[pos].(element := value, elementTimestamp := times[0]);
      Effect(es[pos := e], UpdateMetadata(m, e, false, es[pos := e]), [Alive(e)])
    case Prepend(values) =>
      var added := NewElements(m.listID, values, ids, times, HeadId(es));
      Effect(added + es, UpdateMetadata(m, added[0], false, added + es), PublishAll(Reverse(added)))
    case Append(values) =>
      if es == [] then
        var added := NewElements(m.listID, values, ids, times, None);
        Effect(added, UpdateMetadata(m, added[0], false, added), PublishAll(added))
      else
        var last := Relink(es, |es|, Some(ids[0]), times[0]);
        var added := NewElements(m.listID, values, ids, times[1..], None);
        var es' := es[..|es| - 1] + [last] + added;
        Effect(es', UpdateMetadata(m, added[|added| - 1], false, es'), [Alive(last)] + PublishAll(added))
    case Insert(values, pos) =>
      var prev := Relink(es, pos, Some(ids[0]), times[0]);
      var added := NewElements(m.listID, values, ids, times[1..], Some(es[pos].elementID));
      var es' :=
        if |values| == 1 then es[..pos - 1] + added + [prev] + es[pos..]
        else es[..pos - 1] + [prev] + Reverse(added) + es[pos..];
      Effect(es', UpdateMetadata(m, added[|added| - 1], false, es'), [Alive(prev)] + PublishAll(added))
    case PopFront =>
      Effect(es[1..], UpdateMetadata(m, es[0], true, es[1..]), [Dead(es[0])])
    case PopBack =>
      var es' := es[..|es| - 1];
      if |es| == 1 then
        Effect(es', UpdateMetadata(m, es[0], true, es'), [Dead(es[0])])
      else
        var last := Relink(es, |es|, None, times[0]);
        Effect(es', UpdateMetadata(m, last, true, es'), [Alive(last), Dead(last)])
    case Remove(pos) =>
      var prev := Relink(es, pos, Some(es[pos + 1].elementID), times[0]);
      var es' := es[..pos - 1] + [prev] + es[pos + 1..];
      Effect(es', UpdateMetadata(m, es[pos], true, es'), [Alive(prev), Dead(es[pos])])
    case Clear =>
      Effect([], if es == [] then m else UpdateMetadata(m, es[|es| - 1], true, []), DisposeAll(es))
  }

  /** The meaning of the operation on a plain sequence. */
  function Reference<E>(c: seq<E>, op: ListOp<E>): seq<E> {
    match op
    case Update(value, pos) => if pos < |c| then c[pos := value] else c
    case Prepend(values) => values + c
    case Append(values) => c + values
    case Insert(values, pos) => if pos <= |c| then c[..pos] + values + c[pos..] else c
    case PopFront => if c == [] then c else c[1..]
    case PopBack => if c == [] then c else c[..|c| - 1]
    case Remove(pos) => if pos < |c| then c[..pos] + c[pos + 1..] else c
    case Clear => []
  }

  // ----- Tables

  function Replay<E>(table: Table<E>, samples: seq<Sample<E>>, listId: Guid): Table<E>
    decreases |samples|
  {
    if samples == [] then table else Replay(ApplySample(table, samples[0], listId), samples[1..], listId)
  }

  lemma {:induction false} ReplayConcat<E>(table: Table<E>, a: seq<Sample<E>>, b: seq<Sample<E>>, listId: Guid)
    ensures Replay(table, a + b, listId) == Replay(Replay(table, a, listId), b, listId)
    decreases |a|
  {
    if a == [] {
      assert a + b == b;
    } else {
      assert (a + b)[1..] == a[1..] + b;
      ReplayConcat(ApplySample(table, a[0], listId), a[1..], b, listId);
    }
  }

  /** The elements belong to the list and are told apart by non-nil identifiers. */
  ghost predicate WellFormed<E>(listId: Guid, es: seq<ListElement<E>>) {
    && (forall i :: 0 <= i < |es| ==> es[i].listID == listId && es[i].elementID != NIL_GUID)
    && (forall i, j :: 0 <= i < j < |es| ==> es[i].elementID != es[j].elementID)
  }

  ghost predicate Has<E>(es: seq<ListElement<E>>, g: Guid) {
    exists i :: 0 <= i < |es| && es[i].elementID == g
  }

  /** The table holds exactly these elements. */
  ghost predicate Represents<E>(table: Table<E>, es: seq<ListElement<E>>) {
    && (forall i :: 0 <= i < |es| ==> es[i].elementID in table && table[es[i].elementID] == es[i])
    && (forall g :: g in table ==> Has(es, g))
  }

  lemma {:induction false} ReplayPublish<E>(table: Table<E>, es: seq<ListElement<E>>, listId: Guid)
    requires WellFormed(listId, es)
    ensures var t := Replay(table, PublishAll(es), listId);
      && (forall i :: 0 <= i < |es| ==> es[i].elementID in t && t[es[i].elementID] == es[i])
      && (forall g :: g in t ==> g in table || Has(es, g))
      && (forall g :: g in table && !Has(es, g) ==> g in t && t[g] == table[g])
    decreases |es|
  {
    if es != [] {
      var table' := ApplySample(table, Alive(es[0]), listId);
      assert PublishAll(es)[1..] == PublishAll(es[1..]);
      ReplayPublish(table', es[1..], listId);
      assert forall g :: Has(es[1..], g) ==> Has(es, g) by {
        assert forall i :: 0 <= i < |es| - 1 ==> es[1..][i] == es[i + 1];
      }
      assert Has(es, es[0].elementID);
      assert forall g :: Has(es, g) && g != es[0].elementID ==> Has(es[1..], g) by {
        assert forall i :: 0 < i < |es| ==> es[1..][i - 1] == es[i];
      }
      assert !Has(es[1..], es[0].elementID);
      var t := Replay(table', PublishAll(es[1..]), listId);
      forall i | 0 <= i < |es| ensures es[i].elementID in t && t[es[i].elementID] == es[i] {
        if i > 0 { assert es[1..][i - 1] == es[i]; }
      }
    }
  }

  lemma {:induction false} ReplayDispose<E>(table: Table<E>, es: seq<ListElement<E>>, listId: Guid)
    requires WellFormed(listId, es)
    ensures var t := Replay(table, DisposeAll(es), listId);
      && (forall g :: g in t <==> g in table && !Has(es, g))
      && (forall g :: g in t ==> t[g] == table[g])
    decreases |es|
  {
    if es != [] {
      assert DisposeAll(es)[1..] == DisposeAll(es[1..]);
      ReplayDispose(ApplySample(table, Dead(es[0]), listId), es[1..], listId);
      assert forall g :: Has(es[1..], g) ==> Has(es, g) by {
        assert forall i :: 0 <= i < |es| - 1 ==> es[1..][i] == es[i + 1];
      }
      assert Has(es, es[0].elementID);
      assert forall g :: Has(es, g) && g != es[0].elementID ==> Has(es[1..], g) by {
        assert forall i :: 0 < i < |es| ==> es[1..][i - 1] == es[i];
      }
    }
  }

  // ----- Every operation keeps the reader's table in step with the writer's elements

  ghost predicate Fresh<E>(es: seq<ListElement<E>>, ids: seq<Guid>) {
    && NoDuplicates(ids)
    && forall i :: 0 <= i < |ids| ==> ids[i] != NIL_GUID && !Has(es, ids[i])
  }

  lemma RelinkedTable<E>(table: Table<E>, es: seq<ListElement<E>>, k: nat, e: ListElement<E>, listId: Guid)
    requires WellFormed(listId, es) && Represents(table, es)
    requires k < |es| && e.elementID == es[k].elementID && e.listID == listId
    ensures WellFormed(listId, es[k := e])
    ensures ApplySample(table, Alive(e), listId) == table[e.elementID := e]
    ensures Represents(table[e.elementID := e], es[k := e])
    ensures forall g :: Has(es[k := e], g) <==> Has(es, g)
  {
    var es' := es[k := e];
    assert forall i :: 0 <= i < |es| ==> es'[i].elementID == es[i].elementID;
    forall g ensures Has(es', g) <==> Has(es, g) {
      if Has(es, g) { var i :| 0 <= i < |es| && es[i].elementID == g; assert es'[i].elementID == g; }
    }
  }

  lemma ReversedElements<E>(listId: Guid, es: seq<ListElement<E>>)
    requires WellFormed(listId, es)
    ensures WellFormed(listId, Reverse(es))
    ensures forall e :: e in Reverse(es) <==> e in es
  {
    var r := Reverse(es);
    forall e | e in es ensures e in r {
      var i :| 0 <= i < |es| && es[i] == e;
      assert r[|es| - 1 - i] == e;
    }
  }

  ghost predicate Disjoint<E>(es: seq<ListElement<E>>, added: seq<ListElement<E>>) {
    forall i, j :: 0 <= i < |es| && 0 <= j < |added| ==> es[i].elementID != added[j].elementID
  }

  lemma SplicedElements<E>(listId: Guid, es: seq<ListElement<E>>, k: nat, mid: seq<ListElement<E>>)
    requires WellFormed(listId, es) && WellFormed(listId, mid) && Disjoint(es, mid) && k <= |es|
    ensures WellFormed(listId, es[..k] + mid + es[k..])
    ensures forall e :: e in es[..k] + mid + es[k..] <==> e in es || e in mid
  {
    var all := es[..k] + mid + es[k..];
    assert es == es[..k] + es[k..];
    assert forall i :: 0 <= i < k ==> all[i] == es[i];
    assert forall i :: k <= i < k + |mid| ==> all[i] == mid[i - k];
    assert forall i :: k + |mid| <= i < |all| ==> all[i] == es[i - |mid|];
  }

  /** New elements may be spliced in anywhere, in either order: the table only sees which elements there are. */
  lemma SplicedTable<E>(
    table: Table<E>, es: seq<ListElement<E>>, k: nat, added: seq<ListElement<E>>, mid: seq<ListElement<E>>,
    listId: Guid)
    requires WellFormed(listId, es) && WellFormed(listId, added) && Represents(table, es) && Disjoint(es, added)
    requires k <= |es| && (mid == added || mid == Reverse(added))
    ensures Represents(Replay(table, PublishAll(added), listId), es[..k] + mid + es[k..])
    ensures Represents(Replay(table, PublishAll(Reverse(added)), listId), es[..k] + mid + es[k..])
    ensures WellFormed(listId, es[..k] + mid + es[k..])
  {
    ReversedElements(listId, added);
    SplicedElements(listId, es, k, mid);
    AddedTable(table, es, added, es[..k] + mid + es[k..], listId);
    AddedTable(table, es, Reverse(added), es[..k] + mid + es[k..], listId);
  }

  lemma AddedTable<E>(
    table: Table<E>, es: seq<ListElement<E>>, added: seq<ListElement<E>>, all: seq<ListElement<E>>, listId: Guid)
    requires WellFormed(listId, es) && WellFormed(listId, added) && Represents(table, es) && Disjoint(es, added)
    requires forall e :: e in all <==> e in es || e in added
    ensures Represents(Replay(table, PublishAll(added), listId), all)
  {
    ReplayPublish(table, added, listId);
    var t := Replay(table, PublishAll(added), listId);
    forall e | e in all ensures e.elementID in t && t[e.elementID] == e {
      if e in es {
        var i :| 0 <= i < |es| && es[i] == e;
        assert !Has(added, e.elementID);
      }
    }
    forall g | g in t ensures Has(all, g) {
      var e := t[g];
      if Has(added, g) {
        var i :| 0 <= i < |added| && added[i].elementID == g;
        assert added[i] in all;
      } else {
        var i :| 0 <= i < |es| && es[i].elementID == g;
        assert es[i] in all;
      }
    }
  }

  lemma RemovedTable<E>(table: Table<E>, es: seq<ListElement<E>>, k: nat, listId: Guid)
    requires WellFormed(listId, es) && Represents(table, es) && k < |es|
    ensures Represents(ApplySample(table, Dead(es[k]), listId), es[..k] + es[k + 1..])
    ensures WellFormed(listId, es[..k] + es[k + 1..])
  {
    var rest := es[..k] + es[k + 1..];
    assert forall i :: 0 <= i < k ==> rest[i] == es[i];
    assert forall i :: k <= i < |rest| ==> rest[i] == es[i + 1];
    forall g | g in table && g != es[k].elementID ensures Has(rest, g) {
      var i :| 0 <= i < |es| && es[i].elementID == g;
      assert rest[if i < k then i else i - 1].elementID == g;
    }
  }

  lemma NewElementsWellFormed<E>(
    es: seq<ListElement<E>>, listId: Guid, values: seq<E>, ids: seq<Guid>, times: seq<DateTime>, tail: Option<Guid>)
    requires |values| == |ids| == |times| && Fresh(es, ids)
    ensures WellFormed(listId, NewElements(listId, values, ids, times, tail))
    ensures Disjoint(es, NewElements(listId, values, ids, times, tail))
  {
  }

  /** The published samples turn a table of the old elements into one of the new ones. */
  ghost predicate InStep<E>(
    table: Table<E>, es: seq<ListElement<E>>, m: LargeListMetadata, op: ListOp<E>, ids: seq<Guid>,
    times: seq<DateTime>)
    requires Draws(|es|, op, |ids|, |times|)
  {
    var f := Perform(es, m, op, ids, times);
    WellFormed(m.listID, f.elements) && Represents(Replay(table, f.samples, m.listID), f.elements)
  }

  lemma TableFollows<E>(
    table: Table<E>, es: seq<ListElement<E>>, m: LargeListMetadata, op: ListOp<E>, ids: seq<Guid>,
    times: seq<DateTime>)
    requires WellFormed(m.listID, es) && Represents(table, es) && Fresh(es, ids)
    requires Draws(|es|, op, |ids|, |times|)
    ensures InStep(table, es, m, op, ids, times)
  {
    match op
    case Update(value, pos) => UpdateInStep(table, es, m, op, times);
    case Prepend(values) => PrependInStep(table, es, m, op, ids, times);
    case Append(values) =>
      if es == [] { StartInStep(table, es, m, op, ids, times); } else { AppendInStep(table, es, m, op, ids, times); }
    case Insert(values, pos) => InsertInStep(table, es, m, op, ids, times);
    case PopFront => PopFrontInStep(table, es, m);
    case PopBack =>
      if |es| == 1 { PopOnlyInStep(table, es, m); } else { PopBackInStep(table, es, m, times); }
    case Remove(pos) => RemoveInStep(table, es, m, op, times);
    case Clear => ReplayDispose(table, es, m.listID);
  }

  lemma UpdateInStep<E>(
    table: Table<E>, es: seq<ListElement<E>>, m: LargeListMetadata, op: ListOp<E>, times: seq<DateTime>)
    requires WellFormed(m.listID, es) && Represents(table, es)
    requires op.Update? && Draws(|es|, op, 0, |times|)
    ensures InStep(table, es, m, op, [], times)
  {
    var f := Perform(es, m, op, [], times);
    RelinkedTable(table, es, op.pos, f.elements[op.pos], m.listID);
    ReplayOne(table, f.samples[0], m.listID);
  }

  lemma PrependInStep<E>(
    table: Table<E>, es: seq<ListElement<E>>, m: LargeListMetadata, op: ListOp<E>, ids: seq<Guid>,
    times: seq<DateTime>)
    requires WellFormed(m.listID, es) && Represents(table, es) && Fresh(es, ids)
    requires op.Prepend? && Draws(|es|, op, |ids|, |times|)
    ensures InStep(table, es, m, op, ids, times)
  {
    var added := NewElements(m.listID, op.values, ids, times, HeadId(es));
    NewElementsWellFormed(es, m.listID, op.values, ids, times, HeadId(es));
    SplicedTable(table, es, 0, added, added, m.listID);
    assert added + es == es[..0] + added + es[0..];
  }

  lemma StartInStep<E>(
    table: Table<E>, es: seq<ListElement<E>>, m: LargeListMetadata, op: ListOp<E>, ids: seq<Guid>,
    times: seq<DateTime>)
    requires WellFormed(m.listID, es) && Represents(table, es) && Fresh(es, ids)
    requires op.Append? && es == [] && Draws(0, op, |ids|, |times|)
    ensures InStep(table, es, m, op, ids, times)
  {
    var added := NewElements(m.listID, op.values, ids, times, None);
    NewElementsWellFormed(es, m.listID, op.values, ids, times, None);
    SplicedTable(table, es, 0, added, added, m.listID);
    assert added == es[..0] + added + es[0..];
  }

  lemma AppendInStep<E>(
    table: Table<E>, es: seq<ListElement<E>>, m: LargeListMetadata, op: ListOp<E>, ids: seq<Guid>,
    times: seq<DateTime>)
    requires WellFormed(m.listID, es) && Represents(table, es) && Fresh(es, ids)
    requires op.Append? && es != [] && Draws(|es|, op, |ids|, |times|)
    ensures InStep(table, es, m, op, ids, times)
  {
    LinkInTable(table, es, m, |es|, op.values, ids, times, None, |es|, false);
    var es' := es[|es| - 1 := Relink(es, |es|, Some(ids[0]), times[0])];
    var added := NewElements(m.listID, op.values, ids, times[1..], None);
    assert es[..|es| - 1] + [es'[|es| - 1]] + added == es'[..|es|] + added + es'[|es|..];
  }

  lemma InsertInStep<E>(
    table: Table<E>, es: seq<ListElement<E>>, m: LargeListMetadata, op: ListOp<E>, ids: seq<Guid>,
    times: seq<DateTime>)
    requires WellFormed(m.listID, es) && Represents(table, es) && Fresh(es, ids)
    requires op.Insert? && Draws(|es|, op, |ids|, |times|)
    ensures InStep(table, es, m, op, ids, times)
  {
    var single, tail := |op.values| == 1, Some(es[op.pos].elementID);
    var k := if single then op.pos - 1 else op.pos;
    LinkInTable(table, es, m, op.pos, op.values, ids, times, tail, k, !single);
    InsertedOrder(es, m, op, ids, times);
  }

  /** The order the code keeps locally: one value goes before the predecessor, several after it and in reverse. */
  lemma InsertedOrder<E>(
    es: seq<ListElement<E>>, m: LargeListMetadata, op: ListOp<E>, ids: seq<Guid>, times: seq<DateTime>)
    requires op.Insert? && Draws(|es|, op, |ids|, |times|)
    ensures
      var es' := es[op.pos - 1 := Relink(es, op.pos, Some(ids[0]), times[0])];
      var added := NewElements(m.listID, op.values, ids, times[1..], Some(es[op.pos].elementID));
      Perform(es, m, op, ids, times).elements ==
        if |op.values| == 1 then es'[..op.pos - 1] + added + es'[op.pos - 1..]
        else es'[..op.pos] + Reverse(added) + es'[op.pos..]
  {
  }

  lemma PopFrontInStep<E>(table: Table<E>, es: seq<ListElement<E>>, m: LargeListMetadata)
    requires WellFormed(m.listID, es) && Represents(table, es) && es != []
    ensures InStep(table, es, m, PopFront, [], [])
  {
    RemovedTable(table, es, 0, m.listID);
    ReplayOne(table, Dead(es[0]), m.listID);
    assert es[1..] == es[..0] + es[1..];
  }

  lemma PopOnlyInStep<E>(table: Table<E>, es: seq<ListElement<E>>, m: LargeListMetadata)
    requires WellFormed(m.listID, es) && Represents(table, es) && |es| == 1
    ensures InStep(table, es, m, PopBack, [], [])
  {
    PopFrontInStep(table, es, m);
    assert es[1..] == es[..0];
  }

  lemma PopBackInStep<E>(table: Table<E>, es: seq<ListElement<E>>, m: LargeListMetadata, times: seq<DateTime>)
    requires WellFormed(m.listID, es) && Represents(table, es) && |es| > 1 == |times|
    ensures InStep(table, es, m, PopBack, [], times)
  {
    var last := Relink(es, |es|, None, times[0]);
    var es' := es[|es| - 1 := last];
    RelinkedTable(table, es, |es| - 1, last, m.listID);
    RemovedTable(table[last.elementID := last], es', |es| - 1, m.listID);
    ReplayTwo(table, Alive(last), Dead(last), m.listID);
    assert es[..|es| - 1] == es'[..|es| - 1] + es'[|es|..];
  }

  lemma RemoveInStep<E>(
    table: Table<E>, es: seq<ListElement<E>>, m: LargeListMetadata, op: ListOp<E>, times: seq<DateTime>)
    requires WellFormed(m.listID, es) && Represents(table, es)
    requires op.Remove? && Draws(|es|, op, 0, |times|)
    ensures InStep(table, es, m, op, [], times)
  {
    var prev := Relink(es, op.pos, Some(es[op.pos + 1].elementID), times[0]);
    RemovedLink(table, es, op.pos, prev, m.listID);
  }

  /** The element before position `pos` is replaced and the one there disposed. */
  lemma RemovedLink<E>(table: Table<E>, es: seq<ListElement<E>>, pos: nat, prev: ListElement<E>, listId: Guid)
    requires WellFormed(listId, es) && Represents(table, es) && 0 < pos < |es|
    requires prev.elementID == es[pos - 1].elementID && prev.listID == listId
    ensures var all := es[..pos - 1] + [prev] + es[pos + 1..];
      WellFormed(listId, all) && Represents(Replay(table, [Alive(prev), Dead(es[pos])], listId), all)
  {
    var es' := es[pos - 1 := prev];
    RelinkedTable(table, es, pos - 1, prev, listId);
    RemovedTable(table[prev.elementID := prev], es', pos, listId);
    ReplayTwo(table, Alive(prev), Dead(es[pos]), listId);
    assert es[..pos - 1] + [prev] + es[pos + 1..] == es'[..pos] + es'[pos + 1..];
  }

  lemma ReplayOne<E>(table: Table<E>, s: Sample<E>, listId: Guid)
    ensures Replay(table, [s], listId) == ApplySample(table, s, listId)
  {
  }

  lemma ReplayTwo<E>(table: Table<E>, s: Sample<E>, t: Sample<E>, listId: Guid)
    ensures Replay(table, [s, t], listId) == ApplySample(ApplySample(table, s, listId), t, listId)
  {
    ReplayConcat(table, [s], [t], listId);
    assert [s, t] == [s] + [t];
    ReplayOne(table, s, listId);
    ReplayOne(ApplySample(table, s, listId), t, listId);
  }

  /** The shared shape of append and insert: relink the element before `pos`, then publish a linked run. */
  lemma LinkInTable<E>(
    table: Table<E>, es: seq<ListElement<E>>, m: LargeListMetadata, pos: nat, values: seq<E>, ids: seq<Guid>,
    times: seq<DateTime>, tail: Option<Guid>, k: nat, reversed: bool)
    requires WellFormed(m.listID, es) && Represents(table, es) && Fresh(es, ids)
    requires 0 < |values| == |ids| && |times| == |ids| + 1 && 0 < pos <= |es| && k <= |es|
    ensures
      var prev := Relink(es, pos, Some(ids[0]), times[0]);
      var added := NewElements(m.listID, values, ids, times[1..], tail);
      var es' := es[pos - 1 := prev];
      var all := es'[..k] + (if reversed then Reverse(added) else added) + es'[k..];
      WellFormed(m.listID, all) && Represents(Replay(table, [Alive(prev)] + PublishAll(added), m.listID), all)
  {
    var prev := Relink(es, pos, Some(ids[0]), times[0]);
    var added := NewElements(m.listID, values, ids, times[1..], tail);
    var es' := es[pos - 1 := prev];
    RelinkedTable(table, es, pos - 1, prev, m.listID);
    NewElementsWellFormed(es', m.listID, values, ids, times[1..], tail);
    SplicedTable(table[prev.elementID := prev], es', k, added, if reversed then Reverse(added) else added, m.listID);
    assert ([Alive(prev)] + PublishAll(added))[1..] == PublishAll(added);
  }
}
