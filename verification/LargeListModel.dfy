/**
 The data of the Large List protocol and the reader's view of one list: a table of elements keyed by
 element ID, the latest metadata, and the list rebuilt by following nextElementID.
 */
module LargeListModel {
  import opened Common

  datatype ListElement<+E> = ListElement(
    listID: Guid,
    elementID: Guid,
    element: E,
    nextElementID: Option<Guid>,
    elementTimestamp: DateTime)

  datatype LargeListMetadata = LargeListMetadata(
    listID: Guid,
    size: nat,
    startingElementID: Guid,
    updateElementID: Guid,
    updateElementTimestamp: Option<DateTime>)

  datatype LargeListStatus = ValidList | EmptyList | InvalidList

  datatype LargeListResult<+E> = LargeListResult(status: LargeListStatus, list: Option<seq<E>>)

  type Table<+E> = map<Guid, ListElement<E>>
  type Sample<+E> = SampleEnvelope<ListElement<E>>

  datatype LargeListState<+E> = LargeListState(
    listId: Guid,
    metadata: LargeListMetadata,
    elementTable: Table<E>,
    cached: Option<seq<E>>)

  // ----- Chains: the declarative meaning of "the list the table holds"

  function Next<E>(e: ListElement<E>): Guid {
    if e.nextElementID.Some? then e.nextElementID.value else NIL_GUID
  }

  predicate TooNew<E>(e: ListElement<E>, limit: Option<DateTime>) {
    limit.Some? && e.elementTimestamp > limit.value
  }

  /** `path` leads from `start` to nil through elements of the table, none newer than `limit`. */
  ghost predicate IsChain<E>(table: Table<E>, limit: Option<DateTime>, start: Guid, path: seq<Guid>)
    decreases |path|
  {
    if path == [] then
      start == NIL_GUID
    else
      && path[0] == start != NIL_GUID
      && start in table
      && !TooNew(table[start], limit)
      && IsChain(table, limit, Next(table[start]), path[1..])
  }

  function Payloads<E>(table: Table<E>, path: seq<Guid>): seq<E>
    requires forall i :: 0 <= i < |path| ==> path[i] in table
  {
    seq(|path|, i requires 0 <= i < |path| => table[path[i]].element)
  }

  lemma {:induction false} ChainInTable<E>(table: Table<E>, limit: Option<DateTime>, start: Guid, path: seq<Guid>)
    requires IsChain(table, limit, start, path)
    ensures forall i :: 0 <= i < |path| ==> path[i] in table && path[i] != NIL_GUID
    decreases |path|
  {
    if path != [] {
      ChainInTable(table, limit, Next(table[start]), path[1..]);
      assert path == [path[0]] + path[1..];
    }
  }

  lemma {:induction false} ChainUnique<E>(
    table: Table<E>, limit: Option<DateTime>, start: Guid, p: seq<Guid>, q: seq<Guid>)
    requires IsChain(table, limit, start, p) && IsChain(table, limit, start, q)
    ensures p == q
    decreases |p|
  {
    if p != [] {
      ChainUnique(table, limit, Next(table[start]), p[1..], q[1..]);
      assert p == [p[0]] + p[1..] && q == [q[0]] + q[1..];
    }
  }

  lemma {:induction false} ChainSuffix<E>(
    table: Table<E>, limit: Option<DateTime>, start: Guid, path: seq<Guid>, i: nat)
    requires IsChain(table, limit, start, path) && i < |path|
    ensures IsChain(table, limit, path[i], path[i..])
    decreases i
  {
    if i > 0 {
      ChainSuffix(table, limit, Next(table[start]), path[1..], i - 1);
      assert path[1..][i - 1..] == path[i..];
    } else {
      assert path[0..] == path;
    }
  }

  /** A chain that ends cannot repeat: following the links is deterministic. */
  lemma {:induction false} ChainHasNoDuplicates<E>(
    table: Table<E>, limit: Option<DateTime>, start: Guid, path: seq<Guid>)
    requires IsChain(table, limit, start, path)
    ensures NoDuplicates(path)
  {
    forall i, j | 0 <= i < j < |path| ensures path[i] != path[j] {
      ChainSuffix(table, limit, start, path, i);
      ChainSuffix(table, limit, start, path, j);
      if path[i] == path[j] {
        ChainUnique(table, limit, path[i], path[i..], path[j..]);
      }
    }
  }

  // ----- The walk the reader performs

  /** The IDs passed on the way from `id` to nil, or None when an element is missing, too new, or met twice. */
  function Walk<E>(table: Table<E>, limit: Option<DateTime>, id: Guid, visited: set<Guid>): (r: Option<seq<Guid>>)
    requires id !in visited && NIL_GUID !in visited
    ensures r.Some? ==> forall i :: 0 <= i < |r.value| ==> r.value[i] in table
    decreases table.Keys - visited
  {
    if id == NIL_GUID then Some([])
    else if id !in table || TooNew(table[id], limit) || Next(table[id]) in visited + {id} then None
    else
      var rest := Walk(table, limit, Next(table[id]), visited + {id});
      if rest.None? then None else Some([id] + rest.value)
  }

  lemma {:induction false} WalkIsChain<E>(table: Table<E>, limit: Option<DateTime>, id: Guid, visited: set<Guid>)
    requires id !in visited && NIL_GUID !in visited
    requires Walk(table, limit, id, visited).Some?
    ensures IsChain(table, limit, id, Walk(table, limit, id, visited).value)
    decreases table.Keys - visited
  {
    if id != NIL_GUID {
      WalkIsChain(table, limit, Next(table[id]), visited + {id});
      var path := Walk(table, limit, id, visited).value;
      assert path[1..] == Walk(table, limit, Next(table[id]), visited + {id}).value;
    }
  }

  lemma {:induction false} ChainIsWalked<E>(
    table: Table<E>, limit: Option<DateTime>, id: Guid, visited: set<Guid>, path: seq<Guid>)
    requires IsChain(table, limit, id, path) && id !in visited && NIL_GUID !in visited
    requires forall g :: g in path ==> g !in visited
    ensures Walk(table, limit, id, visited) == Some(path)
    decreases |path|
  {
    if path != [] {
      ChainHasNoDuplicates(table, limit, id, path);
      assert forall i :: 0 <= i < |path| - 1 ==> path[1..][i] == path[i + 1];
      assert path[1..] == [] || path[1..][0] == Next(table[id]);
      ChainIsWalked(table, limit, Next(table[id]), visited + {id}, path[1..]);
      assert path == [id] + path[1..];
    }
  }

  // ----- The operations of one list at the reader

  function FreshList<E>(listId: Guid): LargeListState<E> {
    LargeListState(listId, LargeListMetadata(listId, 0, NIL_GUID, NIL_GUID, None), map[], None)
  }

  function FromMetadata<E>(m: LargeListMetadata): LargeListState<E> {
    LargeListState(m.listID, m, map[], None)
  }

  function Generate<E>(s: LargeListState<E>): (LargeListState<E>, LargeListResult<E>) {
    if s.metadata.size == 0 then
      (s, LargeListResult(EmptyList, None))
    else
      var path := Walk(s.elementTable, s.metadata.updateElementTimestamp, s.metadata.startingElementID, {});
      if path.Some? && |path.value| == s.metadata.size then
        var list := Payloads(s.elementTable, path.value);
        (s.(cached := Some(list)), LargeListResult(ValidList, Some(list)))
      else
        (s, LargeListResult(InvalidList, None))
  }

  function GetList<E>(s: LargeListState<E>): (LargeListState<E>, LargeListResult<E>) {
    if s.cached.Some? then (s, LargeListResult(ValidList, s.cached)) else Generate(s)
  }

  /** A cached list has the size the latest metadata announces. */
  ghost predicate CacheFits<E>(l: LargeListState<E>) {
    l.cached.Some? ==> |l.cached.value| == l.metadata.size
  }

  predicate IsStale(m: LargeListMetadata, latest: LargeListMetadata) {
    && m.updateElementTimestamp.Some? && latest.updateElementTimestamp.Some?
    && m.updateElementTimestamp.value < latest.updateElementTimestamp.value
  }

  function ReceiveMetadata<E>(s: LargeListState<E>, m: LargeListMetadata): (LargeListState<E>, LargeListResult<E>) {
    if m.listID != s.listId || IsStale(m, s.metadata) then (s, LargeListResult(InvalidList, None))
    else Generate(s.(metadata := m, cached := None))
  }

  /** Whatever a list is asked or told, its cache fits its latest metadata afterwards. */
  lemma CacheStaysFit<E>(l: LargeListState<E>, m: LargeListMetadata)
    requires CacheFits(l)
    ensures CacheFits(GetList(l).0) && CacheFits(ReceiveMetadata(l, m).0) && CacheFits(GetList(FromMetadata<E>(m)).0)
  {
  }

  /** How one sample changes the table of the list `listId`. */
  function ApplySample<E>(table: Table<E>, sample: Sample<E>, listId: Guid): Table<E> {
    if sample.status == InvalidData || sample.data.listID != listId then table
    else if sample.status == Disposed then table - {sample.data.elementID}
    else table[sample.data.elementID := sample.data]
  }

  /** The exact meaning of rebuilding a list, for any table whatever. */
  lemma GenerateExact<E>(s: LargeListState<E>)
    requires s.metadata.size != 0
    ensures var m := s.metadata; var r := Generate(s).1;
      && (r.status == ValidList <==>
           exists path :: IsChain(s.elementTable, m.updateElementTimestamp, m.startingElementID, path)
                       && NoDuplicates(path) && |path| == m.size)
      && (r.status == ValidList || r.status == InvalidList)
    ensures forall path ::
      IsChain(s.elementTable, s.metadata.updateElementTimestamp, s.metadata.startingElementID, path)
      && |path| == s.metadata.size ==>
        && (forall i :: 0 <= i < |path| ==> path[i] in s.elementTable)
        && Generate(s).1 == LargeListResult(ValidList, Some(Payloads(s.elementTable, path)))
  {
    var table, limit, start := s.elementTable, s.metadata.updateElementTimestamp, s.metadata.startingElementID;
    if Generate(s).1.status == ValidList {
      WalkIsChain(table, limit, start, {});
      ChainHasNoDuplicates(table, limit, start, Walk(table, limit, start, {}).value);
    }
    forall path | IsChain(table, limit, start, path) && |path| == s.metadata.size
      ensures forall i :: 0 <= i < |path| ==> path[i] in table
      ensures Generate(s).1 == LargeListResult(ValidList, Some(Payloads(table, path)))
    {
      ChainInTable(table, limit, start, path);
      ChainIsWalked(table, limit, start, {}, path);
    }
  }
}
