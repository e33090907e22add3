/** The reader's side of the Large List protocol: one object per list, and the reader that fills them from the topic. */
module LargeListReading {
  import opened Common
  import opened Bus
  import opened LargeListModel
  import opened LargeListProtocol

  function Marked(visited: map<Guid, bool>): set<Guid> {
    set g | g in visited && visited[g]
  }

  /** A path already followed, continued by the rest of the walk. */
  function Continue(path: seq<Guid>, rest: Option<seq<Guid>>): Option<seq<Guid>> {
    if rest.Some? then Some(path + rest.value) else None
  }

  /** One turn of the loop that rebuilds the list follows one step of the walk. */
  lemma WalkStep<E>(table: Table<E>, limit: Option<DateTime>, id: Guid, marked: set<Guid>, path: seq<Guid>)
    requires id !in marked && NIL_GUID !in marked && id != NIL_GUID
    requires id in table && !TooNew(table[id], limit)
    ensures Continue(path, Walk(table, limit, id, marked)) ==
      if Next(table[id]) in marked + {id} then None
      else Continue(path + [id], Walk(table, limit, Next(table[id]), marked + {id}))
  {
    if Next(table[id]) !in marked + {id} {
      var rest := Walk(table, limit, Next(table[id]), marked + {id});
      if rest.Some? { assert path + ([id] + rest.value) == path + [id] + rest.value; }
    }
  }

  class LargeList<E> {
    const listId: Guid
    var latestMetadata: LargeListMetadata
    var elementTable: Table<E>
    var cachedList: Option<seq<E>>

    ghost function State(): LargeListState<E>
      reads this
    {
      LargeListState(listId, latestMetadata, elementTable, cachedList)
    }

    /** The cached list has the size of the latest metadata. */
    ghost predicate Valid()
      reads this
    {
      CacheFits(State())
    }

    constructor (id: Guid)
      ensures Valid() && State() == FreshList(id)
    {
      listId := id;
      latestMetadata := LargeListMetadata(id, 0, NIL_GUID, NIL_GUID, None);
      elementTable := map[];
      cachedList := None;
    }

    constructor FromMetadata(metadata: LargeListMetadata)
      ensures Valid() && State() == LargeListModel.FromMetadata(metadata)
    {
      listId := metadata.listID;
      latestMetadata := metadata;
      elementTable := map[];
      cachedList := None;
    }

    method GetList() returns (result: LargeListResult<E>)
      requires Valid()
      modifies this`cachedList
      ensures Valid()
      ensures State() == LargeListModel.GetList(old(State())).0
      ensures result == LargeListModel.GetList(old(State())).1
    {
      if cachedList.Some? {
        result := LargeListResult(ValidList, cachedList);
      } else if latestMetadata.size == 0 {
        result := LargeListResult(EmptyList, None);
      } else {
        result := GenerateList();
      }
    }

    method Receive(element: ListElement<E>) returns (ok: bool)
      requires Valid()
      modifies this`elementTable
      ensures Valid()
      ensures elementTable == ApplySample(old(elementTable), SampleEnvelope(element, ReadSuccess), listId)
      ensures ok <==> element.listID == listId
    {
      if element.listID != listId { return false; }
      elementTable := elementTable[element.elementID := element];
      return true;
    }

    method ReceiveMetadata(metadata: LargeListMetadata) returns (result: LargeListResult<E>)
      requires Valid()
      modifies this`latestMetadata, this`cachedList
      ensures Valid()
      ensures State() == LargeListModel.ReceiveMetadata(old(State()), metadata).0
      ensures result == LargeListModel.ReceiveMetadata(old(State()), metadata).1
    {
      if metadata.listID != listId {
        return LargeListResult(InvalidList, None);
      }
      if metadata.updateElementTimestamp.None? || latestMetadata.updateElementTimestamp.None?
         || metadata.updateElementTimestamp.value >= latestMetadata.updateElementTimestamp.value {
        latestMetadata := metadata;
        cachedList := None;
      } else {
        return LargeListResult(InvalidList, None);
      }
      result := GenerateList();
    }

    method Dispose(element: ListElement<E>) returns (ok: bool)
      requires Valid()
      modifies this`elementTable
      ensures Valid()
      ensures elementTable == ApplySample(old(elementTable), SampleEnvelope(element, Disposed), listId)
      ensures ok <==> element.listID == listId && element.elementID in old(elementTable)
    {
      if element.listID != listId { return false; }
      if element.elementID !in elementTable { return false; }
      elementTable := elementTable - {element.elementID};
      return true;
    }

    /** Follows the links from the starting element; ends on every table, whatever its links. */
    method GenerateList() returns (result: LargeListResult<E>)
      requires Valid()
      modifies this`cachedList
      ensures Valid()
      ensures State() == Generate(old(State())).0 && result == Generate(old(State())).1
    {
      result := LargeListResult(InvalidList, None);
      if latestMetadata.size == 0 {
        return LargeListResult(EmptyList, None);
      }
      ghost var limit, path: seq<Guid> := latestMetadata.updateElementTimestamp, [];
      var list: seq<E> := [];
      var visited: map<Guid, bool> := map[];
      var nextId := latestMetadata.startingElementID;
      assert Marked(visited) == {};
      assert forall p: seq<Guid> :: [] + p == p;
      while nextId != NIL_GUID
        invariant cachedList == old(cachedList)
        invariant nextId !in Marked(visited) && NIL_GUID !in Marked(visited)
        invariant forall i :: 0 <= i < |path| ==> path[i] in elementTable
        invariant list == Payloads(elementTable, path)
        invariant Walk(elementTable, limit, latestMetadata.startingElementID, {}) ==
          Continue(path, Walk(elementTable, limit, nextId, Marked(visited)))
        decreases elementTable.Keys - Marked(visited)
      {
        if nextId !in elementTable { return; }
        ghost var before := Marked(visited);
        visited := visited[nextId := true];
        assert Marked(visited) == before + {nextId};
        var e := elementTable[nextId];
        if latestMetadata.updateElementTimestamp.Some?
           && e.elementTimestamp > latestMetadata.updateElementTimestamp.value {
          return;
        }
        WalkStep(elementTable, limit, nextId, before, path);
        list := list + [e.element];
        path := path + [nextId];
        if e.nextElementID.Some? {
          nextId := e.nextElementID.value;
          if nextId !in visited {
            ghost var marked := Marked(visited);
            visited := visited[nextId := false];
            assert Marked(visited) == marked;
          }
          if visited[nextId] { return; }
        } else {
          nextId := NIL_GUID;
        }
      }
      assert path + [] == path;
      assert Walk(elementTable, limit, latestMetadata.startingElementID, {}) == Some(path);
      assert |list| == |path|;
      if |list| != latestMetadata.size { return; }
      result := LargeListResult(ValidList, Some(list));
      cachedList := Some(list);
    }
  }

  /** `taken` samples have been handled, `batch` is in hand, and `rest` is still queued. */
  ghost predicate Reading<T>(queue: seq<T>, taken: nat, batch: seq<T>, rest: seq<T>) {
    var limit := Min(|queue|, READ_LIMIT);
    var reading :=
      && taken <= limit && (batch != [] ==> taken % READ_BUFFER_SIZE == 0)
      && |batch| == Min(READ_BUFFER_SIZE, limit - taken)
      && queue == queue[..taken] + batch + rest;
    reading
  }

  lemma ReadingStarts<T>(queue: seq<T>)
    ensures var k := Min(READ_BUFFER_SIZE, |queue|); Reading(queue, 0, queue[..k], queue[k..])
  {
  }

  lemma ReadingEnds<T>(queue: seq<T>, taken: nat, rest: seq<T>)
    requires Reading(queue, taken, [], rest)
    ensures taken == Min(|queue|, READ_LIMIT) && rest == queue[taken..]
  {
  }

  lemma ReadingGoesOn<T>(queue: seq<T>, taken: nat, batch: seq<T>, rest: seq<T>)
    requires Reading(queue, taken, batch, rest) && batch != []
    ensures var taken' := taken + |batch|;
      && taken' <= |queue| && queue[..taken'] == queue[..taken] + batch
      && if taken' > MAX_READ_PER_UPDATE then Reading(queue, taken', [], rest)
         else var k := Min(READ_BUFFER_SIZE, |rest|); Reading(queue, taken', rest[..k], rest[k..])
  {
    var taken' := taken + |batch|;
    assert queue[..taken'] == queue[..taken] + batch;
    var k := Min(READ_BUFFER_SIZE, |rest|);
    assert queue == queue[..taken'] + rest[..k] + rest[k..];
    assert queue == queue[..taken'] + [] + rest;
  }

  /** The lists after the first `taken` samples of the queue. */
  ghost predicate Fed<E>(lists: Lists<E>, start: Lists<E>, queue: seq<Sample<E>>, taken: nat) {
    var fed := taken <= |queue| && lists == Consume(start, queue[..taken]);
    fed
  }

  /** Owns the list objects it makes; each is stored under its own list ID. */
  class LargeListReader<E> {
    const reader: SampleQueue<ListElement<E>>
    var listTable: map<Guid, LargeList<E>>

    ghost predicate Valid()
      reads this, listTable.Values
    {
      forall id :: id in listTable ==>
        listTable[id].listId == id && listTable[id].latestMetadata.listID == id && listTable[id].Valid()
    }

    ghost function Lists(): Lists<E>
      reads this, listTable.Values
    {
      map id | id in listTable :: listTable[id].State()
    }

    constructor (reader: SampleQueue<ListElement<E>>)
      ensures Valid() && this.reader == reader && listTable == map[]
    {
      this.reader := reader;
      listTable := map[];
    }

    /** A list seen for the first time gets an object of its own. */
    method EnsureList(listId: Guid)
      requires Valid()
      modifies this
      ensures Valid() && listId in listTable && fresh(listTable.Values - old(listTable.Values))
      ensures Lists() == old(Lists())[listId := Lookup(old(Lists()), listId)]
    {
      if listId !in listTable {
        ghost var lists := Lists();
        var list := new LargeList<E>(listId);
        listTable := listTable[listId := list];
        assert forall id :: id in lists ==> listTable[id].State() == lists[id];
      }
    }

    /** Hands a sample to the list it belongs to. */
    method Deliver(sample: Sample<E>)
      requires Valid() && sample.data.listID in listTable && sample.status != InvalidData
      modifies listTable.Values
      ensures Valid()
      ensures var id := sample.data.listID; var l := old(Lists())[id];
        Lists() == old(Lists())[id := l.(elementTable := ApplySample(l.elementTable, sample, id))]
    {
      ghost var lists := Lists();
      var listId := sample.data.listID;
      var handled;
      if sample.status == Disposed {
        handled := listTable[listId].Dispose(sample.data);
      } else {
        handled := listTable[listId].Receive(sample.data);
      }
      assert forall id :: id in listTable && id != listId ==> listTable[id].State() == lists[id];
    }

    /** Files one sample; invalid ones are skipped. */
    method HandleSample(sample: Sample<E>)
      requires Valid()
      modifies this, listTable.Values
      ensures Valid() && Lists() == ConsumeOne(old(Lists()), sample)
      ensures fresh(listTable.Values - old(listTable.Values))
    {
      if sample.status == InvalidData { return; }
      EnsureList(sample.data.listID);
      Deliver(sample);
    }

    method HandleBatch(buffer: seq<Sample<E>>)
      requires Valid()
      modifies this, listTable.Values
      ensures Valid() && Lists() == Consume(old(Lists()), buffer)
      ensures fresh(listTable.Values - old(listTable.Values))
    {
      var i := 0;
      while i < |buffer|
        invariant 0 <= i <= |buffer|
        invariant Valid() && fresh(listTable.Values - old(listTable.Values))
        invariant Lists() == Consume(old(Lists()), buffer[..i])
      {
        ConsumeConcat(old(Lists()), buffer[..i], [buffer[i]]);
        assert buffer[..i + 1] == buffer[..i] + [buffer[i]];
        HandleSample(buffer[i]);
        i := i + 1;
      }
      assert buffer[..i] == buffer;
    }

    method ReadBatch() returns (buffer: seq<Sample<E>>)
      requires Valid()
      modifies reader
      ensures Valid() && Lists() == old(Lists())
      ensures var k := Min(READ_BUFFER_SIZE, |old(reader.queue)|);
        buffer == old(reader.queue)[..k] && reader.queue == old(reader.queue)[k..]
    {
      buffer := reader.ReadUpToN(READ_BUFFER_SIZE);
    }

    /** Handles the batch that follows the first `taken` samples of the queue. */
    method HandleNext(buffer: seq<Sample<E>>, ghost queue: seq<Sample<E>>, ghost start: Lists<E>, ghost taken: nat)
      requires Valid() && Fed(Lists(), start, queue, taken)
      requires taken + |buffer| <= |queue| && queue[..taken + |buffer|] == queue[..taken] + buffer
      modifies this, listTable.Values
      ensures Valid() && Fed(Lists(), start, queue, taken + |buffer|)
      ensures fresh(listTable.Values - old(listTable.Values))
    {
      HandleBatch(buffer);
      ConsumeConcat(start, queue[..taken], buffer);
    }

    method UpdateListElements()
      requires Valid()
      modifies this, listTable.Values, reader
      ensures Valid() && fresh(listTable.Values - old(listTable.Values))
      ensures var n := Min(|old(reader.queue)|, READ_LIMIT);
        Lists() == Consume(old(Lists()), old(reader.queue)[..n]) && reader.queue == old(reader.queue)[n..]
    {
      ghost var queue, start := reader.queue, Lists();
      var totalReadCount: nat := 0;
      ReadingStarts(queue);
      var buffer := ReadBatch();
      assert Fed(Lists(), start, queue, 0);
      while |buffer| > 0
        invariant Valid() && fresh(listTable.Values - old(listTable.Values))
        invariant Reading(queue, totalReadCount, buffer, reader.queue)
        invariant Fed(Lists(), start, queue, totalReadCount)
        decreases READ_LIMIT - totalReadCount
      {
        ReadingGoesOn(queue, totalReadCount, buffer, reader.queue);
        HandleNext(buffer, queue, start, totalReadCount);
        totalReadCount := totalReadCount + |buffer|;
        if totalReadCount > MAX_READ_PER_UPDATE {
          buffer := [];
        } else {
          buffer := ReadBatch();
        }
      }
      ReadingEnds(queue, totalReadCount, reader.queue);
    }

    method AddFromMetadata(data: LargeListMetadata) returns (result: LargeListResult<E>)
      requires Valid() && data.listID !in listTable
      modifies this`listTable
      ensures Valid() && fresh(listTable.Values - old(listTable.Values))
      ensures Lists() == TakeMetadata(old(Lists()), data).0 && result == TakeMetadata(old(Lists()), data).1
    {
      ghost var lists := Lists();
      var list := new LargeList<E>.FromMetadata(data);
      result := list.GetList();
      listTable := listTable[data.listID := list];
      assert forall id :: id in lists ==> listTable[id].State() == lists[id];
      assert Lists() == lists[data.listID := list.State()];
    }

    method TakeKnownMetadata(data: LargeListMetadata) returns (result: LargeListResult<E>)
      requires Valid() && data.listID in listTable
      modifies listTable.Values
      ensures Valid()
      ensures Lists() == TakeMetadata(old(Lists()), data).0 && result == TakeMetadata(old(Lists()), data).1
    {
      ghost var lists := Lists();
      result := listTable[data.listID].ReceiveMetadata(data);
      assert forall id :: id in listTable && id != data.listID ==> listTable[id].State() == lists[id];
    }

    method TakeFromMetadata(data: LargeListMetadata) returns (result: LargeListResult<E>)
      requires Valid()
      modifies this, listTable.Values
      ensures Valid() && fresh(listTable.Values - old(listTable.Values))
      ensures Lists() == TakeMetadata(old(Lists()), data).0 && result == TakeMetadata(old(Lists()), data).1
    {
      if data.listID !in listTable {
        result := AddFromMetadata(data);
      } else {
        result := TakeKnownMetadata(data);
      }
    }

    method GetListFromMetadata(data: LargeListMetadata) returns (result: LargeListResult<E>)
      requires Valid()
      modifies this, listTable.Values, reader
      ensures Valid() && fresh(listTable.Values - old(listTable.Values))
      ensures var n := Min(|old(reader.queue)|, READ_LIMIT);
        var taken := TakeMetadata(Consume(old(Lists()), old(reader.queue)[..n]), data);
        Lists() == taken.0 && result == taken.1 && reader.queue == old(reader.queue)[n..]
    {
      UpdateListElements();
      result := TakeFromMetadata(data);
    }

    method GetListById(listId: Guid) returns (result: LargeListResult<E>)
      requires Valid()
      modifies this, listTable.Values, reader
      ensures Valid() && fresh(listTable.Values - old(listTable.Values))
      ensures var n := Min(|old(reader.queue)|, READ_LIMIT);
        var lists := Consume(old(Lists()), old(reader.queue)[..n]);
        && reader.queue == old(reader.queue)[n..]
        && if listId !in lists then Lists() == lists && result == LargeListResult(InvalidList, None)
           else
             var (l, r) := LargeListModel.GetList(lists[listId]);
             Lists() == lists[listId := l] && result == r
    {
      UpdateListElements();
      ghost var lists := Lists();
      if listId !in listTable {
        result := LargeListResult(InvalidList, None);
      } else {
        result := listTable[listId].GetList();
        assert forall id :: id in listTable && id != listId ==> listTable[id].State() == lists[id];
      }
    }

    method RemoveListById(listId: Guid) returns (removed: bool)
      requires Valid()
      modifies this, listTable.Values, reader
      ensures Valid() && fresh(listTable.Values - old(listTable.Values))
      ensures var n := Min(|old(reader.queue)|, READ_LIMIT);
        var lists := Consume(old(Lists()), old(reader.queue)[..n]);
        && reader.queue == old(reader.queue)[n..]
        && (removed <==> listId in lists) && Lists() == lists - {listId}
    {
      UpdateListElements();
      if listId !in listTable { return false; }
      listTable := listTable - {listId};
      return true;
    }
  }
}
