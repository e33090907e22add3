/** The writer of a Large Set and the reader's view of one set, as the objects that edit their indexes in place. */
module LargeSetObjects {
  import opened Common
  import opened Bus
  import opened LargeSetModel

  /** What is in a set is yet to be visited, or was kept when it was. */
  ghost predicate Split<T>(keys: set<T>, left: set<T>, kept: set<T>) {
    var split := keys == left + kept && left !! kept;
    split
  }

  lemma Visit<T>(keys: set<T>, left: set<T>, kept: set<T>, x: T)
    requires Split(keys, left, kept) && x in left
    ensures x in keys && |left - {x}| < |left|
    ensures Split(keys, left - {x}, kept + {x}) && Split(keys - {x}, left - {x}, kept)
  {
  }

  /** The operations of a batch insert the first of the values, under new IDs or under those supplied. */
  ghost predicate Inserts<E>(
    ops: seq<SetOp<E>>, values: seq<E>, elementIds: Option<seq<Guid>>, generateIds: bool, before: set<Guid>,
    after: set<Guid>)
  {
    var inserts :=
      && |ops| <= |values|
      && (forall i :: 0 <= i < |ops| ==> ops[i].Insert? && ops[i].value == values[i] && ops[i].id in after)
      && (forall i :: 0 <= i < |ops| ==>
            if generateIds then ops[i].id !in before
            else elementIds.Some? && i < |elementIds.value| && ops[i].id == elementIds.value[i])
      && (generateIds ==> forall i, j :: 0 <= i < j < |ops| ==> ops[i].id != ops[j].id);
    inserts
  }

  /** IDs are generated, or those supplied are distinct and unused. */
  ghost predicate Unambiguous<E>(s: SetState<E>, elementIds: Option<seq<Guid>>, generateIds: bool) {
    !generateIds && elementIds.Some? ==>
      NoDuplicates(elementIds.value) && forall i :: 0 <= i < |elementIds.value| ==> !HasId(s, elementIds.value[i])
  }

  lemma InsertsAreClean<E>(
    s: SetState<E>, ops: seq<SetOp<E>>, times: seq<DateTime>, values: seq<E>, elementIds: Option<seq<Guid>>,
    generateIds: bool, before: set<Guid>, after: set<Guid>)
    requires |ops| == |times| && Inserts(ops, values, elementIds, generateIds, before, after)
    requires Unambiguous(s, elementIds, generateIds) && forall e :: e in s.elements ==> e.elementID in before
    ensures AllClean(s, ops, times)
    ensures PerformAll(s, ops, times).Some? && Agrees(s) ==> Agrees(PerformAll(s, ops, times).value.0)
  {
    assert DistinctInserts(s, ops);
    DistinctInsertsAreClean(s, ops, times);
    if PerformAll(s, ops, times).Some? && Agrees(s) { BatchKeepsAgreement(s, ops, times); }
  }

  class LargeSetWriter<E(==)> {
    const setId: Guid
    const sender: Participant<SetElement<E>>
    var elements: set<SetElement<E>>
    var elementTable: map<E, SetElement<E>>
    var metadata: LargeSetMetadata

    /** The IDs of the elements are known to be in use. */
    ghost predicate Valid()
      reads this, sender
    {
      && metadata.setID == setId
      && (forall e :: e in elements ==> e.elementID in sender.issued)
      && (forall v :: v in elementTable ==> elementTable[v].elementID in sender.issued)
    }

    ghost function State(): SetState<E>
      reads this
    {
      SetState(elements, elementTable, metadata)
    }

    constructor (sender: Participant<SetElement<E>>)
      modifies sender
      ensures Valid() && this.sender == sender && sender.published == old(sender.published)
      ensures State() == SetState({}, map[], LargeSetMetadata(setId, 0, NIL_GUID, None)) && Agrees(State())
    {
      this.sender := sender;
      var id := sender.GenerateGuid();
      setId := id;
      elements := {};
      elementTable := map[];
      metadata := LargeSetMetadata(id, 0, NIL_GUID, None);
    }

    method TouchMetadata(e: SetElement<E>, dispose: bool)
      modifies this`metadata
      ensures metadata == UpdateMetadata(old(metadata), e, dispose, |elements|)
    {
      metadata := metadata.(updateElementID := e.elementID);
      metadata := metadata.(updateElementTimestamp := if dispose then None else Some(e.elementTimestamp));
      metadata := metadata.(size := |elements|);
    }

    /** One of the entry points for an element: its ID is generated unless the caller supplies one. */
    method Insert(value: E, elementId: Option<Guid>, generateId: bool)
      returns (status: SendStatus, id: Guid, ghost t: DateTime)
      requires Valid()
      modifies this, sender
      ensures Valid() && old(sender.now) <= sender.now && old(sender.issued) <= sender.issued
      ensures value in old(elementTable) || (!generateId && elementId.None?) ==> status == SendError
      ensures status != SendSuccess ==> State() == old(State()) && sender.published == old(sender.published)
      ensures status == SendSuccess ==> var op := SetOp.Insert(value, id);
        && Admits(old(State()), op) && old(sender.now) <= t <= sender.now
        && id in sender.issued && (if generateId then id !in old(sender.issued) else elementId == Some(id))
        && State() == Perform(old(State()), op, t)
        && sender.published == old(sender.published) + [Published(old(State()), op, t)]
    {
      t, id := 0, NIL_GUID;
      if value in elementTable {
        return SendError, id, t;
      } else if !generateId && elementId.None? {
        return SendError, id, t;
      }
      id := sender.GenerateGuid();
      var stamp := sender.GetTimestamp();
      t := stamp;
      if elementId.Some? && !generateId {
        id := elementId.value;
        sender.Note(id);
      }
      var e := SetElement(setId, id, value, stamp);
      status := sender.Send(e);
      if status == SendError { return; }
      elementTable := elementTable[value := e];
      elements := elements + {e};
      TouchMetadata(e, false);
    }

    /** Since the writer was in state `start`, it has performed some operations and published their samples. */
    ghost predicate HasPerformed(
      start: SetState<E>, first: seq<Sample<E>>, since: DateTime, ops: seq<SetOp<E>>, times: seq<DateTime>,
      samples: seq<Sample<E>>)
      reads this, sender
    {
      var performed :=
        && Valid() && |ops| == |times| && since <= sender.now && Dated(times, since, sender.now)
        && PerformAll(start, ops, times) == Some((State(), samples))
        && sender.published == first + samples;
      performed
    }

    method InsertNext(
      value: E, elementId: Option<Guid>, ghost start: SetState<E>, ghost first: seq<Sample<E>>, ghost since: DateTime,
      ghost ops: seq<SetOp<E>>, ghost times: seq<DateTime>, ghost samples: seq<Sample<E>>)
      returns (status: SendStatus, ghost id: Guid, ghost times': seq<DateTime>, ghost samples': seq<Sample<E>>)
      requires HasPerformed(start, first, since, ops, times, samples)
      modifies this, sender
      ensures old(sender.issued) <= sender.issued
      ensures HasPerformed(start, first, since, if status == SendSuccess then ops + [SetOp.Insert(value, id)] else ops,
                           times', samples')
      ensures status == SendSuccess ==> id in sender.issued
      ensures status == SendSuccess ==> if elementId.Some? then id == elementId.value else id !in old(sender.issued)
    {
      ghost var before := State();
      var newId; ghost var t;
      status, newId, t := Insert(value, elementId, elementId.None?);
      id, times', samples' := newId, times, samples;
      if status == SendSuccess {
        PerformsMore(start, ops, times, before, samples, SetOp.Insert(value, id), t);
        times', samples' := times + [t], samples + [Published(before, SetOp.Insert(value, id), t)];
      }
    }

    /**
     A batch that stops part-way has inserted exactly the values before the one that failed, under IDs that differ
     when they are generated; and unless supplied IDs are repeated or in use, the indexes stay in agreement.
     */
    method InsertAll(values: seq<E>, elementIds: Option<seq<Guid>>, generateIds: bool)
      returns (status: SendStatus, ghost ops: seq<SetOp<E>>, ghost times: seq<DateTime>)
      requires Valid()
      modifies this, sender
      ensures Valid() && |ops| == |times|
      ensures Inserts(ops, values, elementIds, generateIds, old(sender.issued), sender.issued)
      ensures Dated(times, old(sender.now), sender.now)
      ensures status == SendSuccess <==> |ops| == |values| > 0
      ensures old(sender.published) <= sender.published && PerformAll(old(State()), ops, times) ==
        Some((State(), sender.published[|old(sender.published)|..]))
      ensures Unambiguous(old(State()), elementIds, generateIds) ==>
        AllClean(old(State()), ops, times) && (Agrees(old(State())) ==> Agrees(State()))
    {
      ops, times := [], [];
      assert sender.published[|sender.published|..] == [];
      if |values| == 0 { return SendError, ops, times; }
      if !generateIds && (elementIds.None? || |elementIds.value| != |values|) {
        return SendError, ops, times;
      }
      status, ops, times := InsertEach(values, elementIds, generateIds);
    }

    method InsertEach(values: seq<E>, elementIds: Option<seq<Guid>>, generateIds: bool)
      returns (status: SendStatus, ghost ops: seq<SetOp<E>>, ghost times: seq<DateTime>)
      requires Valid() && |values| > 0
      requires generateIds || (elementIds.Some? && |elementIds.value| == |values|)
      modifies this, sender
      ensures Valid() && |ops| == |times|
      ensures Inserts(ops, values, elementIds, generateIds, old(sender.issued), sender.issued)
      ensures Dated(times, old(sender.now), sender.now)
      ensures status == SendSuccess <==> |ops| == |values|
      ensures old(sender.published) <= sender.published && PerformAll(old(State()), ops, times) ==
        Some((State(), sender.published[|old(sender.published)|..]))
      ensures Unambiguous(old(State()), elementIds, generateIds) ==>
        AllClean(old(State()), ops, times) && (Agrees(old(State())) ==> Agrees(State()))
    {
      ops, times := [], [];
      ghost var start, first, since, issued := State(), sender.published, sender.now, sender.issued;
      ghost var samples: seq<Sample<E>> := [];
      assert sender.published[|sender.published|..] == [];
      var i := 0;
      status := SendSuccess;
      while i < |values| && status == SendSuccess
        invariant 0 <= i <= |values| && |ops| == (if status == SendSuccess then i else i - 1)
        invariant HasPerformed(start, first, since, ops, times, samples)
        invariant Inserts(ops, values, elementIds, generateIds, issued, sender.issued) && issued <= sender.issued
      {
        ghost var id;
        status, id, times, samples := InsertNext(
          values[i], if generateIds then None else Some(elementIds.value[i]), start, first, since, ops, times, samples);
        if status == SendSuccess { ops := ops + [SetOp.Insert(values[i], id)]; }
        i := i + 1;
      }
      if Unambiguous(start, elementIds, generateIds) {
        InsertsAreClean(start, ops, times, values, elementIds, generateIds, issued, sender.issued);
      }
    }

    method Update(prev: E, value: E) returns (status: SendStatus, ghost t: DateTime)
      requires Valid()
      modifies this, sender
      ensures Valid() && old(sender.now) <= t <= sender.now && sender.issued == old(sender.issued)
      ensures prev !in old(elementTable) ==> status == SendError
      ensures status != SendSuccess ==> State() == old(State()) && sender.published == old(sender.published)
      ensures status == SendSuccess ==> var op := SetOp.Update(prev, value);
        && Admits(old(State()), op) && State() == Perform(old(State()), op, t)
        && sender.published == old(sender.published) + [Published(old(State()), op, t)]
    {
      t := sender.now;
      if prev !in elementTable { return SendError, t; }
      var before := elementTable[prev];
      var e := before.(element := value);
      var stamp := sender.GetTimestamp();
      t := stamp;
      e := e.(elementTimestamp := stamp);
      status := sender.Send(e);
      if status == SendError { return; }
      elements := elements - {before};
      elements := elements + {e};
      elementTable := elementTable - {prev};
      if value !in elementTable { elementTable := elementTable[value := e]; }
      TouchMetadata(e, false);
    }

    method Remove(value: E) returns (status: SendStatus)
      requires Valid()
      modifies this, sender
      ensures Valid() && sender.issued == old(sender.issued) && sender.now == old(sender.now)
      ensures value !in old(elementTable) ==> status == SendError
      ensures elementTable == old(elementTable) - if status == SendSuccess then {value} else {}
      ensures status != SendSuccess ==> State() == old(State()) && sender.published == old(sender.published)
      ensures status == SendSuccess ==> var op := SetOp.Remove(value);
        && Admits(old(State()), op) && State() == Perform(old(State()), op, sender.now)
        && sender.published == old(sender.published) + [Published(old(State()), op, sender.now)]
    {
      if value !in elementTable { return SendError; }
      var removed := elementTable[value];
      status := sender.Dispose(removed);
      if status == SendError { return; }
      elementTable := elementTable - {value};
      elements := elements - {removed};
      TouchMetadata(removed, true);
    }

    method RemoveNext(
      value: E, ghost start: SetState<E>, ghost first: seq<Sample<E>>, ghost since: DateTime, ghost ops: seq<SetOp<E>>,
      ghost times: seq<DateTime>, ghost samples: seq<Sample<E>>)
      returns (removed: bool, ghost ops': seq<SetOp<E>>, ghost times': seq<DateTime>, ghost samples': seq<Sample<E>>)
      requires HasPerformed(start, first, since, ops, times, samples)
      requires value in elementTable && forall i :: 0 <= i < |ops| ==> ops[i].Remove?
      modifies this, sender
      ensures elementTable.Keys == if removed then old(elementTable.Keys) - {value} else old(elementTable.Keys)
      ensures HasPerformed(start, first, since, ops', times', samples')
      ensures forall i :: 0 <= i < |ops'| ==> ops'[i].Remove?
    {
      ghost var before := State();
      var status := Remove(value);
      if status != SendSuccess { return false, ops, times, samples; }
      PerformsMore(start, ops, times, before, samples, SetOp.Remove(value), sender.now);
      samples' := samples + [Published(before, SetOp.Remove(value), sender.now)];
      ops', times' := ops + [SetOp.Remove(value)], times + [sender.now];
      removed := true;
    }

    /** Tries to remove every value; one that cannot be removed does not stop the others. */
    method Clear() returns (status: SendStatus, ghost ops: seq<SetOp<E>>, ghost times: seq<DateTime>)
      requires Valid()
      modifies this, sender
      ensures Valid() && |ops| == |times|
      ensures forall i :: 0 <= i < |ops| ==> ops[i].Remove?
      ensures Dated(times, old(sender.now), sender.now) && AllClean(old(State()), ops, times)
      ensures old(sender.published) <= sender.published && PerformAll(old(State()), ops, times) ==
        Some((State(), sender.published[|old(sender.published)|..]))
      ensures Agrees(old(State())) ==> Agrees(State())
      ensures status == SendSuccess <==> elementTable == map[]
    {
      status, ops, times := SendSuccess, [], [];
      ghost var start, first, since := State(), sender.published, sender.now;
      ghost var samples: seq<Sample<E>> := [];
      var left := elementTable.Keys;
      ghost var kept: set<E> := {};
      while left != {}
        invariant HasPerformed(start, first, since, ops, times, samples)
        invariant forall i :: 0 <= i < |ops| ==> ops[i].Remove?
        invariant Split(elementTable.Keys, left, kept)
        invariant status == SendSuccess <==> kept == {}
        decreases |left|
      {
        var elem :| elem in left;
        Visit(elementTable.Keys, left, kept, elem);
        var removed;
        removed, ops, times, samples := RemoveNext(elem, start, first, since, ops, times, samples);
        if !removed { status, kept := SendError, kept + {elem}; }
        left := left - {elem};
      }
      assert elementTable.Keys == {} <==> elementTable == map[];
      RemovalsKeepAgreement(start, ops, times);
    }
  }

  /** One set at the reader. */
  class LargeSet<E(==)> {
    const setId: Guid
    var latestMetadata: LargeSetMetadata
    var elementTable: Table<E>
    var cachedSet: Option<set<E>>

    constructor (id: Guid)
      ensures setId == id && latestMetadata == LargeSetMetadata(id, 0, NIL_GUID, None)
      ensures elementTable == map[] && cachedSet == None
    {
      setId := id;
      latestMetadata := LargeSetMetadata(id, 0, NIL_GUID, None);
      elementTable := map[];
      cachedSet := None;
    }

    method Receive(element: SetElement<E>) returns (ok: bool)
      modifies this`elementTable
      ensures elementTable == ApplySample(old(elementTable), SampleEnvelope(element, ReadSuccess), setId)
      ensures ok <==> element.setID == setId
    {
      if element.setID != setId { return false; }
      elementTable := elementTable[element.elementID := element];
      return true;
    }

    method Dispose(element: SetElement<E>) returns (ok: bool)
      modifies this`elementTable
      ensures elementTable == ApplySample(old(elementTable), SampleEnvelope(element, Disposed), setId)
      ensures ok <==> element.setID == setId && element.elementID in old(elementTable)
    {
      if element.setID != setId { return false; }
      if element.elementID !in elementTable { return false; }
      elementTable := elementTable - {element.elementID};
      return true;
    }

    method GenerateSet() returns (result: LargeSetResult<E>)
      modifies this`cachedSet
      ensures result == Generate(elementTable, latestMetadata)
      ensures cachedSet == if result.status == ValidSet then result.contents else old(cachedSet)
    {
      if latestMetadata.size == 0 { return LargeSetResult(EmptySet, None); }
      var contents: set<E> := {};
      var left := elementTable.Keys;
      while left != {}
        invariant (forall g :: g in left ==> g in elementTable) && cachedSet == old(cachedSet)
        invariant contents == set g | g in elementTable && g !in left :: elementTable[g].element
        invariant forall g :: g in elementTable && g !in left ==>
          !TooNew(elementTable[g], latestMetadata.updateElementTimestamp)
        decreases |left|
      {
        ghost var least := SmallestExists(left);
        var id :| id in left && forall g :: g in left ==> id <= g;
        FewerMembers(left, id);
        var element := elementTable[id];
        if latestMetadata.updateElementTimestamp.Some?
           && element.elementTimestamp > latestMetadata.updateElementTimestamp.value {
          return LargeSetResult(InvalidSet, None);
        }
        contents := contents + {element.element};
        left := left - {id};
      }
      assert contents == Contents(elementTable);
      if |contents| != latestMetadata.size { return LargeSetResult(InvalidSet, None); }
      result := LargeSetResult(ValidSet, Some(contents));
      cachedSet := Some(contents);
    }

    method GetSet() returns (result: LargeSetResult<E>)
      modifies this`cachedSet
      ensures result == if old(cachedSet).Some? then LargeSetResult(ValidSet, old(cachedSet))
                        else Generate(elementTable, latestMetadata)
    {
      if cachedSet.Some? {
        result := LargeSetResult(ValidSet, cachedSet);
      } else if latestMetadata.size == 0 {
        result := LargeSetResult(EmptySet, None);
      } else {
        result := GenerateSet();
      }
    }

    method ReceiveMetadata(data: LargeSetMetadata) returns (result: LargeSetResult<E>)
      modifies this`latestMetadata, this`cachedSet
      ensures if data.setID != setId then result == LargeSetResult(InvalidSet, None)
              else if Stale(data, old(latestMetadata)) then result == LargeSetResult(StaleMetadata, None)
              else result == Generate(elementTable, data)
      ensures latestMetadata == if data.setID == setId then Newer(data, old(latestMetadata)) else old(latestMetadata)
      ensures if data.setID != setId || Stale(data, old(latestMetadata))
              then latestMetadata == old(latestMetadata) && cachedSet == old(cachedSet)
              else latestMetadata == data && cachedSet == if result.status == ValidSet then result.contents else None
    {
      if data.setID != setId { return LargeSetResult(InvalidSet, None); }
      if data.updateElementTimestamp.None? || latestMetadata.updateElementTimestamp.None?
         || data.updateElementTimestamp.value >= latestMetadata.updateElementTimestamp.value {
        latestMetadata := data;
        cachedSet := None;
      } else {
        return LargeSetResult(StaleMetadata, None);
      }
      result := GenerateSet();
    }
  }
}
