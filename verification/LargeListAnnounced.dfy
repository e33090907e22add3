/**
 Reads under old metadata while any number of operations have been going on: whether the metadata admits only the list
 it announced depends on its timestamp and the clock.
 */
module LargeListAnnounced {
  import opened Common
  import Bus
  import opened LargeListModel
  import opened LargeListOps
  import opened LargeListOrder
  import opened LargeListProtocol
  import opened LargeListReads

  /** What is in the table is newer than `t`, or is still as it was in the list `es`. */
  ghost predicate OldIn<E>(table: Table<E>, es: seq<ListElement<E>>, t: DateTime) {
    forall g :: g in table ==>
      table[g].elementID == g && (table[g].elementTimestamp > t || table[g] in es)
  }

  /** The elements these samples bring to the list are newer than `t`. */
  ghost predicate Later<E>(samples: seq<Sample<E>>, listId: Guid, t: DateTime) {
    forall i :: 0 <= i < |samples| ==>
      samples[i].status == InvalidData || samples[i].status == Disposed || samples[i].data.listID != listId ||
      samples[i].data.elementTimestamp > t
  }

  lemma {:induction false} ReplayKeepsOld<E>(
    table: Table<E>, samples: seq<Sample<E>>, listId: Guid, es: seq<ListElement<E>>, t: DateTime)
    requires OldIn(table, es, t) && Later(samples, listId, t)
    ensures OldIn(Replay(table, samples, listId), es, t)
    decreases |samples|
  {
    if samples != [] {
      assert forall i :: 0 <= i < |samples| - 1 ==> samples[1..][i] == samples[i + 1];
      ReplayKeepsOld(ApplySample(table, samples[0], listId), samples[1..], listId, es, t);
    }
  }

  /** A chain of elements not newer than `t` that enters the old list follows it to its end. */
  lemma {:induction false} OldChain<E>(
    table: Table<E>, es: seq<ListElement<E>>, listId: Guid, t: DateTime, i: nat, path: seq<Guid>)
    requires WellFormed(listId, es) && Linked(es, None) && OldIn(table, es, t) && i < |es|
    requires IsChain(table, Some(t), es[i].elementID, path)
    ensures |path| == |es| - i
    ensures forall k :: 0 <= k < |path| ==> path[k] in table && table[path[k]] == es[i + k]
    decreases |es| - i
  {
    var e := table[es[i].elementID];
    var k :| 0 <= k < |es| && es[k] == e;
    assert k == i;
    if i + 1 < |es| {
      OldChain(table, es, listId, t, i + 1, path[1..]);
      assert forall j :: 0 < j < |path| ==> path[j] == path[1..][j - 1];
    } else {
      assert Next(e) == NIL_GUID;
    }
  }

  /** Under metadata that announced the list `es` with time `t`, a valid read of such a table returns exactly `es`. */
  lemma AnnouncedRead<E>(table: Table<E>, es: seq<ListElement<E>>, m: LargeListMetadata, t: DateTime)
    requires WellFormed(m.listID, es) && Linked(es, None) && Describes(m, es) && m.updateElementTimestamp == Some(t)
    requires OldIn(table, es, t)
    ensures var r := Generate(ListAt(m, table)).1; r.status == ValidList ==> r.list == Some(Values(es))
  {
    var s := ListAt(m, table);
    if Generate(s).1.status == ValidList {
      GenerateExact(s);
      var path: seq<Guid> :| IsChain(table, Some(t), m.startingElementID, path) && |path| == m.size;
      OldChain(table, es, m.listID, t, 0, path);
      assert Payloads(table, path) == Values(es);
    }
  }

  // ----- Any run of operations

  /** Every element an operation publishes carries one of the timestamps it drew. */
  lemma StampsAreDrawn<E>(
    es: seq<ListElement<E>>, m: LargeListMetadata, op: ListOp<E>, ids: seq<Guid>, times: seq<DateTime>, t: DateTime)
    requires Draws(|es|, op, |ids|, |times|) && forall i :: 0 <= i < |times| ==> times[i] > t
    ensures Later(Perform(es, m, op, ids, times).samples, m.listID, t)
  {
  }

  /** Since the metadata with time `t` announced `es`, the reader's table and what is on the way are older or newer. */
  ghost predicate Since<E>(s: System<E>, es: seq<ListElement<E>>, t: DateTime) {
    var id := s.metadata.listID;
    OldIn(Lookup(s.lists, id).elementTable, es, t) && Later(s.pending, id, t)
  }

  /** The clock has moved on whenever the writer stamps an element. */
  ghost predicate Afterwards<E>(steps: seq<Step<E>>, t: DateTime) {
    forall i, j :: 0 <= i < |steps| && steps[i].Write? && 0 <= j < |steps[i].times| ==> steps[i].times[j] > t
  }

  lemma TakingKeepsSince<E>(s: System<E>, arrived: nat, es: seq<ListElement<E>>, t: DateTime)
    requires Keyed(s.lists) && Since(s, es, t)
    ensures Since(TakeArrived(s, arrived), es, t)
  {
    var id, n := s.metadata.listID, Min(arrived, Min(|s.pending|, READ_LIMIT));
    ConsumeIsReplay(s.lists, s.pending[..n], id);
    ReplayKeepsOld(Lookup(s.lists, id).elementTable, s.pending[..n], id, es, t);
  }

  lemma StepKeepsSince<E>(s: System<E>, step: Step<E>, es: seq<ListElement<E>>, t: DateTime)
    requires Basic(s) && Since(s, es, t) && Enabled(s, step) && Afterwards([step], t)
    ensures Since(Execute(s, step), es, t) && Execute(s, step).metadata.listID == s.metadata.listID
  {
    if step.Write? {
      assert [step][0] == step;
      StampsAreDrawn(s.elements, s.metadata, step.op, step.ids, step.times, t);
      MetadataRewritten(s.elements, s.metadata, step.op, step.ids, step.times, s.now);
    } else if !step.Foreign? && !step.Elapse? {
      TakingKeepsSince(s, step.arrived, es, t);
    }
  }

  lemma {:induction false} RunsKeepSince<E>(
    s: System<E>, steps: seq<Step<E>>, s': System<E>, es: seq<ListElement<E>>, t: DateTime)
    requires Basic(s) && Since(s, es, t) && Runs(s, steps, s') && Afterwards(steps, t)
    ensures Since(s', es, t) && Keyed(s'.lists) && s'.metadata.listID == s.metadata.listID
    decreases |steps|
  {
    if steps != [] {
      assert forall i :: 0 <= i < |steps| - 1 ==> steps[1..][i] == steps[i + 1];
      StepKeepsSince(s, steps[0], es, t);
      StepKeepsBasic(s, steps[0]);
      RunsKeepSince(Execute(s, steps[0]), steps[1..], s', es, t);
    }
  }

  /**
   No torn reads over runs: once metadata with a timestamp has announced a list to a reader that was caught up, whatever
   the reader returns for that metadata as valid, after any number of any operations and however few of their samples
   have arrived, is exactly the list announced, provided later stamps are later.
   */
  lemma NeverTorn<E>(s: System<E>, steps: seq<Step<E>>, s': System<E>, arrived: nat, t: DateTime)
    requires Consistent(s) && Sequenced(s) && s.pending == [] && s.metadata.updateElementTimestamp == Some(t)
    requires Runs(s, steps, s') && Afterwards(steps, t)
    ensures var r := ReadWith(s', arrived, s.metadata); r.status == ValidList ==> r.list == Some(Values(s.elements))
  {
    assert forall e :: e in s.elements ==> e.elementTimestamp <= t;
    assert Since(s, s.elements, t) by {
      var table := Lookup(s.lists, s.metadata.listID).elementTable;
      assert Represents(table, s.elements);
    }
    RunsKeepSince(s, steps, s', s.elements, t);
    TakingKeepsSince(s', arrived, s.elements, t);
    var lists, id := TakeArrived(s', arrived).lists, s.metadata.listID;
    ConsumeIsReplay(s'.lists, s'.pending[..Min(arrived, Min(|s'.pending|, READ_LIMIT))], id);
    AnnouncedRead(Lookup(lists, id).elementTable, s.elements, s.metadata, t);
  }

  // ----- The exact condition

  /** The metadata carries a timestamp, and the clock has moved on from it. */
  predicate Settled(m: LargeListMetadata, now: DateTime) {
    m.updateElementTimestamp.Some? && m.updateElementTimestamp.value < now
  }

  /** Whatever is done and however many samples have arrived, a valid read under `m` is the list `c`. */
  ghost predicate ReadsOnly<E(!new)>(s: System<E>, m: LargeListMetadata, c: seq<E>) {
    forall steps, s', arrived: nat ::
      Runs(s, steps, s') && ReadWith(s', arrived, m).status == ValidList ==> ReadWith(s', arrived, m).list == Some(c)
  }

  /** The writer never has the list `c` in the course of the run. */
  ghost predicate NeverWas<E(!new)>(s: System<E>, steps: seq<Step<E>>, c: seq<E>) {
    forall k, s' :: 0 <= k <= |steps| && Runs(s, steps[..k], s') ==> Values(s'.elements) != c
  }

  lemma {:induction false} StampsAreLater<E>(s: System<E>, steps: seq<Step<E>>, s': System<E>, t: DateTime)
    requires Basic(s) && Runs(s, steps, s') && t < s.now
    ensures Afterwards(steps, t)
    decreases |steps|
  {
    if steps != [] {
      var next := Execute(s, steps[0]);
      StepKeepsBasic(s, steps[0]);
      if steps[0].Write? {
        ClockFollows(s.elements, s.metadata, steps[0].op, steps[0].ids, steps[0].times, s.now);
      }
      StampsAreLater(next, steps[1..], s', t);
      assert forall i :: 0 < i < |steps| ==> steps[i] == steps[1..][i - 1];
    }
  }

  /** A run of the table that the metadata describes is read, whatever else is in the table. */
  lemma RunIsRead<E>(m: LargeListMetadata, table: Table<E>, run: seq<ListElement<E>>)
    requires Holds(table, run) && Linked(run, None) && Describes(m, run) && run != []
    ensures Generate(ListAt(m, table)).1 == LargeListResult(ValidList, Some(Values(run)))
  {
    LinkedIsChain(table, m.updateElementTimestamp, run, None, []);
    assert Ids(run) + [] == Ids(run);
    GenerateExact(ListAt(m, table));
    assert Payloads(table, Ids(run)) == Values(run);
  }

  /** The first element with another value, stamped at time `t`. */
  function Revalued<E>(es: seq<ListElement<E>>, v: E, t: DateTime): seq<ListElement<E>>
    requires es != []
  {
    es[0 := es[0].(element := v, elementTimestamp := t)]
  }

  /** A value is prepended and the one that was first replaced, both before the clock moves on. */
  function Prepending<E>(v: E, id: Guid, t: DateTime): Step<E> { Write(Prepend([v]), [id], [t]) }

  function Replacing<E>(v: E, t: DateTime): Step<E> { Write(ListOp.Update(v, 1), [], [t]) }

  lemma TwoWrites<E>(s: System<E>, v: E, id: Guid)
    requires Consistent(s) && Sequenced(s) && s.pending == [] && s.elements != [] && id !in s.issued
    ensures Enabled(s, Prepending(v, id, s.now)) && Enabled(Execute(s, Prepending(v, id, s.now)), Replacing(v, s.now))
    ensures var mid := Execute(s, Prepending(v, id, s.now)); var s' := Execute(mid, Replacing(v, s.now));
      && Consistent(s') && s'.lists == s.lists && s'.metadata.listID == s.metadata.listID && |s'.pending| == 2
      && |mid.elements| == |s'.elements| == |s.elements| + 1
      && s'.elements[1..] == Revalued(s.elements, v, s.now)
  {
    var mid := Execute(s, Prepending(v, id, s.now));
    StepKeepsConsistent(s, Prepending(v, id, s.now));
    assert mid.elements[0].elementID == id && mid.elements[1..] == s.elements && mid.now == s.now;
    var s' := Execute(mid, Replacing(v, s.now));
    StepKeepsConsistent(mid, Replacing(v, s.now));
    assert s'.elements[1..] == Revalued(s.elements, v, s.now);
  }

  lemma RevaluedRun<E>(es: seq<ListElement<E>>, v: E, t: DateTime)
    requires es != [] && Linked(es, None) && NotAfter(es, t)
    ensures var run := Revalued(es, v, t);
      && Linked(run, None) && NotAfter(run, t) && Lead(run, None) == Lead(es, None)
      && Values(run) == Values(es)[0 := v]
  {
  }

  /** Under metadata that is not settled, the two writes can be read as a list that never was. */
  lemma TornRead<E>(s: System<E>, s': System<E>, v: E)
    requires Consistent(s) && Sequenced(s) && s.elements != [] && !Settled(s.metadata, s.now)
    requires Consistent(s') && s'.lists == s.lists && s'.metadata.listID == s.metadata.listID && |s'.pending| == 2
    requires s'.elements != [] && s'.elements[1..] == Revalued(s.elements, v, s.now)
    ensures ReadWith(s', 2, s.metadata) == LargeListResult(ValidList, Some(Values(s.elements)[0 := v]))
  {
    var run := s'.elements[1..];
    RevaluedRun(s.elements, v, s.now);
    ArrivedRead(s', 2, s.metadata);
    assert Holds(Delivered(s'), run) by { assert forall e :: e in run ==> e in s'.elements; }
    RunIsRead(s.metadata, Delivered(s'), run);
  }

  lemma OneStep<E>(s: System<E>, steps: seq<Step<E>>, r: System<E>)
    requires |steps| == 1 && Runs(s, steps, r)
    ensures r == Execute(s, steps[0])
  {
    assert steps[1..] == [];
  }

  lemma TornRun<E(!new)>(s: System<E>, v: E) returns (steps: seq<Step<E>>, s': System<E>)
    requires Consistent(s) && Sequenced(s) && s.pending == [] && s.elements != [] && v != s.elements[0].element
    requires !Settled(s.metadata, s.now)
    ensures Runs(s, steps, s') && OrderlySteps(steps) && NeverWas(s, steps, Values(s.elements)[0 := v])
    ensures ReadWith(s', 2, s.metadata) == LargeListResult(ValidList, Some(Values(s.elements)[0 := v]))
  {
    var id := Bus.Unused(s.issued);
    var prepending, replacing := Prepending(v, id, s.now), Replacing(v, s.now);
    TwoWrites(s, v, id);
    var mid := Execute(s, prepending);
    s' := Execute(mid, replacing);
    steps := [prepending, replacing];
    assert steps[1..] == [replacing] && [replacing][1..] == [];
    assert Runs(mid, [replacing], s');
    TornRead(s, s', v);
    assert Values(s.elements)[0 := v][0] != Values(s.elements)[0];
    TwoStepsNever(s, steps, Values(s.elements)[0 := v]);
  }

  /** A run of two writes of which neither leaves a list of the old length does not pass through another such list. */
  lemma TwoStepsNever<E(!new)>(s: System<E>, steps: seq<Step<E>>, c: seq<E>)
    requires |steps| == 2 && |c| == |s.elements| && c != Values(s.elements)
    requires Enabled(s, steps[0]) && |Execute(s, steps[0]).elements| != |c|
    requires Enabled(Execute(s, steps[0]), steps[1])
    requires |Execute(Execute(s, steps[0]), steps[1]).elements| != |c|
    ensures NeverWas(s, steps, c)
  {
    forall k, r | 0 <= k <= |steps| && Runs(s, steps[..k], r) ensures Values(r.elements) != c {
      if k == 1 {
        OneStep(s, steps[..1], r);
      } else if k == 2 {
        assert steps[..2][1..] == [steps[1]];
        OneStep(Execute(s, steps[0]), [steps[1]], r);
      }
    }
  }

  /**
   When old metadata stays good: to a reader that was caught up, in every run and with any samples arrived, the metadata
   of a list with elements admits only that list if and only if it carries a timestamp and the clock has moved on from
   it. If not, there is a run of prepend and update in which a list that never was is returned as valid.
   */
  lemma NeverTornExact<E(!new)>(s: System<E>, v: E)
    requires Consistent(s) && Sequenced(s) && s.pending == [] && s.elements != [] && v != s.elements[0].element
    ensures ReadsOnly(s, s.metadata, Values(s.elements)) <==> Settled(s.metadata, s.now)
    ensures !Settled(s.metadata, s.now) ==> exists steps, s', arrived: nat, c ::
      && Runs(s, steps, s') && OrderlySteps(steps) && NeverWas(s, steps, c)
      && ReadWith(s', arrived, s.metadata) == LargeListResult(ValidList, Some(c))
  {
    if Settled(s.metadata, s.now) {
      var t := s.metadata.updateElementTimestamp.value;
      forall steps, s', arrived: nat | Runs(s, steps, s') && ReadWith(s', arrived, s.metadata).status == ValidList
        ensures ReadWith(s', arrived, s.metadata).list == Some(Values(s.elements))
      {
        StampsAreLater(s, steps, s', t);
        NeverTorn(s, steps, s', arrived, t);
      }
    } else {
      var steps, s' := TornRun(s, v);
      assert Values(s.elements)[0 := v][0] != Values(s.elements)[0];
    }
  }

  /** Metadata is not settled right after an update and never after a removal, though the reader has caught up. */
  lemma LastWriteUnsettled<E>(s: System<E>, step: Step<E>)
    requires Basic(s) && Enabled(s, step) && step.Write? && !(step.op.Clear? && s.elements == [])
    ensures var s' := Execute(s, step); !Settled(s'.metadata, s'.now)
    ensures step.op.PopFront? || step.op.Remove? ==> forall now :: !Settled(Execute(s, step).metadata, now)
  {
    MetadataRewritten(s.elements, s.metadata, step.op, step.ids, step.times, s.now);
  }
}
