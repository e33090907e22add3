/**
 The Large Set protocol. The writer keeps two indexes of the same elements, one by element and one by value; the reader
 folds the samples into a table keyed by element ID. The results are that the indexes agree over every run and that a
 reader that catches up sees exactly the writer's values.
 */
module LargeSetModel {
  import opened Common

  datatype SetElement<E> = SetElement(setID: Guid, elementID: Guid, element: E, elementTimestamp: DateTime)

  datatype LargeSetMetadata = LargeSetMetadata(
    setID: Guid,
    size: nat,
    updateElementID: Guid,
    updateElementTimestamp: Option<DateTime>)

  datatype LargeSetStatus = ValidSet | EmptySet | InvalidSet | StaleMetadata

  datatype LargeSetResult<E> = LargeSetResult(status: LargeSetStatus, contents: Option<set<E>>)

  type Sample<E> = SampleEnvelope<SetElement<E>>
  type Table<E> = map<Guid, SetElement<E>>

  /** The writer: `elements` and `table` are its two indexes. */
  datatype SetState<E> = SetState(
    elements: set<SetElement<E>>,
    table: map<E, SetElement<E>>,
    metadata: LargeSetMetadata)

  function UpdateMetadata<E>(m: LargeSetMetadata, e: SetElement<E>, dispose: bool, size: nat): LargeSetMetadata {
    m.(updateElementID := e.elementID,
       updateElementTimestamp := if dispose then None else Some(e.elementTimestamp),
       size := size)
  }

  // ----- The writer's operations

  datatype SetOp<E> =
    | Insert(value: E, id: Guid)
    | Update(prev: E, value: E)
    | Remove(value: E)

  ghost predicate Admits<E>(s: SetState<E>, op: SetOp<E>) {
    match op
    case Insert(value, _) => value !in s.table
    case Update(prev, _) => prev in s.table
    case Remove(value) => value in s.table
  }

  /** The element the operation publishes. */
  ghost function Touched<E>(s: SetState<E>, op: SetOp<E>, t: DateTime): SetElement<E>
    requires Admits(s, op)
  {
    match op
    case Insert(value, id) => SetElement(s.metadata.setID, id, value, t)
    case Update(prev, value) => s.table[prev].(element := value, elementTimestamp := t)
    case Remove(value) => s.table[value]
  }

  ghost function Published<E>(s: SetState<E>, op: SetOp<E>, t: DateTime): Sample<E>
    requires Admits(s, op)
  {
    SampleEnvelope(Touched(s, op, t), if op.Remove? then Disposed else ReadSuccess)
  }

  /** Inserting into the value index keeps an entry that is already there. */
  ghost function Perform<E>(s: SetState<E>, op: SetOp<E>, t: DateTime): SetState<E>
    requires Admits(s, op)
  {
    var e := Touched(s, op, t);
    match op
    case Insert(value, id) =>
      SetState(s.elements + {e}, s.table[value := e], UpdateMetadata(s.metadata, e, false, |s.elements + {e}|))
    case Update(prev, value) =>
      var elements := s.elements - {s.table[prev]} + {e};
      var table := s.table - {prev};
      SetState(elements, if value in table then table else table[value := e],
               UpdateMetadata(s.metadata, e, false, |elements|))
    case Remove(value) =>
      SetState(s.elements - {e}, s.table - {value}, UpdateMetadata(s.metadata, e, true, |s.elements - {e}|))
  }

  /** The two indexes hold the same elements, each under its own value, told apart by their IDs. */
  ghost predicate Agrees<E>(s: SetState<E>) {
    var agrees :=
      && (forall v :: v in s.table ==> s.table[v].element == v && s.table[v] in s.elements)
      && (forall e :: e in s.elements ==> e.element in s.table && s.table[e.element] == e)
      && (forall e, f :: e in s.elements && f in s.elements && e.elementID == f.elementID ==> e == f)
      && (forall e :: e in s.elements ==> e.setID == s.metadata.setID)
      && s.metadata.size == |s.elements|;
    agrees
  }

  ghost predicate HasId<E>(s: SetState<E>, id: Guid) { exists e :: e in s.elements && e.elementID == id }

  /** An insertion needs a fresh ID and an update needs a value no other entry holds. */
  ghost predicate Clean<E>(s: SetState<E>, op: SetOp<E>) {
    match op
    case Insert(_, id) => !HasId(s, id)
    case Update(prev, value) => value == prev || value !in s.table
    case Remove(_) => true
  }

  lemma InsertAgreement<E>(s: SetState<E>, op: SetOp<E>, t: DateTime)
    requires Agrees(s) && op.Insert? && Admits(s, op)
    ensures Agrees(Perform(s, op, t)) <==> Clean(s, op)
  {
    var e, s' := Touched(s, op, t), Perform(s, op, t);
    if f :| f in s.elements && f.elementID == op.id {
      assert e in s'.elements && f in s'.elements && e != f;
    } else {
      assert Agrees(s');
    }
  }

  lemma UpdateAgreement<E>(s: SetState<E>, op: SetOp<E>, t: DateTime)
    requires Agrees(s) && op.Update? && Admits(s, op)
    ensures Agrees(Perform(s, op, t)) <==> Clean(s, op)
  {
    var e, s' := Touched(s, op, t), Perform(s, op, t);
    var before := s.table[op.prev];
    assert before in s.elements;
    if !Clean(s, op) {
      assert e in s'.elements && s'.table[op.value] == s.table[op.value];
      assert s.table[op.value] in s.elements;
    } else {
      assert forall f :: f in s.elements && f != before ==> f.elementID != e.elementID && f.element != op.prev;
      assert |s'.elements| == |s.elements|;
      assert Agrees(s');
    }
  }

  /** The indexes stay in agreement exactly when the operation is clean. */
  lemma AgreementExact<E>(s: SetState<E>, op: SetOp<E>, t: DateTime)
    requires Agrees(s) && Admits(s, op)
    ensures Agrees(Perform(s, op, t)) <==> Clean(s, op)
  {
    match op
    case Insert(_, _) => InsertAgreement(s, op, t);
    case Update(_, _) => UpdateAgreement(s, op, t);
    case Remove(value) =>
      var s' := Perform(s, op, t);
      assert forall f :: f in s'.elements ==> f in s.elements && f.element != value;
  }

  /** The state a series of operations leaves and the samples it publishes, unless one of them is not admitted. */
  ghost function PerformAll<E>(s: SetState<E>, ops: seq<SetOp<E>>, times: seq<DateTime>)
    : Option<(SetState<E>, seq<Sample<E>>)>
    requires |ops| == |times|
    decreases |ops|
  {
    if ops == [] then Some((s, []))
    else
      var n := |ops| - 1;
      var before := PerformAll(s, ops[..n], times[..n]);
      if before.Some? && Admits(before.value.0, ops[n]) then
        Some((Perform(before.value.0, ops[n], times[n]),
              before.value.1 + [Published(before.value.0, ops[n], times[n])]))
      else None
  }

  lemma PerformsMore<E>(
    s: SetState<E>, ops: seq<SetOp<E>>, times: seq<DateTime>, mid: SetState<E>, samples: seq<Sample<E>>,
    op: SetOp<E>, t: DateTime)
    requires |ops| == |times| && PerformAll(s, ops, times) == Some((mid, samples)) && Admits(mid, op)
    ensures PerformAll(s, ops + [op], times + [t]) ==
      Some((Perform(mid, op, t), samples + [Published(mid, op, t)]))
  {
    assert (ops + [op])[..|ops|] == ops && (times + [t])[..|ops|] == times;
  }

  // ----- The reader

  function ApplySample<E>(t: Table<E>, sample: Sample<E>, setId: Guid): Table<E> {
    if sample.status == InvalidData || sample.data.setID != setId then t
    else if sample.status == Disposed then t - {sample.data.elementID}
    else t[sample.data.elementID := sample.data]
  }

  function Replay<E>(t: Table<E>, samples: seq<Sample<E>>, setId: Guid): Table<E>
    decreases |samples|
  {
    if samples == [] then t else Replay(ApplySample(t, samples[0], setId), samples[1..], setId)
  }

  lemma {:induction false} ReplayConcat<E>(t: Table<E>, a: seq<Sample<E>>, b: seq<Sample<E>>, setId: Guid)
    ensures Replay(t, a + b, setId) == Replay(Replay(t, a, setId), b, setId)
    decreases |a|
  {
    if a == [] {
      assert a + b == b;
    } else {
      assert (a + b)[1..] == a[1..] + b;
      ReplayConcat(ApplySample(t, a[0], setId), a[1..], b, setId);
    }
  }

  predicate TooNew<E>(e: SetElement<E>, limit: Option<DateTime>) {
    limit.Some? && e.elementTimestamp > limit.value
  }

  ghost function Contents<E>(t: Table<E>): set<E> { set g | g in t :: t[g].element }

  ghost function Generate<E>(t: Table<E>, m: LargeSetMetadata): LargeSetResult<E> {
    if m.size == 0 then LargeSetResult(EmptySet, None)
    else if exists g :: g in t && TooNew(t[g], m.updateElementTimestamp) then LargeSetResult(InvalidSet, None)
    else if |Contents(t)| != m.size then LargeSetResult(InvalidSet, None)
    else LargeSetResult(ValidSet, Some(Contents(t)))
  }

  /**
   The exact meaning of rebuilding a set of non-zero size, for any table whatever: it is valid if and only if nothing in
   the table is newer than the metadata and the distinct values are as many as it announces, and then has those values.
   */
  lemma GenerateExact<E>(t: Table<E>, m: LargeSetMetadata, values: set<E>)
    requires m.size != 0
    requires forall v :: v in values <==> exists g :: g in t && t[g].element == v
    ensures var r, limit := Generate(t, m), m.updateElementTimestamp;
      && (r.status == ValidSet <==>
            && (limit.Some? ==> forall g :: g in t ==> t[g].elementTimestamp <= limit.value)
            && |values| == m.size)
      && (r.status == ValidSet ==> r.contents == Some(values))
      && (r.status != ValidSet ==> r == LargeSetResult(InvalidSet, None))
  {
    SameSet(values, Contents(t));
  }

  /** The metadata names the element that was published or disposed last, with its time if it was published. */
  lemma MetadataNamesLast<E>(s: SetState<E>, op: SetOp<E>, t: DateTime)
    requires Admits(s, op)
    ensures var sample, m := Published(s, op, t), Perform(s, op, t).metadata;
      && m.setID == s.metadata.setID && m.updateElementID == sample.data.elementID
      && m.updateElementTimestamp == (if sample.status == Disposed then None else Some(sample.data.elementTimestamp))
      && m.size == |Perform(s, op, t).elements|
  {
  }

  /** The table holds exactly the writer's elements. */
  ghost predicate Mirrors<E>(t: Table<E>, s: SetState<E>) { MirrorsElements(t, s.elements) }

  ghost predicate MirrorsElements<E>(t: Table<E>, elements: set<SetElement<E>>) {
    && (forall e :: e in elements ==> e.elementID in t && t[e.elementID] == e)
    && (forall g :: g in t ==> t[g].elementID == g && t[g] in elements)
  }

  /** No element is newer than the update the metadata announces. */
  ghost predicate Announced<E>(s: SetState<E>) {
    forall e :: e in s.elements ==> !TooNew(e, s.metadata.updateElementTimestamp)
  }

  lemma {:induction false} SameSize<E>(elements: set<SetElement<E>>, values: set<E>)
    requires values == set e | e in elements :: e.element
    requires forall e, f :: e in elements && f in elements && e.element == f.element ==> e == f
    ensures |values| == |elements|
    decreases |elements|
  {
    if e :| e in elements {
      assert values - {e.element} == set f | f in elements - {e} :: f.element;
      SameSize(elements - {e}, values - {e.element});
    } else {
      assert values == {};
    }
  }

  lemma ReadsBack<E>(t: Table<E>, s: SetState<E>)
    requires Agrees(s) && Mirrors(t, s) && Announced(s)
    ensures Generate(t, s.metadata) ==
      if s.table == map[] then LargeSetResult(EmptySet, None) else LargeSetResult(ValidSet, Some(s.table.Keys))
  {
    assert Contents(t) == s.table.Keys == set e | e in s.elements :: e.element by {
      forall v | v in s.table ensures v in Contents(t) {
        assert t[s.table[v].elementID].element == v;
      }
      forall v | v in s.table ensures v in set e | e in s.elements :: e.element {
        assert s.table[v] in s.elements;
      }
    }
    SameSize(s.elements, s.table.Keys);
    assert s.table == map[] <==> s.table.Keys == {};
  }

  // ----- Runs

  datatype System<E> = System(
    writer: SetState<E>,
    now: DateTime,
    pending: seq<Sample<E>>,
    table: Table<E>,
    latest: LargeSetMetadata)

  datatype Step<E> =
    | Write(op: SetOp<E>, time: DateTime)
    | Deliver(count: nat)
    | ReadMetadata

  ghost predicate Enabled<E>(s: System<E>, step: Step<E>) {
    match step
    case Write(op, time) => Admits(s.writer, op) && Clean(s.writer, op) && s.now <= time
    case Deliver(count) => count <= |s.pending|
    case ReadMetadata => true
  }

  predicate Stale(m: LargeSetMetadata, latest: LargeSetMetadata) {
    && m.updateElementTimestamp.Some? && latest.updateElementTimestamp.Some?
    && m.updateElementTimestamp.value < latest.updateElementTimestamp.value
  }

  /** The metadata a reader keeps of what it had and what came. */
  function Newer(m: LargeSetMetadata, latest: LargeSetMetadata): LargeSetMetadata {
    if Stale(m, latest) then latest else m
  }

  function Told(latest: LargeSetMetadata, ms: seq<LargeSetMetadata>): LargeSetMetadata {
    if ms == [] then latest else Newer(ms[|ms| - 1], Told(latest, ms[..|ms| - 1]))
  }

  /** As long as all metadata is dated, the reader keeps what is newest, in whatever order it comes. */
  lemma {:induction false} NewestIsKept(latest: LargeSetMetadata, ms: seq<LargeSetMetadata>)
    requires latest.updateElementTimestamp.Some?
    requires forall i :: 0 <= i < |ms| ==> ms[i].updateElementTimestamp.Some?
    ensures var kept := Told(latest, ms);
      && (kept == latest || kept in ms) && kept.updateElementTimestamp.Some?
      && kept.updateElementTimestamp.value >= latest.updateElementTimestamp.value
      && forall i :: 0 <= i < |ms| ==> kept.updateElementTimestamp.value >= ms[i].updateElementTimestamp.value
    decreases |ms|
  {
    if ms != [] {
      var n := |ms| - 1;
      NewestIsKept(latest, ms[..n]);
      assert ms == ms[..n] + [ms[n]];
    }
  }

  ghost function Execute<E>(s: System<E>, step: Step<E>): System<E>
    requires Enabled(s, step)
  {
    match step
    case Write(op, time) =>
      s.(writer := Perform(s.writer, op, time), now := time, pending := s.pending + [Published(s.writer, op, time)])
    case Deliver(count) =>
      s.(pending := s.pending[count..], table := Replay(s.table, s.pending[..count], s.writer.metadata.setID))
    case ReadMetadata => s.(latest := Newer(s.writer.metadata, s.latest))
  }

  /** What the reader returns when it takes the writer's metadata. */
  ghost function ReadResult<E>(s: System<E>): LargeSetResult<E> {
    if Stale(s.writer.metadata, s.latest) then LargeSetResult(StaleMetadata, None)
    else Generate(s.table, s.writer.metadata)
  }

  ghost predicate Runs<E>(s: System<E>, steps: seq<Step<E>>, s': System<E>)
    decreases |steps|
  {
    if steps == [] then s' == s
    else Enabled(s, steps[0]) && Runs(Execute(s, steps[0]), steps[1..], s')
  }

  ghost function Reference<E>(c: set<E>, op: SetOp<E>): set<E> {
    match op
    case Insert(value, _) => c + {value}
    case Update(prev, value) => c - {prev} + {value}
    case Remove(value) => c - {value}
  }

  ghost function ReferenceRun<E>(c: set<E>, steps: seq<Step<E>>): set<E>
    decreases |steps|
  {
    if steps == [] then c
    else ReferenceRun(if steps[0].Write? then Reference(c, steps[0].op) else c, steps[1..])
  }

  ghost predicate Consistent<E>(s: System<E>) {
    var consistent :=
      && Agrees(s.writer) && Announced(s.writer)
      && (forall e :: e in s.writer.elements ==> e.elementTimestamp <= s.now)
      && !TooLate(s.writer.metadata, s.now) && !TooLate(s.latest, s.now)
      && !Stale(s.writer.metadata, s.latest)
      && Mirrors(Replay(s.table, s.pending, s.writer.metadata.setID), s.writer);
    consistent
  }

  predicate TooLate(m: LargeSetMetadata, now: DateTime) {
    m.updateElementTimestamp.Some? && m.updateElementTimestamp.value > now
  }

  lemma WriteKeepsMirror<E>(t: Table<E>, s: SetState<E>, op: SetOp<E>, time: DateTime)
    requires Agrees(s) && Mirrors(t, s) && Admits(s, op) && Clean(s, op)
    ensures Mirrors(ApplySample(t, Published(s, op, time), s.metadata.setID), Perform(s, op, time))
  {
    match op
    case Insert(_, _) => InsertKeepsMirror(t, s, op, time);
    case Update(_, _) => UpdateKeepsMirror(t, s, op, time);
    case Remove(_) => RemoveKeepsMirror(t, s, op, time);
  }

  lemma InsertKeepsMirror<E>(t: Table<E>, s: SetState<E>, op: SetOp<E>, time: DateTime)
    requires Agrees(s) && Mirrors(t, s) && op.Insert? && Admits(s, op) && Clean(s, op)
    ensures Mirrors(ApplySample(t, Published(s, op, time), s.metadata.setID), Perform(s, op, time))
  {
    var e := Touched(s, op, time);
    if op.id in t { assert HasId(s, op.id); }
    MirrorsOneMore(t, s.elements, e);
  }

  lemma MirrorsOneMore<E>(t: Table<E>, elements: set<SetElement<E>>, e: SetElement<E>)
    requires MirrorsElements(t, elements) && e.elementID !in t
    ensures MirrorsElements(t[e.elementID := e], elements + {e})
  {
  }

  lemma RemoveKeepsMirror<E>(t: Table<E>, s: SetState<E>, op: SetOp<E>, time: DateTime)
    requires Agrees(s) && Mirrors(t, s) && op.Remove? && Admits(s, op)
    ensures Mirrors(ApplySample(t, Published(s, op, time), s.metadata.setID), Perform(s, op, time))
  {
    assert forall f :: f in s.elements && f.elementID == s.table[op.value].elementID ==> f == s.table[op.value];
  }

  lemma UpdateKeepsMirror<E>(t: Table<E>, s: SetState<E>, op: SetOp<E>, time: DateTime)
    requires Agrees(s) && Mirrors(t, s) && op.Update? && Admits(s, op) && Clean(s, op)
    ensures Mirrors(ApplySample(t, Published(s, op, time), s.metadata.setID), Perform(s, op, time))
  {
    var e, before := Touched(s, op, time), s.table[op.prev];
    assert before in s.elements && before.elementID == e.elementID;
    assert forall f :: f in s.elements && f.elementID == e.elementID ==> f == before;
  }

  lemma WriteStamps<E>(s: SetState<E>, op: SetOp<E>, now: DateTime, time: DateTime)
    requires Agrees(s) && Admits(s, op) && now <= time
    requires forall e :: e in s.elements ==> e.elementTimestamp <= now
    ensures var s' := Perform(s, op, time);
      && (forall e :: e in s'.elements ==> e.elementTimestamp <= time)
      && s'.metadata.updateElementTimestamp == (if op.Remove? then None else Some(time))
      && s'.metadata.setID == s.metadata.setID
  {
  }

  lemma WriteKeepsConsistent<E>(s: System<E>, step: Step<E>)
    requires Consistent(s) && Enabled(s, step) && step.Write?
    ensures Consistent(Execute(s, step))
  {
    var id, op, time := s.writer.metadata.setID, step.op, step.time;
    AgreementExact(s.writer, op, time);
    WriteStamps(s.writer, op, s.now, time);
    WriteKeepsMirror(Replay(s.table, s.pending, id), s.writer, op, time);
    var sample := Published(s.writer, op, time);
    ReplayConcat(s.table, s.pending, [sample], id);
    assert [sample][1..] == [];
  }

  lemma StepKeepsConsistent<E>(s: System<E>, step: Step<E>)
    requires Consistent(s) && Enabled(s, step)
    ensures Consistent(Execute(s, step))
  {
    var id := s.writer.metadata.setID;
    match step
    case Write(op, time) => WriteKeepsConsistent(s, step);
    case Deliver(count) =>
      ReplayConcat(s.table, s.pending[..count], s.pending[count..], id);
      assert s.pending == s.pending[..count] + s.pending[count..];
    case ReadMetadata =>
  }

  lemma StepFollowsReference<E>(s: System<E>, step: Step<E>)
    requires Consistent(s) && Enabled(s, step)
    ensures Execute(s, step).writer.table.Keys ==
      if step.Write? then Reference(s.writer.table.Keys, step.op) else s.writer.table.Keys
  {
  }

  ghost predicate Initial<E>(s: System<E>) {
    && s.writer == SetState({}, map[], LargeSetMetadata(s.writer.metadata.setID, 0, NIL_GUID, None))
    && s.pending == [] && s.table == map[] && s.latest == s.writer.metadata
  }

  lemma {:induction false} RunsStayConsistent<E>(s: System<E>, steps: seq<Step<E>>, s': System<E>)
    requires Consistent(s) && Runs(s, steps, s')
    ensures Consistent(s') && s'.writer.table.Keys == ReferenceRun(s.writer.table.Keys, steps)
    decreases |steps|
  {
    if steps != [] {
      StepKeepsConsistent(s, steps[0]);
      StepFollowsReference(s, steps[0]);
      RunsStayConsistent(Execute(s, steps[0]), steps[1..], s');
    }
  }

  lemma InitialIsConsistent<E>(s: System<E>)
    requires Initial(s)
    ensures Consistent(s)
  {
  }

  /** A reader with nothing left to take reads the writer's values. */
  lemma CaughtUpRead<E>(s: System<E>)
    requires Consistent(s) && s.pending == []
    ensures var c := s.writer.table.Keys;
      ReadResult(s) == if c == {} then LargeSetResult(EmptySet, None) else LargeSetResult(ValidSet, Some(c))
  {
    ReadsBack(s.table, s.writer);
    assert s.writer.table == map[] <==> s.writer.table.Keys == {};
  }

  /** After any run, the indexes agree and a reader with nothing left to take reads the set the operations describe. */
  lemma SetRoundTrip<E>(s: System<E>, steps: seq<Step<E>>, s': System<E>)
    requires Initial(s) && Runs(s, steps, s')
    ensures Agrees(s'.writer)
    ensures s'.pending == [] ==> var c := ReferenceRun({}, steps);
      ReadResult(s') == if c == {} then LargeSetResult(EmptySet, None) else LargeSetResult(ValidSet, Some(c))
  {
    InitialIsConsistent(s);
    RunsStayConsistent(s, steps, s');
    if s'.pending == [] { CaughtUpRead(s'); }
  }

  // ----- Batches

  /** Every operation of a batch is clean where it is performed. */
  ghost predicate AllClean<E>(s: SetState<E>, ops: seq<SetOp<E>>, times: seq<DateTime>)
    requires |ops| == |times|
    decreases |ops|
  {
    if ops == [] then true
    else
      var n := |ops| - 1;
      var before := PerformAll(s, ops[..n], times[..n]);
      var clean := AllClean(s, ops[..n], times[..n]) && (before.Some? ==> Clean(before.value.0, ops[n]));
      clean
  }

  /** The timestamps go forward between two times. */
  ghost predicate Dated(times: seq<DateTime>, first: DateTime, last: DateTime) {
    var dated :=
      && (forall i :: 0 <= i < |times| ==> first <= times[i] <= last)
      && (forall i, j :: 0 <= i < j < |times| ==> times[i] <= times[j]);
    dated
  }

  /** A batch keeps the indexes in agreement if all of it is clean. */
  lemma {:induction false} BatchKeepsAgreement<E>(s: SetState<E>, ops: seq<SetOp<E>>, times: seq<DateTime>)
    requires |ops| == |times| && Agrees(s) && AllClean(s, ops, times) && PerformAll(s, ops, times).Some?
    ensures Agrees(PerformAll(s, ops, times).value.0)
    decreases |ops|
  {
    if ops != [] {
      var n := |ops| - 1;
      BatchKeepsAgreement(s, ops[..n], times[..n]);
      AgreementExact(PerformAll(s, ops[..n], times[..n]).value.0, ops[n], times[n]);
    }
  }

  ghost predicate DistinctInserts<E>(s: SetState<E>, ops: seq<SetOp<E>>) {
    && (forall i :: 0 <= i < |ops| ==> ops[i].Insert? && !HasId(s, ops[i].id))
    && (forall i, j :: 0 <= i < j < |ops| ==> ops[i].id != ops[j].id)
  }

  /** Insertions under distinct unused IDs are clean, and bring in no other IDs. */
  lemma {:induction false} DistinctInsertsAreClean<E>(s: SetState<E>, ops: seq<SetOp<E>>, times: seq<DateTime>)
    requires |ops| == |times| && DistinctInserts(s, ops)
    ensures AllClean(s, ops, times)
    ensures var r := PerformAll(s, ops, times);
      r.Some? ==> forall e :: e in r.value.0.elements ==>
        e in s.elements || exists i :: 0 <= i < |ops| && ops[i].id == e.elementID
    decreases |ops|
  {
    if ops != [] {
      var n := |ops| - 1;
      DistinctInsertsAreClean(s, ops[..n], times[..n]);
      var before := PerformAll(s, ops[..n], times[..n]);
      assert forall i :: 0 <= i < n ==> ops[..n][i] == ops[i];
      if before.Some? {
        forall e | e in before.value.0.elements ensures e.elementID != ops[n].id {
          if e in s.elements { assert HasId(s, e.elementID); }
        }
      }
    }
  }

  lemma {:induction false} RemovalsAreClean<E>(s: SetState<E>, ops: seq<SetOp<E>>, times: seq<DateTime>)
    requires |ops| == |times| && forall i :: 0 <= i < |ops| ==> ops[i].Remove?
    ensures AllClean(s, ops, times)
    decreases |ops|
  {
    if ops != [] { RemovalsAreClean(s, ops[..|ops| - 1], times[..|ops| - 1]); }
  }

  lemma RemovalsKeepAgreement<E>(s: SetState<E>, ops: seq<SetOp<E>>, times: seq<DateTime>)
    requires |ops| == |times| && (forall i :: 0 <= i < |ops| ==> ops[i].Remove?) && PerformAll(s, ops, times).Some?
    ensures AllClean(s, ops, times) && (Agrees(s) ==> Agrees(PerformAll(s, ops, times).value.0))
  {
    RemovalsAreClean(s, ops, times);
    if Agrees(s) { BatchKeepsAgreement(s, ops, times); }
  }

  function Writes<E>(ops: seq<SetOp<E>>, times: seq<DateTime>): seq<Step<E>>
    requires |ops| == |times|
  {
    seq(|ops|, i requires 0 <= i < |ops| => Write(ops[i], times[i]))
  }

  lemma {:induction false} RunsOn<E>(s: System<E>, steps: seq<Step<E>>, mid: System<E>, step: Step<E>)
    requires Runs(s, steps, mid) && Enabled(mid, step)
    ensures Runs(s, steps + [step], Execute(mid, step))
    decreases |steps|
  {
    if steps == [] {
      assert Runs(Execute(s, step), [], Execute(mid, step));
      assert ([] + [step])[1..] == [];
    } else {
      RunsOn(Execute(s, steps[0]), steps[1..], mid, step);
      assert (steps + [step])[1..] == steps[1..] + [step];
    }
  }

  /** The system after a batch of writes. */
  ghost function AfterBatch<E>(s: System<E>, w: SetState<E>, times: seq<DateTime>, samples: seq<Sample<E>>): System<E> {
    s.(writer := w, now := if times == [] then s.now else times[|times| - 1], pending := s.pending + samples)
  }

  lemma BatchGoesOn<E>(s: System<E>, ops: seq<SetOp<E>>, times: seq<DateTime>, last: DateTime)
    requires |ops| == |times| > 0 && AllClean(s.writer, ops, times) && Dated(times, s.now, last)
    requires PerformAll(s.writer, ops, times).Some?
    ensures var n, r := |ops| - 1, PerformAll(s.writer, ops, times).value;
      var before := PerformAll(s.writer, ops[..n], times[..n]).value;
      var mid, step := AfterBatch(s, before.0, times[..n], before.1), Write(ops[n], times[n]);
      Enabled(mid, step) && Execute(mid, step) == AfterBatch(s, r.0, times, r.1)
  {
    var n, r := |ops| - 1, PerformAll(s.writer, ops, times).value;
    var before := PerformAll(s.writer, ops[..n], times[..n]).value;
    assert s.pending + r.1 == s.pending + before.1 + [Published(before.0, ops[n], times[n])];
  }

  /** A clean batch with a clock that goes forward is a run of the protocol, write by write. */
  lemma {:induction false} BatchIsRun<E>(s: System<E>, ops: seq<SetOp<E>>, times: seq<DateTime>, last: DateTime)
    requires |ops| == |times| && AllClean(s.writer, ops, times) && Dated(times, s.now, last)
    requires PerformAll(s.writer, ops, times).Some?
    ensures var r := PerformAll(s.writer, ops, times).value;
      Runs(s, Writes(ops, times), AfterBatch(s, r.0, times, r.1))
    decreases |ops|
  {
    if ops == [] {
      assert AfterBatch(s, s.writer, times, []) == s;
    } else {
      var n := |ops| - 1;
      var before := PerformAll(s.writer, ops[..n], times[..n]).value;
      var mid := AfterBatch(s, before.0, times[..n], before.1);
      BatchIsRun(s, ops[..n], times[..n], last);
      BatchGoesOn(s, ops, times, last);
      WritesOn(s, ops, times, mid);
    }
  }

  lemma WritesOn<E>(s: System<E>, ops: seq<SetOp<E>>, times: seq<DateTime>, mid: System<E>)
    requires |ops| == |times| > 0
    requires var n := |ops| - 1;
      Runs(s, Writes(ops[..n], times[..n]), mid) && Enabled(mid, Write(ops[n], times[n]))
    ensures var n := |ops| - 1; Runs(s, Writes(ops, times), Execute(mid, Write(ops[n], times[n])))
  {
    var n := |ops| - 1;
    RunsOn(s, Writes(ops[..n], times[..n]), mid, Write(ops[n], times[n]));
    assert Writes(ops, times) == Writes(ops[..n], times[..n]) + [Write(ops[n], times[n])];
  }
}
