/**
 The conditional report and the payloads it refers to. Each conditional in the report names a payload instance by topic
 and specialization ID; the payload topics are folded into the instances that are alive.
 */
module ReportStore {
  import opened Common

  datatype Conditional = Conditional(conditionalID: Guid, topic: string, specializationID: Guid, timestamp: DateTime)

  datatype Payload = Payload(topic: string, referenceID: Guid, timestamp: DateTime, content: string)

  datatype Key = Key(topic: string, id: Guid)

  function KeyOf(c: Conditional): Key { Key(c.topic, c.specializationID) }

  function PayloadOf(c: Conditional, content: string): Payload {
    Payload(c.topic, c.specializationID, c.timestamp, content)
  }

  type Samples = seq<SampleEnvelope<Payload>>

  /** What one sample does to the instances alive. */
  function Apply(live: map<Key, Payload>, sample: SampleEnvelope<Payload>): map<Key, Payload> {
    var key := Key(sample.data.topic, sample.data.referenceID);
    if sample.status == Disposed then live - {key} else live[key := sample.data]
  }

  function Live(samples: Samples): map<Key, Payload> {
    if samples == [] then map[] else Apply(Live(samples[..|samples| - 1]), samples[|samples| - 1])
  }

  /** The report and the payload samples sent so far. */
  datatype Store = Store(report: set<Conditional>, samples: Samples)

  const EMPTY := Store({}, [])

  function Sent(s: Store, p: Payload): Store { s.(samples := s.samples + [SampleEnvelope(p, ReadSuccess)]) }

  /** The dispose of the instance a conditional refers to; only its key means anything. */
  function Farewell(c: Conditional): SampleEnvelope<Payload> {
    SampleEnvelope(Payload(c.topic, c.specializationID, 0, ""), Disposed)
  }

  function Withdrawn(s: Store, c: Conditional): Store {
    s.(samples := s.samples + [Farewell(c)])
  }

  ghost predicate Has(report: set<Conditional>, id: Guid) { exists c :: c in report && c.conditionalID == id }

  /** The conditional with an ID. */
  ghost function Find(report: set<Conditional>, id: Guid): (c: Conditional)
    requires Has(report, id)
    ensures c in report && c.conditionalID == id
  {
    var c :| c in report && c.conditionalID == id;
    c
  }

  // ---- operations ----

  datatype Operation =
    | Add(topic: string, content: string, specializationID: Guid, conditionalID: Guid)
    | Update(conditionalID: Guid, topic: string, content: string, specializationID: Guid)
    | Upsert(conditionalID: Guid, topic: string, content: string, specializationID: Guid)
    | Delete(conditionalID: Guid)
    | DeleteAll(order: seq<Guid>)

  ghost function Added(s: Store, c: Conditional, content: string): Store {
    Sent(s, PayloadOf(c, content)).(report := s.report + {c})
  }

  /** Puts a new conditional and its payload in the place of another, whose payload is left as it is. */
  ghost function Replaced(s: Store, existing: Conditional, c: Conditional, content: string): Store {
    Sent(s, PayloadOf(c, content)).(report := s.report - {existing} + {c})
  }

  /** Replaces a conditional; the old payload is disposed first unless the new one takes its place. */
  ghost function Updated(s: Store, existing: Conditional, c: Conditional, content: string): Store {
    Replaced(if KeyOf(c) == KeyOf(existing) then s else Withdrawn(s, existing), existing, c, content)
  }

  /** Replaces a conditional; the old payload is disposed after the new one was sent. */
  ghost function Superseded(s: Store, existing: Conditional, c: Conditional, content: string): Store {
    Withdrawn(Sent(s, PayloadOf(c, content)), existing)
      .(report := s.report - {existing} + {c})
  }

  /** Removes a conditional, after disposing its payload unless that fails. */
  ghost function Dropped(s: Store, id: Guid, lost: bool): Store {
    if !Has(s.report, id) then s
    else
      var c := Find(s.report, id);
      (if lost then s else Withdrawn(s, c)).(report := s.report - {c})
  }

  ghost function Removed(s: Store, id: Guid): Store { Dropped(s, id, false) }

  ghost function RemovedInOrder(s: Store, order: seq<Guid>): Store {
    if order == [] then s else Removed(RemovedInOrder(s, order[..|order| - 1]), order[|order| - 1])
  }

  /** Removes conditionals one by one, of whose payloads some are not disposed. */
  ghost function DroppedInOrder(s: Store, order: seq<Guid>, lost: seq<bool>): Store
    requires |order| == |lost|
    decreases |order|
  {
    if order == [] then s
    else
      var n := |order| - 1;
      Dropped(DroppedInOrder(s, order[..n], lost[..n]), order[n], lost[n])
  }

  lemma {:induction false} NoneLost(s: Store, order: seq<Guid>, lost: seq<bool>)
    requires |order| == |lost| && forall i :: 0 <= i < |lost| ==> !lost[i]
    ensures DroppedInOrder(s, order, lost) == RemovedInOrder(s, order)
    decreases |order|
  {
    if order != [] { NoneLost(s, order[..|order| - 1], lost[..|order| - 1]); }
  }

  /** Whether payloads are disposed or not, the conditionals go. */
  lemma {:induction false} DroppedFromReport(s: Store, order: seq<Guid>, lost: seq<bool>)
    requires |order| == |lost| && UniqueIds(s.report)
    ensures var r := DroppedInOrder(s, order, lost).report;
      UniqueIds(r) && forall c :: c in r <==> c in s.report && c.conditionalID !in order
    decreases |order|
  {
    if order != [] {
      var n := |order| - 1;
      DroppedFromReport(s, order[..n], lost[..n]);
      assert order == order[..n] + [order[n]];
    }
  }

  /**
   A payload has been put in force under a conditional. A failure comes before it was sent, or after it was sent and the
   old one disposed if there is one and that did not fail.
   */
  ghost predicate InForce(
    before: Store, c: Conditional, content: string, status: SendStatus, lost: bool, after: Store)
  {
    var sent := Sent(before, PayloadOf(c, content));
    if !Has(before.report, c.conditionalID) then
      if status == SendSuccess then after == Added(before, c, content) else after == before || after == sent
    else
      var existing := Find(before.report, c.conditionalID);
      if status == SendSuccess then
        after == if lost then Replaced(before, existing, c, content) else Superseded(before, existing, c, content)
      else after == before || after == if lost then sent else Withdrawn(sent, existing)
  }

  /** An operation at time t with every send successful. */
  ghost function Perform(s: Store, op: Operation, t: DateTime): Store {
    match op
    case Add(topic, content, spec, id) => Added(s, Conditional(id, topic, spec, t), content)
    case Update(id, topic, content, spec) =>
      if Has(s.report, id) then Updated(s, Find(s.report, id), Conditional(id, topic, spec, t), content) else s
    case Upsert(id, topic, content, spec) =>
      if Has(s.report, id) then Superseded(s, Find(s.report, id), Conditional(id, topic, spec, t), content)
      else Added(s, Conditional(id, topic, spec, t), content)
    case Delete(id) => Removed(s, id)
    case DeleteAll(order) => RemovedInOrder(s, order)
  }

  // ---- referential integrity ----

  ghost predicate UniqueIds(report: set<Conditional>) {
    forall c, d :: c in report && d in report && c.conditionalID == d.conditionalID ==> c == d
  }

  /** Conditionals and instances correspond one to one, with equal timestamps. */
  ghost predicate Corresponds(report: set<Conditional>, live: map<Key, Payload>) {
    && (forall c :: c in report ==> KeyOf(c) in live && live[KeyOf(c)].timestamp == c.timestamp)
    && (forall c, d :: c in report && d in report && KeyOf(c) == KeyOf(d) ==> c == d)
    && (forall k :: k in live ==> exists c :: c in report && KeyOf(c) == k)
  }

  ghost predicate Integrity(s: Store) { UniqueIds(s.report) && Corresponds(s.report, Live(s.samples)) }

  /** A new conditional needs an unused payload key; an update may also keep the one it has. */
  ghost predicate Unused(s: Store, topic: string, spec: Guid) { Key(topic, spec) !in Live(s.samples) }

  ghost predicate Allowed(s: Store, op: Operation) {
    match op
    case Add(topic, _, spec, id) => !Has(s.report, id) && Unused(s, topic, spec)
    case Update(id, topic, _, spec) =>
      Has(s.report, id) ==> KeyOf(Find(s.report, id)) == Key(topic, spec) || Unused(s, topic, spec)
    case Upsert(_, topic, _, spec) => Unused(s, topic, spec)
    case Delete(_) => true
    case DeleteAll(_) => true
  }

  lemma LiveMore(samples: Samples, sample: SampleEnvelope<Payload>)
    ensures Live(samples + [sample]) == Apply(Live(samples), sample)
  {
    assert (samples + [sample])[..|samples|] == samples;
  }

  /** Adding under an unused conditional ID keeps integrity exactly when the payload key is unused. */
  lemma AddExact(s: Store, c: Conditional, content: string)
    requires Integrity(s) && !Has(s.report, c.conditionalID)
    ensures Integrity(Added(s, c, content)) <==> Unused(s, c.topic, c.specializationID)
  {
    var p := PayloadOf(c, content);
    LiveMore(s.samples, SampleEnvelope(p, ReadSuccess));
    var r := Added(s, c, content);
    if KeyOf(c) in Live(s.samples) {
      var d :| d in s.report && KeyOf(d) == KeyOf(c);
      assert d in r.report && c in r.report && c != d;
    }
  }

  lemma RemoveKeepsIntegrity(s: Store, c: Conditional)
    requires Integrity(s) && c in s.report
    ensures Integrity(Withdrawn(s, c).(report := s.report - {c}))
    ensures Live(Withdrawn(s, c).samples) == Live(s.samples) - {KeyOf(c)}
  {
    LiveMore(s.samples, Farewell(c));
  }

  lemma ResendKeepsIntegrity(s: Store, existing: Conditional, c: Conditional, content: string)
    requires Integrity(s) && existing in s.report && c.conditionalID == existing.conditionalID
    requires KeyOf(c) == KeyOf(existing)
    ensures Integrity(Updated(s, existing, c, content))
  {
    LiveMore(s.samples, SampleEnvelope(PayloadOf(c, content), ReadSuccess));
  }

  /** Updating keeps integrity exactly when the payload key stays or is unused. */
  lemma UpdateExact(s: Store, existing: Conditional, c: Conditional, content: string)
    requires Integrity(s) && existing in s.report && c.conditionalID == existing.conditionalID
    ensures Integrity(Updated(s, existing, c, content)) <==>
      KeyOf(c) == KeyOf(existing) || Unused(s, c.topic, c.specializationID)
  {
    if KeyOf(c) == KeyOf(existing) {
      ResendKeepsIntegrity(s, existing, c, content);
    } else {
      var gone := Withdrawn(s, existing).(report := s.report - {existing});
      RemoveKeepsIntegrity(s, existing);
      AddExact(gone, c, content);
      assert Added(gone, c, content) == Updated(s, existing, c, content);
    }
  }

  /** A payload that should have been disposed and was not stays behind without a conditional. */
  lemma NeglectBreaksIntegrity(s: Store, existing: Conditional, c: Conditional, content: string)
    requires Integrity(s) && existing in s.report && KeyOf(c) != KeyOf(existing)
    ensures !Integrity(Replaced(s, existing, c, content))
    ensures !Integrity(s.(report := s.report - {existing}))
  {
    LiveMore(s.samples, SampleEnvelope(PayloadOf(c, content), ReadSuccess));
    var r := Replaced(s, existing, c, content);
    assert KeyOf(existing) in Live(s.samples) && KeyOf(existing) in Live(r.samples);
    assert forall d :: d in r.report ==> d == c || d in s.report;
  }

  lemma SupersedeKeepsIntegrity(s: Store, existing: Conditional, c: Conditional, content: string)
    requires Integrity(s) && existing in s.report && c.conditionalID == existing.conditionalID
    requires Unused(s, c.topic, c.specializationID)
    ensures Integrity(Superseded(s, existing, c, content))
  {
    var p := SampleEnvelope(PayloadOf(c, content), ReadSuccess);
    var d := Farewell(existing);
    LiveMore(s.samples, p);
    LiveMore(s.samples + [p], d);
    assert KeyOf(existing) in Live(s.samples);
  }

  lemma {:induction false} RemovalsKeepIntegrity(s: Store, order: seq<Guid>)
    requires Integrity(s)
    ensures var r := RemovedInOrder(s, order);
      && Integrity(r)
      && (forall c :: c in r.report <==> c in s.report && c.conditionalID !in order)
  {
    if order != [] {
      var n := |order| - 1;
      var before := RemovedInOrder(s, order[..n]);
      RemovalsKeepIntegrity(s, order[..n]);
      assert order == order[..n] + [order[n]];
      if Has(before.report, order[n]) { RemoveKeepsIntegrity(before, Find(before.report, order[n])); }
    }
  }

  lemma PerformKeepsIntegrity(s: Store, op: Operation, t: DateTime)
    requires Integrity(s) && Allowed(s, op)
    ensures Integrity(Perform(s, op, t))
  {
    match op
    case Add(topic, content, spec, id) => AddExact(s, Conditional(id, topic, spec, t), content);
    case Update(id, topic, content, spec) =>
      if Has(s.report, id) { UpdateExact(s, Find(s.report, id), Conditional(id, topic, spec, t), content); }
    case Upsert(id, topic, content, spec) =>
      var c := Conditional(id, topic, spec, t);
      if Has(s.report, id) {
        SupersedeKeepsIntegrity(s, Find(s.report, id), c, content);
      } else {
        AddExact(s, c, content);
      }
    case Delete(id) =>
      if Has(s.report, id) { RemoveKeepsIntegrity(s, Find(s.report, id)); }
    case DeleteAll(order) => RemovalsKeepIntegrity(s, order);
  }

  /** Deleting all the conditionals a report has leaves neither conditionals nor payload instances. */
  lemma DeleteAllLeavesNothing(s: Store, order: seq<Guid>)
    requires Integrity(s) && forall c :: c in s.report ==> c.conditionalID in order
    ensures var r := RemovedInOrder(s, order); r.report == {} && Live(r.samples) == map[]
  {
    RemovalsKeepIntegrity(s, order);
  }

  ghost predicate Runs(s: Store, ops: seq<Operation>, times: seq<DateTime>, r: Store)
    requires |ops| == |times|
    decreases |ops|
  {
    if ops == [] then r == s
    else Allowed(s, ops[0]) && Runs(Perform(s, ops[0], times[0]), ops[1..], times[1..], r)
  }

  /** Over every run of allowed operations, conditionals and payload instances correspond. */
  lemma {:induction false} RunsKeepIntegrity(s: Store, ops: seq<Operation>, times: seq<DateTime>, r: Store)
    requires |ops| == |times| && Integrity(s) && Runs(s, ops, times, r)
    ensures Integrity(r)
    decreases |ops|
  {
    if ops != [] {
      PerformKeepsIntegrity(s, ops[0], times[0]);
      RunsKeepIntegrity(Perform(s, ops[0], times[0]), ops[1..], times[1..], r);
    }
  }

  // ---- calls as steps ----

  /** Every identifier in the report is known to be in use, as the provider keeps it. */
  ghost predicate Known(report: set<Conditional>, issued: set<Guid>) {
    forall c :: c in report ==> c.conditionalID in issued && c.specializationID in issued
  }

  /** The call is one allowed step of a run, after which conditionals and payloads still correspond. */
  ghost predicate IsStep(s: Store, op: Operation, t: DateTime, r: Store) { Runs(s, [op], [t], r) && Integrity(r) }

  /** A specialization ID that was never issued belongs to no payload alive. */
  lemma NewIsUnused(s: Store, issued: set<Guid>, topic: string, spec: Guid)
    requires Integrity(s) && Known(s.report, issued) && spec !in issued
    ensures Unused(s, topic, spec)
  {
    assert forall c :: c in s.report && KeyOf(c) == Key(topic, spec) ==> c.specializationID == spec;
  }

  lemma AllowedIsStep(s: Store, op: Operation, t: DateTime)
    requires Integrity(s) && Allowed(s, op)
    ensures IsStep(s, op, t, Perform(s, op, t))
  {
    PerformKeepsIntegrity(s, op, t);
    assert Runs(Perform(s, op, t), [op][1..], [t][1..], Perform(s, op, t));
  }

  /** A successful AddSpecialization, under a new specialization ID or one that is not in use on its topic. */
  lemma AddIsStep(s: Store, issued: set<Guid>, c: Conditional, content: string)
    requires Integrity(s) && Known(s.report, issued) && c.conditionalID !in issued
    requires c.specializationID !in issued || Unused(s, c.topic, c.specializationID)
    ensures IsStep(s, Add(c.topic, content, c.specializationID, c.conditionalID), c.timestamp, Added(s, c, content))
  {
    if c.specializationID !in issued { NewIsUnused(s, issued, c.topic, c.specializationID); }
    AllowedIsStep(s, Add(c.topic, content, c.specializationID, c.conditionalID), c.timestamp);
  }

  /** A successful UpdateSpecialization that lost no dispose. */
  lemma UpdateIsStep(s: Store, issued: set<Guid>, c: Conditional, content: string)
    requires Integrity(s) && Known(s.report, issued) && Has(s.report, c.conditionalID)
    requires c.specializationID !in issued || Unused(s, c.topic, c.specializationID)
      || KeyOf(c) == KeyOf(Find(s.report, c.conditionalID))
    ensures var existing := Find(s.report, c.conditionalID);
      var room := if KeyOf(c) == KeyOf(existing) then s else Withdrawn(s, existing);
      IsStep(s, Update(c.conditionalID, c.topic, content, c.specializationID), c.timestamp,
             Replaced(room, existing, c, content))
  {
    if c.specializationID !in issued { NewIsUnused(s, issued, c.topic, c.specializationID); }
    AllowedIsStep(s, Update(c.conditionalID, c.topic, content, c.specializationID), c.timestamp);
  }

  /** A successful ResolveAndPublish that lost no dispose. */
  lemma UpsertIsStep(s: Store, issued: set<Guid>, c: Conditional, content: string, r: Store)
    requires Integrity(s) && Known(s.report, issued) && c.specializationID !in issued
    requires InForce(s, c, content, SendSuccess, false, r)
    ensures IsStep(s, Upsert(c.conditionalID, c.topic, content, c.specializationID), c.timestamp, r)
  {
    NewIsUnused(s, issued, c.topic, c.specializationID);
    AllowedIsStep(s, Upsert(c.conditionalID, c.topic, content, c.specializationID), c.timestamp);
  }

  /** Removing one conditional, or all, without losing a dispose. */
  lemma DeletionsAreSteps(s: Store, id: Guid, order: seq<Guid>, lost: seq<bool>, t: DateTime)
    requires Integrity(s) && |order| == |lost| && forall i :: 0 <= i < |lost| ==> !lost[i]
    ensures IsStep(s, Delete(id), t, Dropped(s, id, false))
    ensures IsStep(s, DeleteAll(order), t, DroppedInOrder(s, order, lost))
  {
    AllowedIsStep(s, Delete(id), t);
    AllowedIsStep(s, DeleteAll(order), t);
    NoneLost(s, order, lost);
  }

  // ---- the reader's cache of one topic ----

  function OfTopic(samples: Samples, topic: string): Samples {
    if samples == [] then []
    else
      var n := |samples| - 1;
      OfTopic(samples[..n], topic) + if samples[n].data.topic == topic then [samples[n]] else []
  }

  function ApplyToLookup(lookup: map<Guid, Payload>, sample: SampleEnvelope<Payload>): map<Guid, Payload> {
    if sample.status == Disposed then lookup - {sample.data.referenceID}
    else lookup[sample.data.referenceID := sample.data]
  }

  /** The lookup after some samples of the topic. */
  function Lookup(samples: Samples): map<Guid, Payload> {
    if samples == [] then map[] else ApplyToLookup(Lookup(samples[..|samples| - 1]), samples[|samples| - 1])
  }

  function Resolve(lookup: map<Guid, Payload>, c: Conditional): Option<Payload> {
    if c.specializationID in lookup && lookup[c.specializationID].timestamp == c.timestamp
    then Some(lookup[c.specializationID]) else None
  }

  lemma LookupMore(samples: Samples, sample: SampleEnvelope<Payload>)
    ensures Lookup(samples + [sample]) == ApplyToLookup(Lookup(samples), sample)
  {
    assert (samples + [sample])[..|samples|] == samples;
  }

  lemma {:induction false} LookupIsLive(samples: Samples, topic: string, id: Guid)
    ensures var lookup, live := Lookup(OfTopic(samples, topic)), Live(samples);
      && (id in lookup <==> Key(topic, id) in live)
      && (id in lookup ==> lookup[id] == live[Key(topic, id)])
  {
    if samples != [] {
      var n := |samples| - 1;
      LookupIsLive(samples[..n], topic, id);
      var before := OfTopic(samples[..n], topic);
      if samples[n].data.topic == topic {
        assert OfTopic(samples, topic) == before + [samples[n]];
        LookupMore(before, samples[n]);
      } else {
        assert OfTopic(samples, topic) == before;
      }
    }
  }

  /**
   A cache that has taken all samples of a topic resolves a conditional if and only if its payload instance is alive
   with the conditional's timestamp, and then to that.
   */
  lemma ResolveExact(samples: Samples, c: Conditional)
    ensures var live, p := Live(samples), Resolve(Lookup(OfTopic(samples, c.topic)), c);
      && (p.Some? <==> KeyOf(c) in live && live[KeyOf(c)].timestamp == c.timestamp)
      && (p.Some? ==> p.value == live[KeyOf(c)])
  {
    LookupIsLive(samples, c.topic, c.specializationID);
  }

  /** The live payloads with that of a conditional among them. */
  ghost function With(live: map<Key, Payload>, c: Conditional, content: string): map<Key, Payload> {
    live[KeyOf(c) := Payload(c.topic, c.specializationID, c.timestamp, content)]
  }

  /** What was sent for a conditional that was added is its live payload. */
  lemma AddedIsLive(s: Store, c: Conditional, content: string)
    ensures Live(Added(s, c, content).samples) == With(Live(s.samples), c, content)
  {
    LiveMore(s.samples, SampleEnvelope(PayloadOf(c, content), ReadSuccess));
  }

  /** So is what was sent for one that was updated, and the old payload is gone. */
  lemma UpdatedIsLive(s: Store, existing: Conditional, c: Conditional, content: string)
    ensures Live(Updated(s, existing, c, content).samples) == With(Live(s.samples) - {KeyOf(existing)}, c, content)
  {
    var p := SampleEnvelope(PayloadOf(c, content), ReadSuccess);
    LiveMore(s.samples, Farewell(existing));
    if KeyOf(c) == KeyOf(existing) { LiveMore(s.samples, p); } else { LiveMore(s.samples + [Farewell(existing)], p); }
  }

  /** And so is what superseded another. */
  lemma SupersededIsLive(s: Store, existing: Conditional, c: Conditional, content: string)
    requires KeyOf(c) != KeyOf(existing)
    ensures Live(Superseded(s, existing, c, content).samples) == With(Live(s.samples) - {KeyOf(existing)}, c, content)
  {
    var p := SampleEnvelope(PayloadOf(c, content), ReadSuccess);
    LiveMore(s.samples, p);
    LiveMore(s.samples + [p], Farewell(existing));
  }

  /** After any run, a cache that has taken all samples of a topic resolves every conditional of that topic. */
  lemma EveryConditionalResolves(ops: seq<Operation>, times: seq<DateTime>, r: Store, c: Conditional)
    requires |ops| == |times| && Runs(EMPTY, ops, times, r) && c in r.report
    ensures var p, live := Resolve(Lookup(OfTopic(r.samples, c.topic)), c), Live(r.samples);
      p.Some? && KeyOf(c) in live && live[KeyOf(c)] == p.value && p.value.timestamp == c.timestamp
  {
    RunsKeepIntegrity(EMPTY, ops, times, r);
    LookupIsLive(r.samples, c.topic, c.specializationID);
  }
}
