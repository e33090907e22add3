/** The conditional report's provider, the operations other providers make of it, and the readers' payload cache. */
module ConditionalReporting {
  import opened Common
  import opened Bus
  import opened LargeSetModel
  import opened LargeSetObjects
  import opened ReportStore
  import CommandModel

  // ---- the payload cache of one topic ----

  class SpecializationCache {
    /** Samples the reader still holds. */
    var reader: Samples
    var lookup: map<Guid, Payload>
    ghost var taken: Samples

    constructor ()
      ensures Valid() && taken == [] && reader == []
    {
      reader, lookup, taken := [], map[], [];
    }

    ghost predicate Valid()
      reads this
    {
      lookup == Lookup(taken)
    }

    /** Takes samples in until there are none or reading fails. */
    method Update()
      requires Valid()
      modifies this
      ensures Valid()
      ensures var n := Ready(old(reader));
        taken == old(taken) + old(reader)[..n] && reader == old(reader)[if n < |old(reader)| then n + 1 else n..]
    {
      ghost var start, n: nat := reader, 0;
      var reading := true;
      while reading && |reader| > 0
        invariant Valid() && n <= |start| && taken == old(taken) + start[..n]
        invariant Ready(start) == if reading then n + Ready(reader) else n
        invariant if reading then reader == start[n..] else n < |start| && reader == start[n + 1..]
        decreases |reader|
      {
        var sample := reader[0];
        reader := reader[1..];
        if sample.status == NoData || sample.status == ReadError {
          reading := false;
        } else {
          assert start[..n + 1] == start[..n] + [sample];
          LookupMore(taken, sample);
          lookup := ApplyToLookup(lookup, sample);
          taken := taken + [sample];
          n := n + 1;
        }
      }
    }

    method GetSpecialization(c: Conditional) returns (payload: Option<Payload>)
      requires Valid()
      modifies this
      ensures Valid() && taken == old(taken) + old(reader)[..Ready(old(reader))]
      ensures payload == Resolve(Lookup(taken), c)
    {
      Update();
      payload := if c.specializationID in lookup && lookup[c.specializationID].timestamp == c.timestamp
        then Some(lookup[c.specializationID]) else None;
    }
  }

  /** How many samples a reader returns before it reports that there are none or that reading failed. */
  function Ready(samples: Samples): (n: nat)
    ensures n <= |samples|
  {
    if samples == [] || samples[0].status == NoData || samples[0].status == ReadError then 0
    else 1 + Ready(samples[1..])
  }

  lemma {:induction false} ReadyExact(samples: Samples)
    ensures var n := Ready(samples);
      && (n < |samples| ==> samples[n].status in {NoData, ReadError})
      && forall i :: 0 <= i < n ==> samples[i].status !in {NoData, ReadError}
    decreases |samples|
  {
    if samples != [] { ReadyExact(samples[1..]); }
  }

  // ---- the report ----

  /** A report whose indexes agree, whose element IDs were issued, and whose conditional IDs are unique. */
  ghost predicate Fit(s: SetState<Conditional>, issued: set<Guid>) {
    var fit := Agrees(s) && UniqueIds(s.table.Keys) && forall e :: e in s.elements ==> e.elementID in issued;
    fit
  }

  lemma InsertFits(s: SetState<Conditional>, issued: set<Guid>, c: Conditional, id: Guid, t: DateTime, more: set<Guid>)
    requires Fit(s, issued) && !Has(s.table.Keys, c.conditionalID) && c !in s.table
    requires issued <= more && id in more && id !in issued
    ensures var r := LargeSetModel.Perform(s, SetOp.Insert(c, id), t);
      Fit(r, more) && r.table.Keys == s.table.Keys + {c}
  {
    AgreementExact(s, SetOp.Insert(c, id), t);
  }

  lemma UpdateFits(s: SetState<Conditional>, issued: set<Guid>, c: Conditional, t: DateTime)
    requires Fit(s, issued) && Has(s.table.Keys, c.conditionalID)
    ensures var prev := Find(s.table.Keys, c.conditionalID);
      var r := LargeSetModel.Perform(s, SetOp.Update(prev, c), t);
      Fit(r, issued) && r.table.Keys == s.table.Keys - {prev} + {c}
  {
    var prev := Find(s.table.Keys, c.conditionalID);
    AgreementExact(s, SetOp.Update(prev, c), t);
    assert s.table[prev] in s.elements;
  }

  lemma RemoveFits(s: SetState<Conditional>, issued: set<Guid>, c: Conditional)
    requires Fit(s, issued) && c in s.table
    ensures var r := LargeSetModel.Perform(s, SetOp.Remove(c), 0); Fit(r, issued) && r.table.Keys == s.table.Keys - {c}
  {
    AgreementExact(s, SetOp.Remove(c), 0);
  }

  /** Changing one conditional of the report, whose identifiers are known to be in use. */
  lemma KnownAfter(
    report: set<Conditional>, issued: set<Guid>, c: Conditional, after: set<Conditional>, more: set<Guid>)
    requires Known(report, issued) && issued <= more && after <= report + {c}
    requires c.conditionalID in more && c.specializationID in more
    ensures Known(after, more)
  {
  }

  class ConditionalReportProvider {
    const report: LargeSetWriter<Conditional>
    const payloads: Participant<Payload>
    /** Announces the report by the metadata of its set. */
    const reports: Participant<LargeSetMetadata>

    constructor (
      sender: Participant<SetElement<Conditional>>, payloads: Participant<Payload>,
      reports: Participant<LargeSetMetadata>)
      requires payloads.published == []
      modifies sender
      ensures Valid() && State() == EMPTY && this.payloads == payloads && this.reports == reports
      ensures fresh(report) && report.sender == sender
    {
      this.payloads, this.reports := payloads, reports;
      report := new LargeSetWriter<Conditional>(sender);
    }

    /** The report is fit, and the identifiers in it are known to be in use. */
    ghost predicate Valid()
      reads this, report, report.sender, payloads
    {
      var valid :=
        report.Valid() && Fit(report.State(), report.sender.issued) && Known(report.elementTable.Keys, payloads.issued);
      valid
    }

    ghost function State(): Store
      reads this, report, payloads
    {
      Store(report.elementTable.Keys, payloads.published)
    }

    /** Looks for the conditional with an ID among the report's elements. */
    method GetConditionalById(id: Guid) returns (found: Option<Conditional>)
      requires Valid()
      ensures found.Some? <==> Has(report.elementTable.Keys, id)
      ensures found.Some? ==> found.value in report.elementTable && found.value == Find(report.elementTable.Keys, id)
    {
      found := None;
      if e :| e in report.elements && e.element.conditionalID == id {
        assert e.element in report.elementTable;
        return Some(e.element);
      }
      assert forall c :: c in report.elementTable ==> report.elementTable[c] in report.elements;
    }

    method AddConditional(c: Conditional) returns (status: SendStatus)
      requires Valid() && !Has(report.elementTable.Keys, c.conditionalID)
      modifies report, report.sender, payloads`issued
      ensures Valid() && old(payloads.issued) <= payloads.issued
      ensures report.elementTable.Keys == old(report.elementTable.Keys) + if status == SendSuccess then {c} else {}
    {
      payloads.Note(c.conditionalID);
      payloads.Note(c.specializationID);
      var id; ghost var t;
      ghost var before, issued := report.State(), report.sender.issued;
      status, id, t := report.Insert(c, None, true);
      if status == SendSuccess { InsertFits(before, issued, c, id, t, report.sender.issued); }
      KnownAfter(before.table.Keys, old(payloads.issued), c, report.elementTable.Keys, payloads.issued);
    }

    /** Replaces the conditional that has the same ID. */
    method UpdateConditional(c: Conditional) returns (status: SendStatus)
      requires Valid()
      modifies report, report.sender, payloads`issued
      ensures Valid() && old(payloads.issued) <= payloads.issued
      ensures !Has(old(report.elementTable.Keys), c.conditionalID) ==> status == SendError
      ensures report.elementTable.Keys ==
        if status == SendSuccess
        then old(report.elementTable.Keys) - {Find(old(report.elementTable.Keys), c.conditionalID)} + {c}
        else old(report.elementTable.Keys)
    {
      var prev := GetConditionalById(c.conditionalID);
      if prev == None { return SendError; }
      payloads.Note(c.specializationID);
      ghost var before := report.State();
      ghost var t;
      status, t := report.Update(prev.value, c);
      if status == SendSuccess { UpdateFits(before, report.sender.issued, c, t); }
      KnownAfter(before.table.Keys, old(payloads.issued), c, report.elementTable.Keys, payloads.issued);
    }

    method RemoveConditional(c: Conditional) returns (status: SendStatus)
      requires Valid()
      modifies report, report.sender
      ensures Valid()
      ensures c !in old(report.elementTable) ==> status == SendError
      ensures report.elementTable.Keys == old(report.elementTable.Keys) - if status == SendSuccess then {c} else {}
    {
      ghost var before := report.State();
      status := report.Remove(c);
      if status == SendSuccess { RemoveFits(before, report.sender.issued, c); }
    }

    // ---- conditionals with their payloads ----

    /** Puts a payload under a new identifier and time on its topic. */
    method Publish(topic: string, content: string, spec: Guid) returns (status: SendStatus, t: DateTime)
      modifies payloads
      ensures payloads.issued == old(payloads.issued)
      ensures payloads.published == old(payloads.published) +
        if status == SendSuccess then [SampleEnvelope(Payload(topic, spec, t, content), ReadSuccess)] else []
    {
      t := payloads.GetTimestamp();
      status := payloads.Send(Payload(topic, spec, t, content));
    }

    method DisposeConditionalSpecialization(c: Conditional) returns (status: SendStatus)
      modifies payloads
      ensures payloads.issued == old(payloads.issued)
      ensures payloads.published == old(payloads.published) +
        if status == SendSuccess then [Farewell(c)] else []
    {
      status := payloads.Dispose(Payload(c.topic, c.specializationID, 0, ""));
    }

    /** A payload's ID: the one supplied, or a new one. */
    method ChooseId(spec: Option<Guid>) returns (id: Guid)
      modifies payloads`issued
      ensures id in payloads.issued && old(payloads.issued) <= payloads.issued
      ensures if spec.Some? then id == spec.value else id !in old(payloads.issued)
    {
      if spec.Some? {
        id := spec.value;
        payloads.Note(id);
      } else {
        id := payloads.GenerateGuid();
      }
    }

    /** Adds a conditional for a payload, under a given or a new specialization ID. */
    method AddSpecialization(topic: string, content: string, spec: Option<Guid>)
      returns (status: SendStatus, c: Conditional)
      requires Valid()
      modifies report, report.sender, payloads
      ensures Valid() && c.topic == topic && old(payloads.issued) <= payloads.issued
      ensures if spec.Some? then c.specializationID == spec.value else c.specializationID !in old(payloads.issued)
      ensures c.conditionalID !in old(payloads.issued) && !Has(old(report.elementTable.Keys), c.conditionalID)
      ensures status == SendSuccess ==> State() == Added(old(State()), c, content)
      ensures status != SendSuccess ==> State() == old(State()) || State() == Sent(old(State()), PayloadOf(c, content))
    {
      var specId := ChooseId(spec);
      var condId := payloads.GenerateGuid();
      var t;
      status, t := Publish(topic, content, specId);
      c := Conditional(condId, topic, specId, t);
      if status == SendSuccess { status := AddConditional(c); }
    }

    /** Disposes a conditional's payload if the new one does not take its place. */
    method MakeRoom(existing: Conditional, topic: string, specId: Guid, always: bool) returns (ghost lost: bool)
      modifies payloads
      ensures payloads.issued == old(payloads.issued)
      ensures lost ==> always || Key(topic, specId) != KeyOf(existing)
      ensures payloads.published == old(payloads.published) +
        if (always || Key(topic, specId) != KeyOf(existing)) && !lost then [Farewell(existing)] else []
    {
      lost := false;
      if always || specId != existing.specializationID || topic != existing.topic {
        var status := DisposeConditionalSpecialization(existing);
        lost := status != SendSuccess;
      }
    }

    /**
     Gives a conditional another payload. Whether the old instance was disposed does not decide the result, so `lost`
     tells if it stays behind. A failure comes before or after the new payload was sent.
     */
    method UpdateSpecialization(id: Guid, topic: string, content: string, spec: Option<Guid>)
      returns (status: SendStatus, c: Conditional, ghost lost: bool)
      requires Valid()
      modifies report, report.sender, payloads
      ensures Valid() && old(payloads.issued) <= payloads.issued
      ensures c.conditionalID == id && c.topic == topic
      ensures if spec.Some? then c.specializationID == spec.value else c.specializationID !in old(payloads.issued)
      ensures !Has(old(report.elementTable.Keys), id) ==> status == SendError && State() == old(State())
      ensures Has(old(report.elementTable.Keys), id) ==>
        var before, existing := old(State()), Find(old(report.elementTable.Keys), id);
        var room := if lost || KeyOf(c) == KeyOf(existing) then before else Withdrawn(before, existing);
        if status == SendSuccess then State() == Replaced(room, existing, c, content)
        else State() == room || State() == Sent(room, PayloadOf(c, content))
    {
      lost := false;
      var specId := ChooseId(spec);
      c := Conditional(id, topic, specId, 0);
      var existing := GetConditionalById(id);
      if existing == None { return SendError, c, lost; }
      lost := MakeRoom(existing.value, topic, specId, spec == None);
      status, c := ReplacePayload(c, content);
    }

    /** Sends a payload at the present time and puts its conditional in the place of the one with the same ID. */
    method ReplacePayload(replacing: Conditional, content: string) returns (status: SendStatus, c: Conditional)
      requires Valid() && Has(report.elementTable.Keys, replacing.conditionalID)
      requires replacing.specializationID in payloads.issued
      modifies report, report.sender, payloads
      ensures Valid() && old(payloads.issued) <= payloads.issued && c == replacing.(timestamp := c.timestamp)
      ensures var before, existing := old(State()), Find(old(report.elementTable.Keys), c.conditionalID);
        if status == SendSuccess then State() == Replaced(before, existing, c, content)
        else State() == before || State() == Sent(before, PayloadOf(c, content))
    {
      var t;
      status, t := Publish(replacing.topic, content, replacing.specializationID);
      c := replacing.(timestamp := t);
      if status == SendSuccess { status := UpdateConditional(c); }
    }

    /** Takes a conditional and its payload away. A failure leaves the conditional, but perhaps not the payload. */
    method RemoveSpecialization(id: Guid) returns (status: SendStatus, ghost lost: bool)
      requires Valid()
      modifies report, report.sender, payloads
      ensures Valid() && old(payloads.issued) <= payloads.issued
      ensures !Has(old(report.elementTable.Keys), id) ==> status == SendError && State() == old(State())
      ensures Has(old(report.elementTable.Keys), id) ==>
        var before, existing := old(State()), Find(old(report.elementTable.Keys), id);
        State() == if status == SendSuccess then Dropped(before, id, lost)
                   else if lost then before else Withdrawn(before, existing)
    {
      lost := false;
      var existing := GetConditionalById(id);
      if existing == None { return SendError, lost; }
      status := DisposeConditionalSpecialization(existing.value);
      lost := status != SendSuccess;
      status := RemoveConditional(existing.value);
    }

    /** Puts a resolved payload in force for a commanded conditional, new or already there. */
    method Upsert(requested: Conditional, payload: Payload)
      returns (status: SendStatus, c: Conditional, ghost lost: bool)
      requires Valid() && payload.topic == requested.topic
      modifies report, report.sender, payloads
      ensures Valid() && old(payloads.issued) <= payloads.issued
      ensures c.conditionalID == requested.conditionalID && c.topic == requested.topic
      ensures c.specializationID !in old(payloads.issued)
      ensures InForce(old(State()), c, payload.content, status, lost, State())
    {
      lost, c := false, requested;
      var specId := payloads.GenerateGuid();
      c := c.(specializationID := specId);
      var existing := GetConditionalById(requested.conditionalID);
      var t;
      status, t := Publish(c.topic, payload.content, specId);
      c := c.(timestamp := t);
      if status != SendSuccess { return; }
      if existing.Some? {
        status := DisposeConditionalSpecialization(existing.value);
        lost := status != SendSuccess;
        status := UpdateConditional(c);
      } else {
        status := AddConditional(c);
      }
    }

    method SendReport() returns (status: SendStatus)
      modifies reports
      ensures Announced(old(reports.published), status == SendSuccess)
    {
      status := reports.Send(report.metadata);
    }

    /** The report has been announced as it is now, or not at all. */
    ghost predicate Announced(before: seq<SampleEnvelope<LargeSetMetadata>>, sent: bool)
      reads this, report, reports
    {
      reports.published == before + if sent then [SampleEnvelope(report.metadata, ReadSuccess)] else []
    }

    /**
     What an executing cycle does with a payload, if it has come: puts it in force and announces the report. `status`
     tells how far it got.
     */
    method ResolveAndPublish(requested: Conditional, payload: Option<Payload>)
      returns (result: CommandModel.CommandStateResult, c: Conditional, ghost status: SendStatus, ghost lost: bool)
      requires Valid()
      requires payload.Some? ==> payload.value.topic == requested.topic
      modifies report, report.sender, payloads, reports
      ensures Valid() && old(payloads.issued) <= payloads.issued
      ensures c.conditionalID == requested.conditionalID && c.topic == requested.topic
      ensures Announced(old(reports.published), result == CommandModel.Advance)
      ensures payload == None ==> result == CommandModel.Stay && State() == old(State())
      ensures payload.Some? ==>
        && result != CommandModel.Stay && (result == CommandModel.Advance ==> status == SendSuccess)
        && c.specializationID !in old(payloads.issued)
        && InForce(old(State()), c, payload.value.content, status, lost, State())
    {
      c, status, lost := requested, SendNotImplemented, false;
      if payload == None { return CommandModel.Stay, c, status, lost; }
      var published;
      published, c, lost := Upsert(requested, payload.value);
      status := published;
      if published != SendSuccess { return CommandModel.Error, c, status, lost; }
      var sent := SendReport();
      result := if sent == SendSuccess then CommandModel.Advance else CommandModel.Error;
    }

    /** The conditionals' IDs, in the order in which the report's elements are met. */
    method GetConditionalIds() returns (order: seq<Guid>)
      requires Valid()
      ensures NoDuplicates(order) && forall g :: g in order <==> Has(report.elementTable.Keys, g)
    {
      order := [];
      var left := report.elements;
      while left != {}
        invariant forall e :: e in left ==> e in report.elements && e.element.conditionalID !in order
        invariant forall e :: e in report.elements && e !in left ==> e.element.conditionalID in order
        invariant NoDuplicates(order) && forall g :: g in order ==> Has(report.elementTable.Keys, g)
        decreases |left|
      {
        var e :| e in left;
        assert e.element in report.elementTable && report.elementTable[e.element] == e;
        assert forall f :: f in report.elements ==>
          f.element in report.elementTable && report.elementTable[f.element] == f;
        order := order + [e.element.conditionalID];
        left := left - {e};
      }
      assert forall c :: c in report.elementTable ==> report.elementTable[c] in report.elements;
    }

    /**
     What a delete command without an ID does: removes the conditionals one by one and stops at the first failure,
     having removed `done` of them. `lost` tells of which payloads stayed behind.
     */
    method DeleteAll() returns (ok: bool, ghost order: seq<Guid>, ghost lost: seq<bool>, ghost done: nat)
      requires Valid()
      modifies report, report.sender, payloads
      ensures Valid() && old(payloads.issued) <= payloads.issued
      ensures NoDuplicates(order) && forall g :: g in order <==> Has(old(report.elementTable.Keys), g)
      ensures done <= |order| && |lost| >= done && (ok <==> done == |order|)
      ensures var gone := DroppedInOrder(old(State()), order[..done], lost[..done]);
        && State().report == gone.report
        && (ok ==> State() == gone)
        && (!ok ==> State() == gone || exists c :: c in gone.report && State() == Withdrawn(gone, c))
      ensures ok && (forall i :: 0 <= i < |lost| ==> !lost[i]) ==> State() == RemovedInOrder(old(State()), order)
    {
      var ids := GetConditionalIds();
      order, lost, done := ids, [], 0;
      ghost var start := State();
      assert order[..0] == [] && lost[..0] == [];
      var i := 0;
      while i < |ids|
        invariant Valid() && 0 <= i <= |ids| && done == i == |lost| && old(payloads.issued) <= payloads.issued
        invariant State() == DroppedInOrder(start, order[..done], lost)
      {
        ghost var before := State();
        var status; ghost var behind;
        status, behind := RemoveSpecialization(ids[i]);
        if status != SendSuccess {
          assert lost[..done] == lost;
          return false, order, lost, done;
        }
        DropsOneMore(start, order, lost, done, behind);
        lost := lost + [behind];
        i, done := i + 1, done + 1;
      }
      assert order[..done] == order && lost[..done] == lost;
      if forall j :: 0 <= j < |lost| ==> !lost[j] { NoneLost(start, order, lost); }
      ok := true;
    }

    /** A delete command, for one conditional or for all: what was asked for is gone, or the report is not announced. */
    method Delete(id: Option<Guid>)
      returns (result: CommandModel.CommandStateResult, ghost order: seq<Guid>, ghost lost: seq<bool>, ghost done: nat)
      requires Valid()
      modifies report, report.sender, payloads, reports
      ensures Valid() && old(payloads.issued) <= payloads.issued && result != CommandModel.Stay
      ensures Announced(old(reports.published), result == CommandModel.Advance)
      ensures NoDuplicates(order) && done <= |order| && |lost| >= done
      ensures forall g :: g in order <==> Has(old(report.elementTable.Keys), g) && (id.Some? ==> g == id.value)
      ensures State().report == DroppedInOrder(old(State()), order[..done], lost[..done]).report
      ensures result == CommandModel.Advance ==>
        done == |order| && (id.Some? ==> order != []) && State() == DroppedInOrder(old(State()), order, lost[..done])
    {
      var ok;
      if id.Some? {
        var status; ghost var behind;
        ghost var before := State();
        status, behind := RemoveSpecialization(id.value);
        ok := status == SendSuccess;
        order := if Has(before.report, id.value) then [id.value] else [];
        lost, done := [behind], if ok then 1 else 0;
        assert order[..0] == [] && lost[..0] == [] && [id.value][..0] == [] && lost[..1] == lost;
      } else {
        ok, order, lost, done := DeleteAll();
        assert order[..|order|] == order;
      }
      if !ok { return CommandModel.Error, order, lost, done; }
      var sent := SendReport();
      result := if sent == SendSuccess then CommandModel.Advance else CommandModel.Error;
    }
  }

  lemma DropsOneMore(s: Store, order: seq<Guid>, lost: seq<bool>, done: nat, behind: bool)
    requires |lost| == done < |order|
    ensures DroppedInOrder(s, order[..done + 1], lost + [behind]) ==
      Dropped(DroppedInOrder(s, order[..done], lost), order[done], behind)
  {
    assert order[..done + 1][..done] == order[..done] && (lost + [behind])[..done] == lost;
  }
}
