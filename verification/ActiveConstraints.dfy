/** The constraints in force: the conditionals of the latest report that the latest command names, kept in a cache. */
module ActiveConstraints {
  import opened Common
  import opened CommandStates
  import opened CommandModel

  /** A conditional object: its identifier, and which object it is. */
  datatype Constraint = Constraint(id: Guid, instance: int)

  /** The matches for a set of identifiers, the first one for each, and the identifiers left over. */
  datatype Matched = Matched(constraints: seq<Constraint>, missing: set<Guid>)

  function FirstMatches(report: seq<Constraint>, ids: set<Guid>): Matched {
    if report == [] then Matched([], ids)
    else if report[0].id in ids then
      var rest := FirstMatches(report[1..], ids - {report[0].id});
      Matched([report[0]] + rest.constraints, rest.missing)
    else FirstMatches(report[1..], ids)
  }

  /** The report's conditionals whose identifiers are named, in the order of the report. */
  function Named(report: seq<Constraint>, ids: set<Guid>): seq<Constraint> {
    if report == [] then []
    else (if report[0].id in ids then [report[0]] else []) + Named(report[1..], ids)
  }

  ghost predicate DistinctIds(report: seq<Constraint>) {
    forall i, j :: 0 <= i < j < |report| ==> report[i].id != report[j].id
  }

  lemma {:induction false} NamedIgnores(report: seq<Constraint>, ids: set<Guid>, g: Guid)
    requires forall i :: 0 <= i < |report| ==> report[i].id != g
    ensures Named(report, ids - {g}) == Named(report, ids)
  {
    if report != [] {
      assert report[0].id in ids - {g} <==> report[0].id in ids;
      NamedIgnores(report[1..], ids, g);
    }
  }

  /** With distinct identifiers the first matches are all matches, and what is missing is what the report lacks. */
  lemma {:induction false} MatchesAreNamed(report: seq<Constraint>, ids: set<Guid>)
    requires DistinctIds(report)
    ensures FirstMatches(report, ids).constraints == Named(report, ids)
    ensures forall g :: g in FirstMatches(report, ids).missing <==>
      g in ids && forall i :: 0 <= i < |report| ==> report[i].id != g
  {
    if report != [] {
      var g, rest := report[0].id, report[1..];
      forall i | 0 <= i < |rest| ensures rest[i].id != g { assert rest[i] == report[i + 1]; }
      assert forall i :: 0 < i < |report| ==> report[i] == rest[i - 1];
      MatchesAreNamed(rest, if g in ids then ids - {g} else ids);
      if g in ids { NamedIgnores(rest, ids, g); }
    }
  }

  lemma {:induction false} NamedMembers(report: seq<Constraint>, ids: set<Guid>, c: Constraint)
    ensures c in Named(report, ids) <==> c in report && c.id in ids
  {
    if report != [] {
      NamedMembers(report[1..], ids, c);
      assert report == [report[0]] + report[1..];
    }
  }

  // ---- the cache ----

  datatype Cache = Cache(
    standing: bool,
    report: Option<seq<Constraint>>,
    ids: Option<set<Guid>>,
    applied: Option<seq<Constraint>>,
    dirty: bool,
    reason: Reason,
    notified: seq<seq<Constraint>>)

  datatype Operation =
    | Reported(report: seq<Constraint>)
    | Validated(ids: seq<Guid>)
    | Commanded(ids: seq<Guid>)
    | Checked

  function Fresh(standing: bool): Cache { Cache(standing, None, None, None, false, Succeeded, []) }

  predicate Exists(c: Cache, g: Guid) {
    c.report.Some? && exists i :: 0 <= i < |c.report.value| && c.report.value[i].id == g
  }

  predicate IsValid(c: Cache, ids: seq<Guid>) { forall i :: 0 <= i < |ids| ==> Exists(c, ids[i]) }

  function Latched(ids: seq<Guid>): set<Guid> { set g | g in ids }

  /** Whether the command counts as completed, and the cache after finding out. */
  datatype Completion = Completion(cache: Cache, completed: bool)

  function Check(c: Cache): Completion {
    if c.report == None || c.ids == None || (c.standing && !c.dirty) then Completion(c, false)
    else
      var m := FirstMatches(c.report.value, c.ids.value);
      if m.missing != {} && !c.standing then Completion(c.(reason := ServiceFailed), false)
      else
        Completion(
          c.(applied := Some(m.constraints), dirty := false, notified := c.notified + [m.constraints]), !c.standing)
  }

  function Perform(c: Cache, op: Operation): Cache {
    match op
    case Reported(report) => c.(report := Some(report), dirty := true)
    case Validated(ids) => c.(reason := if IsValid(c, ids) then Succeeded else ValidationFailed)
    case Commanded(ids) => c.(ids := Some(Latched(ids)), dirty := true)
    case Checked => Check(c).cache
  }

  function Run(standing: bool, ops: seq<Operation>): Cache {
    if ops == [] then Fresh(standing) else Perform(Run(standing, ops[..|ops| - 1]), ops[|ops| - 1])
  }

  /** The applied constraints are those last announced, and unless the flag is set, those the latest data call for. */
  ghost predicate Coherent(c: Cache) {
    && (if c.applied == None then c.notified == []
        else c.notified != [] && c.notified[|c.notified| - 1] == c.applied.value)
    && (!c.dirty && c.report.Some? && c.ids.Some? ==>
          c.applied == Some(FirstMatches(c.report.value, c.ids.value).constraints))
  }

  lemma PerformKeepsCoherent(c: Cache, op: Operation)
    requires Coherent(c)
    ensures Coherent(Perform(c, op))
  {
  }

  /**
   In every reachable state in which the flag is clear and a report with distinct identifiers and a command are there,
   the applied constraints are the report's conditionals that the command names, in the report's order, and were the
   last to be announced.
   */
  lemma {:induction false} AppliedAreNamed(standing: bool, ops: seq<Operation>)
    ensures var c := Run(standing, ops);
      && Coherent(c)
      && (!c.dirty && c.report.Some? && c.ids.Some? && DistinctIds(c.report.value) ==>
            var named := Named(c.report.value, c.ids.value);
            c.applied == Some(named) && c.notified != [] && c.notified[|c.notified| - 1] == named)
  {
    if ops != [] {
      AppliedAreNamed(standing, ops[..|ops| - 1]);
      PerformKeepsCoherent(Run(standing, ops[..|ops| - 1]), ops[|ops| - 1]);
    }
    var c := Run(standing, ops);
    if c.report.Some? && c.ids.Some? && DistinctIds(c.report.value) { MatchesAreNamed(c.report.value, c.ids.value); }
  }

  /** Under a standing command, a check after a report applies what that report has of the command's constraints. */
  lemma ReactivatedWhenReported(c: Cache, report: seq<Constraint>, x: Constraint)
    requires Coherent(c) && c.standing && c.ids.Some? && DistinctIds(report)
    ensures var d := Check(Perform(c, Reported(report))).cache;
      && d.applied.Some? && !d.dirty && d.ids == c.ids
      && (x in d.applied.value <==> x in report && x.id in c.ids.value)
  {
    MatchesAreNamed(report, c.ids.value);
    NamedMembers(report, c.ids.value, x);
  }

  ghost predicate Reports(c: Cache, g: Guid) {
    c.report.Some? && exists x :: x in c.report.value && x.id == g
  }

  lemma {:induction false} MissingExact(report: seq<Constraint>, ids: set<Guid>, g: Guid)
    ensures g in FirstMatches(report, ids).missing <==> g in ids && forall x :: x in report ==> x.id != g
  {
    if report != [] {
      MissingExact(report[1..], if report[0].id in ids then ids - {report[0].id} else ids, g);
      assert report == [report[0]] + report[1..];
    }
  }

  /** A command is valid if and only if the latest report has every conditional it names; else the reason says so. */
  lemma ValidExact(c: Cache, ids: seq<Guid>)
    ensures IsValid(c, ids) <==> forall g :: g in ids ==> Reports(c, g)
    ensures Perform(c, Validated(ids)) ==
      c.(reason := if forall g :: g in ids ==> Reports(c, g) then Succeeded else ValidationFailed)
  {
    forall g ensures Exists(c, g) <==> Reports(c, g) {
      if Exists(c, g) {
        var i :| 0 <= i < |c.report.value| && c.report.value[i].id == g;
        assert c.report.value[i] in c.report.value;
      }
      if Reports(c, g) {
        var x :| x in c.report.value && x.id == g;
        var i :| 0 <= i < |c.report.value| && c.report.value[i] == x;
        assert c.report.value[i].id == g;
      }
    }
    forall g | g in ids && IsValid(c, ids) ensures Exists(c, g) { var i :| 0 <= i < |ids| && ids[i] == g; }
  }

  /**
   Outside a standing session a check completes the command if and only if the latest report has all it names; if
   something is missing it says so and applies nothing. A standing command never completes.
   */
  lemma CompletedExact(c: Cache)
    ensures var r := Check(c);
      && (r.completed <==>
            !c.standing && c.report.Some? && c.ids.Some? && forall g :: g in c.ids.value ==> Reports(c, g))
      && (c.report.Some? && c.ids.Some? && !c.standing && !r.completed ==> r.cache == c.(reason := ServiceFailed))
      && (r.completed ==>
            && r.cache.reason == c.reason && !r.cache.dirty && r.cache.applied.Some?
            && r.cache.notified == c.notified + [r.cache.applied.value])
  {
    if c.report.Some? && c.ids.Some? {
      var missing := FirstMatches(c.report.value, c.ids.value).missing;
      forall g ensures g in missing <==> g in c.ids.value && !Reports(c, g) {
        MissingExact(c.report.value, c.ids.value, g);
      }
      if missing == {} {
        assert forall g :: g in c.ids.value ==> Reports(c, g);
      } else {
        var g := SomeMember(missing);
        assert g in c.ids.value && !Reports(c, g);
      }
    }
  }

  /** A check after a command was taken up applies what the latest report has of the constraints the command names. */
  lemma CommandIsApplied(c: Cache, ids: seq<Guid>, x: Constraint)
    requires c.report.Some? && DistinctIds(c.report.value)
    requires c.standing || forall g :: g in ids ==> Reports(c, g)
    ensures var r := Check(Perform(c, Operation.Commanded(ids)));
      && r.completed == !c.standing && r.cache.applied.Some? && !r.cache.dirty
      && (x in r.cache.applied.value <==> x in c.report.value && x.id in ids)
  {
    var d := Perform(c, Operation.Commanded(ids));
    CompletedExact(d);
    assert forall g :: Reports(c, g) ==> Reports(d, g);
    MatchesAreNamed(c.report.value, d.ids.value);
    NamedMembers(c.report.value, d.ids.value, x);
  }

  /** A command that is found valid and then taken up completes at the next check. */
  lemma ValidCompletes(c: Cache, ids: seq<Guid>)
    requires !c.standing && c.report.Some? && Perform(c, Validated(ids)).reason == Succeeded
    ensures Check(Perform(Perform(c, Validated(ids)), Operation.Commanded(ids))).completed
  {
    var d := Perform(Perform(c, Validated(ids)), Operation.Commanded(ids));
    ValidExact(c, ids);
    CompletedExact(d);
    assert forall g :: Reports(c, g) ==> Reports(d, g);
  }

  // ---- the provider ----

  class ActiveConstraintsControlProvider {
    const standingSession: bool
    var conditionals: Option<seq<Constraint>>
    var constraintConditionals: Option<seq<Constraint>>
    var constraintConditionalIds: Option<set<Guid>>
    var lastReason: Reason
    var conditionalsDirty: bool
    /** Command samples that wait to be read. */
    var incoming: seq<SampleEnvelope<Command>>
    ghost var notified: seq<seq<Constraint>>

    ghost function State(): Cache
      reads this
    {
      Cache(standingSession, conditionals, constraintConditionalIds, constraintConditionals, conditionalsDirty,
            lastReason, notified)
    }

    constructor (standing: bool)
      ensures State() == Fresh(standing)
    {
      standingSession := standing;
      conditionals, constraintConditionals, constraintConditionalIds := None, None, None;
      lastReason, conditionalsDirty, incoming, notified := Succeeded, false, [], [];
    }

    method Update(data: seq<Constraint>)
      modifies this
      ensures State() == Perform(old(State()), Reported(data)) && incoming == old(incoming)
    {
      conditionals := Some(data);
      conditionalsDirty := true;
    }

    method ConditionalExists(g: Guid) returns (found: bool)
      ensures found == Exists(State(), g)
    {
      if conditionals == None { return false; }
      var i := 0;
      while i < |conditionals.value|
        invariant 0 <= i <= |conditionals.value|
        invariant forall j :: 0 <= j < i ==> conditionals.value[j].id != g
      {
        if conditionals.value[i].id == g { return true; }
        i := i + 1;
      }
      found := false;
    }

    method IsCommandValid(ids: seq<Guid>) returns (valid: bool)
      modifies this`lastReason
      ensures valid == IsValid(old(State()), ids) && State() == Perform(old(State()), Validated(ids))
    {
      var i := 0;
      while i < |ids|
        invariant 0 <= i <= |ids| && State() == old(State())
        invariant forall j :: 0 <= j < i ==> Exists(State(), ids[j])
      {
        var found := ConditionalExists(ids[i]);
        if !found {
          lastReason := ValidationFailed;
          return false;
        }
        i := i + 1;
      }
      lastReason := Succeeded;
      valid := true;
    }

    method OnCommanded(ids: seq<Guid>)
      modifies this
      ensures State() == Perform(old(State()), Operation.Commanded(ids)) && incoming == old(incoming)
    {
      constraintConditionalIds := Some(Latched(ids));
      conditionalsDirty := true;
    }

    /** Collects the first match for each identifier. */
    method Collect(report: seq<Constraint>, named: set<Guid>) returns (constraints: seq<Constraint>, ids: set<Guid>)
      ensures Matched(constraints, ids) == FirstMatches(report, named)
    {
      constraints, ids := [], named;
      var i := 0;
      while i < |report|
        invariant 0 <= i <= |report|
        invariant var rest := FirstMatches(report[i..], ids);
          FirstMatches(report, named) == Matched(constraints + rest.constraints, rest.missing)
      {
        if report[i].id in ids {
          constraints := constraints + [report[i]];
          ids := ids - {report[i].id};
        }
        i := i + 1;
      }
    }

    method IsCommandCompleted() returns (completed: bool)
      modifies this
      ensures Completion(State(), completed) == Check(old(State())) && incoming == old(incoming)
    {
      if conditionals == None || constraintConditionalIds == None { return false; }
      if standingSession && !conditionalsDirty { return false; }
      var constraints, ids := Collect(conditionals.value, constraintConditionalIds.value);
      if ids != {} && !standingSession {
        lastReason := ServiceFailed;
        return false;
      }
      constraintConditionals := Some(constraints);
      conditionalsDirty := false;
      notified := notified + [constraints];
      completed := !standingSession;
    }

    /** Reads the next command sample. A standing session does not see the disposes in front of it. */
    method Read() returns (sample: Option<SampleEnvelope<Command>>)
      modifies this`incoming
      ensures State() == old(State())
      ensures var kept := if standingSession then AfterDisposes(old(incoming)) else old(incoming);
        if kept == [] then sample == None && incoming == [] else sample == Some(kept[0]) && incoming == kept[1..]
    {
      sample := Take();
      while standingSession && sample.Some? && sample.value.status == Disposed
        invariant var left := (if sample.Some? then [sample.value] else []) + incoming;
          if standingSession then AfterDisposes(old(incoming)) == AfterDisposes(left) else old(incoming) == left
        invariant sample == None ==> incoming == []
        decreases |incoming| + if sample.Some? then 1 else 0
      {
        sample := Take();
      }
    }

    method Take() returns (sample: Option<SampleEnvelope<Command>>)
      modifies this`incoming
      ensures old(incoming) == [] ==> sample == None && incoming == []
      ensures old(incoming) != [] ==> sample == Some(old(incoming)[0]) && incoming == old(incoming)[1..]
    {
      if incoming == [] { return None; }
      sample := Some(incoming[0]);
      incoming := incoming[1..];
    }
  }

  function AfterDisposes(samples: seq<SampleEnvelope<Command>>): (kept: seq<SampleEnvelope<Command>>)
    ensures kept != [] ==> kept[0].status != Disposed
  {
    if samples != [] && samples[0].status == Disposed then AfterDisposes(samples[1..]) else samples
  }

  /** Exactly the disposes in front are skipped. */
  lemma {:induction false} AfterDisposesExact(samples: seq<SampleEnvelope<Command>>) returns (n: nat)
    ensures n <= |samples| && AfterDisposes(samples) == samples[n..]
    ensures forall i :: 0 <= i < n ==> samples[i].status == Disposed
    ensures n < |samples| ==> samples[n].status != Disposed
    decreases |samples|
  {
    n := 0;
    if samples != [] && samples[0].status == Disposed {
      n := AfterDisposesExact(samples[1..]);
      n := n + 1;
    }
  }
}
