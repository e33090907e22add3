/** Adding a conditional: the wait for its payload is bounded, and its record lives as long as the command. */
module ConditionalAdding {
  import opened Common
  import opened CommandStates
  import opened CommandModel
  import opened CommandSafety

  /** How far a session has come in resolving its payload. The counter has 32 bits. */
  datatype PendingAdd = PendingAdd(waitCycles: nat, published: bool, failReason: Reason)

  const NEW_ADD := PendingAdd(0, false, Succeeded)

  const COUNTER_SIZE := 0x1_0000_0000

  datatype Progress = Progress(state: PendingAdd, result: CommandStateResult)

  /** One executing cycle, given what came of resolving and publishing the payload if that was tried. */
  function Wait(state: PendingAdd, resolved: CommandStateResult, maxWaitCycles: nat): Progress {
    if state.published || state.failReason != Succeeded then Progress(state, Stay)
    else if resolved == Advance then Progress(state.(published := true), Advance)
    else if resolved == Stay then
      var waited := state.(waitCycles := (state.waitCycles + 1) % COUNTER_SIZE);
      Progress(if waited.waitCycles > maxWaitCycles then waited.(failReason := Timeout) else waited, Stay)
    else Progress(state, Error)
  }

  // ---- one session's life ----

  /** A session, its entry among the pending ones, and how many executing cycles it has had. */
  datatype Life = Life(session: Session, entry: Option<PendingAdd>, executed: nat)

  datatype Happening =
    | Cycled(resolved: CommandStateResult, a: Answers)
    | Amended(command: Command, a: Answers, b: Answers)
    | Withdrawn(a: Answers)
    | Abandoned(a: Answers)

  /** This provider's callbacks never report failure. */
  function Willing(a: Answers): Answers { a.(updated := true, ended := true) }

  /** The callbacks that end a command drop its entry. */
  function Ended(life: Life, after: Session): Life {
    Life(after, if Over(after) && !Over(life.session) then None else life.entry, life.executed)
  }

  function Waited(entry: Option<PendingAdd>, resolved: CommandStateResult, maxWaitCycles: nat): Progress {
    Wait(if entry.Some? then entry.value else NEW_ADD, resolved, maxWaitCycles)
  }

  /** What this provider's callbacks answer about a session with that status and entry; `a` is what else is met. */
  function Callback(status: CommandStatus, entry: Option<PendingAdd>, resolved: CommandStateResult, a: Answers,
                    maxWaitCycles: nat): Answers
  {
    if status != Executing then Willing(a).(result := Advance)
    else
      var p := Waited(entry, resolved, maxWaitCycles);
      Willing(a).(result := p.result, failure := p.state.failReason, completed := p.state.published)
  }

  function Execute(life: Life, resolved: CommandStateResult, a: Answers, maxWaitCycles: nat): Life {
    var p := Waited(life.entry, resolved, maxWaitCycles);
    var b := Callback(Executing, life.entry, resolved, a, maxWaitCycles);
    Ended(Life(life.session, Some(p.state), life.executed + 1), HandleExecuting(life.session, b).session)
  }

  function Happen(life: Life, h: Happening, maxWaitCycles: nat): Life {
    match h
    case Cycled(resolved, a) =>
      if life.session.phase.status == Executing then Execute(life, resolved, a, maxWaitCycles)
      else Ended(life, CycleSession(life.session, Willing(a).(result := Advance)).session)
    case Amended(command, a, b) =>
      Ended(life, HandleUpdate(life.session, command, Willing(a), Willing(b).(result := Advance)).session)
    case Withdrawn(a) => Ended(life, HandleCancel(life.session, Willing(a)).session)
    case Abandoned(a) => Ended(life, HandleFailure(life.session, ServiceFailed, Willing(a)).session)
  }

  function Live(command: Command, happenings: seq<Happening>, maxWaitCycles: nat): Life {
    if happenings == [] then Life(Opened(command), None, 0)
    else
      var n := |happenings| - 1;
      Happen(Live(command, happenings[..n], maxWaitCycles), happenings[n], maxWaitCycles)
  }

  /**
   A running session has waited in every executing cycle it had, and not too often; an ended one has no entry and has
   had at most one cycle more.
   */
  ghost predicate Bounded(life: Life, maxWaitCycles: nat) {
    if Over(life.session) then life.entry == None && life.executed <= maxWaitCycles + 1
    else
      && life.executed <= maxWaitCycles
      && (life.executed == 0 ==> life.entry == None)
      && (life.executed > 0 ==> life.entry == Some(PendingAdd(life.executed, false, Succeeded)))
  }

  lemma ExecutingWaitsOrEnds(life: Life, resolved: CommandStateResult, a: Answers, maxWaitCycles: nat)
    requires Bounded(life, maxWaitCycles) && life.session.phase.status == Executing && maxWaitCycles < COUNTER_SIZE - 1
    ensures Bounded(Execute(life, resolved, a, maxWaitCycles), maxWaitCycles)
  {
    var state := if life.entry.Some? then life.entry.value else NEW_ADD;
    assert state == PendingAdd(life.executed, false, Succeeded);
    WrapAround(life.executed + 1);
  }

  lemma WrapAround(n: nat)
    requires n < COUNTER_SIZE
    ensures n % COUNTER_SIZE == n
  {
  }

  lemma HappeningKeepsBound(life: Life, h: Happening, maxWaitCycles: nat)
    requires Bounded(life, maxWaitCycles) && maxWaitCycles < COUNTER_SIZE - 1
    ensures Bounded(Happen(life, h, maxWaitCycles), maxWaitCycles)
  {
    if h.Cycled? && life.session.phase.status == Executing {
      ExecutingWaitsOrEnds(life, h.resolved, h.a, maxWaitCycles);
    }
  }

  /**
   Whatever happens to the command, updates included, and whatever sends fail, its session has ended by its executing
   cycle number maxWaitCycles + 1, provided the counter can exceed the maximum.
   */
  lemma {:induction false} WaitIsBounded(command: Command, happenings: seq<Happening>, maxWaitCycles: nat)
    requires maxWaitCycles < COUNTER_SIZE - 1
    ensures var life := Live(command, happenings, maxWaitCycles);
      && life.executed <= maxWaitCycles + 1
      && (life.executed == maxWaitCycles + 1 ==> Over(life.session))
      && Bounded(life, maxWaitCycles)
  {
    if happenings != [] {
      var n := |happenings| - 1;
      WaitIsBounded(command, happenings[..n], maxWaitCycles);
      HappeningKeepsBound(Live(command, happenings[..n], maxWaitCycles), happenings[n], maxWaitCycles);
    }
  }

  // ---- how a session ends ----

  /** The session has come to this phase, with that published last if it was delivered. */
  ghost predicate ComesTo(s: Session, t: Session, phase: Phase, sent: SendStatus) {
    && t.id == s.id && t.command == s.command && t.phase == phase
    && t.trail == s.trail + if sent == SendSuccess then [phase] else []
  }

  const COMPLETION := Phase(CommandStatus.Completed, Succeeded)
  const REFUSAL := Phase(CommandStatus.Failed, ServiceFailed)
  const EXPIRY := Phase(CommandStatus.Failed, Timeout)

  /**
   What an executing cycle makes of a session that is still waiting: a payload resolved and published completes it, an
   error fails it, and so does the cycle in which the wait exceeds its maximum; until then it goes on executing.
   */
  lemma ExecutingEnds(life: Life, resolved: CommandStateResult, a: Answers, maxWaitCycles: nat)
    requires Bounded(life, maxWaitCycles) && life.session.phase.status == Executing && maxWaitCycles < COUNTER_SIZE - 1
    ensures var s, after := life.session, Happen(life, Cycled(resolved, a), maxWaitCycles);
      && after.executed == life.executed + 1
      && (resolved == Advance ==> ComesTo(s, after.session, COMPLETION, a.status) && after.entry == None)
      && (resolved == Error ==> ComesTo(s, after.session, REFUSAL, a.status) && after.entry == None)
      && (resolved == Stay && life.executed == maxWaitCycles ==>
            ComesTo(s, after.session, EXPIRY, a.status) && after.entry == None)
      && (resolved == Stay && life.executed < maxWaitCycles ==>
            && after.session.phase == s.phase && after.session.trail == s.trail
            && after.entry == Some(PendingAdd(life.executed + 1, false, Succeeded)))
  {
    WrapAround(life.executed + 1);
  }

  /** How a session ends that is executed with this result in its executing cycle number `n` + 1, if it does. */
  function EndOf(resolved: CommandStateResult, n: nat, maxWaitCycles: nat): Option<Phase> {
    match resolved
    case Advance => Some(COMPLETION)
    case Error => Some(REFUSAL)
    case Stay => if n == maxWaitCycles then Some(EXPIRY) else None
  }

  /** What is published from a status up to executing. */
  function WayToExecuting(status: CommandStatus): seq<Phase> {
    match status
    case Issued => [Phase(CommandStatus.Commanded, Succeeded), Phase(CommandStatus.Executing, Succeeded)]
    case Commanded => [Phase(CommandStatus.Executing, Succeeded)]
    case _ => []
  }

  /** Validation succeeds and every send is delivered. */
  predicate Delivers(a: Answers) { a.valid && a.status == SendSuccess && a.execution == SendSuccess }

  const WAITING := Answers(true, Stay, Succeeded, false, true, true, SendSuccess, SendSuccess, SendSuccess)

  /** The session through its first two states and n waits. */
  function LongWait(n: nat): seq<Happening> { seq(n + 2, i => Cycled(Stay, WAITING)) }

  /** The session waits on: it is executing and its counter has come round to n. */
  ghost predicate Waits(life: Life, n: nat) {
    var waits := life.session.phase.status == Executing && life.executed == n &&
      life.entry == if n == 0 then None else Some(PendingAdd(n % COUNTER_SIZE, false, Succeeded));
    waits
  }

  lemma WaitsOn(life: Life, n: nat)
    requires Waits(life, n)
    ensures Waits(Happen(life, Cycled(Stay, WAITING), COUNTER_SIZE - 1), n + 1)
  {
    assert (n % COUNTER_SIZE + 1) % COUNTER_SIZE == (n + 1) % COUNTER_SIZE;
  }

  lemma FirstSteps(command: Command)
    ensures Waits(Live(command, LongWait(0), COUNTER_SIZE - 1), 0)
  {
    var w, max := Cycled(Stay, WAITING), COUNTER_SIZE - 1;
    var start := Life(Opened(command), None, 0);
    assert LongWait(0) == [w, w] && [w, w][..1] == [w] && [w][..0] == [];
    assert Live(command, [], max) == start;
    assert Live(command, [w], max) == Happen(start, w, max);
  }

  lemma OneMoreWait(command: Command, waits: seq<Happening>, n: nat)
    requires waits == LongWait(n + 1) && Waits(Live(command, LongWait(n), COUNTER_SIZE - 1), n)
    ensures Waits(Live(command, waits, COUNTER_SIZE - 1), n + 1)
  {
    assert waits[..n + 2] == LongWait(n) && waits[n + 2] == Cycled(Stay, WAITING);
    WaitsOn(Live(command, LongWait(n), COUNTER_SIZE - 1), n);
  }

  /** The counter cannot exceed the largest maximum, so the session may then wait for any number of cycles. */
  lemma {:induction false} EndlessWait(command: Command, n: nat)
    ensures Waits(Live(command, LongWait(n), COUNTER_SIZE - 1), n)
  {
    if n == 0 {
      FirstSteps(command);
    } else {
      EndlessWait(command, n - 1);
      OneMoreWait(command, LongWait(n), n - 1);
    }
  }

  // ---- whole cycles of the provider ----

  /**
   The provider, its pending entries, and for each session made active, in order, the executing cycles it has had. The
   counts are history.
   */
  datatype Adding = Adding(provider: Provider, pending: map<Guid, PendingAdd>, executed: seq<nat>)

  /** What a cycle meets besides this provider's callbacks, and what comes of resolving a payload in it. */
  datatype Outside = Outside(tick: Tick, resolved: CommandStateResult)

  /** The count of the session made active last. */
  function Count(executed: seq<nat>): nat { if executed == [] then 0 else executed[|executed| - 1] }

  function Counted(executed: seq<nat>, n: nat): seq<nat> {
    if executed == [] then [] else executed[..|executed| - 1] + [n]
  }

  /** Sessions made active since have had no executing cycle. */
  function Extended(executed: seq<nat>, n: nat): (r: seq<nat>)
    ensures executed <= r && (|executed| <= n ==> |r| == n) && forall i :: |executed| <= i < |r| ==> r[i] == 0
  {
    if n <= |executed| then executed else executed + seq(n - |executed|, _ => 0)
  }

  function Entry(pending: map<Guid, PendingAdd>, id: Guid): Option<PendingAdd> {
    if id in pending then Some(pending[id]) else None
  }

  function Put(pending: map<Guid, PendingAdd>, id: Guid, entry: Option<PendingAdd>): map<Guid, PendingAdd> {
    if entry.Some? then pending[id := entry.value] else pending - {id}
  }

  function LifeOf(st: Adding, s: Session): Life { Life(s, Entry(st.pending, s.id), Count(st.executed)) }

  /** The tick with this provider's answers outside the driving of sessions. */
  function Called(tick: Tick): Tick {
    tick.(incoming := (k: nat) => Willing(tick.incoming(k)).(result := Advance),
          failing := (k: nat) => Willing(tick.failing(k)))
  }

  /** The entries once the incoming sample has been handled: those of sessions it ends are dropped. */
  function AfterIncoming(st: Adding, tick: Tick, maxWaitCycles: nat): map<Guid, PendingAdd> {
    var p, id, a := st.provider, tick.sample.data.sessionID, tick.incoming(0);
    var i := FirstWithId(p.queue, id);
    match tick.sample.status
    case Disposed =>
      if id in p.active
      then Put(st.pending, id, Happen(LifeOf(st, p.active[id]), Withdrawn(a), maxWaitCycles).entry)
      else if i < |p.queue|
      then Put(st.pending, id, Happen(LifeOf(st, p.queue[i]), Withdrawn(a), maxWaitCycles).entry)
      else st.pending
    case ReadSuccess =>
      if id in p.active
      then
        var amended := Amended(tick.sample.data, a, tick.incoming(1));
        Put(st.pending, id, Happen(LifeOf(st, p.active[id]), amended, maxWaitCycles).entry)
      else st.pending
    case _ => st.pending
  }

  function Incoming(st: Adding, tick: Tick, maxWaitCycles: nat): Adding {
    var p := HandleIncomingCommand(QueueIncoming, st.provider, Called(tick)).provider;
    Adding(p, AfterIncoming(st, tick, maxWaitCycles), Extended(st.executed, |p.started|))
  }

  /** All sessions fail, which drops the entries of those that had not ended. */
  function Failed(st: Adding, tick: Tick): Adding {
    st.(provider := FailAll(st.provider, Called(tick).failing),
        pending :=
          map g | g in st.pending && (g !in st.provider.active || Over(st.provider.active[g])) :: st.pending[g])
  }

  /** The status a session comes to in round k of its driving, if it gets that far. */
  function Round(status: CommandStatus, k: nat): CommandStatus
    decreases k
  {
    if k > 0 && status == Issued then Round(Commanded, k - 1)
    else if k > 0 && status == Commanded then Executing
    else status
  }

  /** The answers to the driving of one session. */
  function Answering(life: Life, resolved: CommandStateResult, raw: Script, maxWaitCycles: nat): Script {
    (k: nat) => Callback(Round(life.session.phase.status, k), life.entry, resolved, raw(k), maxWaitCycles)
  }

  /** A session's life while it is driven. */
  function DrivenLife(life: Life, resolved: CommandStateResult, raw: Script, k: nat, maxWaitCycles: nat): Life
    decreases 3 - Rank(life.session.phase.status)
  {
    var next := Happen(life, Cycled(resolved, raw(k)), maxWaitCycles);
    var answers := Callback(life.session.phase.status, life.entry, resolved, raw(k), maxWaitCycles);
    HappensAsCycled(life, resolved, raw(k), maxWaitCycles);
    CyclingRises(life.session, answers);
    if CycleSession(life.session, answers).ok && next.session.phase.status != life.session.phase.status
    then DrivenLife(next, resolved, raw, k + 1, maxWaitCycles) else next
  }

  lemma HappensAsCycled(life: Life, resolved: CommandStateResult, a: Answers, maxWaitCycles: nat)
    ensures var answers := Callback(life.session.phase.status, life.entry, resolved, a, maxWaitCycles);
      Happen(life, Cycled(resolved, a), maxWaitCycles).session == CycleSession(life.session, answers).session
  {
  }

  function FirstActive(p: Provider): (g: Guid)
    requires p.active != map[]
    ensures g in p.active
  {
    assert p.active.Keys != {};
    Smallest(p.active.Keys)
  }

  /** The life of the one session a queueing provider drives, as it was before. */
  function Current(st: Adding): Life
    requires st.provider.active != map[]
  {
    LifeOf(st, st.provider.active[FirstActive(st.provider)])
  }

  function AfterDriving(st: Adding, out: Outside, maxWaitCycles: nat): Adding
    requires st.provider.active != map[]
  {
    var script := Answering(Current(st), out.resolved, out.tick.driving, maxWaitCycles);
    var p := CycleActive(QueueIncoming, st.provider, script).provider;
    var after := DrivenLife(Current(st), out.resolved, out.tick.driving, 0, maxWaitCycles);
    Adding(p, Put(st.pending, after.session.id, after.entry),
           Extended(Counted(st.executed, after.executed), |p.started|))
  }

  /** A cycle, part by part as the provider goes through it. */
  function AddCycle(st: Adding, out: Outside, maxWaitCycles: nat): Adding {
    if !out.tick.awake && st.provider.active != map[] then Failed(st, out.tick)
    else
      var mid := Incoming(st, out.tick, maxWaitCycles);
      if !HandleIncomingCommand(QueueIncoming, st.provider, Called(out.tick)).ok then Failed(mid, out.tick)
      else if mid.provider.active == map[] then mid
      else AfterDriving(mid, out, maxWaitCycles)
  }

  function AddRun(outs: seq<Outside>, maxWaitCycles: nat): Adding {
    if outs == [] then Adding(IDLE, map[], [])
    else AddCycle(AddRun(outs[..|outs| - 1], maxWaitCycles), outs[|outs| - 1], maxWaitCycles)
  }

  /** The tick as the provider meets it, its own callbacks included. */
  function TickOf(st: Adding, out: Outside, maxWaitCycles: nat): Tick {
    var mid := Incoming(st, out.tick, maxWaitCycles);
    if mid.provider.active == map[] then Called(out.tick)
    else
      Called(out.tick).(driving := Answering(Current(mid), out.resolved, out.tick.driving, maxWaitCycles))
  }

  function TicksOf(outs: seq<Outside>, maxWaitCycles: nat): seq<Tick> {
    if outs == [] then []
    else
      var n := |outs| - 1;
      TicksOf(outs[..n], maxWaitCycles) + [TickOf(AddRun(outs[..n], maxWaitCycles), outs[n], maxWaitCycles)]
  }

  lemma CycleIsCycle(st: Adding, out: Outside, maxWaitCycles: nat)
    ensures AddCycle(st, out, maxWaitCycles).provider ==
      Cycle(QueueIncoming, st.provider, TickOf(st, out, maxWaitCycles)).provider
  {
    var tick := TickOf(st, out, maxWaitCycles);
    DrivingComesLater(st.provider, Called(out.tick), tick.driving);
    assert tick == Called(out.tick).(driving := tick.driving);
  }

  /** How sessions are driven makes no difference to what comes before. */
  lemma DrivingComesLater(p: Provider, tick: Tick, driving: Script)
    ensures HandleIncomingCommand(QueueIncoming, p, tick.(driving := driving)) ==
      HandleIncomingCommand(QueueIncoming, p, tick)
  {
  }

  /** The provider with its callbacks runs as a queueing command provider. */
  lemma {:induction false} AddRunIsRun(outs: seq<Outside>, maxWaitCycles: nat)
    ensures AddRun(outs, maxWaitCycles).provider == Run(QueueIncoming, TicksOf(outs, maxWaitCycles))
  {
    if outs != [] {
      var n := |outs| - 1;
      var st := AddRun(outs[..n], maxWaitCycles);
      AddRunIsRun(outs[..n], maxWaitCycles);
      CycleIsCycle(st, outs[n], maxWaitCycles);
      var tick := TickOf(st, outs[n], maxWaitCycles);
      assert (TicksOf(outs[..n], maxWaitCycles) + [tick])[..|TicksOf(outs[..n], maxWaitCycles)|] ==
        TicksOf(outs[..n], maxWaitCycles);
    }
  }

  // ---- the lives of the active sessions ----

  /** What is kept of a session's life; with the largest maximum only that a session that has ended has no entry. */
  ghost predicate Sane(life: Life, maxWaitCycles: nat) {
    var sane := (Over(life.session) ==> life.entry == None) &&
      (maxWaitCycles < COUNTER_SIZE - 1 ==> Bounded(life, maxWaitCycles));
    sane
  }

  lemma HappeningKeepsSane(life: Life, h: Happening, maxWaitCycles: nat)
    requires Sane(life, maxWaitCycles)
    ensures Sane(Happen(life, h, maxWaitCycles), maxWaitCycles)
    ensures Happen(life, h, maxWaitCycles).session.id == life.session.id
  {
    if maxWaitCycles < COUNTER_SIZE - 1 { HappeningKeepsBound(life, h, maxWaitCycles); }
  }

  lemma FreshIsSane(s: Session, maxWaitCycles: nat)
    requires s.phase == FRESH
    ensures Sane(Life(s, None, 0), maxWaitCycles)
  {
  }

  /** From position k on, the script has the callbacks' answers for the rounds the session is in for. */
  ghost predicate Answered(
    life: Life, resolved: CommandStateResult, raw: Script, script: Script, k: nat, maxWaitCycles: nat)
  {
    forall j: nat ::
      script(k + j) == Callback(Round(life.session.phase.status, j), life.entry, resolved, raw(k + j), maxWaitCycles)
  }

  lemma AnswersNext(
    life: Life, next: Life, resolved: CommandStateResult, raw: Script, script: Script, k: nat, maxWaitCycles: nat)
    requires Answered(life, resolved, raw, script, k, maxWaitCycles) && next.entry == life.entry
    requires next.session.phase.status == Round(life.session.phase.status, 1)
    requires life.session.phase.status == Issued || life.session.phase.status == Commanded
    ensures Answered(next, resolved, raw, script, k + 1, maxWaitCycles)
  {
    forall j: nat
      ensures script(k + 1 + j) ==
        Callback(Round(next.session.phase.status, j), next.entry, resolved, raw(k + 1 + j), maxWaitCycles)
    {
      assert script(k + (1 + j)) ==
        Callback(Round(life.session.phase.status, 1 + j), life.entry, resolved, raw(k + (1 + j)), maxWaitCycles);
    }
  }

  /** Driving a session with the callbacks' answers takes it through its life. */
  lemma {:induction false} DrivingIsLiving(
      life: Life, resolved: CommandStateResult, raw: Script, script: Script, k: nat, maxWaitCycles: nat)
    requires Sane(life, maxWaitCycles)
    requires Answered(life, resolved, raw, script, k, maxWaitCycles)
    ensures var after := DrivenLife(life, resolved, raw, k, maxWaitCycles);
      Drive(life.session, script, k).session == after.session && Sane(after, maxWaitCycles)
    decreases 3 - Rank(life.session.phase.status)
  {
    var status, answers := life.session.phase.status, script(k);
    var next := Happen(life, Cycled(resolved, raw(k)), maxWaitCycles);
    assert script(k + 0) == Callback(Round(status, 0), life.entry, resolved, raw(k + 0), maxWaitCycles);
    HappensAsCycled(life, resolved, raw(k), maxWaitCycles);
    HappeningKeepsSane(life, Cycled(resolved, raw(k)), maxWaitCycles);
    CyclingRises(life.session, answers);
    if CycleSession(life.session, answers).ok && next.session.phase.status != status {
      if Over(next.session) {
        OverStays(next, resolved, raw, script, k + 1, maxWaitCycles);
      } else {
        AnswersNext(life, next, resolved, raw, script, k, maxWaitCycles);
        DrivingIsLiving(next, resolved, raw, script, k + 1, maxWaitCycles);
      }
    }
  }

  /** A session that has ended is not driven on. */
  lemma OverStays(life: Life, resolved: CommandStateResult, raw: Script, script: Script, k: nat, maxWaitCycles: nat)
    requires Over(life.session)
    ensures DrivenLife(life, resolved, raw, k, maxWaitCycles) == life
    ensures Drive(life.session, script, k).session == life.session
  {
  }

  // ---- what every cycle keeps ----

  /** At most one session is active, the one made active last; entries belong to it, and its life is sane. */
  ghost predicate Tracked(st: Adding, maxWaitCycles: nat) {
    var p := st.provider;
    var tracked :=
      && Filed(p) && |st.executed| == |p.started|
      && (forall g :: g in p.active ==> p.started != [] && g == p.started[|p.started| - 1])
      && (forall g :: g in p.active ==> Sane(LifeOf(st, p.active[g]), maxWaitCycles))
      && (forall g :: g in st.pending ==> g in p.active);
    tracked
  }

  lemma WithdrawnHasNoEntry(life: Life, a: Answers, maxWaitCycles: nat)
    requires Sane(life, maxWaitCycles)
    ensures Happen(life, Withdrawn(a), maxWaitCycles).entry == None
  {
  }

  lemma OnlyOne(p: Provider, id: Guid)
    requires id in p.active && forall g :: g in p.active ==> p.started != [] && g == p.started[|p.started| - 1]
    ensures forall g :: g in p.active ==> g == id
  {
  }

  lemma CancelActiveTracked(st: Adding, id: Guid, a: Answers, maxWaitCycles: nat)
    requires Tracked(st, maxWaitCycles) && id in st.provider.active
    ensures var r := CancelActive(st.provider, id, a); r.ok ==>
      Tracked(Adding(r.provider, st.pending - {id}, Extended(st.executed, |r.provider.started|)), maxWaitCycles)
  {
    var p, r := st.provider, CancelActive(st.provider, id, a);
    OnlyOne(p, id);
    if r.ok && p.queue != [] && p.queue[0].id != id { FreshIsSane(p.queue[0], maxWaitCycles); }
  }

  lemma CancelQueuedTracked(st: Adding, i: nat, a: Answers, maxWaitCycles: nat)
    requires Tracked(st, maxWaitCycles) && i < |st.provider.queue|
    ensures var q := CancelQueued(st.provider, i, a).provider;
      Tracked(Adding(q, st.pending, Extended(st.executed, |q.started|)), maxWaitCycles)
  {
  }

  lemma AmendTracked(st: Adding, tick: Tick, maxWaitCycles: nat)
    requires Tracked(st, maxWaitCycles)
    requires tick.sample.data.sessionID in st.provider.active && tick.sample.status == ReadSuccess
    ensures Tracked(Incoming(st, tick, maxWaitCycles), maxWaitCycles)
  {
    var p, command, called := st.provider, tick.sample.data, Called(tick);
    var id := command.sessionID;
    var life := LifeOf(st, p.active[id]);
    var amended := Amended(command, tick.incoming(0), tick.incoming(1));
    var after := Happen(life, amended, maxWaitCycles);
    HappeningKeepsSane(life, amended, maxWaitCycles);
    var q := Amend(p, command, called.incoming(0), called.incoming(1)).provider;
    OnlyOne(p, id);
    assert q.active[id] == after.session;
    var mid := Incoming(st, tick, maxWaitCycles);
    assert mid.provider == q && mid.executed == st.executed;
    assert LifeOf(mid, after.session) == after;
  }

  lemma AdmitTracked(st: Adding, command: Command, a: Answers, maxWaitCycles: nat)
    requires Tracked(st, maxWaitCycles) && st.provider.active == map[]
    ensures var q := Admit(st.provider, command, a).provider;
      Tracked(Adding(q, st.pending, Extended(st.executed, |q.started|)), maxWaitCycles)
  {
    FreshIsSane(Published(Opened(command), FRESH, a.status), maxWaitCycles);
  }

  lemma OnlyItsEntry(st: Adding, id: Guid, maxWaitCycles: nat)
    requires Tracked(st, maxWaitCycles) && id in st.provider.active
    ensures st.pending - {id} == map[]
  {
    OnlyOne(st.provider, id);
    assert forall g :: g in st.pending ==> g in st.provider.active;
  }

  lemma IncomingTracked(st: Adding, tick: Tick, maxWaitCycles: nat)
    requires Tracked(st, maxWaitCycles)
    ensures var mid := Incoming(st, tick, maxWaitCycles);
      && (HandleIncomingCommand(QueueIncoming, st.provider, Called(tick)).ok ==> Tracked(mid, maxWaitCycles))
      && (Tracked(mid, maxWaitCycles) || mid.pending == map[])
  {
    var p, id, a := st.provider, tick.sample.data.sessionID, Called(tick).incoming(0);
    var i := FirstWithId(p.queue, id);
    if tick.sample.status == Disposed && id in p.active {
      WithdrawnHasNoEntry(LifeOf(st, p.active[id]), tick.incoming(0), maxWaitCycles);
      CancelActiveTracked(st, id, a, maxWaitCycles);
      OnlyItsEntry(st, id, maxWaitCycles);
    } else if tick.sample.status == Disposed && i < |p.queue| {
      assert AfterIncoming(st, tick, maxWaitCycles) == st.pending;
      CancelQueuedTracked(st, i, a, maxWaitCycles);
    } else if tick.sample.status == ReadSuccess {
      if id in p.active {
        AmendTracked(st, tick, maxWaitCycles);
      } else if p.active == map[] {
        AdmitTracked(st, tick.sample.data, a, maxWaitCycles);
      }
    }
  }

  /** Handling a command makes at most one session active and changes no count. */
  lemma IncomingStarts(st: Adding, tick: Tick, maxWaitCycles: nat)
    requires |st.executed| == |st.provider.started|
    ensures var mid := Incoming(st, tick, maxWaitCycles);
      && st.provider.started <= mid.provider.started && st.executed <= mid.executed
      && |mid.executed| == |mid.provider.started|
      && forall i :: |st.executed| <= i < |mid.executed| ==> mid.executed[i] == 0
  {
  }

  /** Once all sessions have failed, none is active and nothing is left to wait for. */
  lemma FailedTracked(st: Adding, tick: Tick, maxWaitCycles: nat)
    requires Filed(st.provider) && |st.executed| == |st.provider.started|
    requires Tracked(st, maxWaitCycles) || st.pending == map[]
    ensures Tracked(Failed(st, tick), maxWaitCycles) && Failed(st, tick).provider.active == map[]
    ensures Failed(st, tick).provider.started == st.provider.started
  {
    FailAllKeepsFiled(st.provider, Called(tick).failing);
    forall g | g in st.pending && g in st.provider.active ensures !Over(st.provider.active[g]) {
      assert Sane(LifeOf(st, st.provider.active[g]), maxWaitCycles);
    }
  }

  /** The provider after the one active session was driven to the state s. */
  lemma DrivenOne(p: Provider, g: Guid, script: Script)
    requires g in p.active && forall h :: h in p.active ==> h == g
    ensures var q, r := CommandModel.Driven(p, script), Drive(p.active[g], script, 0);
      && q.active == (if r.ok && Over(r.session) then map[] else map[g := r.session])
      && q.queue == p.queue && q.started == p.started
      && q.retired == p.retired + if r.ok && Over(r.session) then [r.session] else []
  {
    SweepOne(Driving(script), p.active, g);
  }

  /** Driving counts at most one executing cycle. */
  lemma {:induction false} DrivingCountsOne(
      life: Life, resolved: CommandStateResult, raw: Script, k: nat, maxWaitCycles: nat)
    ensures var after := DrivenLife(life, resolved, raw, k, maxWaitCycles);
      && life.executed <= after.executed <= life.executed + 1
      && (Over(life.session) ==> after.executed == life.executed)
      && after.session.id == life.session.id
    decreases 3 - Rank(life.session.phase.status)
  {
    var next := Happen(life, Cycled(resolved, raw(k)), maxWaitCycles);
    var answers := Callback(life.session.phase.status, life.entry, resolved, raw(k), maxWaitCycles);
    HappensAsCycled(life, resolved, raw(k), maxWaitCycles);
    CyclingRises(life.session, answers);
    if CycleSession(life.session, answers).ok && next.session.phase.status != life.session.phase.status {
      DrivingCountsOne(next, resolved, raw, k + 1, maxWaitCycles);
    }
  }

  lemma DrivenTracked(st: Adding, g: Guid, q: Provider, after: Life, maxWaitCycles: nat)
    requires Tracked(st, maxWaitCycles) && g in st.provider.active && after.session.id == g
    requires Sane(after, maxWaitCycles) && Filed(q)
    requires q.started == st.provider.started
    requires q.active == map[g := after.session] || (q.active == map[] && Over(after.session))
    ensures Tracked(Adding(q, Put(st.pending, g, after.entry), Counted(st.executed, after.executed)), maxWaitCycles)
  {
    OnlyOne(st.provider, g);
    var r := Adding(q, Put(st.pending, g, after.entry), Counted(st.executed, after.executed));
    assert LifeOf(r, after.session) == after;
  }

  lemma LetInTracked(st: Adding, maxWaitCycles: nat)
    requires Tracked(st, maxWaitCycles)
    ensures var q := LetIn(QueueIncoming, st.provider);
      Tracked(Adding(q, st.pending, Extended(st.executed, |q.started|)), maxWaitCycles)
  {
    var p := st.provider;
    if p.active == map[] && p.queue != [] { FreshIsSane(p.queue[0], maxWaitCycles); }
  }

  lemma DrivingTracked(st: Adding, out: Outside, maxWaitCycles: nat)
    requires Tracked(st, maxWaitCycles) && st.provider.active != map[]
    ensures Tracked(AfterDriving(st, out, maxWaitCycles), maxWaitCycles)
  {
    var p, g, life := st.provider, FirstActive(st.provider), Current(st);
    var script := Answering(life, out.resolved, out.tick.driving, maxWaitCycles);
    var after := DrivenLife(life, out.resolved, out.tick.driving, 0, maxWaitCycles);
    DrivingIsLiving(life, out.resolved, out.tick.driving, script, 0, maxWaitCycles);
    DrivingCountsOne(life, out.resolved, out.tick.driving, 0, maxWaitCycles);
    OnlyOne(p, g);
    DrivenOne(p, g, script);
    var q := CommandModel.Driven(p, script);
    DrivenTracked(st, g, q, after, maxWaitCycles);
    LetInTracked(Adding(q, Put(st.pending, g, after.entry), Counted(st.executed, after.executed)), maxWaitCycles);
  }

  lemma CycleTracked(st: Adding, out: Outside, maxWaitCycles: nat)
    requires Tracked(st, maxWaitCycles)
    ensures Tracked(AddCycle(st, out, maxWaitCycles), maxWaitCycles)
  {
    var mid := Incoming(st, out.tick, maxWaitCycles);
    IncomingTracked(st, out.tick, maxWaitCycles);
    if !out.tick.awake && st.provider.active != map[] {
      FailedTracked(st, out.tick, maxWaitCycles);
    } else if !HandleIncomingCommand(QueueIncoming, st.provider, Called(out.tick)).ok {
      IncomingStarts(st, out.tick, maxWaitCycles);
      IncomingKeepsFiled(QueueIncoming, st.provider, Called(out.tick));
      FailedTracked(mid, out.tick, maxWaitCycles);
    } else if mid.provider.active != map[] {
      DrivingTracked(mid, out, maxWaitCycles);
    }
  }

  /** No session has had more executing cycles than the maximum and one. */
  ghost predicate Limited(executed: seq<nat>, maxWaitCycles: nat) {
    forall i :: 0 <= i < |executed| ==> executed[i] <= maxWaitCycles + 1
  }

  /** The counts go on: at most the last one has risen, by one, and new ones begin at zero. */
  ghost predicate GoesOn(before: seq<nat>, after: seq<nat>) {
    var n := |before|;
    var goesOn :=
      && n <= |after| && (forall i :: 0 <= i < n - 1 ==> after[i] == before[i])
      && (n > 0 ==> before[n - 1] <= after[n - 1] <= before[n - 1] + 1)
      && (forall i :: n <= i < |after| ==> after[i] == 0);
    goesOn
  }

  lemma CountedGoesOn(executed: seq<nat>, n: nat, m: nat)
    requires executed != [] && Count(executed) <= n <= Count(executed) + 1
    ensures GoesOn(executed, Extended(Counted(executed, n), m))
  {
    var counted := Counted(executed, n);
    var after := Extended(counted, m);
    assert forall i :: 0 <= i < |counted| ==> after[i] == counted[i];
  }

  lemma DrivenCount(st: Adding, out: Outside, maxWaitCycles: nat)
    requires Tracked(st, maxWaitCycles) && st.provider.active != map[]
    ensures var n := DrivenLife(Current(st), out.resolved, out.tick.driving, 0, maxWaitCycles).executed;
      && st.executed != [] && Count(st.executed) <= n <= Count(st.executed) + 1
      && (maxWaitCycles < COUNTER_SIZE - 1 ==> n <= maxWaitCycles + 1)
  {
    var life := Current(st);
    var script := Answering(life, out.resolved, out.tick.driving, maxWaitCycles);
    DrivingIsLiving(life, out.resolved, out.tick.driving, script, 0, maxWaitCycles);
    DrivingCountsOne(life, out.resolved, out.tick.driving, 0, maxWaitCycles);
  }

  lemma DrivingGoesOn(st: Adding, out: Outside, maxWaitCycles: nat)
    requires Tracked(st, maxWaitCycles) && st.provider.active != map[]
    ensures GoesOn(st.executed, AfterDriving(st, out, maxWaitCycles).executed)
    ensures maxWaitCycles < COUNTER_SIZE - 1 ==>
      AfterDriving(st, out, maxWaitCycles).executed[|st.executed| - 1] <= maxWaitCycles + 1
  {
    DrivenCount(st, out, maxWaitCycles);
    var after := AfterDriving(st, out, maxWaitCycles);
    var n := DrivenLife(Current(st), out.resolved, out.tick.driving, 0, maxWaitCycles).executed;
    CountedGoesOn(st.executed, n, |after.provider.started|);
    assert Counted(st.executed, n)[|st.executed| - 1] == n;
  }

  lemma LimitedOn(before: seq<nat>, after: seq<nat>, maxWaitCycles: nat)
    requires GoesOn(before, after) && Limited(before, maxWaitCycles)
    requires before != [] ==> after[|before| - 1] <= maxWaitCycles + 1
    ensures Limited(after, maxWaitCycles)
  {
  }

  lemma IncomingLimited(st: Adding, tick: Tick, maxWaitCycles: nat)
    requires |st.executed| == |st.provider.started| && Limited(st.executed, maxWaitCycles)
    ensures Limited(Incoming(st, tick, maxWaitCycles).executed, maxWaitCycles)
  {
    IncomingStarts(st, tick, maxWaitCycles);
  }

  lemma DrivingLimited(st: Adding, out: Outside, maxWaitCycles: nat)
    requires Tracked(st, maxWaitCycles) && st.provider.active != map[] && maxWaitCycles < COUNTER_SIZE - 1
    requires Limited(st.executed, maxWaitCycles)
    ensures Limited(AfterDriving(st, out, maxWaitCycles).executed, maxWaitCycles)
  {
    DrivingGoesOn(st, out, maxWaitCycles);
    LimitedOn(st.executed, AfterDriving(st, out, maxWaitCycles).executed, maxWaitCycles);
  }

  lemma CycleLimited(st: Adding, out: Outside, maxWaitCycles: nat)
    requires Tracked(st, maxWaitCycles) && Limited(st.executed, maxWaitCycles) && maxWaitCycles < COUNTER_SIZE - 1
    ensures Limited(AddCycle(st, out, maxWaitCycles).executed, maxWaitCycles)
  {
    var mid := Incoming(st, out.tick, maxWaitCycles);
    IncomingLimited(st, out.tick, maxWaitCycles);
    IncomingTracked(st, out.tick, maxWaitCycles);
    if
      && (out.tick.awake || st.provider.active == map[]) && mid.provider.active != map[]
      && HandleIncomingCommand(QueueIncoming, st.provider, Called(out.tick)).ok
    {
      DrivingLimited(mid, out, maxWaitCycles);
    }
  }

  // ---- how a cycle of the provider ends a session ----

  /** A session has had its executing cycle, and has come to its end or gone on. */
  ghost predicate LivesTo(life: Life, after: Life, end: Option<Phase>) {
    var s, t, way := life.session, after.session, WayToExecuting(life.session.phase.status);
    var lives :=
      && t.id == s.id && t.command == s.command && after.executed == life.executed + 1
      && t.trail == s.trail + way + (if end.Some? then [end.value] else [])
      && (if end.Some? then t.phase == end.value
          else t.phase.status == Executing && (way == [] ==> t.phase == s.phase));
    lives
  }

  /**
   Driving a valid session with delivered sends takes it to its executing cycle, and from there to its end or back to
   waiting.
   */
  lemma {:induction false} DrivingEnds(
      life: Life, resolved: CommandStateResult, raw: Script, k: nat, maxWaitCycles: nat)
    requires Bounded(life, maxWaitCycles) && maxWaitCycles < COUNTER_SIZE - 1 && !Over(life.session)
    requires forall j: nat :: Delivers(raw(j))
    ensures LivesTo(life, DrivenLife(life, resolved, raw, k, maxWaitCycles),
                    EndOf(resolved, life.executed, maxWaitCycles))
    decreases 3 - Rank(life.session.phase.status)
  {
    assert Delivers(raw(k));
    if life.session.phase.status == Executing {
      ExecutesLast(life, resolved, raw, k, maxWaitCycles);
      ExecutingEnds(life, resolved, raw(k), maxWaitCycles);
    } else {
      var next := Happen(life, Cycled(resolved, raw(k)), maxWaitCycles);
      HappeningKeepsBound(life, Cycled(resolved, raw(k)), maxWaitCycles);
      StepsOn(life, resolved, raw(k), maxWaitCycles);
      DrivingEnds(next, resolved, raw, k + 1, maxWaitCycles);
      LivesOn(life, next, DrivenLife(next, resolved, raw, k + 1, maxWaitCycles),
              EndOf(resolved, life.executed, maxWaitCycles));
    }
  }

  lemma LivesOn(life: Life, next: Life, after: Life, end: Option<Phase>)
    requires LivesTo(next, after, end) && next.executed == life.executed
    requires next.session.id == life.session.id && next.session.command == life.session.command
    requires next.session.trail == life.session.trail + [next.session.phase]
    requires WayToExecuting(life.session.phase.status) ==
      [next.session.phase] + WayToExecuting(next.session.phase.status)
    ensures LivesTo(life, after, end)
  {
  }

  /** Driving stops with an executing cycle. */
  lemma ExecutesLast(life: Life, resolved: CommandStateResult, raw: Script, k: nat, maxWaitCycles: nat)
    requires life.session.phase.status == Executing
    ensures DrivenLife(life, resolved, raw, k, maxWaitCycles) ==
      Happen(life, Cycled(resolved, raw(k)), maxWaitCycles)
  {
    var next := Happen(life, Cycled(resolved, raw(k)), maxWaitCycles);
    HappensAsCycled(life, resolved, raw(k), maxWaitCycles);
    if Over(next.session) { OverStays(next, resolved, raw, raw, k + 1, maxWaitCycles); }
  }

  lemma StepsOn(life: Life, resolved: CommandStateResult, a: Answers, maxWaitCycles: nat)
    requires life.session.phase.status == Issued || life.session.phase.status == Commanded
    requires Delivers(a)
    ensures var status := life.session.phase.status;
      var phase := Phase(if status == Issued then CommandStatus.Commanded else CommandStatus.Executing, Succeeded);
      && Happen(life, Cycled(resolved, a), maxWaitCycles) ==
           life.(session := life.session.(phase := phase, trail := life.session.trail + [phase]))
      && CycleSession(life.session, Callback(status, life.entry, resolved, a, maxWaitCycles)).ok
      && WayToExecuting(status) == [phase] + WayToExecuting(phase.status)
  {
  }

  lemma {:induction false} DrivesWell(
      life: Life, resolved: CommandStateResult, raw: Script, script: Script, k: nat, maxWaitCycles: nat)
    requires Bounded(life, maxWaitCycles) && maxWaitCycles < COUNTER_SIZE - 1 && !Over(life.session)
    requires forall j: nat :: Delivers(raw(j))
    requires Answered(life, resolved, raw, script, k, maxWaitCycles)
    ensures Drive(life.session, script, k).ok
    decreases 3 - Rank(life.session.phase.status)
  {
    var status := life.session.phase.status;
    assert Delivers(raw(k));
    assert script(k + 0) == Callback(Round(status, 0), life.entry, resolved, raw(k + 0), maxWaitCycles);
    if status == Executing {
      var r := CycleSession(life.session, script(k));
      assert r.ok;
      if Over(r.session) { assert Drive(r.session, script, k + 1).ok; }
    } else {
      StepsOn(life, resolved, raw(k), maxWaitCycles);
      var next := Happen(life, Cycled(resolved, raw(k)), maxWaitCycles);
      AnswersNext(life, next, resolved, raw, script, k, maxWaitCycles);
      HappeningKeepsBound(life, Cycled(resolved, raw(k)), maxWaitCycles);
      DrivesWell(next, resolved, raw, script, k + 1, maxWaitCycles);
    }
  }

  /** What driving makes of a session and its entry: it waits on, or it is destroyed in the phase it ended in. */
  ghost predicate Concluded(mid: Adding, s: Session, end: Option<Phase>, r: Adding) {
    var trail, n := s.trail + WayToExecuting(s.phase.status), Count(mid.executed);
    if end == None then
      && r.provider.active.Keys == {s.id} && r.provider.active[s.id].phase.status == Executing
      && r.provider.active[s.id].command == s.command && r.provider.active[s.id].trail == trail
      && r.provider.retired == mid.provider.retired
      && Entry(r.pending, s.id) == Some(PendingAdd(n + 1, false, Succeeded)) && Count(r.executed) == n + 1
    else
      && |r.provider.retired| == |mid.provider.retired| + 1 && mid.provider.retired <= r.provider.retired
      && s.id !in r.pending
      && var x := r.provider.retired[|mid.provider.retired|];
        x.id == s.id && x.command == s.command && x.phase == end.value && x.trail == trail + [end.value]
  }

  /** The provider once the session has been driven well, before another is let in. */
  lemma DrivenWell(mid: Adding, out: Outside, maxWaitCycles: nat)
    requires Tracked(mid, maxWaitCycles) && mid.provider.active != map[] && maxWaitCycles < COUNTER_SIZE - 1
    requires !Over(Current(mid).session) && forall k: nat :: Delivers(out.tick.driving(k))
    ensures var life := Current(mid);
      var after := DrivenLife(life, out.resolved, out.tick.driving, 0, maxWaitCycles);
      var q := CommandModel.Driven(mid.provider, Answering(life, out.resolved, out.tick.driving, maxWaitCycles));
      && Bounded(life, maxWaitCycles) && Sane(after, maxWaitCycles)
      && q.active == (if Over(after.session) then map[] else map[life.session.id := after.session])
      && q.started == mid.provider.started
      && q.retired == mid.provider.retired + if Over(after.session) then [after.session] else []
  {
    var p, g, life, raw := mid.provider, FirstActive(mid.provider), Current(mid), out.tick.driving;
    assert Sane(life, maxWaitCycles);
    DrivesTo(life, out.resolved, raw, maxWaitCycles);
    OnlyOne(p, g);
    DrivenOne(p, g, Answering(life, out.resolved, raw, maxWaitCycles));
  }

  lemma DrivesTo(life: Life, resolved: CommandStateResult, raw: Script, maxWaitCycles: nat)
    requires Bounded(life, maxWaitCycles) && Sane(life, maxWaitCycles) && maxWaitCycles < COUNTER_SIZE - 1
    requires !Over(life.session) && forall k: nat :: Delivers(raw(k))
    ensures var after := DrivenLife(life, resolved, raw, 0, maxWaitCycles);
      && Sane(after, maxWaitCycles)
      && Drive(life.session, Answering(life, resolved, raw, maxWaitCycles), 0) == Outcome(after.session, true)
  {
    var script := Answering(life, resolved, raw, maxWaitCycles);
    assert Answered(life, resolved, raw, script, 0, maxWaitCycles);
    DrivingIsLiving(life, resolved, raw, script, 0, maxWaitCycles);
    DrivesWell(life, resolved, raw, script, 0, maxWaitCycles);
  }

  lemma LetInKeeps(p: Provider)
    ensures var q := LetIn(QueueIncoming, p);
      q.retired == p.retired && p.started <= q.started && (p.active != map[] ==> q == p)
  {
  }

  lemma DrivingConcludes(mid: Adding, out: Outside, maxWaitCycles: nat)
    requires Tracked(mid, maxWaitCycles) && mid.provider.active != map[] && maxWaitCycles < COUNTER_SIZE - 1
    requires !Over(Current(mid).session) && forall k: nat :: Delivers(out.tick.driving(k))
    ensures Concluded(mid, Current(mid).session, EndOf(out.resolved, Count(mid.executed), maxWaitCycles),
                      AfterDriving(mid, out, maxWaitCycles))
  {
    var life, raw := Current(mid), out.tick.driving;
    DrivenWell(mid, out, maxWaitCycles);
    DrivingEnds(life, out.resolved, raw, 0, maxWaitCycles);
    var after := DrivenLife(life, out.resolved, raw, 0, maxWaitCycles);
    var q := CommandModel.Driven(mid.provider, Answering(life, out.resolved, raw, maxWaitCycles));
    LetInKeeps(q);
    Concludes(mid, life, after, q, AfterDriving(mid, out, maxWaitCycles),
              EndOf(out.resolved, life.executed, maxWaitCycles), maxWaitCycles);
  }

  lemma Concludes(
    mid: Adding, life: Life, after: Life, q: Provider, r: Adding, end: Option<Phase>, maxWaitCycles: nat)
    requires life.executed == Count(mid.executed) && Sane(after, maxWaitCycles) && maxWaitCycles < COUNTER_SIZE - 1
    requires |mid.executed| == |mid.provider.started| > 0 && q.started == mid.provider.started
    requires LivesTo(life, after, end) && (end.Some? ==> Over(after.session))
    requires q.active == if Over(after.session) then map[] else map[life.session.id := after.session]
    requires q.retired == mid.provider.retired + if Over(after.session) then [after.session] else []
    requires r.provider == LetIn(QueueIncoming, q) && r.provider.retired == q.retired
    requires r.pending == Put(mid.pending, after.session.id, after.entry)
    requires r.executed == Extended(Counted(mid.executed, after.executed), |r.provider.started|)
    ensures Concluded(mid, life.session, end, r)
  {
    if end == None {
      assert !Over(after.session);
      assert life.session.id in q.active;
    }
  }

  /**
   A cycle of the provider in which a valid session is active, and its sends are delivered, takes it to its end: it is
   completed if its payload was resolved and published, failed on an error or when its wait is over, and destroyed with
   that as its last published status; otherwise it has waited once more.
   */
  lemma CycleConcludes(outs: seq<Outside>, out: Outside, maxWaitCycles: nat)
    requires maxWaitCycles < COUNTER_SIZE - 1 && forall k: nat :: Delivers(out.tick.driving(k))
    requires var st := AddRun(outs, maxWaitCycles);
      var mid := Incoming(st, out.tick, maxWaitCycles);
      && (out.tick.awake || st.provider.active == map[])
      && HandleIncomingCommand(QueueIncoming, st.provider, Called(out.tick)).ok
      && mid.provider.active != map[] && !Over(Current(mid).session)
    ensures var mid := Incoming(AddRun(outs, maxWaitCycles), out.tick, maxWaitCycles);
      Concluded(mid, Current(mid).session, EndOf(out.resolved, Count(mid.executed), maxWaitCycles),
                AddRun(outs + [out], maxWaitCycles))
  {
    var st := AddRun(outs, maxWaitCycles);
    EntriesAreActive(outs, maxWaitCycles);
    IncomingTracked(st, out.tick, maxWaitCycles);
    DrivingConcludes(Incoming(st, out.tick, maxWaitCycles), out, maxWaitCycles);
    assert (outs + [out])[..|outs|] == outs;
  }

  /**
   Over every run of the provider, whatever fails and whatever the largest wait: at most one session is active, and
   every pending entry is under the identifier of the active session, which has not ended.
   */
  lemma {:induction false} EntriesAreActive(outs: seq<Outside>, maxWaitCycles: nat)
    ensures var st := AddRun(outs, maxWaitCycles);
      && Tracked(st, maxWaitCycles) && |st.provider.active| <= 1
      && (forall g :: g in st.pending ==> g in st.provider.active && !Over(st.provider.active[g]))
    decreases |outs|
  {
    if outs != [] {
      var n := |outs| - 1;
      EntriesAreActive(outs[..n], maxWaitCycles);
      CycleTracked(AddRun(outs[..n], maxWaitCycles), outs[n], maxWaitCycles);
    }
    var st := AddRun(outs, maxWaitCycles);
    AllAlike(st.provider.active.Keys);
    forall g | g in st.pending ensures !Over(st.provider.active[g]) {
      assert Sane(LifeOf(st, st.provider.active[g]), maxWaitCycles);
    }
  }

  /**
   Over every run of the provider, whatever fails and however commands, updates and cancellations follow each other: no
   session ever made active has more than maxWaitCycles + 1 executing cycles, and one that has so many has ended.
   */
  lemma {:induction false} NoSessionWaitsLonger(outs: seq<Outside>, maxWaitCycles: nat)
    requires maxWaitCycles < COUNTER_SIZE - 1
    ensures var st := AddRun(outs, maxWaitCycles);
      && |st.executed| == |st.provider.started|
      && (forall i :: 0 <= i < |st.executed| ==> st.executed[i] <= maxWaitCycles + 1)
      && (forall g :: g in st.provider.active && Count(st.executed) == maxWaitCycles + 1 ==>
            Over(st.provider.active[g]))
    decreases |outs|
  {
    EntriesAreActive(outs, maxWaitCycles);
    if outs != [] {
      var n := |outs| - 1;
      NoSessionWaitsLonger(outs[..n], maxWaitCycles);
      EntriesAreActive(outs[..n], maxWaitCycles);
      CycleLimited(AddRun(outs[..n], maxWaitCycles), outs[n], maxWaitCycles);
    }
    var st := AddRun(outs, maxWaitCycles);
    forall g | g in st.provider.active && Count(st.executed) == maxWaitCycles + 1 ensures Over(st.provider.active[g]) {
      assert Sane(LifeOf(st, st.provider.active[g]), maxWaitCycles);
    }
  }

  // ---- the provider's callbacks ----

  class ConditionalAddProvider {
    const knownTopics: set<string>
    const supportedTopics: set<string>
    const maxWaitCycles: nat
    var pending: map<Guid, PendingAdd>

    constructor (known: set<string>, supported: set<string>, maxWaitCycles: nat)
      requires maxWaitCycles < COUNTER_SIZE
      ensures pending == map[] && this.maxWaitCycles == maxWaitCycles
    {
      knownTopics, supportedTopics := known, supported;
      this.maxWaitCycles := maxWaitCycles;
      pending := map[];
    }

    method IsCommandValid(conditionalId: Guid, topic: string) returns (valid: bool)
      ensures valid <==>
        conditionalId != NIL_GUID && topic in knownTopics && (supportedTopics == {} || topic in supportedTopics)
    {
      if conditionalId == NIL_GUID { return false; }
      if topic !in knownTopics { return false; }
      if supportedTopics != {} && topic !in supportedTopics { return false; }
      valid := true;
    }

    /** One executing cycle of a session, given what came of resolving its payload. */
    method OnExecuting(id: Guid, resolved: CommandStateResult) returns (result: CommandStateResult)
      modifies this
      ensures var p := Wait(if id in old(pending) then old(pending)[id] else NEW_ADD, resolved, maxWaitCycles);
        result == p.result && pending == old(pending)[id := p.state]
    {
      if id !in pending { pending := pending[id := NEW_ADD]; }
      var state := pending[id];
      if state.published || state.failReason != Succeeded { return Stay; }
      result := resolved;
      if resolved == Advance {
        state := state.(published := true);
      } else if resolved == Stay {
        state := state.(waitCycles := (state.waitCycles + 1) % COUNTER_SIZE);
        if state.waitCycles > maxWaitCycles { state := state.(failReason := Timeout); }
      }
      pending := pending[id := state];
    }

    method IsCommandCompleted(id: Guid) returns (completed: bool)
      ensures completed <==> id in pending && pending[id].published
    {
      completed := id in pending && pending[id].published;
    }

    method IsCommandFailed(id: Guid) returns (reason: Reason)
      ensures reason == if id in pending then pending[id].failReason else Succeeded
    {
      reason := if id in pending then pending[id].failReason else Succeeded;
    }

    /** Drops the entry of a session that has completed, failed or been canceled. */
    method ErasePending(id: Guid)
      modifies this
      ensures pending == old(pending) - {id}
    {
      pending := pending - {id};
    }

    /** The executing cycle of one session, callbacks and all: its life goes on as described, and other entries stay. */
    method ExecutingCycle(s: Session, resolved: CommandStateResult, a: Answers, ghost executed: nat)
      returns (after: Session)
      requires s.phase.status == Executing
      modifies this
      ensures Life(after, Entry(pending, s.id), executed + 1) ==
        Execute(Life(s, Entry(old(pending), s.id), executed), resolved, a, maxWaitCycles)
      ensures pending - {s.id} == old(pending) - {s.id}
    {
      var result := OnExecuting(s.id, resolved);
      var reason := IsCommandFailed(s.id);
      var completed := IsCommandCompleted(s.id);
      var answers := Willing(a).(result := result, failure := reason, completed := completed);
      after := HandleExecuting(s, answers).session;
      if Over(after) { ErasePending(s.id); }
    }
  }
}
