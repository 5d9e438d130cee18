/**
 The updater sidecar's run machine (updater/src/index.ts): requests, script children, health
 waits and automatic rollback, as interleaved steps split at each await.
 */
module UpdaterRun {
  import opened Wrappers

  datatype Op = Apply | Rollback

  /** The requested script run, or the automatic rollback that may follow it. */
  datatype Phase = Main | Automatic

  /** What the child's promise will receive: its close code (null when killed by a signal), or a spawn error. */
  datatype ChildNews = Exit(code: Option<int>) | SpawnError

  /** Where a run is suspended. */
  datatype Pc =
    | MakingDir
    | WritingLog
    | Opening(phase: Phase)
    | AwaitingChild(phase: Phase, news: Option<ChildNews>)
    | ClosingLog(phase: Phase, code: Option<int>)
    | Checking(phase: Phase)
    | Sleeping(phase: Phase)
    | ReportingTimeout(phase: Phase)
    | AnnouncingRollback
    | ReportingFailure
    | Finished

  /** What has been observed of a run so far; nothing in the program reads it. */
  datatype Observed = Observed(
    prepareFailed: bool, threw: bool,
    mainExit: Option<int>, mainHealthy: Option<bool>, autoExit: Option<int>, autoHealthy: Option<bool>)

  datatype Run = Run(
    op: Op, target: Option<string>, pc: Pc, finished: bool, exitCode: Option<int>,
    rolledBack: Option<bool>, rollbackExitCode: Option<int>, seen: Observed)

  /** `processes` are the upgrade children the operating system is running, by run and phase. */
  datatype State = State(active: Option<nat>, runs: seq<Run>, processes: set<(nat, Phase)>)

  const INIT := State(None, [], {})

  datatype HealthReply = Ok | NotOk | Fault

  /** `expired` is the comparison of the clock with the health deadline, made when a wait starts or resumes. */
  datatype Event =
    | Request(op: Op, target: Option<string>, validRef: bool)
    | Filed(ok: bool)
    | Opened(ok: bool, spawned: bool)
    | ProcessEnds(code: Option<int>)
    | ChildReports
    | LogClosed(ok: bool, expired: bool)
    | HealthAnswer(reply: HealthReply)
    | Woke(expired: bool)
    | Appended

  // ---------- Steps of one run ----------

  function Finish(r: Run): Run {
    r.(pc := Finished, finished := true)
  }

  function Fail(r: Run): Run {
    r.(pc := ReportingFailure, exitCode := Some(-1), seen := r.seen.(threw := true))
  }

  function PrepareFails(r: Run): Run {
    Finish(r.(exitCode := Some(-1), seen := r.seen.(prepareFailed := true)))
  }

  function StartWait(r: Run, phase: Phase, expired: bool): Run {
    r.(pc := if expired then ReportingTimeout(phase) else Checking(phase))
  }

  function AfterScript(r: Run, phase: Phase, code: int, expired: bool): Run {
    match phase
    case Main =>
      var r' := r.(exitCode := Some(code), seen := r.seen.(mainExit := Some(code)));
      if r.op == Apply && code == 3 then r'.(pc := AnnouncingRollback)
      else if code == 0 then StartWait(r', Main, expired)
      else Finish(r')
    case Automatic =>
      var r' := r.(rollbackExitCode := Some(code), seen := r.seen.(autoExit := Some(code)));
      if code == 0 then StartWait(r', Automatic, expired)
      else Finish(r'.(rolledBack := Some(false), exitCode := Some(1)))
  }

  function AfterWait(r: Run, phase: Phase, healthy: bool): Run {
    match phase
    case Main =>
      var r' := r.(seen := r.seen.(mainHealthy := Some(healthy)));
      if healthy then Finish(r')
      else if r.op == Apply then r'.(pc := AnnouncingRollback)
      else Finish(r'.(exitCode := Some(1)))
    case Automatic =>
      Finish(r.(rolledBack := Some(healthy), exitCode := Some(1), seen := r.seen.(autoHealthy := Some(healthy))))
  }

  predicate Enabled(r: Run, e: Event) {
    match r.pc
    case MakingDir => e.Filed?
    case WritingLog => e.Filed?
    case Opening(_) => e.Opened?
    case AwaitingChild(_, news) => if news.Some? then e.ChildReports? else e.ProcessEnds?
    case ClosingLog(_, _) => e.LogClosed?
    case Checking(_) => e.HealthAnswer?
    case Sleeping(_) => e.Woke?
    case ReportingTimeout(_) => e.Appended?
    case AnnouncingRollback => e.Appended?
    case ReportingFailure => e.Appended?
    case Finished => false
  }

  function Advance(r: Run, e: Event): Run
    requires Enabled(r, e)
  {
    match r.pc
    case MakingDir => if e.ok then r.(pc := WritingLog) else PrepareFails(r)
    case WritingLog => if e.ok then r.(pc := Opening(Main)) else PrepareFails(r)
    case Opening(phase) =>
      if e.ok then r.(pc := AwaitingChild(phase, if e.spawned then None else Some(SpawnError))) else Fail(r)
    case AwaitingChild(phase, news) =>
      if news.None? then r.(pc := AwaitingChild(phase, Some(Exit(e.code))))
      else if news.value.Exit? then r.(pc := ClosingLog(phase, Some(news.value.code.GetOr(-1))))
      else r.(pc := ClosingLog(phase, None))
    case ClosingLog(phase, code) => if e.ok && code.Some? then AfterScript(r, phase, code.value, e.expired) else Fail(r)
    case Checking(phase) =>
      if e.reply == Ok then AfterWait(r, phase, true) else if e.reply == NotOk then r.(pc := Sleeping(phase))
        else Fail(r)
    case Sleeping(phase) => StartWait(r, phase, e.expired)
    case ReportingTimeout(phase) => AfterWait(r, phase, false)
    case AnnouncingRollback => r.(pc := Opening(Automatic))
    case ReportingFailure => Finish(r)
  }

  // ---------- Steps of the sidecar ----------

  predicate Busy(s: State) {
    s.active.Some? && s.active.value < |s.runs| && !s.runs[s.active.value].finished
  }

  /** A request is accepted when nothing is in progress and its target is acceptable. */
  predicate Accepts(s: State, op: Op, target: Option<string>, validRef: bool) {
    !Busy(s) && (op == Rollback || target.None? || validRef)
  }

  function NewRun(op: Op, target: Option<string>): Run {
    Run(op, if op == Rollback then None else target, MakingDir, false, None, None, None,
        Observed(false, false, None, None, None, None))
  }

  /** One event for run `i`; events that are not enabled change nothing. */
  function Step(s: State, i: nat, e: Event): State {
    if e.Request? then
      if Accepts(s, e.op, e.target, e.validRef) then
        s.(active := Some(|s.runs|), runs := s.runs + [NewRun(e.op, e.target)])
      else s
    else if i < |s.runs| && Enabled(s.runs[i], e) then
      var r := s.runs[i];
      s.(runs := s.runs[i := Advance(r, e)],
         processes :=
           if e.Opened? && e.ok && e.spawned then s.processes + {(i, r.pc.phase)}
           else if e.ProcessEnds? then s.processes - {(i, r.pc.phase)}
           else s.processes)
    else s
  }

  function Trace(events: seq<(nat, Event)>): State {
    if events == [] then INIT
    else
      var last := |events| - 1;
      Step(Trace(events[..last]), events[last].0, events[last].1)
  }

  // ---------- What every reachable state keeps ----------

  /** The two ways an apply run comes to need a rollback. */
  predicate RollbackWanted(r: Run) {
    r.op == Apply && (r.seen.mainExit == Some(3) || (r.seen.mainExit == Some(0) && r.seen.mainHealthy == Some(false)))
  }

  /** The exit code a finished run must carry, from what was observed of it. */
  function Verdict(r: Run): int {
    if r.seen.prepareFailed || r.seen.threw then -1
    else if RollbackWanted(r) then 1
    else if r.seen.mainExit != Some(0) then r.seen.mainExit.GetOr(0)
    else if r.seen.mainHealthy == Some(true) then 0
    else 1
  }

  function Recovered(r: Run): Option<bool> {
    if r.seen.threw || !RollbackWanted(r) then None
      else Some(r.seen.autoExit == Some(0) && r.seen.autoHealthy == Some(true))
  }

  predicate Unseen(r: Run) {
    r.seen == Observed(false, false, None, None, None, None)
  }

  /** A script of this phase is being run. */
  predicate InScript(r: Run, phase: Phase) {
    && !r.seen.prepareFailed && !r.seen.threw && r.seen.autoExit.None? && r.seen.autoHealthy.None?
    && if phase == Main then Unseen(r) else RollbackWanted(r)
  }

  /** The script of this phase exited 0 and its health wait is under way. */
  predicate InWait(r: Run, phase: Phase) {
    && !r.seen.prepareFailed && !r.seen.threw && r.seen.autoHealthy.None?
    && if phase == Main then r.seen.mainExit == Some(0) == r.exitCode && r.seen.mainHealthy.None?
      && r.seen.autoExit.None?
       else RollbackWanted(r) && r.seen.autoExit == Some(0)
  }

  /** A finished run's record is determined by what was observed, and nothing was left unobserved. */
  predicate Settled(r: Run) {
    && r.exitCode == Some(Verdict(r)) && r.rolledBack == Recovered(r)
    && (!r.seen.prepareFailed && !r.seen.threw ==>
          && r.seen.mainExit.Some?
          && (r.seen.mainExit == Some(0) <==> r.seen.mainHealthy.Some?)
          && (RollbackWanted(r) <==> r.seen.autoExit.Some?)
          && (r.seen.autoExit == Some(0) <==> r.seen.autoHealthy.Some?))
  }

  /** How a run's record, its observations and its suspension point fit together. */
  predicate Coherent(r: Run) {
    && (r.finished <==> r.pc == Finished)
    && (r.pc != Finished ==> r.rolledBack.None?)
    && r.rollbackExitCode == r.seen.autoExit
    && (r.seen.autoExit.Some? ==> RollbackWanted(r))
    && (r.seen.mainHealthy.Some? ==> r.seen.mainExit == Some(0))
    && (r.seen.prepareFailed ==> r.seen.mainExit.None?)
    && (match r.pc
        case MakingDir => Unseen(r)
        case WritingLog => Unseen(r)
        case Opening(phase) => InScript(r, phase)
        case AwaitingChild(phase, _) => InScript(r, phase)
        case ClosingLog(phase, _) => InScript(r, phase)
        case Checking(phase) => InWait(r, phase)
        case Sleeping(phase) => InWait(r, phase)
        case ReportingTimeout(phase) => InWait(r, phase)
        case AnnouncingRollback => InScript(r, Automatic)
        case ReportingFailure => r.seen.threw && !r.seen.prepareFailed && r.exitCode == Some(-1)
        case Finished => Settled(r))
  }

  lemma AdvanceKeepsCoherent(r: Run, e: Event)
    requires Coherent(r) && Enabled(r, e)
    ensures Coherent(Advance(r, e))
  {
  }

  // ---------- Every reachable state ----------

  ghost predicate Invariant(s: State) {
    && s.active == (if s.runs == [] then None else Some(|s.runs| - 1))
    && (forall i :: 0 <= i < |s.runs| - 1 ==> s.runs[i].finished)
    && (forall i :: 0 <= i < |s.runs| ==> Coherent(s.runs[i]))
    && (forall i: nat, phase :: (i, phase) in s.processes <==>
      i < |s.runs| && s.runs[i].pc == AwaitingChild(phase, None))
  }

  predicate Spawns(r: Run, e: Event) {
    r.pc.Opening? && e.Opened? && e.ok && e.spawned
  }

  /** A child is awaited exactly after its spawn, until its end. */
  lemma AwaitedChild(r: Run, e: Event, phase: Phase)
    requires Enabled(r, e)
    ensures Advance(r, e).pc == AwaitingChild(phase, None) <==> Spawns(r, e) && r.pc.phase == phase
    ensures e.ProcessEnds? <==> r.pc.AwaitingChild? && r.pc.news.None?
  {
  }

  lemma ReplacingRun(s: State, i: nat, r: Run, processes: set<(nat, Phase)>)
    requires Invariant(s) && i < |s.runs| && !s.runs[i].finished && Coherent(r)
    requires forall j: nat, phase :: (j, phase) in processes <==> if j == i then r.pc == AwaitingChild(phase, None)
      else (j, phase) in s.processes
    ensures Invariant(s.(runs := s.runs[i := r], processes := processes))
  {
  }

  lemma StepKeepsInvariant(s: State, i: nat, e: Event)
    requires Invariant(s)
    ensures Invariant(Step(s, i, e))
  {
    if !e.Request? && i < |s.runs| && Enabled(s.runs[i], e) {
      var r := s.runs[i];
      AdvanceKeepsCoherent(r, e);
      AwaitedChild(r, e, Main);
      AwaitedChild(r, e, Automatic);
      ReplacingRun(s, i, Advance(r, e), Step(s, i, e).processes);
    }
  }

  lemma {:induction false} TraceInvariant(events: seq<(nat, Event)>)
    ensures Invariant(Trace(events))
  {
    if events != [] {
      var last := |events| - 1;
      TraceInvariant(events[..last]);
      StepKeepsInvariant(Trace(events[..last]), events[last].0, events[last].1);
    }
  }

  /**
   Whatever interleaving: at most one upgrade child is alive, it belongs to the
   active run, and that run is not marked finished.
   */
  lemma OneChildAtATime(events: seq<(nat, Event)>, p: (nat, Phase), q: (nat, Phase))
    requires p in Trace(events).processes && q in Trace(events).processes
    ensures
      var s := Trace(events);
      p == q && s.active == Some(p.0) && p.0 < |s.runs| && !s.runs[p.0].finished
  {
    TraceInvariant(events);
    var s := Trace(events);
    assert (p.0, p.1) in s.processes && (q.0, q.1) in s.processes;
    assert s.runs[p.0].pc == AwaitingChild(p.1, None) && Coherent(s.runs[p.0]);
    assert s.runs[q.0].pc == AwaitingChild(q.1, None) && Coherent(s.runs[q.0]);
  }

  /** At any time at most one run is unfinished, so a request is refused exactly while one is. */
  lemma OneRunAtATime(events: seq<(nat, Event)>, i: nat)
    requires i < |Trace(events).runs| && !Trace(events).runs[i].finished
    ensures Trace(events).active == Some(i) && Busy(Trace(events))
  {
    TraceInvariant(events);
  }

  /** The automatic rollback script runs only after an apply that exited 3, or exited 0 and stayed unhealthy. */
  lemma RollbackOnlyWhenWanted(events: seq<(nat, Event)>, i: nat)
    requires (i, Automatic) in Trace(events).processes
    ensures
      i < |Trace(events).runs| &&
      var r := Trace(events).runs[i];
      r.op == Apply && (r.seen.mainExit == Some(3) || (r.seen.mainExit == Some(0) && r.seen.mainHealthy == Some(false)))
  {
    TraceInvariant(events);
    assert Coherent(Trace(events).runs[i]);
  }

  /** Success is reported exactly when the requested script exited 0, its health wait passed, and nothing threw. */
  lemma ZeroMeansHealthy(events: seq<(nat, Event)>, i: nat)
    requires i < |Trace(events).runs| && Trace(events).runs[i].finished
    ensures
      var r := Trace(events).runs[i];
      r.exitCode == Some(0) <==>
        r.seen.mainExit == Some(0) && r.seen.mainHealthy == Some(true) && !r.seen.threw && !r.seen.prepareFailed
  {
    TraceInvariant(events);
    assert Coherent(Trace(events).runs[i]);
  }

  /**
   A finished run counts as rolled back exactly when a wanted rollback exited 0 and
   passed its health wait; its exit code is then 1.
   */
  lemma RolledBackMeansRecovered(events: seq<(nat, Event)>, i: nat)
    requires i < |Trace(events).runs| && Trace(events).runs[i].finished
    ensures
      var r := Trace(events).runs[i];
      && (r.rolledBack == Some(true) <==>
        r.seen.autoExit == Some(0) && r.seen.autoHealthy == Some(true) && !r.seen.threw)
      && (r.rolledBack.Some? ==>
        r.exitCode == Some(1) && RollbackWanted(r) && r.rollbackExitCode == r.seen.autoExit && r.rollbackExitCode.Some?)
      && (RollbackWanted(r) && !r.seen.threw ==> r.rolledBack.Some?)
  {
    TraceInvariant(events);
    assert Coherent(Trace(events).runs[i]);
  }

  // ---------- Observations come from events ----------

  ghost predicate Happened(events: seq<(nat, Event)>, i: nat, e: Event) {
    (i, e) in events
  }

  ghost predicate Ended(events: seq<(nat, Event)>, i: nat, code: int) {
    Happened(events, i, ProcessEnds(Some(code))) || (code == -1 && Happened(events, i, ProcessEnds(None)))
  }

  /** The health deadline was seen to have passed, at the start of a wait or after a pause in it. */
  ghost predicate Expired(events: seq<(nat, Event)>, i: nat) {
    Happened(events, i, LogClosed(true, true)) || Happened(events, i, Woke(true))
  }

  predicate TimedOut(r: Run) {
    r.seen.mainHealthy == Some(false) || r.seen.autoHealthy == Some(false) || r.pc.ReportingTimeout?
  }

  /** Something went wrong that the program catches. */
  predicate Faulty(r: Run, e: Event) {
    || (e.Opened? && !e.ok) || (e.LogClosed? && !e.ok) || e == HealthAnswer(Fault)
    || (e.LogClosed? && r.pc.ClosingLog? && r.pc.code.None?)
  }

  /** A run counts as failed to prepare, or as having thrown, from the event that says so, and its code is then -1. */
  lemma FaultsAreSeen(r: Run, e: Event)
    requires Coherent(r) && Enabled(r, e)
    ensures
      var r' := Advance(r, e);
      && (r'.seen.prepareFailed <==> r.seen.prepareFailed || e == Filed(false))
      && (r'.seen.threw <==> r.seen.threw || Faulty(r, e))
      && (e == Filed(false) || Faulty(r, e) ==> r'.exitCode == Some(-1))
      && (r'.pc.ClosingLog? && r'.pc.code.None? ==> r.pc.AwaitingChild? && r.pc.news == Some(SpawnError))
  {
  }

  /** Every code and every health result a run carries was delivered to that run by an event. */
  ghost predicate Witnessed(events: seq<(nat, Event)>, i: nat, r: Run) {
    && (TimedOut(r) ==> Expired(events, i))
    && (r.seen.mainHealthy == Some(true) || r.seen.autoHealthy == Some(true) ==> Happened(events, i, HealthAnswer(Ok)))
    && (r.seen.mainExit.Some? ==> Ended(events, i, r.seen.mainExit.value))
    && (r.seen.autoExit.Some? ==> Ended(events, i, r.seen.autoExit.value))
    && (r.pc.ClosingLog? && r.pc.code.Some? ==> Ended(events, i, r.pc.code.value))
    && (r.pc.AwaitingChild? && r.pc.news.Some? && r.pc.news.value.Exit? ==>
      Ended(events, i, r.pc.news.value.code.GetOr(-1)))
  }

  lemma WitnessesGrow(events: seq<(nat, Event)>, more: seq<(nat, Event)>, i: nat, r: Run)
    requires Witnessed(events, i, r) && forall x :: x in events ==> x in more
    ensures Witnessed(more, i, r)
  {
  }

  /** Where the parts of a run's record come from in one step. */
  predicate Derives(r: Run, e: Event, r': Run) {
    && (TimedOut(r') ==> TimedOut(r) || e == LogClosed(true, true) || e == Woke(true))
    && (r'.seen.mainHealthy == Some(true) ==> r.seen.mainHealthy == Some(true) || e == HealthAnswer(Ok))
    && (r'.seen.autoHealthy == Some(true) ==> r.seen.autoHealthy == Some(true) || e == HealthAnswer(Ok))
    && (r'.seen.mainExit == r.seen.mainExit || (r.pc.ClosingLog? && r.pc.code == r'.seen.mainExit))
    && (r'.seen.autoExit == r.seen.autoExit || (r.pc.ClosingLog? && r.pc.code == r'.seen.autoExit))
    && (r'.pc.ClosingLog? && r'.pc.code.Some? ==>
          r.pc.AwaitingChild? && r.pc.news.Some? && r.pc.news.value.Exit?
            && r'.pc.code.value == r.pc.news.value.code.GetOr(-1))
    && (r'.pc.AwaitingChild? && r'.pc.news.Some? && r'.pc.news.value.Exit? ==> e == ProcessEnds(r'.pc.news.value.code))
  }

  lemma AdvanceDerives(r: Run, e: Event)
    requires Enabled(r, e)
    ensures Derives(r, e, Advance(r, e))
  {
  }

  lemma DerivedIsWitnessed(events: seq<(nat, Event)>, i: nat, r: Run, e: Event, r': Run)
    requires Derives(r, e, r') && Witnessed(events, i, r) && Happened(events, i, e)
    ensures Witnessed(events, i, r')
  {
  }

  lemma {:induction false} TraceWitnessed(events: seq<(nat, Event)>, i: nat)
    requires i < |Trace(events).runs|
    ensures Witnessed(events, i, Trace(events).runs[i])
  {
    var last := |events| - 1;
    var before, e := Trace(events[..last]), events[last].1;
    if i < |before.runs| {
      TraceWitnessed(events[..last], i);
      WitnessesGrow(events[..last], events, i, before.runs[i]);
      if events[last].0 == i && !e.Request? && Enabled(before.runs[i], e) {
        AdvanceDerives(before.runs[i], e);
        DerivedIsWitnessed(events, i, before.runs[i], e, Advance(before.runs[i], e));
      }
    }
  }

  /** A run reported as successful really had a child that exited 0 and a health check that answered well. */
  lemma ZeroWasEarned(events: seq<(nat, Event)>, i: nat)
    requires i < |Trace(events).runs| && Trace(events).runs[i].finished && Trace(events).runs[i].exitCode == Some(0)
    ensures Happened(events, i, ProcessEnds(Some(0))) && Happened(events, i, HealthAnswer(Ok))
  {
    ZeroMeansHealthy(events, i);
    TraceWitnessed(events, i);
  }

  // ---------- What a run runs ----------

  predicate AllFinished(s: State) {
    forall i :: 0 <= i < |s.runs| ==> s.runs[i].finished
  }

  /** What an event adds to the requests accepted: every run is finished, and a ref that an apply names is valid. */
  function Adds(s: State, e: Event): seq<(Op, Option<string>)> {
    if e.Request? && AllFinished(s) && (e.op == Rollback || e.target.None? || e.validRef) then
      [(e.op, if e.op == Rollback then None else e.target)]
    else []
  }

  /** The requests accepted, in order. */
  function Requested(events: seq<(nat, Event)>): seq<(Op, Option<string>)> {
    if events == [] then []
    else
      var last := |events| - 1;
      Requested(events[..last]) + Adds(Trace(events[..last]), events[last].1)
  }

  lemma BusyIff(s: State)
    requires Invariant(s)
    ensures Busy(s) <==> !AllFinished(s)
  {
    if !AllFinished(s) {
      var i :| 0 <= i < |s.runs| && !s.runs[i].finished;
      assert i == |s.runs| - 1;
    }
  }

  /** These are what the runs run. */
  predicate Carries(s: State, orders: seq<(Op, Option<string>)>) {
    |s.runs| == |orders| && forall i :: 0 <= i < |orders| ==> (s.runs[i].op, s.runs[i].target) == orders[i]
  }

  lemma StepCarries(s: State, i: nat, e: Event, orders: seq<(Op, Option<string>)>)
    requires Invariant(s) && Carries(s, orders)
    ensures Carries(Step(s, i, e), orders + Adds(s, e))
  {
    BusyIff(s);
  }

  /** Run i is the i-th request accepted: its operation and target are that request's for good. */
  lemma {:induction false} RunsAreRequested(events: seq<(nat, Event)>)
    ensures Carries(Trace(events), Requested(events))
  {
    if events != [] {
      var last := |events| - 1;
      RunsAreRequested(events[..last]);
      TraceInvariant(events[..last]);
      StepCarries(Trace(events[..last]), events[last].0, events[last].1, Requested(events[..last]));
    }
  }

  /** No step changes what a run runs, or an earlier run's place. */
  lemma StepKeepsOrders(s: State, i: nat, e: Event, j: nat)
    requires j < |s.runs|
    ensures |s.runs| <= |Step(s, i, e).runs|
    ensures Step(s, i, e).runs[j].op == s.runs[j].op && Step(s, i, e).runs[j].target == s.runs[j].target
  {
  }

  /**
   The exit code a finished run reports, case by case: -1 if anything threw; 1 for an apply that exited 3, or exited 0
   and stayed unhealthy, and for a rollback that stayed unhealthy; otherwise the script's own code.
   */
  lemma ExitCodeReported(events: seq<(nat, Event)>, i: nat)
    requires i < |Trace(events).runs| && Trace(events).runs[i].finished
    ensures
      var r := Trace(events).runs[i];
      && (r.seen.prepareFailed || r.seen.threw ==> r.exitCode == Some(-1))
      && (!r.seen.prepareFailed && !r.seen.threw ==>
            && r.seen.mainExit.Some?
            && (r.op == Apply && r.seen.mainExit == Some(3) ==> r.exitCode == Some(1))
            && (r.seen.mainExit == Some(0) && r.seen.mainHealthy == Some(false) ==> r.exitCode == Some(1))
            && (r.seen.mainExit != Some(0) && !(r.op == Apply && r.seen.mainExit == Some(3)) ==>
                  r.exitCode == r.seen.mainExit)
            && (r.seen.mainExit == Some(0) ==> r.seen.mainHealthy.Some?))
  {
    TraceInvariant(events);
    assert Coherent(Trace(events).runs[i]);
  }

  // ---------- The reservation is always released ----------

  /** Steps left in a run, not counting repeated health polls. */
  function StepsLeft(r: Run): nat {
    match r.pc
    case MakingDir => 15
    case WritingLog => 14
    case Opening(phase) => if phase == Main then 13 else 6
    case AwaitingChild(phase, news) => (if phase == Main then 11 else 4) + (if news.None? then 1 else 0)
    case ClosingLog(phase, _) => if phase == Main then 10 else 3
    case Checking(phase) => if phase == Main then 9 else 2
    case Sleeping(phase) => if phase == Main then 9 else 2
    case ReportingTimeout(phase) => if phase == Main then 8 else 1
    case AnnouncingRollback => 7
    case ReportingFailure => 1
    case Finished => 0
  }

  predicate IsPoll(r: Run, e: Event) {
    (r.pc.Checking? && e == HealthAnswer(NotOk)) || (r.pc.Sleeping? && e == Woke(false))
  }

  /**
   Every step of a run brings it closer to finishing, except polling before
   the deadline; and it always has a next step.
   */
  lemma RunsFinish(r: Run, e: Event)
    requires Coherent(r)
    ensures Enabled(r, e) && !IsPoll(r, e) ==> StepsLeft(Advance(r, e)) < StepsLeft(r)
    ensures Enabled(r, e) && IsPoll(r, e) ==> StepsLeft(Advance(r, e)) == StepsLeft(r)
    ensures !r.finished ==> exists next :: Enabled(r, next) && !IsPoll(r, next)
  {
    if !r.finished {
      var next :=
        match r.pc
        case MakingDir => Filed(true)
        case WritingLog => Filed(true)
        case Opening(_) => Opened(true, true)
        case AwaitingChild(_, news) => if news.None? then ProcessEnds(None) else ChildReports
        case ClosingLog(_, _) => LogClosed(true, true)
        case Checking(_) => HealthAnswer(Ok)
        case Sleeping(_) => Woke(true)
        case _ => Appended;
      assert Enabled(r, next) && !IsPoll(r, next);
    }
  }

  // ---------- The program ----------

  datatype Reply = Accepted(run: nat) | AlreadyInProgress | InvalidTarget

  class Updater {
    var active: Option<nat>
    var runs: seq<Run>
    var processes: set<(nat, Phase)>

    ghost function Now(): State
      reads this
    {
      State(active, runs, processes)
    }

    constructor ()
      ensures Now() == INIT
    {
      active, runs, processes := None, [], {};
    }

    /** The synchronous part of POST /apply: check, then reserve before the first await. */
    method HandleApply(op: Op, target: Option<string>, validRef: bool) returns (reply: Reply)
      requires Invariant(Now())
      modifies this
      ensures Now() == Step(old(Now()), 0, Request(op, target, validRef)) && Invariant(Now())
      ensures reply.AlreadyInProgress? <==> exists i :: 0 <= i < |old(runs)| && !old(runs)[i].finished
      ensures reply.InvalidTarget? <==>
        !reply.AlreadyInProgress? && op == Apply && target.Some? && !validRef
      ensures reply.Accepted? ==>
        && reply.run == |old(runs)| && |runs| == |old(runs)| + 1 && runs[..reply.run] == old(runs)
        && !runs[reply.run].finished && runs[reply.run].op == op
        && runs[reply.run].target == if op == Rollback then None else target
      ensures !reply.Accepted? ==> Now() == old(Now())
    {
      StepKeepsInvariant(Now(), 0, Request(op, target, validRef));
      if active.Some? && !runs[active.value].finished {
        return AlreadyInProgress;
      }
      var ref := if op == Rollback then None else target;
      if ref.Some? && !validRef {
        return InvalidTarget;
      }
      active := Some(|runs|);
      runs := runs + [NewRun(op, ref)];
      reply := Accepted(|runs| - 1);
    }

    method Store(i: nat, run: Run)
      requires i < |runs|
      modifies this`runs
      ensures runs == old(runs)[i := run]
    {
      runs := runs[i := run];
    }

    /** runScript: the log file opens, the child is spawned; it ends, reports, and the file is closed. */
    method OnOpened(i: nat, ok: bool, spawned: bool)
      requires Invariant(Now()) && i < |runs| && runs[i].pc.Opening?
      modifies this
      ensures Now() == Step(old(Now()), i, Opened(ok, spawned)) && Invariant(Now())
    {
      StepKeepsInvariant(Now(), i, Opened(ok, spawned));
      var run := runs[i];
      var phase := run.pc.phase;
      if !ok {
        run := Fail(run);
      } else if spawned {
        processes := processes + {(i, phase)};
        run := run.(pc := AwaitingChild(phase, None));
      } else {
        run := run.(pc := AwaitingChild(phase, Some(SpawnError)));
      }
      Store(i, run);
    }

    /** The body of the run's async function after its script has been awaited. */
    method OnLogClosed(i: nat, ok: bool, expired: bool)
      requires Invariant(Now()) && i < |runs| && runs[i].pc.ClosingLog?
      modifies this
      ensures Now() == Step(old(Now()), i, LogClosed(ok, expired)) && Invariant(Now())
    {
      StepKeepsInvariant(Now(), i, LogClosed(ok, expired));
      var run := runs[i];
      var ClosingLog(phase, result) := run.pc;
      if !ok || result.None? {
        Store(i, Fail(run));
        return;
      }
      var code := result.value;
      if phase == Main {
        run := run.(exitCode := Some(code), seen := run.seen.(mainExit := Some(code)));
        if run.op == Apply && code == 3 {
          run := run.(pc := AnnouncingRollback);
        } else if code == 0 {
          run := StartWait(run, Main, expired);
        } else {
          run := Finish(run);
        }
      } else {
        run := run.(rollbackExitCode := Some(code), seen := run.seen.(autoExit := Some(code)));
        if code == 0 {
          run := StartWait(run, Automatic, expired);
        } else {
          run := run.(rolledBack := Some(false));
          run := run.(exitCode := Some(1));
          run := Finish(run);
        }
      }
      Store(i, run);
    }

    /** The end of a health wait, by a good answer or by the deadline. */
    method OnWaitOver(i: nat, healthy: bool)
      requires Invariant(Now()) && i < |runs|
      requires if healthy then runs[i].pc.Checking? else runs[i].pc.ReportingTimeout?
      modifies this
      ensures Now() == Step(old(Now()), i, if healthy then HealthAnswer(Ok) else Appended) && Invariant(Now())
    {
      StepKeepsInvariant(Now(), i, if healthy then HealthAnswer(Ok) else Appended);
      var run := runs[i];
      var phase := run.pc.phase;
      if phase == Automatic {
        run := run.(rolledBack := Some(healthy), seen := run.seen.(autoHealthy := Some(healthy)));
        run := run.(exitCode := Some(1));
        run := Finish(run);
      } else {
        run := run.(seen := run.seen.(mainHealthy := Some(healthy)));
        if run.op == Apply && !healthy {
          run := run.(pc := AnnouncingRollback);
        } else {
          if !healthy {
            run := run.(exitCode := Some(1));
          }
          run := Finish(run);
        }
      }
      Store(i, run);
    }

    /** All other resumptions. */
    method Resume(i: nat, e: Event)
      requires Invariant(Now()) && !e.Request?
      modifies this
      ensures Now() == Step(old(Now()), i, e) && Invariant(Now())
    {
      StepKeepsInvariant(Now(), i, e);
      if i >= |runs| || !Enabled(runs[i], e) { return; }
      if e.Opened? {
        OnOpened(i, e.ok, e.spawned);
      } else if e.LogClosed? {
        OnLogClosed(i, e.ok, e.expired);
      } else if e == HealthAnswer(Ok) || runs[i].pc.ReportingTimeout? {
        OnWaitOver(i, e == HealthAnswer(Ok));
      } else {
        if e.ProcessEnds? {
          processes := processes - {(i, runs[i].pc.phase)};
        }
        Store(i, Advance(runs[i], e));
      }
    }
  }
}
