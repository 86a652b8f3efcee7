/**
  The server manager: dependencies started in order, rolled back in reverse.
 */
module ServerManager {
  import opened Prelude

  datatype ServerState = Stopped | Starting | Running | Stopping

  type Application = int

  /** What the hooks called so far did; a dependency is named by its position. */
  datatype Event =
    | Started(dep: nat)
    | StartFailed(dep: nat)
    | Assembled
    | AssemblyFailed
    | StoppedDep(dep: nat)
    | StopFailed(dep: nat)

  /** How the hooks answer during one call: whether the inputs still validate, which starts and
      stops raise, and what the assembler returns, raising and returning nothing being one. */
  datatype Plan = Plan(valid: bool, startFails: nat -> bool, stopFails: nat -> bool, assembled: Option<Application>)

  datatype StartResult =
    | StartedWith(application: Application)
    | InputsRefused
    | WrongState
    | StartupError(rollbackErrors: seq<nat>)

  datatype ShutdownResult = Done | ShutdownRefused | ShutdownError(errors: seq<nat>)

  // ---------- the stops ----------

  function StopEvent(dep: nat, fails: nat -> bool): Event {
    if fails(dep) then StopFailed(dep) else StoppedDep(dep)
  }

  /** The events of stopping the first k dependencies, last one first. */
  function Stops(k: nat, fails: nat -> bool): seq<Event> {
    if k == 0 then []
    else [StopEvent(k - 1, fails)] + Stops(k - 1, fails)
  }

  /** The dependencies whose stop raised, in the order they were stopped. */
  function StopErrors(k: nat, fails: nat -> bool): seq<nat> {
    if k == 0 then []
    else (if fails(k - 1) then [k - 1] else []) + StopErrors(k - 1, fails)
  }

  function Starts(k: nat): (events: seq<Event>)
    ensures |events| == k && forall i :: 0 <= i < k ==> events[i] == Started(i)
  {
    seq(k, i requires 0 <= i => Started(i))
  }

  /** The number of dependencies that start before one fails. */
  function StartedCount(n: nat, fails: nat -> bool): (k: nat)
    ensures k <= n && (k < n ==> fails(k)) && forall i :: 0 <= i < k ==> !fails(i)
  {
    if n == 0 then 0
    else
      var k := StartedCount(n - 1, fails);
      if k < n - 1 || fails(k) then k else n
  }

  // ---------- one call ----------

  datatype Status = Status(state: ServerState, application: Option<Application>, log: seq<Event>)

  const INITIAL := Status(Stopped, None, [])

  datatype Call = Start(plan: Plan) | Shutdown(plan: Plan)

  function StartedLog(n: nat, plan: Plan): seq<Event> {
    var k := StartedCount(n, plan.startFails);
    if k < n then Starts(k) + [StartFailed(k)] + Stops(k, plan.stopFails)
    else if plan.assembled.None? then Starts(n) + [AssemblyFailed] + Stops(n, plan.stopFails)
    else Starts(n) + [Assembled]
  }

  predicate StartSucceeds(n: nat, plan: Plan) {
    StartedCount(n, plan.startFails) == n && plan.assembled.Some?
  }

  /** The manager after a call, with n dependencies. */
  function After(n: nat, s: Status, call: Call): Status {
    match call
    case Start(plan) =>
      if !plan.valid || s.state != Stopped then s
      else if StartSucceeds(n, plan) then Status(Running, plan.assembled, s.log + StartedLog(n, plan))
      else Status(Stopped, None, s.log + StartedLog(n, plan))
    case Shutdown(plan) =>
      if s.state != Running then s
      else Status(Stopped, None, s.log + Stops(n, plan.stopFails))
  }

  function Run(n: nat, calls: seq<Call>): Status {
    if calls == [] then INITIAL
    else After(n, Run(n, calls[..|calls| - 1]), calls[|calls| - 1])
  }

  // ---------- sessions ----------

  datatype Ending = StartRefused | AssemblyRefused | Served

  /** From a start to the last stop: how many dependencies started, how far it got, and how
      each stop answered.  An open session still serves. */
  datatype Session = Closed(started: nat, ending: Ending, stopFails: nat -> bool) | Open

  ghost predicate Fits(s: Session, n: nat) {
    s.Open? || (if s.ending == StartRefused then s.started < n else s.started == n)
  }

  /** The event between the starts and the stops. */
  function Turning(k: nat, ending: Ending): Event {
    match ending
    case StartRefused => StartFailed(k)
    case AssemblyRefused => AssemblyFailed
    case Served => Assembled
  }

  function Events(s: Session, n: nat): seq<Event> {
    match s
    case Open => Starts(n) + [Assembled]
    case Closed(k, ending, fails) =>
      Starts(k) + [Turning(k, ending)] + Stops(k, fails)
  }

  function Log(sessions: seq<Session>, n: nat): seq<Event> {
    if sessions == [] then []
    else Log(sessions[..|sessions| - 1], n) + Events(sessions[|sessions| - 1], n)
  }

  /** The log is a series of sessions, all closed but perhaps the last, which is open exactly
      while the manager runs. */
  ghost predicate Bracketed(s: Status, n: nat, sessions: seq<Session>) {
    && s.log == Log(sessions, n)
    && (forall i :: 0 <= i < |sessions| ==> Fits(sessions[i], n))
    && (forall i :: 0 <= i < |sessions| - 1 ==> sessions[i].Closed?)
    && (s.state == Running <==> sessions != [] && sessions[|sessions| - 1].Open?)
  }

  /** Between calls the manager is stopped or running, with an application just when it runs. */
  predicate Settled(s: Status) {
    (s.state == Stopped && s.application == None) || (s.state == Running && s.application.Some?)
  }

  function ClosedBy(n: nat, plan: Plan): Session {
    var k := StartedCount(n, plan.startFails);
    if k < n then Closed(k, StartRefused, plan.stopFails) else Closed(n, AssemblyRefused, plan.stopFails)
  }

  lemma LogGrows(sessions: seq<Session>, s: Session, n: nat)
    ensures Log(sessions + [s], n) == Log(sessions, n) + Events(s, n)
  {
    assert (sessions + [s])[..|sessions|] == sessions;
  }

  /** A stopped manager's log grows by a whole session. */
  lemma SessionAdded(s: Status, t: Status, n: nat, sessions: seq<Session>, next: Session)
    requires Bracketed(s, n, sessions) && s.state != Running && Fits(next, n)
    requires t.log == s.log + Events(next, n) && (t.state == Running <==> next.Open?)
    ensures Bracketed(t, n, sessions + [next])
  {
    LogGrows(sessions, next, n);
  }

  lemma StartedLogIsSession(n: nat, plan: Plan)
    ensures var next := if StartSucceeds(n, plan) then Open else ClosedBy(n, plan);
      Events(next, n) == StartedLog(n, plan) && Fits(next, n)
  {
  }

  lemma AfterStart(n: nat, s: Status, plan: Plan, sessions: seq<Session>) returns (r: seq<Session>)
    requires Settled(s) && Bracketed(s, n, sessions) && plan.valid && s.state == Stopped
    ensures Settled(After(n, s, Start(plan))) && Bracketed(After(n, s, Start(plan)), n, r)
  {
    var next := if StartSucceeds(n, plan) then Open else ClosedBy(n, plan);
    StartedLogIsSession(n, plan);
    SessionAdded(s, After(n, s, Start(plan)), n, sessions, next);
    r := sessions + [next];
  }

  /** The open session of a running manager, closed by the stops. */
  lemma ServedIsOpenAndStops(n: nat, fails: nat -> bool)
    ensures Events(Closed(n, Served, fails), n) == Events(Open, n) + Stops(n, fails)
  {
  }

  lemma JoinsAssociate<T>(a: seq<T>, b: seq<T>, c: seq<T>)
    ensures (a + b) + c == a + (b + c)
  {
  }

  lemma ClosedLog(log: seq<Event>, n: nat, before: seq<Session>, fails: nat -> bool)
    requires log == Log(before, n) + Events(Open, n)
    ensures log + Stops(n, fails) == Log(before, n) + Events(Closed(n, Served, fails), n)
  {
    ServedIsOpenAndStops(n, fails);
    JoinsAssociate(Log(before, n), Events(Open, n), Stops(n, fails));
  }

  lemma RunningIsOpen(s: Status, n: nat, sessions: seq<Session>)
    requires Bracketed(s, n, sessions) && s.state == Running
    ensures var before := sessions[..|sessions| - 1];
      Bracketed(Status(Stopped, None, Log(before, n)), n, before) && s.log == Log(before, n) + Events(Open, n)
  {
  }

  lemma AfterShutdown(n: nat, s: Status, plan: Plan, sessions: seq<Session>) returns (r: seq<Session>)
    requires Settled(s) && Bracketed(s, n, sessions) && s.state == Running
    ensures Settled(After(n, s, Shutdown(plan))) && Bracketed(After(n, s, Shutdown(plan)), n, r)
  {
    var before, last := sessions[..|sessions| - 1], Closed(n, Served, plan.stopFails);
    RunningIsOpen(s, n, sessions);
    ClosedLog(s.log, n, before, plan.stopFails);
    SessionAdded(Status(Stopped, None, Log(before, n)), After(n, s, Shutdown(plan)), n, before, last);
    r := before + [last];
  }

  /** Over every sequence of calls and every pattern of failures, the hooks are called in
      sessions, and the manager is settled between calls. */
  lemma {:induction false} RunsAreBracketed(n: nat, calls: seq<Call>) returns (sessions: seq<Session>)
    ensures Settled(Run(n, calls)) && Bracketed(Run(n, calls), n, sessions)
  {
    if calls == [] {
      sessions := [];
    } else {
      sessions := RunsAreBracketed(n, calls[..|calls| - 1]);
      var s, call := Run(n, calls[..|calls| - 1]), calls[|calls| - 1];
      if call.Start? && call.plan.valid && s.state == Stopped {
        sessions := AfterStart(n, s, call.plan, sessions);
      } else if call.Shutdown? && s.state == Running {
        sessions := AfterShutdown(n, s, call.plan, sessions);
      }
    }
  }

  // ---------- what a session does ----------

  function StartedIn(events: seq<Event>): seq<nat> {
    if events == [] then []
    else
      var n := |events| - 1;
      StartedIn(events[..n]) + if events[n].Started? then [events[n].dep] else []
  }

  function StoppedIn(events: seq<Event>): seq<nat> {
    if events == [] then []
    else
      var n := |events| - 1;
      StoppedIn(events[..n]) + if events[n].StoppedDep? || events[n].StopFailed? then [events[n].dep] else []
  }

  function Upward(k: nat): (r: seq<nat>)
    ensures |r| == k && forall i :: 0 <= i < k ==> r[i] == i
  {
    seq(k, i requires 0 <= i => i)
  }

  function Downward(k: nat): seq<nat> {
    if k == 0 then [] else [k - 1] + Downward(k - 1)
  }

  lemma {:induction false} DownwardIsReversed(k: nat, i: nat)
    requires i < k
    ensures |Downward(k)| == k
    ensures Downward(k)[i] == Upward(k)[k - 1 - i]
    decreases k
  {
    if k > 1 { DownwardIsReversed(k - 1, if i > 0 then i - 1 else 0); }
  }

  lemma {:induction false} PartsJoin(a: seq<Event>, b: seq<Event>)
    ensures StartedIn(a + b) == StartedIn(a) + StartedIn(b) && StoppedIn(a + b) == StoppedIn(a) + StoppedIn(b)
    decreases |b|
  {
    if b == [] {
      assert a + b == a;
    } else {
      var n := |b| - 1;
      assert (a + b)[..|a| + n] == a + b[..n];
      PartsJoin(a, b[..n]);
    }
  }

  lemma {:induction false} OnlyStarts(k: nat)
    ensures StartedIn(Starts(k)) == Upward(k) && StoppedIn(Starts(k)) == []
  {
    if k > 0 {
      assert Starts(k)[..k - 1] == Starts(k - 1);
      OnlyStarts(k - 1);
    }
  }

  lemma SingleEvent(e: Event)
    ensures StartedIn([e]) == if e.Started? then [e.dep] else []
    ensures StoppedIn([e]) == if e.StoppedDep? || e.StopFailed? then [e.dep] else []
  {
    assert [e][..0] == [];
  }

  lemma StopFirst(e: Event, rest: seq<Event>)
    requires e.StoppedDep? || e.StopFailed?
    ensures StartedIn([e] + rest) == StartedIn(rest)
    ensures StoppedIn([e] + rest) == [e.dep] + StoppedIn(rest)
  {
    PartsJoin([e], rest);
    SingleEvent(e);
  }

  lemma {:induction false} OnlyStops(k: nat, fails: nat -> bool)
    ensures StartedIn(Stops(k, fails)) == [] && StoppedIn(Stops(k, fails)) == Downward(k)
  {
    if k > 0 {
      OnlyStops(k - 1, fails);
      StopFirst(StopEvent(k - 1, fails), Stops(k - 1, fails));
    }
  }

  /** The second list is the first one backwards. */
  ghost predicate Reverses(up: seq<nat>, down: seq<nat>) {
    |down| == |up| && forall i :: 0 <= i < |up| ==> down[i] == up[|up| - 1 - i]
  }

  lemma DownwardReverses(k: nat)
    ensures Reverses(Upward(k), Downward(k))
  {
    if k > 0 { DownwardIsReversed(k, 0); }
    forall i: nat | i < k ensures Downward(k)[i] == Upward(k)[k - 1 - i] {
      DownwardIsReversed(k, i);
    }
  }

  lemma BetweenJoins(a: seq<Event>, e: Event, b: seq<Event>)
    requires e.StartFailed? || e.Assembled? || e.AssemblyFailed?
    ensures StartedIn(a + [e] + b) == StartedIn(a) + StartedIn(b)
    ensures StoppedIn(a + [e] + b) == StoppedIn(a) + StoppedIn(b)
  {
    SingleEvent(e);
    PartsJoin(a, [e]);
    PartsJoin(a + [e], b);
    assert StartedIn(a) + [] == StartedIn(a) && StoppedIn(a) + [] == StoppedIn(a);
  }

  lemma SessionParts(s: Session, n: nat)
    requires s.Closed?
    ensures StartedIn(Events(s, n)) == Upward(s.started)
    ensures StoppedIn(Events(s, n)) == Downward(s.started)
  {
    OnlyStarts(s.started);
    OnlyStops(s.started, s.stopFails);
    BetweenJoins(Starts(s.started), Turning(s.started, s.ending), Stops(s.started, s.stopFails));
  }

  /** In a closed session just the dependencies that started are stopped, each once, in the
      reverse order, whichever stops fail. */
  lemma SessionStopsWhatStarted(s: Session, n: nat)
    requires s.Closed?
    ensures StartedIn(Events(s, n)) == Upward(s.started)
    ensures Reverses(StartedIn(Events(s, n)), StoppedIn(Events(s, n)))
  {
    SessionParts(s, n);
    DownwardReverses(s.started);
  }

  // ---------- what a call does ----------

  /** The stop errors are the dependencies whose stop raised, each once, the later ones first. */
  lemma {:induction false} StopErrorsAreFailures(k: nat, fails: nat -> bool)
    ensures forall d: nat :: d in StopErrors(k, fails) <==> d < k && fails(d)
    ensures forall i, j :: 0 <= i < j < |StopErrors(k, fails)| ==> StopErrors(k, fails)[i] > StopErrors(k, fails)[j]
  {
    if k > 0 {
      var rest := StopErrors(k - 1, fails);
      StopErrorsAreFailures(k - 1, fails);
      assert forall i :: 0 <= i < |rest| ==> rest[i] in rest;
    }
  }

  /** The hooks called by a call. */
  function Called(n: nat, s: Status, call: Call): seq<Event>
    requires s.log <= After(n, s, call).log
  {
    After(n, s, call).log[|s.log|..]
  }

  /** A shutdown stops all dependencies of a running manager, last one first, and leaves it
      stopped without an application; otherwise it does nothing. */
  lemma ShutdownStopsAll(n: nat, s: Status, plan: Plan)
    ensures s.state != Running ==> After(n, s, Shutdown(plan)) == s
    ensures s.state == Running ==>
      var call := Shutdown(plan);
      && s.log <= After(n, s, call).log
      && After(n, s, call).state == Stopped && After(n, s, call).application == None
      && StartedIn(Called(n, s, call)) == [] && StoppedIn(Called(n, s, call)) == Downward(n)
      && forall d: nat :: d < n ==> (if plan.stopFails(d) then StopFailed(d) else StoppedDep(d)) in Called(n, s, call)
  {
    OnlyStops(n, plan.stopFails);
    StopsReport(n, plan.stopFails);
    assert s.state == Running ==> Called(n, s, Shutdown(plan)) == Stops(n, plan.stopFails);
  }

  lemma {:induction false} StopsReport(k: nat, fails: nat -> bool)
    ensures forall d: nat :: d < k ==> (if fails(d) then StopFailed(d) else StoppedDep(d)) in Stops(k, fails)
  {
    if k > 0 {
      StopsReport(k - 1, fails);
      forall d: nat | d < k ensures (if fails(d) then StopFailed(d) else StoppedDep(d)) in Stops(k, fails) {
        if d == k - 1 { assert Stops(k, fails)[0] == StopEvent(d, fails); }
      }
    }
  }

  /** A start with valid inputs of a stopped manager runs it exactly when every dependency starts
      and the assembler returns an application; then all have started and none was stopped.
      Otherwise it stays stopped, and the ones before the first failure are stopped again.  With
      other inputs or in another state a start does nothing. */
  lemma StartRunsOrRollsBack(n: nat, s: Status, plan: Plan)
    ensures !plan.valid || s.state != Stopped ==> After(n, s, Start(plan)) == s
    ensures plan.valid && s.state == Stopped ==>
      var call := Start(plan);
      && s.log <= After(n, s, call).log
      && (AllStart(n, plan.startFails) && plan.assembled.Some? ==>
            && After(n, s, call).state == Running && After(n, s, call).application == plan.assembled
            && Called(n, s, call) == Starts(n) + [Assembled])
      && (!(AllStart(n, plan.startFails) && plan.assembled.Some?) ==>
            && After(n, s, call).state == Stopped && After(n, s, call).application == None
            && exists k: nat :: FailsFirst(n, k, plan.startFails)
                 && Called(n, s, call) ==
                      Starts(k) + [if k < n then StartFailed(k) else AssemblyFailed] + Stops(k, plan.stopFails))
  {
    var k := StartedCount(n, plan.startFails);
    assert FailsFirst(n, k, plan.startFails);
    if plan.valid && s.state == Stopped {
      assert Called(n, s, Start(plan)) == StartedLog(n, plan);
    }
  }

  ghost predicate AllStart(n: nat, fails: nat -> bool) {
    forall d: nat :: d < n ==> !fails(d)
  }

  /** The dependencies before k start, and k fails if it is one. */
  ghost predicate FailsFirst(n: nat, k: nat, fails: nat -> bool) {
    k <= n && (k < n ==> fails(k)) && forall d: nat :: d < k ==> !fails(d)
  }

  // ---------- the manager ----------

  /** A dependency as the manager is given it: its name and the identity of the instance. */
  datatype Dependency = Dependency(name: string, instance: int)

  predicate Blank(name: string) {
    forall i | 0 <= i < |name| :: Whitespace(name[i] as int)
  }

  /** A name is blank when it is empty or begins with whitespace and the rest is blank. */
  lemma BlankStepwise(name: string)
    ensures Blank(name) <==> name == "" || (Whitespace(name[0] as int) && Blank(name[1..]))
  {
    if name != "" {
      assert forall i :: 0 <= i < |name| - 1 ==> name[1..][i] == name[i + 1];
      assert forall i :: 0 < i < |name| ==> name[i] == name[1..][i - 1];
    }
  }

  /** Names are not blank, and no name and no instance is given twice. */
  ghost predicate WellGiven(deps: seq<Dependency>) {
    && (forall d :: d in deps ==> !Blank(d.name))
    && (forall i, j :: 0 <= i < j < |deps| ==> deps[i].name != deps[j].name && deps[i].instance != deps[j].instance)
  }

  method ValidateDependencies(deps: seq<Dependency>) returns (ok: bool)
    ensures ok <==> WellGiven(deps)
  {
    var seenNames: set<string> := {};
    var seenInstances: set<int> := {};
    for i := 0 to |deps|
      invariant WellGiven(deps[..i])
      invariant forall x :: x in seenNames <==> exists k :: 0 <= k < i && deps[k].name == x
      invariant forall x :: x in seenInstances <==> exists k :: 0 <= k < i && deps[k].instance == x
    {
      var d := deps[i];
      if Blank(d.name) || d.name in seenNames || d.instance in seenInstances {
        assert d in deps;
        return false;
      }
      seenNames, seenInstances := seenNames + {d.name}, seenInstances + {d.instance};
      assert deps[..i + 1] == deps[..i] + [d];
    }
    assert deps[..|deps|] == deps;
    return true;
  }

  class Manager {
    const dependencies: seq<Dependency>
    var state: ServerState
    var application: Option<Application>
    var log: seq<Event>

    constructor (dependencies: seq<Dependency>)
      ensures this.dependencies == dependencies && View() == INITIAL
    {
      this.dependencies := dependencies;
      state, application, log := Stopped, None, [];
    }

    ghost function View(): Status
      reads this
    {
      Status(state, application, log)
    }

    method StopDependencies(started: nat, fails: nat -> bool) returns (errors: seq<nat>)
      modifies this`log
      ensures log == old(log) + Stops(started, fails) && errors == StopErrors(started, fails)
    {
      errors := [];
      var k: nat := started;
      while k > 0
        invariant k <= started
        invariant log + Stops(k, fails) == old(log) + Stops(started, fails)
        invariant errors + StopErrors(k, fails) == StopErrors(started, fails)
      {
        k := k - 1;
        JoinsAssociate(log, [StopEvent(k, fails)], Stops(k, fails));
        JoinsAssociate(errors, if fails(k) then [k] else [], StopErrors(k, fails));
        if fails(k) {
          log := log + [StopFailed(k)];
          errors := errors + [k];
        } else {
          log := log + [StoppedDep(k)];
          assert errors + [] == errors;
        }
      }
      assert log + Stops(0, fails) == log && errors + StopErrors(0, fails) == errors;
    }

    method StartDependencies(fails: nat -> bool) returns (started: nat)
      modifies this`log
      ensures started == StartedCount(|dependencies|, fails) && log == old(log) + Starts(started)
    {
      started := 0;
      while started < |dependencies| && !fails(started)
        invariant started <= |dependencies| && log == old(log) + Starts(started)
        invariant forall i :: 0 <= i < started ==> !fails(i)
      {
        log := log + [Started(started)];
        started := started + 1;
      }
    }

    method StartUp(plan: Plan) returns (r: StartResult)
      requires Settled(View())
      modifies this
      ensures View() == After(|dependencies|, old(View()), Start(plan))
      ensures r == if !plan.valid then InputsRefused
                   else if old(state) != Stopped then WrongState
                   else if StartSucceeds(|dependencies|, plan) then StartedWith(plan.assembled.value)
                   else StartupError(StopErrors(StartedCount(|dependencies|, plan.startFails), plan.stopFails))
    {
      if !plan.valid { return InputsRefused; }
      if state != Stopped { return WrongState; }
      state := Starting;
      var started := StartDependencies(plan.startFails);
      if started < |dependencies| {
        log := log + [StartFailed(started)];
      } else if plan.assembled == None {
        log := log + [AssemblyFailed];
      } else {
        log := log + [Assembled];
        application := plan.assembled;
        state := Running;
        return StartedWith(application.value);
      }
      var errors := StopDependencies(started, plan.stopFails);
      application := None;
      state := Stopped;
      return StartupError(errors);
    }

    method ShutDown(plan: Plan) returns (r: ShutdownResult)
      requires Settled(View())
      modifies this
      ensures View() == After(|dependencies|, old(View()), Shutdown(plan))
      ensures r == if old(state) != Running || StopErrors(|dependencies|, plan.stopFails) == [] then Done
                   else ShutdownError(StopErrors(|dependencies|, plan.stopFails))
    {
      if state == Stopped { return Done; }
      if state != Running { return ShutdownRefused; }
      state := Stopping;
      var errors := StopDependencies(|dependencies|, plan.stopFails);
      application := None;
      state := Stopped;
      return if errors == [] then Done else ShutdownError(errors);
    }
  }
}
