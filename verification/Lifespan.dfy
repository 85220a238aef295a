/**
 The lifespan of an application: hooks and context managers on an exit stack
 (litestar/app.py) and the messages that tell the server about it
 (litestar/_asgi/asgi_router.py).
 */
module Lifespan {
  import opened Outcomes

  datatype Message = StartupComplete | StartupFailed | ShutdownComplete | ShutdownFailed

  datatype Action =
    | EnterEmitter
    | ExitEmitter
    | EnterManager(index: nat)
    | ExitManager(index: nat)
    | RunStartup(index: nat)
    | RunShutdown(index: nat)
    | Receive(index: nat)
    | Send(message: Message)

  /** How many of each an application declares. */
  datatype Declared = Declared(onStartup: nat, managers: nat, onShutdown: nat)

  /** Which actions raise, and which lifespan managers swallow the exception they are shown on exit. */
  datatype Environment = Environment(raises: set<Action>, swallows: set<nat>)

  /** `DidNotYield` is how `asynccontextmanager` objects when a failed start-up was swallowed. */
  datatype Exception = Raised(action: Action) | DidNotYield

  // ----- what happens, in closed form -----

  function EnterManagers(n: nat): (r: seq<Action>)
    ensures |r| == n && forall i | 0 <= i < n :: r[i] == EnterManager(i)
  {
    if n == 0 then [] else EnterManagers(n - 1) + [EnterManager(n - 1)]
  }

  function RunStartups(n: nat): (r: seq<Action>)
    ensures |r| == n && forall i | 0 <= i < n :: r[i] == RunStartup(i)
  {
    if n == 0 then [] else RunStartups(n - 1) + [RunStartup(n - 1)]
  }

  function RunShutdowns(n: nat): (r: seq<Action>)
    ensures |r| == n && forall i | 0 <= i < n :: r[i] == RunShutdown(i)
  {
    if n == 0 then [] else RunShutdowns(n - 1) + [RunShutdown(n - 1)]
  }

  /** The last to be entered is the first to be exited. */
  function ExitManagers(n: nat): (r: seq<Action>)
    ensures |r| == n && forall i | 0 <= i < n :: r[i] == ExitManager(n - 1 - i)
  {
    if n == 0 then [] else [ExitManager(n - 1)] + ExitManagers(n - 1)
  }

  function Startup(app: Declared): seq<Action> {
    [EnterEmitter] + EnterManagers(app.managers) + RunStartups(app.onStartup)
  }

  /** How many steps go through before one raises. */
  function StepsDone(steps: seq<Action>, raises: set<Action>): (n: nat)
    ensures n <= |steps| && (n < |steps| ==> steps[n] in raises)
    ensures forall i | 0 <= i < n :: steps[i] !in raises
  {
    if steps == [] || steps[0] in raises then 0 else 1 + StepsDone(steps[1..], raises)
  }

  /** How many lifespan managers are entered, once the emitter is. */
  function Managers(app: Declared, env: Environment): (n: nat)
    ensures n <= app.managers
  {
    StepsDone(EnterManagers(app.managers), env.raises)
  }

  /** How many startup hooks return, once all managers are entered. */
  function Hooks(app: Declared, env: Environment): (n: nat)
    ensures n <= app.onStartup
  {
    StepsDone(RunStartups(app.onStartup), env.raises)
  }

  /** The start-up steps that are called: up to the first that raises. */
  function StartupCalls(app: Declared, env: Environment): seq<Action> {
    var m, h := Managers(app, env), Hooks(app, env);
    if EnterEmitter in env.raises then [EnterEmitter]
    else if m < app.managers then [EnterEmitter] + EnterManagers(m + 1)
    else [EnterEmitter] + EnterManagers(m) + RunStartups(if h < app.onStartup then h + 1 else h)
  }

  function StartupFailure(app: Declared, env: Environment): Option<Exception> {
    if EnterEmitter in env.raises then Some(Raised(EnterEmitter))
    else if Managers(app, env) < app.managers then Some(Raised(EnterManager(Managers(app, env))))
    else if Hooks(app, env) < app.onStartup then Some(Raised(RunStartup(Hooks(app, env))))
    else None
  }

  /** What the exit stack calls: the managers that were entered, the emitter if it was, every shutdown hook. */
  function Exits(app: Declared, env: Environment): seq<Action> {
    if EnterEmitter in env.raises then RunShutdowns(app.onShutdown)
    else ExitManagers(Managers(app, env)) + ([ExitEmitter] + RunShutdowns(app.onShutdown))
  }

  /** The exception in flight after these exits: a later one replaces it, a manager may swallow it. */
  function InFlight(exits: seq<Action>, env: Environment, before: Option<Exception>): Option<Exception> {
    if exits == [] then before
    else InFlight(exits[1..], env, AfterExit(exits[0], env, before))
  }

  function AfterExit(a: Action, env: Environment, before: Option<Exception>): Option<Exception> {
    if a in env.raises then Some(Raised(a))
    else if a.ExitManager? && a.index in env.swallows then None
    else before
  }

  function AfterCall(a: Action, env: Environment): Option<Exception> {
    if a in env.raises then Some(Raised(a)) else None
  }

  /** What the server's part does while the application is up. */
  function Body(app: Declared, env: Environment): seq<Action> {
    if StartupFailure(app, env).Some? then [] else [Send(StartupComplete), Receive(1)]
  }

  /** What leaves `Litestar.lifespan`; a start-up that failed is never forgotten. */
  function Leaves(app: Declared, env: Environment): Option<Exception> {
    var exits := Exits(app, env);
    var failure := StartupFailure(app, env);
    if failure.Some? then
      var left := InFlight(exits, env, failure);
      if left.Some? then left else Some(DidNotYield)
    else InFlight(exits, env, AfterCall(Receive(1), env))
  }

  function Verdict(app: Declared, env: Environment): Message {
    if StartupFailure(app, env).Some? then StartupFailed
    else if Leaves(app, env).Some? then ShutdownFailed
    else ShutdownComplete
  }

  function Inside(app: Declared, env: Environment): seq<Action> {
    StartupCalls(app, env) + Body(app, env) + Exits(app, env)
  }

  function Trace(app: Declared, env: Environment): seq<Action> {
    if Receive(0) in env.raises then [Receive(0)]
    else [Receive(0)] + Inside(app, env) + [Send(Verdict(app, env))]
  }

  // ----- reading a trace -----

  /** What to look for in a trace: messages, what exits call, or what was entered without raising. */
  datatype Kind = Sends | Closings | Entries(raises: set<Action>)
  {
    predicate Has(a: Action) {
      match this
      case Sends => a.Send?
      case Closings => a.ExitEmitter? || a.ExitManager? || a.RunShutdown?
      case Entries(raises) => (a.EnterEmitter? || a.EnterManager?) && a !in raises
    }
  }

  function Keep(k: Kind, trace: seq<Action>): seq<Action> {
    if trace == [] then []
    else if k.Has(trace[0]) then [trace[0]] + Keep(k, trace[1..])
    else Keep(k, trace[1..])
  }

  lemma {:induction false} KeepOfBoth(k: Kind, a: seq<Action>, b: seq<Action>)
    ensures Keep(k, a + b) == Keep(k, a) + Keep(k, b)
  {
    if a == [] {
      assert a + b == b;
    } else {
      assert (a + b)[1..] == a[1..] + b;
      KeepOfBoth(k, a[1..], b);
    }
  }

  lemma {:induction false} KeepOfThree(k: Kind, a: seq<Action>, b: seq<Action>, c: seq<Action>)
    ensures Keep(k, a + b + c) == Keep(k, a) + Keep(k, b) + Keep(k, c)
  {
    KeepOfBoth(k, a + b, c);
    KeepOfBoth(k, a, b);
  }

  lemma {:induction false} KeepsNone(k: Kind, a: seq<Action>)
    requires forall i | 0 <= i < |a| :: !k.Has(a[i])
    ensures Keep(k, a) == []
  {
    if a != [] {
      KeepsNone(k, a[1..]);
    }
  }

  lemma {:induction false} KeepsAll(k: Kind, a: seq<Action>)
    requires forall i | 0 <= i < |a| :: k.Has(a[i])
    ensures Keep(k, a) == a
  {
    if a != [] {
      KeepsAll(k, a[1..]);
    }
  }

  // ----- what the server is told -----

  /** From the i-th exit on nobody swallows an exception. */
  predicate KeptFrom(exits: seq<Action>, env: Environment, i: nat) {
    forall j | i <= j < |exits| ::
      exits[j] in env.raises || !(exits[j].ExitManager? && exits[j].index in env.swallows)
  }

  lemma {:induction false} KeptFromTail(exits: seq<Action>, env: Environment, i: nat)
    requires exits != []
    ensures KeptFrom(exits[1..], env, i) <==> KeptFrom(exits, env, i + 1)
  {
    if KeptFrom(exits[1..], env, i) {
      forall j | i + 1 <= j < |exits|
        ensures exits[j] in env.raises || !(exits[j].ExitManager? && exits[j].index in env.swallows)
      {
        assert exits[j] == exits[1..][j - 1];
      }
    }
  }

  /** Some exit raises, or there was an exception before, and nobody swallows it afterwards. */
  predicate Escapes(exits: seq<Action>, env: Environment, before: bool) {
    || (before && KeptFrom(exits, env, 0))
    || exists i | 0 <= i < |exits| :: exits[i] in env.raises && KeptFrom(exits, env, i)
  }

  lemma {:induction false} InFlightIff(exits: seq<Action>, env: Environment, before: Option<Exception>)
    ensures InFlight(exits, env, before).Some? <==> Escapes(exits, env, before.Some?)
  {
    if exits != [] {
      var rest := exits[1..];
      InFlightIff(rest, env, AfterExit(exits[0], env, before));
      forall i: nat
        ensures KeptFrom(rest, env, i) <==> KeptFrom(exits, env, i + 1)
      {
        KeptFromTail(exits, env, i);
      }
      if i :| 0 <= i < |rest| && rest[i] in env.raises && KeptFrom(rest, env, i) {
        assert exits[i + 1] in env.raises && KeptFrom(exits, env, i + 1);
      }
      if i :| 0 <= i < |exits| && exits[i] in env.raises && KeptFrom(exits, env, i) {
        if i > 0 {
          assert rest[i - 1] in env.raises && KeptFrom(rest, env, i - 1);
        }
      }
    }
  }

  /** Some exit raises, or the wait for the shutdown message did, and nobody swallows that afterwards. */
  predicate ShutdownRaises(app: Declared, env: Environment) {
    Escapes(Exits(app, env), env, Receive(1) in env.raises)
  }

  predicate StartupRaises(app: Declared, env: Environment) {
    exists s :: s in Startup(app) && s in env.raises
  }

  lemma {:induction false} StartupRaisesIff(app: Declared, env: Environment)
    ensures StartupRaises(app, env) <==> StartupFailure(app, env).Some?
  {
    var m, h := Managers(app, env), Hooks(app, env);
    assert Startup(app)[0] == EnterEmitter;
    if m < app.managers {
      assert Startup(app)[m + 1] == EnterManager(m);
    }
    if h < app.onStartup {
      assert Startup(app)[1 + app.managers + h] == RunStartup(h);
    }
    if m == app.managers && h == app.onStartup && EnterEmitter !in env.raises {
      forall i | 0 <= i < |Startup(app)|
        ensures Startup(app)[i] !in env.raises
      {
        if i > app.managers {
          assert Startup(app)[i] == RunStartups(h)[i - 1 - app.managers];
        } else if i > 0 {
          assert Startup(app)[i] == EnterManagers(m)[i - 1];
        }
      }
    }
  }

  /**
   The server hears startup.failed exactly when a step of the start-up raises, and
   otherwise startup.complete followed by shutdown.failed or shutdown.complete.
   */
  lemma {:induction false} ServerHears(app: Declared, env: Environment)
    requires Receive(0) !in env.raises
    ensures Keep(Sends, Trace(app, env)) ==
            if StartupRaises(app, env) then [Send(StartupFailed)]
            else [Send(StartupComplete), Send(if ShutdownRaises(app, env) then ShutdownFailed else ShutdownComplete)]
    ensures Leaves(app, env).Some? <==> StartupRaises(app, env) || ShutdownRaises(app, env)
  {
    StartupRaisesIff(app, env);
    LeavesIff(app, env);
    var verdict := [Send(Verdict(app, env))];
    KeepOfThree(Sends, [Receive(0)], Inside(app, env), verdict);
    SentInside(app, env);
    KeepsNone(Sends, [Receive(0)]);
    KeepsAll(Sends, verdict);
    assert Trace(app, env) == [Receive(0)] + Inside(app, env) + verdict;
  }

  lemma {:induction false} LeavesIff(app: Declared, env: Environment)
    ensures Leaves(app, env).Some? <==> StartupFailure(app, env).Some? || ShutdownRaises(app, env)
  {
    if StartupFailure(app, env).None? {
      InFlightIff(Exits(app, env), env, AfterCall(Receive(1), env));
    }
  }

  lemma {:induction false} SentInside(app: Declared, env: Environment)
    ensures Keep(Sends, Inside(app, env)) == if StartupFailure(app, env).Some? then [] else [Send(StartupComplete)]
  {
    KeepOfThree(Sends, StartupCalls(app, env), Body(app, env), Exits(app, env));
    StartupCallsEnter(app, env);
    ExitsClose(app, env);
    KeepsNone(Sends, StartupCalls(app, env));
    KeepsNone(Sends, Exits(app, env));
    if StartupFailure(app, env).None? {
      KeepOfBoth(Sends, [Send(StartupComplete)], [Receive(1)]);
      assert Body(app, env) == [Send(StartupComplete)] + [Receive(1)];
    }
  }

  lemma {:induction false} StartupCallsEnter(app: Declared, env: Environment)
    ensures var calls := StartupCalls(app, env);
            forall i | 0 <= i < |calls| :: calls[i].EnterEmitter? || calls[i].EnterManager? || calls[i].RunStartup?
  {
  }

  lemma {:induction false} ExitsClose(app: Declared, env: Environment)
    ensures var exits := Exits(app, env);
            forall i | 0 <= i < |exits| ::
              Closings.Has(exits[i]) && !Sends.Has(exits[i]) && !Entries(env.raises).Has(exits[i])
  {
  }

  // ----- in which order -----

  /** The steps of a start-up in the order they are declared: the emitter, the managers, the hooks. */
  function StepAt(app: Declared, i: nat): Action {
    if i == 0 then EnterEmitter else if i <= app.managers then EnterManager(i - 1) else RunStartup(i - 1 - app.managers)
  }

  lemma {:induction false} CallsAt(app: Declared, m: nat, h: nat)
    requires m <= app.managers && (h > 0 ==> m == app.managers)
    ensures var calls := [EnterEmitter] + EnterManagers(m) + RunStartups(h);
            |calls| == 1 + m + h && forall i | 0 <= i < |calls| :: calls[i] == StepAt(app, i)
  {
    var calls := [EnterEmitter] + EnterManagers(m) + RunStartups(h);
    forall i | 0 <= i < |calls|
      ensures calls[i] == StepAt(app, i)
    {
      if i > m {
        assert calls[i] == RunStartups(h)[i - 1 - m];
      } else if i > 0 {
        assert calls[i] == EnterManagers(m)[i - 1];
      }
    }
  }

  /** The steps that are called, as many as `m` managers and `h` hooks make. */
  ghost predicate CalledSteps(app: Declared, env: Environment, calls: seq<Action>, m: nat, h: nat) {
    && calls == [EnterEmitter] + EnterManagers(m) + RunStartups(h)
    && |calls| == 1 + m + h && (forall i | 0 <= i < |calls| :: calls[i] == StepAt(app, i))
    && forall i | 0 <= i < |calls| - 1 :: calls[i] !in env.raises
  }

  lemma {:induction false} ManagersCalled(app: Declared, env: Environment)
    requires EnterEmitter !in env.raises && Managers(app, env) < app.managers
    ensures CalledSteps(app, env, StartupCalls(app, env), Managers(app, env) + 1, 0)
    ensures StepAt(app, Managers(app, env) + 1) in env.raises
  {
    var m := Managers(app, env);
    CallsAt(app, m + 1, 0);
    assert [EnterEmitter] + EnterManagers(m + 1) + RunStartups(0) == [EnterEmitter] + EnterManagers(m + 1);
    forall i | 0 <= i <= m
      ensures StepAt(app, i) !in env.raises
    {
      assert i > 0 ==> EnterManagers(app.managers)[i - 1] == EnterManager(i - 1);
    }
    assert EnterManagers(app.managers)[m] == EnterManager(m);
  }

  lemma {:induction false} HooksCalled(app: Declared, env: Environment)
    requires EnterEmitter !in env.raises && Managers(app, env) == app.managers
    ensures var h := Hooks(app, env);
            && CalledSteps(app, env, StartupCalls(app, env), app.managers, if h < app.onStartup then h + 1 else h)
            && (h < app.onStartup ==> StepAt(app, app.managers + h + 1) in env.raises)
            && (forall i | 0 <= i <= app.managers + h :: StepAt(app, i) !in env.raises)
  {
    var m, h := app.managers, Hooks(app, env);
    CallsAt(app, m, if h < app.onStartup then h + 1 else h);
    forall i | 0 <= i <= m + h
      ensures StepAt(app, i) !in env.raises
    {
      if i > m {
        assert RunStartups(app.onStartup)[i - 1 - m] == RunStartup(i - 1 - m);
      } else if i > 0 {
        assert EnterManagers(m)[i - 1] == EnterManager(i - 1);
      }
    }
    if h < app.onStartup {
      assert RunStartups(app.onStartup)[h] == RunStartup(h);
    }
  }

  lemma {:induction false} StartupCallsInOrder(app: Declared, env: Environment)
    ensures var calls, all := StartupCalls(app, env), 1 + app.managers + app.onStartup;
            && 0 < |calls| <= all
            && (forall i | 0 <= i < |calls| :: calls[i] == StepAt(app, i))
            && (forall i | 0 <= i < |calls| - 1 :: calls[i] !in env.raises)
            && StartupFailure(app, env)
               == (if calls[|calls| - 1] in env.raises then Some(Raised(calls[|calls| - 1])) else None)
            && (StartupFailure(app, env).None? ==> |calls| == all)
  {
    if EnterEmitter !in env.raises {
      if Managers(app, env) < app.managers {
        ManagersCalled(app, env);
      } else {
        HooksCalled(app, env);
      }
    }
  }

  /** Of a trace: start-up goes through all its steps, is reported as complete, and then shutdown is waited for. */
  ghost predicate GoesThrough(app: Declared, env: Environment, t: seq<Action>) {
    var all := 1 + app.managers + app.onStartup;
    && all + 3 < |t|
    && (forall i | 1 <= i <= all :: t[i] == StepAt(app, i - 1) && t[i] !in env.raises)
    && t[all + 1] == Send(StartupComplete) && t[all + 2] == Receive(1)
    && forall i | all + 2 < i < |t| - 1 :: t[i].ExitEmitter? || t[i].ExitManager? || t[i].RunShutdown?
  }

  /** Of a trace: the n-th step of the start-up raises, and closing begins. */
  ghost predicate FailsAt(app: Declared, env: Environment, t: seq<Action>, n: int) {
    && 1 <= n <= 1 + app.managers + app.onStartup && n < |t| - 1
    && (forall i | 1 <= i <= n :: t[i] == StepAt(app, i - 1))
    && (forall i | 1 <= i < n :: t[i] !in env.raises)
    && t[n] in env.raises && StartupFailure(app, env) == Some(Raised(t[n]))
    && forall i | n < i < |t| - 1 :: t[i].ExitEmitter? || t[i].ExitManager? || t[i].RunShutdown?
  }

  lemma {:induction false} Parts<T>(x: T, a: seq<T>, b: seq<T>, c: seq<T>, y: T)
    ensures var t := [x] + (a + b + c) + [y];
            && |t| == 2 + |a| + |b| + |c| && t[0] == x && t[|t| - 1] == y
            && (forall i | 1 <= i <= |a| :: t[i] == a[i - 1])
            && (forall i | |a| < i <= |a| + |b| :: t[i] == b[i - 1 - |a|])
            && forall i | |a| + |b| < i < |t| - 1 :: t[i] == c[i - 1 - |a| - |b|]
  {
  }

  lemma {:induction false} PartsOfTrace(app: Declared, env: Environment)
    requires Receive(0) !in env.raises
    ensures var t, calls, body, exits := Trace(app, env), StartupCalls(app, env), Body(app, env), Exits(app, env);
            && |t| == 2 + |calls| + |body| + |exits| && t[0] == Receive(0) && t[|t| - 1].Send?
            && (forall i | 1 <= i <= |calls| :: t[i] == calls[i - 1])
            && (forall i | |calls| < i <= |calls| + |body| :: t[i] == body[i - 1 - |calls|])
            && forall i | |calls| + |body| < i < |t| - 1 :: t[i].ExitEmitter? || t[i].ExitManager? || t[i].RunShutdown?
  {
    var t, calls, body, exits := Trace(app, env), StartupCalls(app, env), Body(app, env), Exits(app, env);
    Parts(Receive(0), calls, body, exits, Send(Verdict(app, env)));
    ExitsClose(app, env);
    forall i | |calls| + |body| < i < |t| - 1
      ensures t[i].ExitEmitter? || t[i].ExitManager? || t[i].RunShutdown?
    {
      assert Closings.Has(exits[i - 1 - |calls| - |body|]);
    }
  }

  /**
   The server's first message is received ahead of everything. Start-up steps are
   taken in declared order, up to the first that raises. Only when all of them went
   through start-up is reported as complete, and only after that the wait for the
   shutdown message begins. What closes comes after that wait, or after the step
   that raised, and the last message after all of it.
   */
  lemma {:induction false} TraceIsOrdered(app: Declared, env: Environment)
    ensures var t := Trace(app, env);
            if Receive(0) in env.raises then t == [Receive(0)]
            else
              && |t| > 2 && t[0] == Receive(0) && t[|t| - 1].Send?
              && if StartupRaises(app, env) then exists n :: FailsAt(app, env, t, n) else GoesThrough(app, env, t)
  {
    if Receive(0) !in env.raises {
      var t, calls := Trace(app, env), StartupCalls(app, env);
      StartupRaisesIff(app, env);
      StartupCallsInOrder(app, env);
      PartsOfTrace(app, env);
      assert forall i | 1 <= i <= |calls| :: t[i] == calls[i - 1];
      if StartupRaises(app, env) {
        assert FailsAt(app, env, t, |calls|);
      } else {
        var all := 1 + app.managers + app.onStartup;
        assert t[all + 1] == Body(app, env)[0] && t[all + 2] == Body(app, env)[1];
        assert calls[all - 1] !in env.raises;
      }
    }
  }

  /** The exception that is left is the last one raised, by an exit or before them. */
  lemma {:induction false} InFlightIsLast(exits: seq<Action>, env: Environment, before: Option<Exception>)
    ensures var left := InFlight(exits, env, before);
            left.Some? ==>
              || (left == before && forall j | 0 <= j < |exits| :: exits[j] !in env.raises)
              || exists i :: 0 <= i < |exits| && exits[i] in env.raises && left == Some(Raised(exits[i]))
                             && forall j | i < j < |exits| :: exits[j] !in env.raises
  {
    if exits != [] {
      var rest, after := exits[1..], AfterExit(exits[0], env, before);
      InFlightIsLast(rest, env, after);
      var left := InFlight(rest, env, after);
      assert forall j | 0 <= j < |rest| :: rest[j] == exits[j + 1];
      assert forall j | 1 <= j < |exits| :: exits[j] == rest[j - 1];
      if left.Some? && !(forall j | 0 <= j < |rest| :: rest[j] !in env.raises) {
        var i :| 0 <= i < |rest| && rest[i] in env.raises && left == Some(Raised(rest[i]))
                 && forall j | i < j < |rest| :: rest[j] !in env.raises;
        assert exits[i + 1] in env.raises;
      }
    }
  }

  /**
   What leaves the lifespan: of a failed start-up always something, be it only that
   nothing was yielded when a manager swallowed the failure; otherwise the last
   exception raised, if nobody swallowed it.
   */
  lemma {:induction false} LeavesMeans(app: Declared, env: Environment)
    ensures var failure := StartupFailure(app, env);
            var exits, left := Exits(app, env), Leaves(app, env);
            var before := if failure.Some? then failure
                          else if Receive(1) in env.raises then Some(Raised(Receive(1))) else None;
            if Escapes(exits, env, before.Some?) then
              || (left == before && forall j | 0 <= j < |exits| :: exits[j] !in env.raises)
              || exists i :: 0 <= i < |exits| && exits[i] in env.raises && left == Some(Raised(exits[i]))
                             && forall j | i < j < |exits| :: exits[j] !in env.raises
            else left == if StartupRaises(app, env) then Some(DidNotYield) else None
  {
    StartupRaisesIff(app, env);
    var failure, exits := StartupFailure(app, env), Exits(app, env);
    var before := if failure.Some? then failure
                  else if Receive(1) in env.raises then Some(Raised(Receive(1))) else None;
    InFlightIff(exits, env, before);
    InFlightIsLast(exits, env, before);
  }

  // ----- what is closed -----

  /** What closes what was entered. */
  function ExitOf(a: Action): Action {
    match a
    case EnterManager(i) => ExitManager(i)
    case _ => ExitEmitter
  }

  function Mirror(entered: seq<Action>): (r: seq<Action>)
    ensures |r| == |entered| && forall i | 0 <= i < |r| :: r[i] == ExitOf(entered[|entered| - 1 - i])
  {
    if entered == [] then [] else Mirror(entered[1..]) + [ExitOf(entered[0])]
  }

  /**
   Whatever raises or swallows: what was entered is exited exactly once, the last
   first, and then every `on_shutdown` hook runs exactly once, in declared order.
   */
  lemma {:induction false} EverythingIsClosed(app: Declared, env: Environment)
    requires Receive(0) !in env.raises
    ensures Keep(Closings, Trace(app, env))
         == Mirror(Keep(Entries(env.raises), Trace(app, env))) + RunShutdowns(app.onShutdown)
  {
    ClosedInside(app, env);
    EnteredInside(app, env);
    KeptInside(Closings, app, env);
    KeptInside(Entries(env.raises), app, env);
    MirrorOfEntered(app, env);
  }

  lemma {:induction false} KeptInside(k: Kind, app: Declared, env: Environment)
    requires Receive(0) !in env.raises && !k.Sends?
    ensures Keep(k, Trace(app, env)) == Keep(k, Inside(app, env))
  {
    var verdict := [Send(Verdict(app, env))];
    KeepOfThree(k, [Receive(0)], Inside(app, env), verdict);
    KeepsNone(k, [Receive(0)]);
    KeepsNone(k, verdict);
  }

  lemma {:induction false} ClosedInside(app: Declared, env: Environment)
    ensures Keep(Closings, Inside(app, env)) == Exits(app, env)
  {
    KeepOfThree(Closings, StartupCalls(app, env), Body(app, env), Exits(app, env));
    StartupCallsEnter(app, env);
    ExitsClose(app, env);
    KeepsNone(Closings, StartupCalls(app, env));
    KeepsNone(Closings, Body(app, env));
    KeepsAll(Closings, Exits(app, env));
  }

  function Entered(app: Declared, env: Environment): seq<Action> {
    if EnterEmitter in env.raises then [] else [EnterEmitter] + EnterManagers(Managers(app, env))
  }

  lemma {:induction false} MirrorOfEntered(app: Declared, env: Environment)
    ensures Mirror(Entered(app, env)) + RunShutdowns(app.onShutdown) == Exits(app, env)
  {
    if EnterEmitter in env.raises {
      assert Mirror([]) == [];
    } else {
      MirrorOfManagers(Managers(app, env));
      var exits, shutdowns := ExitManagers(Managers(app, env)), RunShutdowns(app.onShutdown);
      assert (exits + [ExitEmitter]) + shutdowns == exits + ([ExitEmitter] + shutdowns);
    }
  }

  lemma {:induction false} MirrorOfManagers(n: nat)
    ensures Mirror([EnterEmitter] + EnterManagers(n)) == ExitManagers(n) + [ExitEmitter]
  {
    var managers := EnterManagers(n);
    var entered := [EnterEmitter] + managers;
    assert entered[1..] == managers && entered[0] == EnterEmitter;
    assert Mirror(entered) == Mirror(managers) + [ExitEmitter];
    forall i | 0 <= i < n
      ensures Mirror(managers)[i] == ExitManagers(n)[i]
    {
      assert managers[n - 1 - i] == EnterManager(n - 1 - i);
    }
    assert Mirror(managers) == ExitManagers(n);
  }

  lemma {:induction false} EnteredInside(app: Declared, env: Environment)
    ensures Keep(Entries(env.raises), Inside(app, env)) == Entered(app, env)
  {
    var k := Entries(env.raises);
    KeepOfThree(k, StartupCalls(app, env), Body(app, env), Exits(app, env));
    ExitsClose(app, env);
    KeepsNone(k, Body(app, env));
    KeepsNone(k, Exits(app, env));
    EnteredCalls(app, env);
  }

  lemma {:induction false} EnteredCalls(app: Declared, env: Environment)
    ensures Keep(Entries(env.raises), StartupCalls(app, env)) == Entered(app, env)
  {
    var k, m, h := Entries(env.raises), Managers(app, env), Hooks(app, env);
    if EnterEmitter in env.raises {
      KeepsNone(k, [EnterEmitter]);
    } else {
      KeepsAll(k, [EnterEmitter]);
      KeepsAll(k, EnterManagers(m));
      if m < app.managers {
        EnteredManagers(k, m);
      } else {
        EnteredBeforeHooks(k, m, if h < app.onStartup then h + 1 else h);
      }
    }
  }

  lemma {:induction false} EnteredManagers(k: Kind, m: nat)
    requires k.Entries? && EnterManager(m) in k.raises
    ensures Keep(k, [EnterEmitter] + EnterManagers(m + 1)) == Keep(k, [EnterEmitter]) + Keep(k, EnterManagers(m))
  {
    KeepOfBoth(k, [EnterEmitter], EnterManagers(m + 1));
    KeepOfBoth(k, EnterManagers(m), [EnterManager(m)]);
    KeepsNone(k, [EnterManager(m)]);
  }

  lemma {:induction false} EnteredBeforeHooks(k: Kind, m: nat, h: nat)
    requires k.Entries?
    ensures Keep(k, [EnterEmitter] + EnterManagers(m) + RunStartups(h))
         == Keep(k, [EnterEmitter]) + Keep(k, EnterManagers(m))
  {
    KeepOfThree(k, [EnterEmitter], EnterManagers(m), RunStartups(h));
    KeepsNone(k, RunStartups(h));
  }

  // ----- the program -----

  class ASGIRouter {
    const app: Declared
    const env: Environment
    /** Everything that was called, in order. */
    var trace: seq<Action>
    /** The exit stack of `Litestar.lifespan`, its top at the end. */
    var exitStack: seq<Action>

    constructor (app: Declared, env: Environment)
      ensures this.app == app && this.env == env && trace == [] && exitStack == []
    {
      this.app, this.env, trace, exitStack := app, env, [], [];
    }

    method Perform(a: Action) returns (raised: Option<Exception>)
      modifies this`trace
      ensures trace == old(trace) + [a]
      ensures raised == AfterCall(a, env)
    {
      trace := trace + [a];
      raised := if a in env.raises then Some(Raised(a)) else None;
    }

    /** The `on_shutdown` hooks go to the bottom of the stack, the first of them on top. */
    method PushShutdownHooks()
      requires exitStack == []
      modifies this`exitStack
      ensures Unwound(exitStack) == RunShutdowns(app.onShutdown)
    {
      var i := app.onShutdown;
      while i > 0
        invariant 0 <= i <= app.onShutdown
        invariant |exitStack| == app.onShutdown - i
        invariant forall j | 0 <= j < |exitStack| :: exitStack[j] == RunShutdown(app.onShutdown - 1 - j)
      {
        i := i - 1;
        exitStack := exitStack + [RunShutdown(i)];
      }
    }

    method EnterManagersInOrder() returns (raised: Option<Exception>)
      modifies this
      ensures var n := Managers(app, env);
              && Unwound(exitStack) == ExitManagers(n) + Unwound(old(exitStack))
              && (if n < app.managers then
                    raised == Some(Raised(EnterManager(n))) && trace == old(trace) + EnterManagers(n + 1)
                  else raised == None && trace == old(trace) + EnterManagers(n))
    {
      raised := None;
      var i := 0;
      while i < app.managers
        invariant 0 <= i <= app.managers
        invariant forall j | 0 <= j < i :: EnterManager(j) !in env.raises
        invariant Unwound(exitStack) == ExitManagers(i) + Unwound(old(exitStack))
        invariant trace == old(trace) + EnterManagers(i)
        invariant raised == None
      {
        raised := Perform(EnterManager(i));
        Associative(old(trace), EnterManagers(i), [EnterManager(i)]);
        if raised.Some? {
          StopsAt(EnterManagers(app.managers), env.raises, i);
          return;
        }
        ghost var below := exitStack;
        exitStack := exitStack + [ExitManager(i)];
        Pushed(below, ExitManager(i));
        Associative([ExitManager(i)], ExitManagers(i), Unwound(old(exitStack)));
        i := i + 1;
      }
      StopsAt(EnterManagers(app.managers), env.raises, i);
    }

    method RunStartupHooks() returns (raised: Option<Exception>)
      modifies this`trace
      ensures var n := Hooks(app, env);
              if n < app.onStartup then
                raised == Some(Raised(RunStartup(n))) && trace == old(trace) + RunStartups(n + 1)
              else raised == None && trace == old(trace) + RunStartups(n)
    {
      raised := None;
      var i := 0;
      while i < app.onStartup
        invariant 0 <= i <= app.onStartup
        invariant forall j | 0 <= j < i :: RunStartup(j) !in env.raises
        invariant trace == old(trace) + RunStartups(i)
        invariant raised == None
      {
        raised := Perform(RunStartup(i));
        Associative(old(trace), RunStartups(i), [RunStartup(i)]);
        if raised.Some? {
          StopsAt(RunStartups(app.onStartup), env.raises, i);
          return;
        }
        i := i + 1;
      }
      StopsAt(RunStartups(app.onStartup), env.raises, i);
    }

    /** `Litestar.lifespan` up to its `yield`. */
    method EnterLifespan() returns (raised: Option<Exception>)
      requires exitStack == []
      modifies this
      ensures Unwound(exitStack) == Exits(app, env)
      ensures raised == StartupFailure(app, env) && trace == old(trace) + StartupCalls(app, env)
    {
      PushShutdownHooks();
      ghost var hooks := exitStack;
      raised := Perform(EnterEmitter);
      if raised.Some? {
        return;
      }
      exitStack := exitStack + [ExitEmitter];
      Pushed(hooks, ExitEmitter);
      ghost var m, h := Managers(app, env), Hooks(app, env);
      raised := EnterManagersInOrder();
      if raised.Some? {
        Associative(old(trace), [EnterEmitter], EnterManagers(m + 1));
        return;
      }
      raised := RunStartupHooks();
      Associative3(old(trace), [EnterEmitter], EnterManagers(m), RunStartups(if h < app.onStartup then h + 1 else h));
    }

    /** `AsyncExitStack.__aexit__`: call everything on the stack, the top first, whatever raises. */
    method ExitLifespan(before: Option<Exception>) returns (raised: Option<Exception>)
      modifies this
      ensures exitStack == [] && trace == old(trace) + Unwound(old(exitStack))
      ensures raised == InFlight(Unwound(old(exitStack)), env, before)
    {
      raised := before;
      while exitStack != []
        invariant trace + Unwound(exitStack) == old(trace) + Unwound(old(exitStack))
        invariant InFlight(Unwound(exitStack), env, raised) == InFlight(Unwound(old(exitStack)), env, before)
        decreases |exitStack|
      {
        var callback := exitStack[|exitStack| - 1];
        assert Unwound(exitStack) == [callback] + Unwound(exitStack[..|exitStack| - 1]);
        exitStack := exitStack[..|exitStack| - 1];
        var failure := Perform(callback);
        if failure.Some? {
          raised := failure;
        } else if callback.ExitManager? && callback.index in env.swallows {
          raised := None;
        }
      }
    }

    /** The `async with` statement of `ASGIRouter.lifespan`. */
    method AsyncWith() returns (started: bool, raised: Option<Exception>)
      requires exitStack == [] && forall m :: Send(m) !in env.raises
      modifies this
      ensures trace == old(trace) + Inside(app, env)
      ensures raised == Leaves(app, env) && started == StartupFailure(app, env).None?
    {
      started := false;
      raised := EnterLifespan();
      if raised.Some? {
        raised := ExitLifespan(raised);
        if raised.None? {
          raised := Some(DidNotYield);
        }
      } else {
        var sent := Perform(Send(StartupComplete));
        started := true;
        raised := Perform(Receive(1));
        assert trace == old(trace) + StartupCalls(app, env) + Body(app, env);
        raised := ExitLifespan(raised);
      }
      Associative3(old(trace), StartupCalls(app, env), Body(app, env), Exits(app, env));
    }

    /** `ASGIRouter.lifespan`: the messages around it all. */
    method Lifespan() returns (raised: Option<Exception>)
      requires exitStack == [] && trace == [] && forall m :: Send(m) !in env.raises
      modifies this
      ensures trace == Trace(app, env)
      ensures raised == if Receive(0) in env.raises then Some(Raised(Receive(0))) else Leaves(app, env)
    {
      raised := Perform(Receive(0));
      if raised.Some? {
        return;
      }
      assert trace == [Receive(0)];
      var started: bool;
      started, raised := AsyncWith();
      assert trace == [Receive(0)] + Inside(app, env);
      var last: Option<Exception>;
      if raised.Some? {
        last := Perform(Send(if started then ShutdownFailed else StartupFailed));
      } else {
        last := Perform(Send(ShutdownComplete));
      }
    }
  }

  /** The order in which a stack is emptied. */
  function Unwound<T>(s: seq<T>): (r: seq<T>)
    ensures |r| == |s| && forall i | 0 <= i < |s| :: r[i] == s[|s| - 1 - i]
  {
    if s == [] then [] else [s[|s| - 1]] + Unwound(s[..|s| - 1])
  }

  lemma {:induction false} Pushed<T>(below: seq<T>, top: T)
    ensures Unwound(below + [top]) == [top] + Unwound(below)
  {
    assert (below + [top])[..|below|] == below;
  }

  lemma {:induction false} Associative<T>(a: seq<T>, b: seq<T>, c: seq<T>)
    ensures (a + b) + c == a + (b + c)
  {
  }

  lemma {:induction false} Associative3<T>(a: seq<T>, b: seq<T>, c: seq<T>, d: seq<T>)
    ensures a + b + c + d == a + (b + c + d)
  {
  }

  lemma {:induction false} StopsAt(steps: seq<Action>, raises: set<Action>, n: nat)
    requires n <= |steps| && forall i | 0 <= i < n :: steps[i] !in raises
    requires n < |steps| ==> steps[n] in raises
    ensures StepsDone(steps, raises) == n
  {
  }
}
