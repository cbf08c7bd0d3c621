/**
 The bootstrap of the GUI's daemon session: hello, settings with the cache open, activation.

 A step whose reply is slow parks the bootstrap; the late reply resumes it at the same stage. The
 answers of the socket and of the database are arguments. `trace` records what was begun and what
 succeeded, and every loss of the connection, so that the order of events can be stated.
 */
module Session {
  import opened Wrappers

  datatype Stage = Hello | Settings | Activation

  datatype Failure =
    | DaemonBusy | DaemonUnavailable | IncompatibleDaemon | DaemonStartFailed
    | SettingsUnavailable | CacheUnavailable | CacheBarrierFailed

  /** What the ready reply names: the daemon, its cache and whether it gave a cache path. */
  datatype Ready = Ready(daemon: nat, cache: nat, hasPath: bool)

  datatype Bootstrap = Bootstrap(stage: Stage, initial: bool, allowStart: bool, oldReady: Option<Ready>)

  datatype Event =
    | Began(initial: bool, oldReady: Option<Ready>)   // a bootstrap, and the reply the session had
    | Connected
    | HelloOk(ready: Ready)
    | SettingsOk
    | ActivationOk
    | CacheSuspended
    | CacheResumed
    | Finished
    | Lost

  /** How the socket answers a request; a refusal carries the daemon's own error. */
  datatype Answer<T> = Granted(value: T) | Slow | Refused(incompatible: bool) | Broken

  datatype Launch = Available | NotStarted | NeverAvailable

  datatype Env = Env(
    connects: bool, launch: Launch, hello: Answer<Ready>,
    settings: Answer<()>, opens: bool, activation: Answer<()>,
    suspends: bool, resumes: bool)

  /** `broken` is a socket that has failed but whose loss the session has not been told of. */
  datatype State = State(
    connected: bool, broken: bool, ready: Option<Ready>, recovering: bool,
    parked: Option<Bootstrap>, cacheOpen: bool, trace: seq<Event>)

  const IDLE := State(false, false, None, false, None, false, [])

  predicate Open(s: State) {
    s.connected && !s.broken
  }

  predicate IsReady(s: State) {
    s.ready.Some? && !s.recovering && Open(s)
  }

  function Note(s: State, event: Event): State {
    s.(trace := s.trace + [event])
  }

  // ---------------------------------------------------------------- the specification

  /** `onDaemonDisconnected`, once the socket is gone. */
  function Disconnected(s: State): State {
    Note(s.(connected := false, broken := false, parked := None, recovering := true), Lost)
  }

  function Disconnect(s: State): State {
    if s.connected then Disconnected(s) else s
  }

  function Linked(s: State): State {
    Note(s.(connected := true, broken := false), Connected)
  }

  /** `allowStart` says that both the caller and the options let the daemon be started. */
  function Connect(s: State, allowStart: bool, env: Env): (r: (State, Option<Failure>)) {
    if Open(s) then (s, None)
    else if env.connects then (Linked(s), None)
    else
      // The failed attempt replaces the socket and closes it again.
      var closed := Disconnected(s);
      if !allowStart then (closed, Some(DaemonUnavailable))
      else
        match env.launch
        case Available => (Linked(closed), None)
        case NotStarted => (closed, Some(DaemonStartFailed))
        case NeverAvailable => (closed, Some(DaemonUnavailable))
  }

  function Greet(s: State, env: Env): (r: (State, Option<Failure>)) {
    match env.hello
    case Granted(ready) => (Note(s.(ready := Some(ready)), HelloOk(ready)), None)
    case Slow => (s, Some(DaemonBusy))
    case Refused(incompatible) =>
      (Disconnect(s), Some(if incompatible then IncompatibleDaemon else DaemonUnavailable))
    case Broken => (Disconnect(s), Some(DaemonUnavailable))
  }

  function Handshake(s: State, allowStart: bool, env: Env): (r: (State, Option<Failure>)) {
    var (linked, failure) := Connect(s, allowStart, env);
    if failure.Some? then (linked, failure) else Greet(linked, env)
  }

  function LoadSettings(s: State, env: Env): (r: (State, Option<Failure>)) {
    if !Open(s) then (s, Some(DaemonUnavailable))
    else
      match env.settings
      case Slow => (s, Some(DaemonBusy))
      case Broken => (s.(broken := true), Some(DaemonUnavailable))
      case Refused(_) => (s, Some(SettingsUnavailable))
      case Granted(_) =>
        if s.ready.None? || !s.ready.value.hasPath || !(s.cacheOpen || env.opens) then (s, Some(CacheUnavailable))
        else (Note(s.(cacheOpen := true), SettingsOk), None)
  }

  function Activate(s: State, env: Env): (r: (State, Option<Failure>)) {
    if !Open(s) then (s, Some(DaemonUnavailable))
    else
      match env.activation
      case Slow => (s, Some(DaemonBusy))
      case Broken => (s.(broken := true), Some(DaemonUnavailable))
      case Refused(incompatible) =>
        (Disconnect(s), Some(if incompatible then IncompatibleDaemon else DaemonUnavailable))
      case Granted(_) => (Note(s, ActivationOk), None)
  }

  /** Only a slow daemon parks the bootstrap, at the stage that has to be repeated. */
  function Park(s: State, b: Bootstrap, stage: Stage, failure: Failure): State {
    s.(recovering := true, parked := if failure == DaemonBusy then Some(b.(stage := stage)) else None)
  }

  predicate CacheChanged(s: State, b: Bootstrap) {
    !b.initial && b.oldReady.Some? && s.ready.Some? && b.oldReady.value.cache != s.ready.value.cache
  }

  function Finish(s: State, b: Bootstrap, env: Env): (r: (State, Option<Failure>)) {
    var done := s.(parked := None, recovering := false);
    var failed := s.(parked := None);
    if !CacheChanged(s, b) then (Note(done, Finished), None)
    else if !env.suspends then (failed, Some(CacheBarrierFailed))
    else if !env.resumes then (Note(failed, CacheSuspended), Some(CacheBarrierFailed))
    else (Note(Note(Note(done, CacheSuspended), CacheResumed), Finished), None)
  }

  function FromActivation(s: State, b: Bootstrap, env: Env): (r: (State, Option<Failure>)) {
    var (done, failure) := Activate(s, env);
    if failure.Some? then (Park(done, b, Activation, failure.value), failure) else Finish(done, b, env)
  }

  function FromSettings(s: State, b: Bootstrap, env: Env): (r: (State, Option<Failure>)) {
    var (done, failure) := LoadSettings(s, env);
    if failure.Some? then (Park(done, b, Settings, failure.value), failure) else FromActivation(done, b, env)
  }

  function FromHello(s: State, b: Bootstrap, env: Env): (r: (State, Option<Failure>)) {
    var (done, failure) := Handshake(s, b.allowStart, env);
    if failure.Some? then (Park(done, b, Hello, failure.value), failure) else FromSettings(done, b, env)
  }

  function Continue(s: State, b: Bootstrap, env: Env): (r: (State, Option<Failure>)) {
    match b.stage
    case Hello => FromHello(s, b, env)
    case Settings => FromSettings(s, b, env)
    case Activation => FromActivation(s, b, env)
  }

  function FirstBootstrap(): Bootstrap { Bootstrap(Hello, true, true, None) }

  /** The parked bootstrap, or else a new one. */
  function ParkedOr(s: State, b: Bootstrap, env: Env): (r: (State, Option<Failure>)) {
    if s.parked.Some? then Continue(s, s.parked.value, env)
    else Continue(Note(s, Began(b.initial, b.oldReady)), b, env)
  }

  function Start(s: State, env: Env): (r: (State, Option<Failure>)) {
    if s.ready.Some? && !s.recovering then (s, None) else ParkedOr(s, FirstBootstrap(), env)
  }

  function Reconnect(s: State, env: Env): (r: (State, Option<Failure>)) {
    ParkedOr(s, Bootstrap(Hello, false, false, s.ready), env)
  }

  /** A late reply resumes the bootstrap parked at its stage, and no other. */
  function Resume(s: State, request: Stage, env: Env): (r: (State, Option<Failure>)) {
    if s.parked.None? || s.parked.value.stage != request then (s, None) else Continue(s, s.parked.value, env)
  }

  function Stop(s: State): State {
    Disconnect(s).(ready := None, parked := None, recovering := false, cacheOpen := false)
  }

  // ---------------------------------------------------------------- the object

  class GuiDaemonSession {
    var connected: bool
    var broken: bool
    var readyReply: Option<Ready>
    var inRecovery: bool
    var pendingBootstrap: Option<Bootstrap>
    var readConnectionOpen: bool
    var trace: seq<Event>

    ghost function Abs(): State
      reads this
    {
      State(connected, broken, readyReply, inRecovery, pendingBootstrap, readConnectionOpen, trace)
    }

    constructor ()
      ensures Abs() == IDLE
    {
      connected, broken, readyReply, inRecovery := false, false, None, false;
      pendingBootstrap, readConnectionOpen, trace := None, false, [];
    }

    method OnDaemonDisconnected()
      modifies this
      ensures Abs() == Disconnected(old(Abs()))
    {
      connected, broken := false, false;
      trace := trace + [Lost];
      pendingBootstrap := None;
      if inRecovery { return; }
      inRecovery := true;
    }

    method DisconnectFromDaemon()
      modifies this
      ensures Abs() == Disconnect(old(Abs()))
    {
      if connected { OnDaemonDisconnected(); }
    }

    /** Connects unless it is connected, starting the daemon if it may. */
    method ConnectToDaemon(allowStart: bool, env: Env) returns (failure: Option<Failure>)
      modifies this
      ensures var r := Connect(old(Abs()), allowStart, env); Abs() == r.0 && failure == r.1
    {
      hide Disconnected;
      if connected && !broken { return None; }
      if !env.connects {
        OnDaemonDisconnected();
        if !allowStart { return Some(DaemonUnavailable); }
        if env.launch == NotStarted { return Some(DaemonStartFailed); }
        if env.launch == NeverAvailable { return Some(DaemonUnavailable); }
      }
      connected, broken := true, false;
      trace := trace + [Connected];
      return None;
    }

    method ConnectAndHandshake(allowStart: bool, env: Env) returns (failure: Option<Failure>)
      modifies this
      ensures var r := Handshake(old(Abs()), allowStart, env); Abs() == r.0 && failure == r.1
    {
      hide Disconnect, Connect;
      failure := ConnectToDaemon(allowStart, env);
      if failure.Some? { return; }
      match env.hello {
        case Granted(ready) =>
          readyReply := Some(ready);
          trace := trace + [HelloOk(ready)];
          return None;
        case Slow =>
          return Some(DaemonBusy);
        case Refused(incompatible) =>
          DisconnectFromDaemon();
          return Some(if incompatible then IncompatibleDaemon else DaemonUnavailable);
        case Broken =>
          DisconnectFromDaemon();
          return Some(DaemonUnavailable);
      }
    }

    method LoadSettingsAndCache(env: Env) returns (failure: Option<Failure>)
      modifies this
      ensures var r := LoadSettings(old(Abs()), env); Abs() == r.0 && failure == r.1
    {
      if !connected || broken { return Some(DaemonUnavailable); }
      match env.settings {
        case Slow => return Some(DaemonBusy);
        case Broken =>
          broken := true;
          return Some(DaemonUnavailable);
        case Refused(_) => return Some(SettingsUnavailable);
        case Granted(_) =>
      }
      if readyReply.None? || !readyReply.value.hasPath { return Some(CacheUnavailable); }
      if !readConnectionOpen {
        if !env.opens { return Some(CacheUnavailable); }
        readConnectionOpen := true;
      }
      trace := trace + [SettingsOk];
      return None;
    }

    method ReadyForActivation(env: Env) returns (failure: Option<Failure>)
      modifies this
      ensures var r := Activate(old(Abs()), env); Abs() == r.0 && failure == r.1
    {
      if !connected || broken { return Some(DaemonUnavailable); }
      match env.activation {
        case Slow => return Some(DaemonBusy);
        case Broken =>
          broken := true;
          return Some(DaemonUnavailable);
        case Refused(incompatible) =>
          DisconnectFromDaemon();
          return Some(if incompatible then IncompatibleDaemon else DaemonUnavailable);
        case Granted(_) =>
          trace := trace + [ActivationOk];
          return None;
      }
    }

    method RecordBootstrapError(b: Bootstrap, stage: Stage, failure: Failure)
      modifies this
      ensures Abs() == Park(old(Abs()), b, stage, failure)
    {
      inRecovery := true;
      if failure == DaemonBusy {
        pendingBootstrap := Some(b.(stage := stage));
      } else {
        pendingBootstrap := None;
      }
    }

    method ContinueBootstrap(bootstrap: Bootstrap, env: Env) returns (failure: Option<Failure>)
      modifies this
      ensures var r := Continue(old(Abs()), bootstrap, env); Abs() == r.0 && failure == r.1
    {
      hide Handshake, LoadSettings, Activate, Park, Finish;
      var b := bootstrap;
      if b.stage == Hello {
        failure := ConnectAndHandshake(b.allowStart, env);
        if failure.Some? {
          RecordBootstrapError(b, Hello, failure.value);
          return;
        }
        b := b.(stage := Settings);
      }
      if b.stage == Settings {
        failure := LoadSettingsAndCache(env);
        if failure.Some? {
          ParkForgetsStage(Abs(), b, bootstrap, Settings, failure.value);
          RecordBootstrapError(b, Settings, failure.value);
          return;
        }
        b := b.(stage := Activation);
      }
      failure := ReadyForActivation(env);
      if failure.Some? {
        ParkForgetsStage(Abs(), b, bootstrap, Activation, failure.value);
        RecordBootstrapError(b, Activation, failure.value);
        return;
      }
      FinishIgnoresStage(Abs(), b, bootstrap, env);
      failure := FinishBootstrap(b, env);
    }

    /** Reopens the cache if it is another one, and leaves recovery. */
    method FinishBootstrap(b: Bootstrap, env: Env) returns (failure: Option<Failure>)
      modifies this
      ensures var r := Finish(old(Abs()), b, env); Abs() == r.0 && failure == r.1
    {
      if !b.initial && b.oldReady.Some? && readyReply.Some? && b.oldReady.value.cache != readyReply.value.cache {
        if !env.suspends {
          pendingBootstrap := None;
          return Some(CacheBarrierFailed);
        }
        trace := trace + [CacheSuspended];
        if !env.resumes {
          pendingBootstrap := None;
          return Some(CacheBarrierFailed);
        }
        trace := trace + [CacheResumed];
      }
      pendingBootstrap := None;
      inRecovery := false;
      trace := trace + [Finished];
      return None;
    }

    method StartSession(env: Env) returns (failure: Option<Failure>)
      modifies this
      ensures var r := Start(old(Abs()), env); Abs() == r.0 && failure == r.1
    {
      if readyReply.Some? && !inRecovery { return None; }
      if pendingBootstrap.Some? {
        failure := ContinueBootstrap(pendingBootstrap.value, env);
      } else {
        trace := trace + [Began(true, None)];
        failure := ContinueBootstrap(Bootstrap(Hello, true, true, None), env);
      }
    }

    method ReconnectSession(env: Env) returns (failure: Option<Failure>)
      modifies this
      ensures var r := Reconnect(old(Abs()), env); Abs() == r.0 && failure == r.1
    {
      if pendingBootstrap.Some? {
        failure := ContinueBootstrap(pendingBootstrap.value, env);
      } else {
        trace := trace + [Began(false, readyReply)];
        failure := ContinueBootstrap(Bootstrap(Hello, false, false, readyReply), env);
      }
    }

    method ResumePendingBootstrap(request: Stage, env: Env) returns (failure: Option<Failure>)
      modifies this
      ensures var r := Resume(old(Abs()), request, env); Abs() == r.0 && failure == r.1
    {
      if pendingBootstrap.None? || request != pendingBootstrap.value.stage { return None; }
      failure := ContinueBootstrap(pendingBootstrap.value, env);
    }

    method StopSession()
      modifies this
      ensures Abs() == Stop(old(Abs()))
    {
      DisconnectFromDaemon();
      readConnectionOpen := false;
      readyReply, pendingBootstrap, inRecovery := None, None, false;
    }
  }

  lemma FinishIgnoresStage(s: State, b: Bootstrap, original: Bootstrap, env: Env)
    requires b == original.(stage := b.stage)
    ensures Finish(s, b, env) == Finish(s, original, env)
  {
  }

  lemma ParkForgetsStage(s: State, b: Bootstrap, c: Bootstrap, stage: Stage, failure: Failure)
    requires b.(stage := c.stage) == c
    ensures Park(s, b, stage, failure) == Park(s, c, stage, failure)
  {
  }

  // ---------------------------------------------------------------- order of events

  /** The event leaves the connection and its greeting as they are. */
  predicate Mild(event: Event) {
    event != Lost && event != Connected && !event.HelloOk?
  }

  /** `trace[i]` is the last greeting, and its connection has lasted since. */
  predicate GreetedAt(trace: seq<Event>, i: nat) {
    i < |trace| && trace[i].HelloOk? && forall m | i < m < |trace| :: Mild(trace[m])
  }

  ghost predicate Greeted(trace: seq<Event>) {
    exists i: nat :: GreetedAt(trace, i)
  }

  ghost predicate Loaded(trace: seq<Event>) {
    exists i: nat, j: nat :: GreetedAt(trace, i) && i < j < |trace| && trace[j] == SettingsOk
  }

  /** Hello, settings and activation succeeded in this order, on one connection that has lasted since. */
  ghost predicate Completed(trace: seq<Event>) {
    exists i: nat, j: nat, k: nat ::
      GreetedAt(trace, i) && i < j < k < |trace| && trace[j] == SettingsOk && trace[k] == ActivationOk
  }

  ghost predicate Orderly(trace: seq<Event>) {
    forall n | 0 <= n < |trace| && trace[n] == Finished :: Completed(trace[..n])
  }

  lemma NotedOrderly(trace: seq<Event>, event: Event)
    requires Orderly(trace) && (event == Finished ==> Completed(trace))
    ensures Orderly(trace + [event])
  {
    hide Completed;
    var longer := trace + [event];
    forall n | 0 <= n < |longer| && longer[n] == Finished ensures Completed(longer[..n]) {
      assert longer[..n] == trace[..n];
      assert trace[..|trace|] == trace;
    }
  }

  lemma NotedMild(trace: seq<Event>, event: Event)
    requires Mild(event)
    ensures Greeted(trace) ==> Greeted(trace + [event])
    ensures Loaded(trace) ==> Loaded(trace + [event])
    ensures Completed(trace) ==> Completed(trace + [event])
  {
    hide GreetedAt;
    var longer := trace + [event];
    forall i: nat | GreetedAt(trace, i) ensures GreetedAt(longer, i) { GreetedStays(trace, event, i); }
    if Loaded(trace) {
      var i: nat, j: nat :| GreetedAt(trace, i) && i < j < |trace| && trace[j] == SettingsOk;
      assert GreetedAt(longer, i) && longer[j] == SettingsOk;
    }
    if Completed(trace) {
      var i: nat, j: nat, k: nat :|
        GreetedAt(trace, i) && i < j < k < |trace| && trace[j] == SettingsOk && trace[k] == ActivationOk;
      assert GreetedAt(longer, i) && longer[j] == SettingsOk && longer[k] == ActivationOk;
    }
  }

  lemma GreetedStays(trace: seq<Event>, event: Event, i: nat)
    requires Mild(event) && GreetedAt(trace, i)
    ensures GreetedAt(trace + [event], i)
  {
  }

  lemma NotedKeeps(trace: seq<Event>, event: Event)
    requires Orderly(trace) && (event == Finished ==> Completed(trace))
    ensures Orderly(trace + [event])
    ensures Mild(event) && Greeted(trace) ==> Greeted(trace + [event])
    ensures Mild(event) && Loaded(trace) ==> Loaded(trace + [event])
    ensures Mild(event) && Completed(trace) ==> Completed(trace + [event])
  {
    hide Orderly, Greeted, Loaded, Completed, Mild;
    NotedOrderly(trace, event);
    if Mild(event) { NotedMild(trace, event); }
  }

  lemma NotedReaches(trace: seq<Event>)
    ensures forall ready :: Greeted(trace + [HelloOk(ready)])
    ensures Greeted(trace) ==> Loaded(trace + [SettingsOk])
    ensures Loaded(trace) ==> Completed(trace + [ActivationOk])
  {
    forall ready ensures Greeted(trace + [HelloOk(ready)]) { assert GreetedAt(trace + [HelloOk(ready)], |trace|); }
    if Greeted(trace) {
      var i: nat :| GreetedAt(trace, i);
      assert GreetedAt(trace + [SettingsOk], i) && (trace + [SettingsOk])[|trace|] == SettingsOk;
    }
    if Loaded(trace) {
      var i: nat, j: nat :| GreetedAt(trace, i) && i < j < |trace| && trace[j] == SettingsOk;
      var longer := trace + [ActivationOk];
      assert GreetedAt(longer, i) && longer[j] == SettingsOk && longer[|trace|] == ActivationOk;
    }
  }

  // ---------------------------------------------------------------- what every step keeps

  /** A bootstrap may resume at a stage only when what precedes it was achieved on this connection. */
  ghost predicate Earned(trace: seq<Event>, stage: Stage) {
    match stage
    case Hello => true
    case Settings => Greeted(trace)
    case Activation => Loaded(trace)
  }

  ghost predicate Sound(s: State) {
    && Orderly(s.trace)
    && (s.broken ==> s.connected)
    && (s.parked.Some? ==> s.recovering && s.connected && Earned(s.trace, s.parked.value.stage))
    && (s.ready.Some? && !s.recovering ==> s.connected && Greeted(s.trace))
  }

  lemma LostKeeps(s: State)
    requires Orderly(s.trace)
    ensures Sound(Disconnected(s))
  {
    NotedKeeps(s.trace, Lost);
  }

  lemma FinishSound(s: State, b: Bootstrap, env: Env)
    requires Orderly(s.trace) && (s.broken ==> s.connected) && Greeted(s.trace) && Completed(s.trace) && s.connected
    ensures Sound(Finish(s, b, env).0)
  {
    hide Orderly, Greeted, Loaded, Completed;
    NotedKeeps(s.trace, Finished);
    NotedKeeps(s.trace, CacheSuspended);
    NotedKeeps(s.trace + [CacheSuspended], CacheResumed);
    NotedKeeps(s.trace + [CacheSuspended] + [CacheResumed], Finished);
  }

  lemma ActivationSound(s: State, b: Bootstrap, env: Env)
    requires Orderly(s.trace) && (s.broken ==> s.connected) && Loaded(s.trace) && Greeted(s.trace)
    requires s.connected
    ensures Sound(FromActivation(s, b, env).0)
  {
    hide Orderly, Greeted, Loaded, Completed, Finish;
    NotedKeeps(s.trace, ActivationOk);
    NotedReaches(s.trace);
    LostKeeps(s);
    var (done, failure) := Activate(s, env);
    if failure.None? { FinishSound(done, b, env); }
  }

  lemma SettingsSound(s: State, b: Bootstrap, env: Env)
    requires Orderly(s.trace) && (s.broken ==> s.connected) && Greeted(s.trace)
    requires s.connected
    ensures Sound(FromSettings(s, b, env).0)
  {
    hide Orderly, Greeted, Loaded, Completed, FromActivation;
    NotedKeeps(s.trace, SettingsOk);
    NotedReaches(s.trace);
    var (done, failure) := LoadSettings(s, env);
    if failure.None? { ActivationSound(done, b, env); }
  }

  lemma HelloSound(s: State, b: Bootstrap, env: Env)
    requires Orderly(s.trace) && (s.broken ==> s.connected)
    ensures Sound(FromHello(s, b, env).0)
  {
    hide Orderly, Greeted, Loaded, Completed, FromSettings, Connect;
    ConnectOrderly(s, b.allowStart, env);
    var (linked, failed) := Connect(s, b.allowStart, env);
    if env.hello.Granted? { NotedKeeps(linked.trace, HelloOk(env.hello.value)); }
    NotedReaches(linked.trace);
    LostKeeps(linked);
    var (done, failure) := Handshake(s, b.allowStart, env);
    if failure.None? { SettingsSound(done, b, env); }
  }

  lemma ConnectOrderly(s: State, allowStart: bool, env: Env)
    requires Orderly(s.trace) && (s.broken ==> s.connected)
    ensures var (linked, failed) := Connect(s, allowStart, env);
      && Orderly(linked.trace) && (failed.None? ==> Open(linked)) && failed != Some(DaemonBusy)
      && (linked.broken ==> linked.connected)
  {
    hide Orderly;
    NotedKeeps(s.trace, Connected);
    NotedKeeps(s.trace, Lost);
    NotedKeeps(s.trace + [Lost], Connected);
  }

  lemma LoadedIsGreeted(trace: seq<Event>)
    requires Loaded(trace)
    ensures Greeted(trace)
  {
  }

  lemma ContinueSound(s: State, b: Bootstrap, env: Env)
    requires Sound(s) && (s.parked == Some(b) || b.stage == Hello)
    ensures Sound(Continue(s, b, env).0)
  {
    hide Orderly, Greeted, Loaded, FromHello, FromSettings, FromActivation;
    match b.stage
    case Hello => HelloSound(s, b, env);
    case Settings => SettingsSound(s, b, env);
    case Activation =>
      LoadedIsGreeted(s.trace);
      ActivationSound(s, b, env);
  }

  lemma ParkedOrSound(s: State, b: Bootstrap, env: Env)
    requires Sound(s) && b.stage == Hello
    ensures Sound(ParkedOr(s, b, env).0)
  {
    hide Orderly, Greeted, Loaded, Completed, Continue;
    if s.parked.Some? {
      ContinueSound(s, s.parked.value, env);
    } else {
      NotedKeeps(s.trace, Began(b.initial, b.oldReady));
      ContinueSound(Note(s, Began(b.initial, b.oldReady)), b, env);
    }
  }

  // ---------------------------------------------------------------- every run

  datatype Step =
    | Started(env: Env)
    | Reconnected(env: Env)
    | ReplyArrived(request: Stage, env: Env)
    | SocketBroke
    | SocketClosed
    | RecoveryBegan
    | CacheClosed
    | CacheReopened
    | Stopped

  predicate Enabled(s: State, step: Step) {
    match step
    case SocketBroke => s.connected
    case SocketClosed => s.connected
    case _ => true
  }

  function After(s: State, step: Step): State {
    match step
    case Started(env) => Start(s, env).0
    case Reconnected(env) => Reconnect(s, env).0
    case ReplyArrived(request, env) => Resume(s, request, env).0
    case SocketBroke => s.(broken := true)
    case SocketClosed => Disconnected(s)
    case RecoveryBegan => s.(recovering := true)
    case CacheClosed => s.(cacheOpen := false)
    case CacheReopened => s.(cacheOpen := true)
    case Stopped => Stop(s)
  }

  predicate Runs(s: State, steps: seq<Step>)
    decreases |steps|
  {
    steps == [] || (Enabled(s, steps[0]) && Runs(After(s, steps[0]), steps[1..]))
  }

  function Final(s: State, steps: seq<Step>): State
    requires Runs(s, steps)
    decreases |steps|
  {
    if steps == [] then s else Final(After(s, steps[0]), steps[1..])
  }

  lemma StepSound(s: State, step: Step)
    requires Sound(s) && Enabled(s, step)
    ensures Sound(After(s, step))
  {
    hide Orderly, Greeted, Loaded, Completed, Continue, ParkedOr;
    match step
    case Started(env) => ParkedOrSound(s, FirstBootstrap(), env);
    case Reconnected(env) => ParkedOrSound(s, Bootstrap(Hello, false, false, s.ready), env);
    case ReplyArrived(request, env) => if s.parked.Some? { ContinueSound(s, s.parked.value, env); }
    case SocketClosed => LostKeeps(s);
    case Stopped => LostKeeps(s);
    case _ =>
  }

  lemma {:induction false} RunSound(s: State, steps: seq<Step>)
    requires Sound(s) && Runs(s, steps)
    ensures Sound(Final(s, steps))
    decreases |steps|
  {
    hide Sound, After, Enabled;
    if steps != [] {
      StepSound(s, steps[0]);
      RunSound(After(s, steps[0]), steps[1..]);
    }
  }

  /** Every finished bootstrap had its three stages succeed in order on one uninterrupted connection. */
  lemma BootstrapInOrder(steps: seq<Step>, n: nat)
    requires Runs(IDLE, steps)
    requires n < |Final(IDLE, steps).trace| && Final(IDLE, steps).trace[n] == Finished
    ensures Completed(Final(IDLE, steps).trace[..n])
  {
    hide Runs, Final;
    assert Sound(IDLE);
    RunSound(IDLE, steps);
  }

  /** A parked bootstrap keeps the session in recovery, so it is not ready between the stages. */
  lemma ParkedIsNotReady(steps: seq<Step>)
    requires Runs(IDLE, steps) && Final(IDLE, steps).parked.Some?
    ensures var s := Final(IDLE, steps); s.recovering && !IsReady(s) && Earned(s.trace, s.parked.value.stage)
  {
    hide Runs, Final;
    assert Sound(IDLE);
    RunSound(IDLE, steps);
  }

  /** A ready session was greeted on the connection it has now. */
  lemma ReadyWasGreeted(steps: seq<Step>)
    requires Runs(IDLE, steps) && IsReady(Final(IDLE, steps))
    ensures Greeted(Final(IDLE, steps).trace)
  {
    hide Runs, Final;
    assert Sound(IDLE);
    RunSound(IDLE, steps);
  }

  /** The outcome of a bootstrap that continued from a state with the events `start`. */
  predicate Outcome(start: seq<Event>, r: (State, Option<Failure>)) {
    && start <= r.0.trace
    && (r.1.None? <==> |r.0.trace| > |start| && r.0.trace[|r.0.trace| - 1] == Finished)
    && (r.1.None? ==> !r.0.recovering && r.0.parked.None? && Open(r.0))
    && (r.1 == Some(DaemonBusy) <==> r.0.parked.Some?)
    && (r.0.parked.Some? ==> r.0.recovering && Open(r.0))
  }

  /** A stage reports nothing but its own event or a loss, and a slow daemon keeps the connection. */
  predicate StageOutcome(start: seq<Event>, r: (State, Option<Failure>)) {
    && start <= r.0.trace
    && (|r.0.trace| > |start| ==> r.0.trace[|r.0.trace| - 1] != Finished)
    && (r.1.None? || r.1 == Some(DaemonBusy) ==> Open(r.0))
  }

  lemma HandshakeOutcome(s: State, b: Bootstrap, env: Env)
    ensures StageOutcome(s.trace, Handshake(s, b.allowStart, env))
  {
    hide Greet;
    var (linked, failure) := Connect(s, b.allowStart, env);
    if failure.None? { GreetOutcome(linked, env); }
  }

  lemma GreetOutcome(s: State, env: Env)
    requires Open(s)
    ensures StageOutcome(s.trace, Greet(s, env))
  {
  }

  lemma StageOutcomes(s: State, env: Env)
    ensures StageOutcome(s.trace, LoadSettings(s, env))
    ensures StageOutcome(s.trace, Activate(s, env))
  {
  }

  lemma ActivationOutcome(s: State, b: Bootstrap, env: Env)
    ensures Outcome(s.trace, FromActivation(s, b, env))
  {
    hide Activate, CacheChanged;
    StageOutcomes(s, env);
  }

  lemma SettingsOutcome(s: State, b: Bootstrap, env: Env)
    ensures Outcome(s.trace, FromSettings(s, b, env))
  {
    hide LoadSettings, FromActivation;
    StageOutcomes(s, env);
    ActivationOutcome(LoadSettings(s, env).0, b, env);
  }

  /**
   A continued bootstrap reports success exactly when it finishes, and then has left recovery with
   nothing parked; it is parked exactly when the daemon is slow, and then the connection is kept.
   */
  lemma SuccessFinishes(s: State, b: Bootstrap, env: Env)
    ensures Outcome(s.trace, Continue(s, b, env))
  {
    hide Handshake, FromSettings, FromActivation;
    HandshakeOutcome(s, b, env);
    SettingsOutcome(Handshake(s, b.allowStart, env).0, b, env);
    SettingsOutcome(s, b, env);
    ActivationOutcome(s, b, env);
  }

  // ---------------------------------------------------------------- whose greeting, which cache

  /** The reply of the last greeting. */
  function LastHello(trace: seq<Event>): (ready: Option<Ready>) {
    if trace == [] then None
    else if trace[|trace| - 1].HelloOk? then Some(trace[|trace| - 1].ready)
    else LastHello(trace[..|trace| - 1])
  }

  /** The last bootstrap begun, as a `Began` event. */
  function LastBegan(trace: seq<Event>): (began: Option<Event>)
    ensures began.Some? ==> began.value.Began?
  {
    if trace == [] then None
    else if trace[|trace| - 1].Began? then Some(trace[|trace| - 1])
    else LastBegan(trace[..|trace| - 1])
  }

  /** The bootstrap began with the reply of one cache and was greeted with that of another. */
  predicate OtherCache(trace: seq<Event>) {
    var began, hello := LastBegan(trace), LastHello(trace);
    began.Some? && hello.Some? && !began.value.initial && began.value.oldReady.Some?
    && began.value.oldReady.value.cache != hello.value.cache
  }

  /** What comes right before a bootstrap finishes: the activation, and the barrier if the cache is another one. */
  predicate ClosedWell(trace: seq<Event>) {
    if OtherCache(trace) then
      |trace| >= 3 && trace[|trace| - 3..] == [ActivationOk, CacheSuspended, CacheResumed]
    else trace != [] && trace[|trace| - 1] == ActivationOk
  }

  ghost predicate FinishedWell(trace: seq<Event>) {
    forall n | 0 <= n < |trace| && trace[n] == Finished :: ClosedWell(trace[..n])
  }

  ghost predicate Told(s: State) {
    && (s.ready.Some? ==> LastHello(s.trace) == s.ready)
    && (s.parked.Some? ==> Continues(s, s.parked.value) && (s.parked.value.stage == Activation ==> s.ready.Some?))
    && FinishedWell(s.trace)
  }

  lemma Later(trace: seq<Event>, event: Event)
    ensures LastHello(trace + [event]) == if event.HelloOk? then Some(event.ready) else LastHello(trace)
    ensures LastBegan(trace + [event]) == if event.Began? then Some(event) else LastBegan(trace)
    ensures FinishedWell(trace) && (event == Finished ==> ClosedWell(trace)) ==> FinishedWell(trace + [event])
  {
    hide ClosedWell;
    var longer := trace + [event];
    assert longer[..|longer| - 1] == trace;
    forall n | 0 <= n < |trace| ensures longer[..n] == trace[..n] {}
    assert trace[..|trace|] == trace && longer[..|trace|] == trace;
  }

  /** The bootstrap `b` is the last one begun. */
  predicate Continues(s: State, b: Bootstrap) {
    LastBegan(s.trace) == Some(Began(b.initial, b.oldReady))
  }

  lemma DisconnectTold(s: State)
    requires Told(s)
    ensures Told(Disconnect(s)) && Told(Disconnected(s))
    ensures LastBegan(Disconnect(s).trace) == LastBegan(Disconnected(s).trace) == LastBegan(s.trace)
    ensures Disconnect(s).ready == s.ready
  {
    hide FinishedWell, LastHello, LastBegan;
    Later(s.trace, Lost);
  }

  lemma ParkTold(s: State, b: Bootstrap, stage: Stage, failure: Failure)
    requires Told(s) && Continues(s, b) && (stage == Activation ==> s.ready.Some?)
    ensures Told(Park(s, b, stage, failure))
  {
  }

  lemma FinishTold(s: State, b: Bootstrap, env: Env)
    requires Told(s) && Continues(s, b) && s.ready.Some? && s.trace != [] && s.trace[|s.trace| - 1] == ActivationOk
    ensures Told(Finish(s, b, env).0)
  {
    hide FinishedWell, ClosedWell, LastHello, LastBegan;
    var suspended := s.trace + [CacheSuspended];
    var resumed := suspended + [CacheResumed];
    Later(s.trace, Finished);
    Later(s.trace, CacheSuspended);
    Later(suspended, CacheResumed);
    Later(resumed, Finished);
    if CacheChanged(s, b) {
      BarrierClosesWell(s.trace);
    } else {
      assert !OtherCache(s.trace);
      ActivationClosesWell(s.trace);
    }
  }

  lemma BarrierClosesWell(trace: seq<Event>)
    requires OtherCache(trace) && trace != [] && trace[|trace| - 1] == ActivationOk
    ensures ClosedWell(trace + [CacheSuspended] + [CacheResumed])
  {
    hide OtherCache;
    var resumed := trace + [CacheSuspended] + [CacheResumed];
    assert resumed[|resumed| - 3..] == [ActivationOk, CacheSuspended, CacheResumed];
    StillOther(trace, CacheSuspended);
    StillOther(trace + [CacheSuspended], CacheResumed);
  }

  lemma StillOther(trace: seq<Event>, event: Event)
    requires !event.HelloOk? && !event.Began?
    ensures OtherCache(trace + [event]) == OtherCache(trace)
  {
    hide FinishedWell;
    Later(trace, event);
  }

  lemma ActivationClosesWell(trace: seq<Event>)
    requires !OtherCache(trace) && trace != [] && trace[|trace| - 1] == ActivationOk
    ensures ClosedWell(trace)
  {
  }

  lemma ActivationTold(s: State, b: Bootstrap, env: Env)
    requires Told(s) && Continues(s, b) && s.ready.Some?
    ensures Told(FromActivation(s, b, env).0)
  {
    hide FinishedWell, Finish, Park, Disconnect;
    Later(s.trace, ActivationOk);
    DisconnectTold(s);
    var (done, failure) := Activate(s, env);
    if failure.None? { FinishTold(done, b, env); } else { ParkTold(done, b, Activation, failure.value); }
  }

  lemma SettingsTold(s: State, b: Bootstrap, env: Env)
    requires Told(s) && Continues(s, b)
    ensures Told(FromSettings(s, b, env).0)
  {
    hide FinishedWell, FromActivation, Park;
    Later(s.trace, SettingsOk);
    var (done, failure) := LoadSettings(s, env);
    if failure.None? { ActivationTold(done, b, env); } else { ParkTold(done, b, Settings, failure.value); }
  }

  lemma ConnectTold(s: State, allowStart: bool, env: Env)
    requires Told(s)
    ensures var linked := Connect(s, allowStart, env).0; Told(linked) && LastBegan(linked.trace) == LastBegan(s.trace)
  {
    hide FinishedWell, LastHello, LastBegan;
    Later(s.trace, Connected);
    Later(s.trace, Lost);
    Later(s.trace + [Lost], Connected);
  }

  lemma HelloTold(s: State, b: Bootstrap, env: Env)
    requires Told(s) && Continues(s, b)
    ensures Told(FromHello(s, b, env).0)
  {
    hide FinishedWell, FromSettings, Park, Connect, Disconnect;
    ConnectTold(s, b.allowStart, env);
    var (linked, failed) := Connect(s, b.allowStart, env);
    if env.hello.Granted? { Later(linked.trace, HelloOk(env.hello.value)); }
    DisconnectTold(linked);
    var (done, failure) := Handshake(s, b.allowStart, env);
    if failure.None? { SettingsTold(done, b, env); } else { ParkTold(done, b, Hello, failure.value); }
  }

  lemma ContinueTold(s: State, b: Bootstrap, env: Env)
    requires Told(s) && Continues(s, b) && (b.stage == Activation ==> s.ready.Some?)
    ensures Told(Continue(s, b, env).0)
  {
    hide Told, FromHello, FromSettings, FromActivation;
    match b.stage
    case Hello => HelloTold(s, b, env);
    case Settings => SettingsTold(s, b, env);
    case Activation => ActivationTold(s, b, env);
  }

  lemma ParkedOrTold(s: State, b: Bootstrap, env: Env)
    requires Told(s) && b.stage == Hello
    ensures Told(ParkedOr(s, b, env).0)
  {
    hide FinishedWell, Continue;
    if s.parked.Some? {
      ContinueTold(s, s.parked.value, env);
    } else {
      Later(s.trace, Began(b.initial, b.oldReady));
      ContinueTold(Note(s, Began(b.initial, b.oldReady)), b, env);
    }
  }

  lemma StepTold(s: State, step: Step)
    requires Told(s) && Enabled(s, step)
    ensures Told(After(s, step))
  {
    hide FinishedWell, Continue, ParkedOr, LastHello, LastBegan;
    match step
    case Started(env) => ParkedOrTold(s, FirstBootstrap(), env);
    case Reconnected(env) => ParkedOrTold(s, Bootstrap(Hello, false, false, s.ready), env);
    case ReplyArrived(request, env) => if s.parked.Some? { ContinueTold(s, s.parked.value, env); }
    case SocketClosed => DisconnectTold(s);
    case Stopped => DisconnectTold(s);
    case _ =>
  }

  lemma {:induction false} RunTold(s: State, steps: seq<Step>)
    requires Told(s) && Runs(s, steps)
    ensures Told(Final(s, steps))
    decreases |steps|
  {
    hide Told, After, Enabled;
    if steps != [] {
      StepTold(s, steps[0]);
      RunTold(After(s, steps[0]), steps[1..]);
    }
  }

  lemma {:induction false} GreetedIsLast(trace: seq<Event>, i: nat)
    requires GreetedAt(trace, i)
    ensures LastHello(trace) == Some(trace[i].ready)
  {
    if i < |trace| - 1 {
      assert Mild(trace[|trace| - 1]);
      GreetedIsLast(trace[..|trace| - 1], i);
    }
  }

  /** A ready session holds the reply of the last greeting, which was given on the connection it has now. */
  lemma ReadyReplyIsCurrent(steps: seq<Step>)
    requires Runs(IDLE, steps) && IsReady(Final(IDLE, steps))
    ensures var s := Final(IDLE, steps); exists i: nat :: GreetedAt(s.trace, i) && s.trace[i] == HelloOk(s.ready.value)
  {
    hide Runs, Final, LastHello, LastBegan, FinishedWell;
    TraceOfIdle();
    RunTold(IDLE, steps);
    ReadyWasGreeted(steps);
    var s := Final(IDLE, steps);
    var i: nat :| GreetedAt(s.trace, i);
    GreetedIsLast(s.trace, i);
  }

  lemma TraceOfIdle()
    ensures Told(IDLE)
  {
  }

  /**
   A reconnection finishes with the cache of the reply it began with, right after its activation; or with
   another cache, and then right after the barrier was suspended and resumed. A first bootstrap leaves the
   barrier alone.
   */
  lemma OtherCacheIsReopened(steps: seq<Step>, n: nat)
    requires Runs(IDLE, steps)
    requires n < |Final(IDLE, steps).trace| && Final(IDLE, steps).trace[n] == Finished
    ensures var trace := Final(IDLE, steps).trace[..n];
      && LastHello(trace).Some?
      && (if OtherCache(trace) then n >= 3 && trace[n - 3..] == [ActivationOk, CacheSuspended, CacheResumed]
          else n >= 1 && trace[n - 1] == ActivationOk)
  {
    hide Runs, Final, LastHello, LastBegan, OtherCache, GreetedAt;
    TraceOfIdle();
    RunTold(IDLE, steps);
    BootstrapInOrder(steps, n);
    var trace := Final(IDLE, steps).trace[..n];
    assert ClosedWell(trace);
    var i: nat, j: nat, k: nat :| GreetedAt(trace, i) && i < j < k < |trace| && trace[j] == SettingsOk
      && trace[k] == ActivationOk;
    GreetedIsLast(trace, i);
  }

  // ---------------------------------------------------------------- each stage, exactly

  /** A new bootstrap is recorded with the reply the session has; a parked one is continued. */
  lemma BootstrapBegins(s: State, env: Env)
    ensures s.parked.None? ==> s.trace + [Began(false, s.ready)] <= Reconnect(s, env).0.trace
    ensures s.parked.None? && (s.ready.None? || s.recovering) ==> s.trace + [Began(true, None)] <= Start(s, env).0.trace
    ensures s.parked.Some? ==> Reconnect(s, env) == Continue(s, s.parked.value, env)
    ensures s.parked.Some? && (s.ready.None? || s.recovering) ==> Start(s, env) == Continue(s, s.parked.value, env)
    ensures s.ready.Some? && !s.recovering ==> Start(s, env) == (s, None)
    ensures forall request :: (Resume(s, request, env) ==
      if s.parked.Some? && s.parked.value.stage == request then Continue(s, s.parked.value, env) else (s, None))
  {
    hide Continue;
    SuccessFinishes(Note(s, Began(false, s.ready)), Bootstrap(Hello, false, false, s.ready), env);
    SuccessFinishes(Note(s, Began(true, None)), FirstBootstrap(), env);
  }

  /** A closed socket is replaced; a new daemon is started only if that is allowed. */
  lemma ConnectExactly(s: State, allowStart: bool, env: Env)
    ensures
      var (r, failure) := Connect(s, allowStart, env);
      var linked := Open(s) || env.connects || (allowStart && env.launch == Available);
      && r.trace == s.trace + (if Open(s) then [] else if env.connects then [Connected]
                               else if linked then [Lost, Connected] else [Lost])
      && (if Open(s) || env.connects then r.parked == s.parked && r.recovering == s.recovering
          else r.parked.None? && r.recovering)
      && Open(r) == linked && r.ready == s.ready && r.cacheOpen == s.cacheOpen
      && failure == (if linked then None
                     else Some(if allowStart && env.launch == NotStarted then DaemonStartFailed else DaemonUnavailable))
  {
  }

  /** The reply of a daemon that grants the greeting is the session's; one that refuses is left. */
  lemma GreetExactly(s: State, env: Env)
    requires Open(s)
    ensures
      var (r, failure) := Greet(s, env);
      && r.trace == s.trace + (match env.hello
                               case Granted(ready) => [HelloOk(ready)]
                               case Slow => []
                               case _ => [Lost])
      && r.ready == (if env.hello.Granted? then Some(env.hello.value) else s.ready)
      && Open(r) == (env.hello.Granted? || env.hello.Slow?) && r.cacheOpen == s.cacheOpen
      && (if Open(r) then r.parked == s.parked && r.recovering == s.recovering else r.parked.None? && r.recovering)
      && failure == (match env.hello
                     case Granted(_) => None
                     case Slow => Some(DaemonBusy)
                     case Refused(incompatible) => Some(if incompatible then IncompatibleDaemon else DaemonUnavailable)
                     case Broken => Some(DaemonUnavailable))
  {
  }

  /** The daemon is greeted exactly when the socket is open. */
  lemma HandshakeExactly(s: State, allowStart: bool, env: Env)
    ensures
      var linked := Open(s) || env.connects || (allowStart && env.launch == Available);
      var r := Handshake(s, allowStart, env);
      && (r.1.None? <==> linked && env.hello.Granted?)
      && (r.1.None? ==> Open(r.0) && r.0.ready == Some(env.hello.value))
      && (r.1.Some? ==> r.0.ready == s.ready)
      && (Open(r.0) <==> linked && (env.hello.Granted? || env.hello.Slow?))
  {
    hide Connect, Greet;
    ConnectExactly(s, allowStart, env);
    if Open(Connect(s, allowStart, env).0) { GreetExactly(Connect(s, allowStart, env).0, env); }
  }

  /** Settings and cache are loaded over an open socket; the cache is opened once. */
  lemma SettingsExactly(s: State, env: Env)
    ensures
      var (r, failure) := LoadSettings(s, env);
      var given := s.ready.Some? && s.ready.value.hasPath && (s.cacheOpen || env.opens);
      && failure == (if !Open(s) then Some(DaemonUnavailable)
                     else match env.settings
                          case Granted(_) => if given then None else Some(CacheUnavailable)
                          case Slow => Some(DaemonBusy)
                          case Refused(_) => Some(SettingsUnavailable)
                          case Broken => Some(DaemonUnavailable))
      && r.trace == s.trace + (if failure.None? then [SettingsOk] else [])
      && r.cacheOpen == (s.cacheOpen || failure.None?)
      && Open(r) == (Open(s) && !env.settings.Broken?)
      && r.ready == s.ready && r.parked == s.parked && r.recovering == s.recovering
  {
  }

  lemma ActivationExactly(s: State, env: Env)
    ensures
      var (r, failure) := Activate(s, env);
      && failure == (if !Open(s) then Some(DaemonUnavailable)
                     else match env.activation
                          case Granted(_) => None
                          case Slow => Some(DaemonBusy)
                          case Refused(incompatible) =>
                            Some(if incompatible then IncompatibleDaemon else DaemonUnavailable)
                          case Broken => Some(DaemonUnavailable))
      && r.trace == s.trace + (if !Open(s) then [] else if env.activation.Granted? then [ActivationOk]
                               else if env.activation.Refused? then [Lost] else [])
      && Open(r) == (Open(s) && (env.activation.Granted? || env.activation.Slow?))
      && r.ready == s.ready && r.cacheOpen == s.cacheOpen
  {
  }

  /** The reply a bootstrap goes on with. */
  function ReplyAt(s: State, b: Bootstrap, env: Env): Option<Ready> {
    if b.stage != Hello then s.ready else if env.hello.Granted? then Some(env.hello.value) else None
  }

  /**
   A bootstrap succeeds exactly when each stage from its own on is granted: the greeting over an open socket,
   the settings with a cache to open, the activation, and the barrier when the cache is another one.
   */
  lemma SucceedsExactly(s: State, b: Bootstrap, env: Env)
    ensures
      var reply := ReplyAt(s, b, env);
      Continue(s, b, env).1.None? <==>
        && (Open(s) || (b.stage == Hello && (env.connects || (b.allowStart && env.launch == Available))))
        && (b.stage == Hello ==> env.hello.Granted?)
        && (b.stage != Activation ==>
              env.settings.Granted? && reply.Some? && reply.value.hasPath && (s.cacheOpen || env.opens))
        && env.activation.Granted?
        && (b.initial || b.oldReady.None? || reply.None? || b.oldReady.value.cache == reply.value.cache
            || (env.suspends && env.resumes))
  {
    hide Handshake, LoadSettings, Activate, Park;
    HandshakeExactly(s, b.allowStart, env);
    var greeted := if b.stage == Hello then Handshake(s, b.allowStart, env).0 else s;
    HandshakeKeepsCache(s, b.allowStart, env);
    SettingsExactly(greeted, env);
    var loaded := if b.stage == Activation then s else LoadSettings(greeted, env).0;
    ActivationExactly(loaded, env);
  }

  lemma HandshakeKeepsCache(s: State, allowStart: bool, env: Env)
    ensures Handshake(s, allowStart, env).0.cacheOpen == s.cacheOpen
  {
    hide Connect, Greet;
    ConnectExactly(s, allowStart, env);
    if Open(Connect(s, allowStart, env).0) { GreetExactly(Connect(s, allowStart, env).0, env); }
  }

  /** A stop and a lost connection. */
  lemma EndsExactly(s: State)
    ensures Stop(s) == State(false, if s.connected then false else s.broken, None, false, None, false,
                             s.trace + if s.connected then [Lost] else [])
    ensures Disconnected(s) == State(false, false, s.ready, true, None, s.cacheOpen, s.trace + [Lost])
    ensures forall b: Bootstrap, stage, failure :: (Park(s, b, stage, failure) ==
      State(s.connected, s.broken, s.ready, true,
            if failure == DaemonBusy then Some(Bootstrap(stage, b.initial, b.allowStart, b.oldReady)) else None,
            s.cacheOpen, s.trace))
  {
  }
}
