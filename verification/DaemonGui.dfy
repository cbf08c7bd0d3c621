/**
 The daemon's side of the GUI: activation routes, the relaunch guard and the cache-suspend handshake.

 Events are published to the endpoint; an endpoint that cannot carry one closes the connection, which
 is a further step of the run. Starting the GUI process, and the barrier, succeed or fail as told.
 */
module DaemonGui {
  import opened Wrappers

  type Route = nat
  type Cache = nat

  datatype Lifecycle = Starting | Ready | Recovering | ShuttingDown

  datatype Mark = Opened | ReadyForActivation | Closed | Launched | Stopped

  /**
   The GUI as the daemon sees it. `due` counts the launches scheduled for the next turn of the event loop,
   `refused` says that the last attempt could not start the GUI, `marks` records the life of its sessions.
   */
  datatype Gui = Gui(
    connected: bool, ready: bool, launchRequested: bool, due: nat, refused: bool, marks: seq<Mark>)

  /** The routes that wait, and the record of all routes. */
  datatype Routes = Routes(pending: seq<Route>, accepted: seq<Route>, delivered: seq<Route>, dropped: seq<Route>)

  /**
   The suspension of the cache. `stuck` is a barrier that would not resume when its suspension ended,
   `failures` counts such endings and `discarded` the barriers destroyed while suspended.
   */
  datatype CacheAccess = CacheAccess(
    suspension: Option<Cache>, acknowledged: bool, barrierSuspended: bool, stuck: bool,
    suspensions: nat, resumptions: nat, failures: nat, discarded: nat)

  datatype State = State(lifecycle: Lifecycle, gui: Gui, routes: Routes, cache: CacheAccess)

  const CAPACITY := 64

  const BEGIN := State(
    Starting, Gui(false, false, false, 0, false, []), Routes([], [], [], []),
    CacheAccess(None, false, false, false, 0, 0, 0, 0))

  // ---------------------------------------------------------------- the specification

  function Mention(g: Gui, mark: Mark): Gui {
    g.(marks := g.marks + [mark])
  }

  function Launch(g: Gui, waiting: bool, launches: bool): Gui {
    if g.connected || g.launchRequested || !waiting then g
    else if !launches then g.(refused := true)
    else Mention(g.(launchRequested := true, refused := false), Launched)
  }

  function Queue(r: Routes, route: Route): Routes {
    var full := |r.pending| >= CAPACITY;
    r.(accepted := r.accepted + [route],
       dropped := if full then r.dropped + [r.pending[0]] else r.dropped,
       pending := (if full then r.pending[1..] else r.pending) + [route])
  }

  function Direct(r: Routes, route: Route): Routes {
    r.(accepted := r.accepted + [route], delivered := r.delivered + [route])
  }

  function Flush(r: Routes): Routes {
    r.(delivered := r.delivered + r.pending, pending := [])
  }

  function Drop(r: Routes): Routes {
    r.(dropped := r.dropped + r.pending, pending := [])
  }

  function Enqueue(s: State, route: Route, launches: bool): State {
    if s.gui.connected && s.gui.ready then s.(routes := Direct(s.routes, route))
    else if s.gui.connected then s.(routes := Queue(s.routes, route))
    else s.(routes := Queue(s.routes, route), gui := Launch(s.gui, true, launches))
  }

  function GuiReady(s: State): (r: (State, bool)) {
    if s.lifecycle != Ready || s.gui.ready then (s, false)
    else (s.(gui := Mention(s.gui.(ready := true), ReadyForActivation), routes := Flush(s.routes)), true)
  }

  function GuiActivation(s: State, route: Route, launches: bool): (r: (State, bool)) {
    if s.lifecycle != Ready || !s.gui.connected then (s, false) else (Enqueue(s, route, launches), true)
  }

  function Open(g: Gui): Gui {
    Mention(g.(connected := true, ready := false), Opened)
  }

  /** A GUI that was launched and closed before it was ready is not launched again. */
  function Leave(g: Gui, waiting: bool): Gui {
    var suppress := g.launchRequested && !g.ready;
    Mention(g.(connected := false, ready := false, launchRequested := suppress,
               due := if !suppress && waiting then g.due + 1 else g.due), Closed)
  }

  /** The barrier is resumed when a suspension ends, however it ends. */
  function EndSuspension(c: CacheAccess, resumes: bool): CacheAccess {
    var ended := c.(suspension := None, acknowledged := false);
    if !c.acknowledged then ended
    else if !resumes then ended.(stuck := true, failures := c.failures + 1)
    else ended.(barrierSuspended := false, stuck := false, resumptions := c.resumptions + 1)
  }

  /** The services own the barrier. */
  function Discard(c: CacheAccess): CacheAccess {
    c.(barrierSuspended := false, stuck := false,
       discarded := if c.barrierSuspended then c.discarded + 1 else c.discarded)
  }

  function Close(s: State, resumes: bool): State {
    s.(gui := Leave(s.gui, s.routes.pending != []), cache := EndSuspension(s.cache, resumes))
  }

  function Stop(s: State, resumes: bool): State {
    if s.lifecycle == ShuttingDown then s
    else
      State(ShuttingDown,
            Mention(s.gui.(connected := false, ready := false, launchRequested := false), Stopped),
            Drop(s.routes), Discard(EndSuspension(s.cache, resumes)))
  }

  function Start(s: State, succeeds: bool): State {
    if s.lifecycle == Ready then s
    else if s.lifecycle == ShuttingDown || !succeeds then s.(lifecycle := Recovering)
    else s.(lifecycle := Ready)
  }

  function RequestSuspend(s: State, cache: Cache): (r: (State, bool)) {
    if s.lifecycle != Ready || !s.gui.connected || !s.gui.ready || s.cache.suspension.Some? then (s, false)
    else (s.(cache := s.cache.(suspension := Some(cache), acknowledged := false)), true)
  }

  function AcknowledgeSuspend(c: CacheAccess, cache: Cache, suspends: bool): (r: (CacheAccess, bool)) {
    if c.suspension != Some(cache) then (c, false)
    else if c.barrierSuspended then (c.(acknowledged := true), true)
    else if !suspends then (c.(suspension := None), false)
    else (c.(acknowledged := true, barrierSuspended := true, suspensions := c.suspensions + 1), true)
  }

  function CompleteResume(c: CacheAccess, resumes: bool): (r: (CacheAccess, bool)) {
    if c.suspension.None? || !c.acknowledged || !resumes then (c, false) else (EndSuspension(c, true), true)
  }

  // ---------------------------------------------------------------- the object

  class DaemonProcess {
    var lifecycle: Lifecycle
    var guiConnected: bool
    var guiReady: bool
    var guiLaunchRequested: bool
    var relaunchesDue: nat
    ghost var refused: bool
    ghost var marks: seq<Mark>
    var pendingActivations: seq<Route>
    var delivered: seq<Route>
    ghost var accepted: seq<Route>
    ghost var dropped: seq<Route>
    var cacheSuspend: Option<Cache>
    var cacheAccessAcknowledged: bool
    var barrierSuspended: bool
    ghost var stuck: bool
    ghost var suspensions: nat
    ghost var resumptions: nat
    ghost var failures: nat
    ghost var discarded: nat

    ghost function TheGui(): Gui
      reads `guiConnected, `guiReady, `guiLaunchRequested, `relaunchesDue, `refused, `marks
    {
      Gui(guiConnected, guiReady, guiLaunchRequested, relaunchesDue, refused, marks)
    }

    ghost function TheRoutes(): Routes
      reads `pendingActivations, `accepted, `delivered, `dropped
    {
      Routes(pendingActivations, accepted, delivered, dropped)
    }

    ghost function TheCache(): CacheAccess
      reads `cacheSuspend, `cacheAccessAcknowledged, `barrierSuspended, `stuck,
            `suspensions, `resumptions, `failures, `discarded
    {
      CacheAccess(cacheSuspend, cacheAccessAcknowledged, barrierSuspended, stuck,
                  suspensions, resumptions, failures, discarded)
    }

    ghost function Abs(): State
      reads this
    {
      State(lifecycle, TheGui(), TheRoutes(), TheCache())
    }

    constructor ()
      ensures Abs() == BEGIN
    {
      lifecycle := Starting;
      guiConnected, guiReady, guiLaunchRequested, relaunchesDue, refused, marks := false, false, false, 0, false, [];
      pendingActivations, delivered, accepted, dropped := [], [], [], [];
      cacheSuspend, cacheAccessAcknowledged, barrierSuspended := None, false, false;
      stuck, suspensions, resumptions, failures, discarded := false, 0, 0, 0, 0;
    }

    method StartDaemon(succeeds: bool)
      modifies this`lifecycle
      ensures Abs() == Start(old(Abs()), succeeds)
      ensures old(lifecycle) == Ready ==> lifecycle == Ready
      ensures old(lifecycle) != Ready ==>
        lifecycle == if succeeds && old(lifecycle) != ShuttingDown then Ready else Recovering
    {
      if lifecycle == Ready { return; }
      lifecycle := if lifecycle == ShuttingDown || !succeeds then Recovering else Ready;
    }

    method ResumeBarrier(resumes: bool) returns (ok: bool)
      modifies this`barrierSuspended, this`stuck, this`resumptions
      ensures ok == resumes
      ensures TheCache() == if !resumes then old(TheCache())
                            else old(TheCache()).(barrierSuspended := false, stuck := false,
                                                  resumptions := old(resumptions) + 1)
    {
      if resumes {
        barrierSuspended := false;
        stuck, resumptions := false, resumptions + 1;
      }
      return resumes;
    }

    method EndCacheSuspension(resumes: bool)
      modifies this`cacheSuspend, this`cacheAccessAcknowledged, this`barrierSuspended,
               this`stuck, this`resumptions, this`failures
      ensures TheCache() == EndSuspension(old(TheCache()), resumes)
      ensures cacheSuspend == None && !cacheAccessAcknowledged
      ensures barrierSuspended == old(barrierSuspended && !(cacheAccessAcknowledged && resumes))
    {
      if cacheAccessAcknowledged {
        var ok := ResumeBarrier(resumes);
        if !ok { stuck, failures := true, failures + 1; }
      }
      cacheSuspend, cacheAccessAcknowledged := None, false;
    }

    method ReleaseServices()
      modifies this`barrierSuspended, this`stuck, this`discarded
      ensures TheCache() == Discard(old(TheCache()))
      ensures !barrierSuspended
    {
      discarded := if barrierSuspended then discarded + 1 else discarded;
      barrierSuspended, stuck := false, false;
    }

    method StopDaemon(resumes: bool)
      modifies this
      ensures Abs() == Stop(old(Abs()), resumes)
      ensures lifecycle == ShuttingDown && (old(lifecycle) == ShuttingDown ==> Abs() == old(Abs()))
      ensures old(lifecycle) != ShuttingDown ==>
        && !guiConnected && !guiReady && !guiLaunchRequested && pendingActivations == []
        && cacheSuspend == None && !cacheAccessAcknowledged && !barrierSuspended
        && delivered == old(delivered) && relaunchesDue == old(relaunchesDue)
    {
      hide EndSuspension, Discard, Drop, Mention, TheGui, TheRoutes, TheCache;
      if lifecycle == ShuttingDown { return; }
      EndServices(resumes);
      assert TheGui() == old(TheGui()) && TheRoutes() == old(TheRoutes());
      ForgetGui();
      assert TheCache() == Discard(EndSuspension(old(TheCache()), resumes));
      lifecycle := ShuttingDown;
    }

    method EndServices(resumes: bool)
      modifies this`cacheSuspend, this`cacheAccessAcknowledged, this`barrierSuspended,
               this`stuck, this`resumptions, this`failures, this`discarded
      ensures TheCache() == Discard(EndSuspension(old(TheCache()), resumes))
      ensures cacheSuspend == None && !cacheAccessAcknowledged && !barrierSuspended
    {
      hide EndSuspension, Discard;
      EndCacheSuspension(resumes);
      ReleaseServices();
    }

    method ForgetGui()
      modifies this`guiConnected, this`guiReady, this`guiLaunchRequested, this`marks,
               this`dropped, this`pendingActivations
      ensures TheRoutes() == Drop(old(TheRoutes()))
      ensures TheGui() == Mention(old(TheGui()).(connected := false, ready := false, launchRequested := false), Stopped)
      ensures !guiConnected && !guiReady && !guiLaunchRequested && pendingActivations == []
    {
      guiConnected, guiReady, guiLaunchRequested := false, false, false;
      marks := marks + [Stopped];
      dropped := dropped + pendingActivations;
      pendingActivations := [];
    }

    method LaunchGuiIfNeeded(launches: bool)
      modifies this`guiLaunchRequested, this`refused, this`marks
      ensures TheGui() == Launch(old(TheGui()), pendingActivations != [], launches)
      ensures guiLaunchRequested ==
        (old(guiLaunchRequested) || (launches && !guiConnected && pendingActivations != []))
      ensures marks == old(marks) + if guiLaunchRequested && !old(guiLaunchRequested) then [Launched] else []
    {
      if guiConnected || guiLaunchRequested || pendingActivations == [] { return; }
      refused := !launches;
      if !launches { return; }
      guiLaunchRequested := true;
      marks := marks + [Launched];
    }

    /** A scheduled launch comes due. */
    method RelaunchDue(launches: bool)
      requires relaunchesDue > 0
      modifies this`relaunchesDue, this`guiLaunchRequested, this`refused, this`marks
      ensures TheGui() == Launch(old(TheGui()).(due := old(relaunchesDue) - 1), pendingActivations != [], launches)
    {
      relaunchesDue := relaunchesDue - 1;
      LaunchGuiIfNeeded(launches);
    }

    method EnqueueActivation(route: Route, launches: bool)
      modifies this
      ensures Abs() == Enqueue(old(Abs()), route, launches)
      ensures old(guiConnected && guiReady) ==>
        delivered == old(delivered) + [route] && pendingActivations == old(pendingActivations)
      ensures !old(guiConnected && guiReady) ==>
        && delivered == old(delivered)
        && pendingActivations ==
             (if |old(pendingActivations)| >= 64 then old(pendingActivations)[1..] else old(pendingActivations))
             + [route]
      ensures guiLaunchRequested == (old(guiLaunchRequested) || (launches && !guiConnected))
      ensures guiConnected == old(guiConnected) && guiReady == old(guiReady) && accepted == old(accepted) + [route]
    {
      hide Queue, Launch, TheCache;
      if guiConnected && guiReady {
        accepted, delivered := accepted + [route], delivered + [route];
        return;
      }
      QueueActivation(route);
      assert TheGui() == old(TheGui()) && TheCache() == old(TheCache());
      if !guiConnected {
        LaunchGuiIfNeeded(launches);
        assert TheRoutes() == Queue(old(TheRoutes()), route) && TheCache() == old(TheCache());
      }
    }

    method QueueActivation(route: Route)
      modifies this`accepted, this`dropped, this`pendingActivations
      ensures TheRoutes() == Queue(old(TheRoutes()), route) && pendingActivations != []
      ensures accepted == old(accepted) + [route]
      ensures pendingActivations ==
        (if |old(pendingActivations)| >= 64 then old(pendingActivations)[1..] else old(pendingActivations)) + [route]
    {
      accepted := accepted + [route];
      if |pendingActivations| >= CAPACITY {
        dropped := dropped + [pendingActivations[0]];
        pendingActivations := pendingActivations[1..];
      }
      pendingActivations := pendingActivations + [route];
    }

    method FlushPendingActivations()
      modifies this`delivered, this`pendingActivations
      ensures TheRoutes() == if guiConnected && guiReady then Flush(old(TheRoutes())) else old(TheRoutes())
      ensures delivered == old(delivered) + if guiConnected && guiReady then old(pendingActivations) else []
      ensures pendingActivations == if guiConnected && guiReady then [] else old(pendingActivations)
    {
      if !guiConnected || !guiReady { return; }
      while pendingActivations != []
        invariant delivered + pendingActivations == old(delivered + pendingActivations)
        decreases |pendingActivations|
      {
        delivered := delivered + [pendingActivations[0]];
        pendingActivations := pendingActivations[1..];
      }
    }

    /** Only a connected GUI asks. */
    method HandleGuiReadyForActivation() returns (ok: bool)
      requires guiConnected
      modifies this
      ensures var r := GuiReady(old(Abs())); Abs() == r.0 && ok == r.1
      ensures ok <==> lifecycle == Ready && !old(guiReady)
      ensures guiReady == (old(guiReady) || ok) && guiConnected == old(guiConnected) && lifecycle == old(lifecycle)
      ensures delivered == old(delivered) + if ok then old(pendingActivations) else []
      ensures pendingActivations == if ok then [] else old(pendingActivations)
    {
      hide TheCache, Flush;
      if lifecycle != Ready { return false; }
      if guiReady { return false; }
      guiReady := true;
      marks := marks + [ReadyForActivation];
      FlushPendingActivations();
      return true;
    }

    method HandleGuiActivation(route: Route, launches: bool) returns (ok: bool)
      modifies this
      ensures var r := GuiActivation(old(Abs()), route, launches); Abs() == r.0 && ok == r.1
      ensures ok <==> old(lifecycle == Ready && guiConnected)
      ensures delivered == old(delivered) + if ok && old(guiReady) then [route] else []
      ensures pendingActivations ==
        if !ok || old(guiReady) then old(pendingActivations)
        else
          (if |old(pendingActivations)| >= 64 then old(pendingActivations)[1..] else old(pendingActivations)) + [route]
      ensures TheGui() == old(TheGui())
    {
      if lifecycle != Ready { return false; }
      if guiConnected && guiReady {
        accepted, delivered := accepted + [route], delivered + [route];
        return true;
      }
      if guiConnected {
        EnqueueActivation(route, launches);
        return true;
      }
      return false;
    }

    method OnConnectionOpened()
      modifies this`guiConnected, this`guiReady, this`marks
      ensures TheGui() == Open(old(TheGui()))
      ensures guiConnected && !guiReady && marks == old(marks) + [Opened]
    {
      guiConnected, guiReady := true, false;
      marks := marks + [Opened];
    }

    method OnSocketConnectionClosed(resumes: bool)
      modifies this
      ensures Abs() == Close(old(Abs()), resumes)
      ensures !guiConnected && !guiReady && guiLaunchRequested == old(guiLaunchRequested && !guiReady)
      ensures relaunchesDue == old(relaunchesDue)
        + if !guiLaunchRequested && old(pendingActivations) != [] then 1 else 0
      ensures cacheSuspend == None && !cacheAccessAcknowledged
      ensures barrierSuspended == old(barrierSuspended && !(cacheAccessAcknowledged && resumes))
      ensures TheRoutes() == old(TheRoutes()) && lifecycle == old(lifecycle)
    {
      hide EndSuspension, Leave, TheGui, TheCache;
      EndCacheSuspension(resumes);
      ForgetConnection();
    }

    /** A launch is scheduled for routes that wait, unless the GUI closed before it was ready. */
    method ForgetConnection()
      modifies this`guiConnected, this`guiReady, this`guiLaunchRequested, this`marks, this`relaunchesDue
      ensures TheGui() == Leave(old(TheGui()), pendingActivations != [])
      ensures !guiConnected && !guiReady && guiLaunchRequested == old(guiLaunchRequested && !guiReady)
      ensures relaunchesDue == old(relaunchesDue)
        + if !guiLaunchRequested && pendingActivations != [] then 1 else 0
    {
      var suppressAutomaticRelaunch := guiLaunchRequested && !guiReady;
      guiConnected, guiReady := false, false;
      guiLaunchRequested := suppressAutomaticRelaunch;
      marks := marks + [Closed];
      if !suppressAutomaticRelaunch && pendingActivations != [] { relaunchesDue := relaunchesDue + 1; }
    }

    method RequestCacheAccessSuspend(cache: Cache) returns (ok: bool)
      modifies this`cacheSuspend, this`cacheAccessAcknowledged
      ensures var r := RequestSuspend(old(Abs()), cache); Abs() == r.0 && ok == r.1
      ensures ok <==> lifecycle == Ready && guiConnected && guiReady && old(cacheSuspend).None?
      ensures cacheSuspend == if ok then Some(cache) else old(cacheSuspend)
      ensures cacheAccessAcknowledged == (old(cacheAccessAcknowledged) && !ok)
    {
      if lifecycle != Ready { return false; }
      if !guiConnected || !guiReady { return false; }
      if cacheSuspend.Some? { return false; }
      cacheSuspend, cacheAccessAcknowledged := Some(cache), false;
      return true;
    }

    method HandleCacheAccessSuspended(cache: Cache, suspends: bool) returns (ok: bool)
      modifies this`cacheSuspend, this`cacheAccessAcknowledged, this`barrierSuspended, this`suspensions
      ensures var r := AcknowledgeSuspend(old(TheCache()), cache, suspends); TheCache() == r.0 && ok == r.1
      ensures ok <==> old(cacheSuspend) == Some(cache) && (old(barrierSuspended) || suspends)
      ensures cacheSuspend == if !ok && old(cacheSuspend) == Some(cache) then None else old(cacheSuspend)
      ensures cacheAccessAcknowledged == (old(cacheAccessAcknowledged) || ok)
      ensures barrierSuspended == (old(barrierSuspended) || ok)
    {
      if cacheSuspend.None? { return false; }
      if cache != cacheSuspend.value { return false; }
      if !barrierSuspended {
        if !suspends {
          cacheSuspend := None;
          return false;
        }
        barrierSuspended := true;
        suspensions := suspensions + 1;
      }
      cacheAccessAcknowledged := true;
      return true;
    }

    method CompleteCacheAccessResume(resumes: bool) returns (ok: bool)
      modifies this`cacheSuspend, this`cacheAccessAcknowledged, this`barrierSuspended, this`stuck, this`resumptions
      ensures var r := CompleteResume(old(TheCache()), resumes); TheCache() == r.0 && ok == r.1
      ensures ok <==> old(cacheSuspend).Some? && old(cacheAccessAcknowledged) && resumes
      ensures cacheSuspend == if ok then None else old(cacheSuspend)
      ensures cacheAccessAcknowledged == (old(cacheAccessAcknowledged) && !ok)
      ensures barrierSuspended == (old(barrierSuspended) && !ok)
    {
      if cacheSuspend.None? || !cacheAccessAcknowledged { return false; }
      ok := ResumeBarrier(resumes);
      if !ok { return false; }
      cacheSuspend, cacheAccessAcknowledged := None, false;
    }
  }

  // ---------------------------------------------------------------- steps and runs

  datatype Step =
    | DaemonStart(succeeds: bool)
    | DaemonStop(resumes: bool)
    | Activation(route: Route, launches: bool)
    | SecondLaunch(route: Route, launches: bool)
    | GuiIsReady
    | LaunchDue(launches: bool)
    | ConnectionOpens
    | ConnectionCloses(resumes: bool)
    | SuspendRequested(cache: Cache)
    | SuspendAcknowledged(cache: Cache, suspends: bool)
    | ResumeCompleted(resumes: bool)

  /** Connections open and close in turn, and only a connected GUI reports that it is ready. */
  predicate Enabled(s: State, step: Step) {
    match step
    case ConnectionOpens => !s.gui.connected
    case ConnectionCloses(_) => s.gui.connected
    case GuiIsReady => s.gui.connected
    case LaunchDue(_) => s.gui.due > 0
    case _ => true
  }

  function After(s: State, step: Step): State
    requires Enabled(s, step)
  {
    match step
    case DaemonStart(succeeds) => Start(s, succeeds)
    case DaemonStop(resumes) => Stop(s, resumes)
    case Activation(route, launches) => Enqueue(s, route, launches)
    case SecondLaunch(route, launches) => GuiActivation(s, route, launches).0
    case GuiIsReady => GuiReady(s).0
    case LaunchDue(launches) =>
      s.(gui := Launch(s.gui.(due := s.gui.due - 1), s.routes.pending != [], launches))
    case ConnectionOpens => s.(gui := Open(s.gui))
    case ConnectionCloses(resumes) => Close(s, resumes)
    case SuspendRequested(cache) => RequestSuspend(s, cache).0
    case SuspendAcknowledged(cache, suspends) => s.(cache := AcknowledgeSuspend(s.cache, cache, suspends).0)
    case ResumeCompleted(resumes) => s.(cache := CompleteResume(s.cache, resumes).0)
  }

  predicate Runs(s: State, steps: seq<Step>)
    decreases |steps|
  {
    steps == [] || (Enabled(s, steps[0]) && Runs(After(s, steps[0]), steps[1..]))
  }

  function Final(s: State, steps: seq<Step>): State
    requires Runs(s, steps)
    decreases |steps|
  {
    if steps == [] then s else Final(After(s, steps[0]), steps[1..])
  }

  // ---------------------------------------------------------------- activation routes

  /** `a` keeps some elements of `b`, in order. */
  predicate Subsequence<T(==)>(a: seq<T>, b: seq<T>)
    decreases |b|
  {
    if a == [] then true
    else if b == [] then false
    else
      (a[|a| - 1] == b[|b| - 1] && Subsequence(a[..|a| - 1], b[..|b| - 1]))
      || Subsequence(a, b[..|b| - 1])
  }

  lemma SubsequenceKeeps<T>(a: seq<T>, b: seq<T>, x: T)
    requires Subsequence(a, b)
    ensures Subsequence(a + [x], b + [x]) && Subsequence(a, b + [x])
  {
    assert (a + [x])[..|a|] == a && (b + [x])[..|b|] == b;
  }

  lemma {:induction false} SubsequenceAll<T>(a: seq<T>, b: seq<T>, more: seq<T>)
    requires Subsequence(a, b)
    ensures Subsequence(a + more, b + more)
    decreases |more|
  {
    if more == [] {
      assert a + more == a && b + more == b;
    } else {
      var rest, x := more[..|more| - 1], more[|more| - 1];
      SubsequenceAll(a, b, rest);
      SubsequenceKeeps(a + rest, b + rest, x);
      assert a + more == a + rest + [x] && b + more == b + rest + [x];
    }
  }

  lemma {:induction false} SubsequenceSkips<T>(a: seq<T>, b: seq<T>, more: seq<T>)
    requires Subsequence(a, b)
    ensures Subsequence(a, b + more)
    decreases |more|
  {
    if more == [] {
      assert b + more == b;
    } else {
      var rest, x := more[..|more| - 1], more[|more| - 1];
      SubsequenceSkips(a, b, rest);
      SubsequenceKeeps(a, b + rest, x);
      assert b + more == b + rest + [x];
    }
  }

  /** The accepted routes no longer waiting. */
  function Settled(r: Routes): seq<Route>
    requires |r.pending| <= |r.accepted|
  {
    r.accepted[..|r.accepted| - |r.pending|]
  }

  /** Every accepted route is delivered, dropped or still waiting, as often as it was accepted. */
  predicate Balanced(r: Routes) {
    multiset(r.accepted) == multiset(r.delivered) + multiset(r.dropped) + multiset(r.pending)
  }

  predicate RoutesOk(r: Routes) {
    && |r.pending| <= CAPACITY && |r.pending| <= |r.accepted|
    && r.accepted == Settled(r) + r.pending
    && Subsequence(r.delivered, Settled(r)) && Subsequence(r.dropped, Settled(r))
    && Balanced(r)
  }

  lemma QueueBalanced(r: Routes, route: Route)
    requires Balanced(r)
    ensures Balanced(Queue(r, route))
  {
    var r' := Queue(r, route);
    assert multiset(r'.accepted) == multiset(r.accepted) + multiset{route};
    if |r.pending| >= CAPACITY {
      assert r.pending == [r.pending[0]] + r.pending[1..];
      assert multiset(r.pending) == multiset{r.pending[0]} + multiset(r.pending[1..]);
      assert multiset(r'.pending) == multiset(r.pending[1..]) + multiset{route};
      assert multiset(r'.dropped) == multiset(r.dropped) + multiset{r.pending[0]};
    }
  }

  lemma QueueSettled(r: Routes, route: Route)
    requires |r.pending| <= CAPACITY && |r.pending| <= |r.accepted| && r.accepted == Settled(r) + r.pending
    ensures var r' := Queue(r, route);
      && |r'.pending| <= CAPACITY && |r'.pending| <= |r'.accepted| && r'.accepted == Settled(r') + r'.pending
      && Settled(r') == (if |r.pending| >= CAPACITY then Settled(r) + [r.pending[0]] else Settled(r))
      && r'.delivered == r.delivered
  {
    var r' := Queue(r, route);
    if |r.pending| >= CAPACITY {
      assert r.pending == [r.pending[0]] + r.pending[1..];
      assert Settled(r') == Settled(r) + [r.pending[0]];
    } else {
      assert Settled(r') == Settled(r);
    }
  }

  lemma QueueRoutes(r: Routes, route: Route)
    requires RoutesOk(r)
    ensures RoutesOk(Queue(r, route))
  {
    hide Subsequence, Balanced, Settled;
    QueueBalanced(r, route);
    QueueSettled(r, route);
    if |r.pending| >= CAPACITY {
      SubsequenceSkips(r.delivered, Settled(r), [r.pending[0]]);
      SubsequenceKeeps(r.dropped, Settled(r), r.pending[0]);
    }
  }

  lemma FlushRoutes(r: Routes)
    requires RoutesOk(r)
    ensures RoutesOk(Flush(r))
  {
    hide Subsequence;
    SubsequenceAll(r.delivered, Settled(r), r.pending);
    SubsequenceSkips(r.dropped, Settled(r), r.pending);
    assert Settled(Flush(r)) == r.accepted;
  }

  lemma DirectBalanced(r: Routes, route: Route)
    requires Balanced(r)
    ensures Balanced(Direct(r, route))
  {
  }

  lemma DirectSettled(r: Routes, route: Route)
    requires r.pending == []
    ensures var r' := Direct(r, route);
      Settled(r') == Settled(r) + [route] && r'.accepted == Settled(r') + r'.pending
  {
  }

  lemma DirectRoutes(r: Routes, route: Route)
    requires RoutesOk(r) && r.pending == []
    ensures RoutesOk(Direct(r, route))
  {
    hide Subsequence, Balanced, Settled;
    DirectBalanced(r, route);
    DirectSettled(r, route);
    SubsequenceKeeps(r.delivered, Settled(r), route);
    SubsequenceKeeps(r.dropped, Settled(r), route);
  }

  lemma DropBalanced(r: Routes)
    requires Balanced(r)
    ensures Balanced(Drop(r))
  {
    assert multiset(r.dropped + r.pending) == multiset(r.dropped) + multiset(r.pending);
  }

  lemma DropRoutes(r: Routes)
    requires RoutesOk(r)
    ensures RoutesOk(Drop(r))
  {
    hide Subsequence, Balanced;
    SubsequenceSkips(r.delivered, Settled(r), r.pending);
    SubsequenceAll(r.dropped, Settled(r), r.pending);
    assert Settled(Drop(r)) == r.accepted;
    DropBalanced(r);
  }

  /** A ready GUI has no routes waiting; routes that wait without a GUI wait for a launch. */
  predicate Served(s: State) {
    && (s.gui.ready ==> s.gui.connected)
    && (s.gui.connected && s.gui.ready ==> s.routes.pending == [])
    && (!s.gui.connected && s.routes.pending != [] ==>
          s.gui.launchRequested || s.gui.due > 0 || s.gui.refused)
  }

  lemma StepRoutes(s: State, step: Step)
    requires RoutesOk(s.routes) && Served(s) && Enabled(s, step)
    ensures RoutesOk(After(s, step).routes)
  {
    hide RoutesOk, Queue, Flush, Direct, Drop, Launch, EndSuspension, Discard;
    match step
    case Activation(route, _) =>
      if s.gui.connected && s.gui.ready { DirectRoutes(s.routes, route); } else { QueueRoutes(s.routes, route); }
    case SecondLaunch(route, _) =>
      if s.gui.connected && s.gui.ready { DirectRoutes(s.routes, route); } else { QueueRoutes(s.routes, route); }
    case GuiIsReady => FlushRoutes(s.routes);
    case DaemonStop(_) => DropRoutes(s.routes);
    case _ =>
  }

  lemma StepServed(s: State, step: Step)
    requires Served(s) && Enabled(s, step)
    ensures Served(After(s, step))
  {
    hide EndSuspension, Discard;
  }

  lemma {:induction false} RunRoutes(s: State, steps: seq<Step>)
    requires RoutesOk(s.routes) && Served(s) && Runs(s, steps)
    ensures RoutesOk(Final(s, steps).routes) && Served(Final(s, steps))
    decreases |steps|
  {
    hide RoutesOk, Served, After, Enabled;
    if steps != [] {
      StepRoutes(s, steps[0]);
      StepServed(s, steps[0]);
      RunRoutes(After(s, steps[0]), steps[1..]);
    }
  }

  lemma BeginRoutes()
    ensures RoutesOk(BEGIN.routes) && Served(BEGIN)
  {
  }

  /** The route the step asks for: a second launch is answered only by a ready daemon with a GUI. */
  function Asked(s: State, step: Step): seq<Route> {
    match step
    case Activation(route, _) => [route]
    case SecondLaunch(route, _) => if s.lifecycle == Ready && s.gui.connected then [route] else []
    case _ => []
  }

  /** The routes asked for in a run, in order. */
  function AskedBy(s: State, steps: seq<Step>): seq<Route>
    requires Runs(s, steps)
    decreases |steps|
  {
    if steps == [] then [] else Asked(s, steps[0]) + AskedBy(After(s, steps[0]), steps[1..])
  }

  lemma AcceptsAsked(s: State, step: Step)
    requires Enabled(s, step)
    ensures After(s, step).routes.accepted == s.routes.accepted + Asked(s, step)
    ensures step.SecondLaunch? ==> (GuiActivation(s, step.route, step.launches).1 <==> Asked(s, step) == [step.route])
  {
    hide Launch, EndSuspension, Discard;
  }

  lemma {:induction false} RunAccepts(s: State, steps: seq<Step>)
    requires Runs(s, steps)
    ensures Final(s, steps).routes.accepted == s.routes.accepted + AskedBy(s, steps)
    decreases |steps|
  {
    hide After, Enabled, Asked;
    if steps != [] {
      AcceptsAsked(s, steps[0]);
      RunAccepts(After(s, steps[0]), steps[1..]);
      assert s.routes.accepted + (Asked(s, steps[0]) + AskedBy(After(s, steps[0]), steps[1..]))
          == s.routes.accepted + Asked(s, steps[0]) + AskedBy(After(s, steps[0]), steps[1..]);
    }
  }

  /** A route is delivered at once exactly to a ready GUI, and otherwise waits behind the others. */
  lemma DeliveredAtOnce(s: State, step: Step, route: Route)
    requires Enabled(s, step) && Asked(s, step) == [route]
    ensures
      var r, r' := s.routes, After(s, step).routes;
      if s.gui.connected && s.gui.ready then
        r'.delivered == r.delivered + [route] && r'.pending == r.pending && r'.dropped == r.dropped
      else if |r.pending| < 64 then
        r'.delivered == r.delivered && r'.pending == r.pending + [route] && r'.dropped == r.dropped
      else
        && r'.delivered == r.delivered && r'.pending == r.pending[1..] + [route]
        && r'.dropped == r.dropped + [r.pending[0]]
  {
    hide Launch;
  }

  /**
   What was delivered, followed by what waits, is what was asked for, in order, with the dropped routes left
   out; so is what was dropped, which is older than all that waits.
   */
  lemma ActivationDelivery(steps: seq<Step>)
    requires Runs(BEGIN, steps)
    ensures var s := Final(BEGIN, steps);
      var r := s.routes;
      var asked := AskedBy(BEGIN, steps);
      && |r.pending| <= CAPACITY
      && (s.gui.connected && s.gui.ready ==> r.pending == [])
      && Subsequence(r.delivered + r.pending, asked)
      && Subsequence(r.dropped + r.pending, asked)
      && |asked| == |r.delivered| + |r.dropped| + |r.pending|
      && multiset(asked) == multiset(r.delivered) + multiset(r.dropped) + multiset(r.pending)
  {
    hide Runs, Final, Subsequence, AskedBy, RoutesOk;
    BeginRoutes();
    RunRoutes(BEGIN, steps);
    RunAccepts(BEGIN, steps);
    var r := Final(BEGIN, steps).routes;
    assert [] + AskedBy(BEGIN, steps) == AskedBy(BEGIN, steps);
    InOrderOfAcceptance(r);
  }

  lemma InOrderOfAcceptance(r: Routes)
    requires RoutesOk(r)
    ensures
      && |r.pending| <= CAPACITY
      && Subsequence(r.delivered + r.pending, r.accepted) && Subsequence(r.dropped + r.pending, r.accepted)
      && |r.accepted| == |r.delivered| + |r.dropped| + |r.pending|
      && multiset(r.accepted) == multiset(r.delivered) + multiset(r.dropped) + multiset(r.pending)
  {
    hide Subsequence;
    SubsequenceAll(r.delivered, Settled(r), r.pending);
    SubsequenceAll(r.dropped, Settled(r), r.pending);
    assert |multiset(r.accepted)| == |r.accepted|;
    assert |multiset(r.delivered) + multiset(r.dropped) + multiset(r.pending)|
        == |r.delivered| + |r.dropped| + |r.pending|;
  }

  /** No waiting route is forgotten: a launch is outstanding, scheduled, or was refused by the system. */
  lemma WaitingRoutesAreAwaited(steps: seq<Step>)
    requires Runs(BEGIN, steps) && !Final(BEGIN, steps).gui.connected && Final(BEGIN, steps).routes.pending != []
    ensures var g := Final(BEGIN, steps).gui; g.launchRequested || g.due > 0 || g.refused
  {
    hide Runs, Final, RoutesOk;
    BeginRoutes();
    RunRoutes(BEGIN, steps);
  }

  /** Nothing is dropped, or 64 were waiting and the oldest made room. */
  predicate DropsOldest(r: Routes, r': Routes) {
    r'.dropped == r.dropped
    || (|r.pending| == CAPACITY && r'.dropped == r.dropped + [r.pending[0]] && |r'.pending| == CAPACITY
        && r'.pending[..CAPACITY - 1] == r.pending[1..])
  }

  lemma QueueDrops(r: Routes, route: Route)
    requires |r.pending| <= CAPACITY
    ensures DropsOldest(r, Queue(r, route))
  {
  }

  /** In every run a route is dropped only when 64 are waiting, and then it is the oldest; or by stopping. */
  lemma DropsOnlyTheOldest(steps: seq<Step>, next: Step)
    requires Runs(BEGIN, steps) && Enabled(Final(BEGIN, steps), next) && !next.DaemonStop?
    ensures DropsOldest(Final(BEGIN, steps).routes, After(Final(BEGIN, steps), next).routes)
  {
    hide Runs, Final, Queue, Launch, EndSuspension, Served, Balanced, Subsequence;
    BeginRoutes();
    RunRoutes(BEGIN, steps);
    if next.Activation? || next.SecondLaunch? { QueueDrops(Final(BEGIN, steps).routes, next.route); }
  }

  // ---------------------------------------------------------------- the cache handshake

  /** What the barrier, the acknowledgement and the counts have to do with each other. */
  predicate CacheOk(c: CacheAccess) {
    && (c.acknowledged ==> c.suspension.Some?)
    && (c.barrierSuspended <==> c.acknowledged || c.stuck)
    && (c.failures == 0 ==> !c.stuck && c.discarded == 0)
    && c.suspensions == c.resumptions + c.discarded + (if c.barrierSuspended then 1 else 0)
  }

  predicate Handshake(s: State) {
    && CacheOk(s.cache)
    && (s.gui.ready ==> s.gui.connected)
    && (s.cache.suspension.Some? ==> s.gui.connected && s.gui.ready)
  }

  lemma EndingOk(c: CacheAccess, resumes: bool)
    requires CacheOk(c)
    ensures var c' := EndSuspension(c, resumes); CacheOk(c') && c'.suspension.None? && CacheOk(Discard(c'))
  {
  }

  lemma StepHandshake(s: State, step: Step)
    requires Handshake(s) && Enabled(s, step)
    ensures Handshake(After(s, step))
  {
    hide EndSuspension, Discard;
    EndingOk(s.cache, true);
    EndingOk(s.cache, false);
    DiscardEnds(EndSuspension(s.cache, true));
    DiscardEnds(EndSuspension(s.cache, false));
  }

  lemma DiscardEnds(c: CacheAccess)
    ensures Discard(c).suspension == c.suspension
  {
  }

  lemma {:induction false} RunHandshake(s: State, steps: seq<Step>)
    requires Handshake(s) && Runs(s, steps)
    ensures Handshake(Final(s, steps))
    decreases |steps|
  {
    hide Handshake, After, Enabled;
    if steps != [] {
      StepHandshake(s, steps[0]);
      RunHandshake(After(s, steps[0]), steps[1..]);
    }
  }

  /**
   The barrier is suspended exactly while a suspension is acknowledged, or after one whose resume failed;
   an acknowledged suspension is pending, a pending one belongs to a ready GUI, and when no resume fails
   every suspension of the barrier has ended by exactly one resume.
   */
  lemma CacheHandshake(steps: seq<Step>)
    requires Runs(BEGIN, steps)
    ensures var s := Final(BEGIN, steps);
      var c := s.cache;
      && (c.barrierSuspended <==> c.acknowledged || c.stuck)
      && (c.acknowledged ==> c.suspension.Some?)
      && (c.suspension.Some? ==> s.gui.connected && s.gui.ready)
      && (c.failures == 0 ==>
            (c.barrierSuspended <==> c.acknowledged)
            && c.suspensions == c.resumptions + (if c.acknowledged then 1 else 0))
  {
    hide Runs, Final;
    RunHandshake(BEGIN, steps);
  }

  /** A failed resume at disconnection leaves the barrier suspended with no suspension pending. */
  lemma FailedResumeSticks(cache: Cache)
    ensures
      var steps := [DaemonStart(true), ConnectionOpens, GuiIsReady, SuspendRequested(cache),
                    SuspendAcknowledged(cache, true), ConnectionCloses(false)];
      Runs(BEGIN, steps)
      && var c := Final(BEGIN, steps).cache;
         c.barrierSuspended && !c.acknowledged && c.suspension.None?
  {
    hide Runs, Final, EndSuspension;
    var first := [DaemonStart(true), ConnectionOpens, GuiIsReady];
    var second := [SuspendRequested(cache), SuspendAcknowledged(cache, true), ConnectionCloses(false)];
    var s1 := After(BEGIN, DaemonStart(true));
    var s2 := After(s1, ConnectionOpens);
    var s3 := After(s2, GuiIsReady);
    Three(BEGIN, s1, s2, s3, DaemonStart(true), ConnectionOpens, GuiIsReady);
    FailedResume(s3, cache);
    RunsOn(BEGIN, first, second);
    assert first + second == [DaemonStart(true), ConnectionOpens, GuiIsReady, SuspendRequested(cache),
                            SuspendAcknowledged(cache, true), ConnectionCloses(false)];
  }

  lemma FailedResume(s: State, cache: Cache)
    requires s.lifecycle == Ready && s.gui.connected && s.gui.ready && s.cache == BEGIN.cache
    ensures var steps := [SuspendRequested(cache), SuspendAcknowledged(cache, true), ConnectionCloses(false)];
      Runs(s, steps)
      && var c := Final(s, steps).cache; c.barrierSuspended && !c.acknowledged && c.suspension.None?
  {
    hide Runs, Final;
    var s1 := After(s, SuspendRequested(cache));
    var s2 := After(s1, SuspendAcknowledged(cache, true));
    var s3 := After(s2, ConnectionCloses(false));
    Three(s, s1, s2, s3, SuspendRequested(cache), SuspendAcknowledged(cache, true), ConnectionCloses(false));
  }

  lemma One(s: State, a: Step)
    requires Enabled(s, a)
    ensures Runs(s, [a]) && Final(s, [a]) == After(s, a)
  {
  }

  lemma Three(s: State, s1: State, s2: State, s3: State, a: Step, b: Step, c: Step)
    requires Enabled(s, a) && s1 == After(s, a) && Enabled(s1, b) && s2 == After(s1, b)
    requires Enabled(s2, c) && s3 == After(s2, c)
    ensures Runs(s, [a, b, c]) && Final(s, [a, b, c]) == s3
  {
    hide After, Enabled, Runs, Final;
    One(s2, c);
    Then(s3, s1, b, [c]);
    Then(s3, s, a, [b] + [c]);
    assert [a] + ([b] + [c]) == [a, b, c];
  }

  lemma {:induction false} RunsOn(s: State, first: seq<Step>, second: seq<Step>)
    requires Runs(s, first) && Runs(Final(s, first), second)
    ensures Runs(s, first + second) && Final(s, first + second) == Final(Final(s, first), second)
    decreases |first|
  {
    hide After, Enabled;
    if first == [] {
      assert first + second == second;
    } else {
      RunsOn(After(s, first[0]), first[1..], second);
      assert (first + second)[1..] == first[1..] + second;
    }
  }

  lemma Then(end: State, s: State, step: Step, rest: seq<Step>)
    requires Enabled(s, step) && Runs(After(s, step), rest) && Final(After(s, step), rest) == end
    ensures Runs(s, [step] + rest) && Final(s, [step] + rest) == end
  {
    hide After, Enabled;
    assert ([step] + rest)[1..] == rest;
  }

  // ---------------------------------------------------------------- no relaunch loop

  /** After `i` a GUI connected, reported ready, and closed, in one session. */
  ghost predicate SessionAfter(marks: seq<Mark>, i: nat) {
    exists o: nat, r: nat, c: nat :: i < o && SessionAt(marks, o, r, c)
  }

  predicate SessionAt(marks: seq<Mark>, o: nat, r: nat, c: nat) {
    o < r < c < |marks| && marks[o] == Opened && marks[r] == ReadyForActivation && marks[c] == Closed
    && (forall m | o < m < c :: marks[m] != Closed && marks[m] != Opened)
  }

  /** `i` is a launch with no stop since. */
  predicate LaunchAt(marks: seq<Mark>, i: nat) {
    i < |marks| && marks[i] == Launched && forall m | i < m < |marks| :: marks[m] != Stopped
  }

  /** The session that opened at `o` is still open, and has reported ready if the GUI counts as ready. */
  ghost predicate OpenSince(g: Gui, o: nat) {
    o < |g.marks| && g.marks[o] == Opened
    && (forall m | o < m < |g.marks| :: g.marks[m] != Closed && g.marks[m] != Opened)
    && (g.ready ==> exists r: nat :: o < r < |g.marks| && g.marks[r] == ReadyForActivation)
  }

  /** Since the launch at `i` a session was completed, or none has been and the guard is still up. */
  ghost predicate Guarded(g: Gui, i: nat) {
    SessionAfter(g.marks, i)
    || (g.launchRequested && (g.connected ==> exists o: nat :: i < o && OpenSince(g, o)))
  }

  ghost predicate GuardOk(g: Gui) {
    && (g.ready ==> g.connected)
    && forall i: nat | LaunchAt(g.marks, i) :: Guarded(g, i)
  }

  lemma SessionStays(marks: seq<Mark>, mark: Mark, i: nat)
    requires SessionAfter(marks, i)
    ensures SessionAfter(marks + [mark], i)
  {
    var o: nat, r: nat, c: nat :| i < o && SessionAt(marks, o, r, c);
    assert SessionAt(marks + [mark], o, r, c);
  }

  /** How a mark may change the GUI's flags. */
  predicate Moves(g: Gui, g': Gui, mark: Mark) {
    && g'.marks == g.marks + [mark] && (g'.ready ==> g'.connected)
    && (mark == ReadyForActivation ==> g.connected && g'.connected && g'.launchRequested == g.launchRequested)
    && (mark == Opened ==> !g.connected && !g'.ready && g'.launchRequested == g.launchRequested)
    && (mark == Closed ==> g.connected && !g'.connected && g'.launchRequested == (g.launchRequested && !g.ready))
    && (mark == Launched ==> !g.launchRequested && !g.connected && !g'.connected && g'.launchRequested)
  }

  lemma GuardMarked(g: Gui, g': Gui, mark: Mark, i: nat)
    requires GuardOk(g) && Moves(g, g', mark) && mark != Stopped && LaunchAt(g.marks, i)
    ensures Guarded(g', i)
  {
    assert Guarded(g, i);
    if SessionAfter(g.marks, i) {
      SessionStays(g.marks, mark, i);
    } else {
      var n := |g.marks|;
      if g.connected {
        var o: nat :| i < o && OpenSince(g, o);
        if mark == Closed && g.ready {
          var r: nat :| o < r < |g.marks| && g.marks[r] == ReadyForActivation;
          assert SessionAt(g'.marks, o, r, n);
        } else if mark == ReadyForActivation {
          assert g'.marks[n] == ReadyForActivation;
          assert OpenSince(g', o);
        }
      } else if mark == Opened {
        assert OpenSince(g', n);
      }
    }
  }

  lemma MarkGuard(g: Gui, g': Gui, mark: Mark)
    requires GuardOk(g) && Moves(g, g', mark)
    ensures GuardOk(g')
  {
    hide SessionAfter, OpenSince, Guarded;
    forall i: nat | LaunchAt(g'.marks, i) ensures Guarded(g', i) {
      assert g'.marks[|g.marks|] == mark;
      if i < |g.marks| {
        assert forall m | 0 <= m < |g.marks| :: g'.marks[m] == g.marks[m];
        GuardMarked(g, g', mark, i);
      } else {
        LaunchedNow(g', i);
      }
    }
  }

  lemma LaunchedNow(g: Gui, i: nat)
    requires g.launchRequested && !g.connected
    ensures Guarded(g, i)
  {
  }

  /** Steps that leave sessions and launches alone. */
  lemma GuardSame(g: Gui, g': Gui)
    requires GuardOk(g) && g'.marks == g.marks && g'.launchRequested == g.launchRequested
    requires g'.connected == g.connected && g'.ready == g.ready
    ensures GuardOk(g')
  {
    forall i: nat | LaunchAt(g.marks, i) ensures Guarded(g', i) {
      assert Guarded(g, i);
      if g.connected && !SessionAfter(g.marks, i) {
        var o: nat :| i < o && OpenSince(g, o);
        assert OpenSince(g', o);
      }
    }
  }

  lemma LaunchGuard(g: Gui, waiting: bool, launches: bool)
    requires GuardOk(g)
    ensures GuardOk(Launch(g, waiting, launches))
  {
    ReadyConnected(g);
    hide GuardOk;
    var g' := Launch(g, waiting, launches);
    if g'.marks == g.marks { GuardSame(g, g'); } else { MarkGuard(g, g', Launched); }
  }

  lemma ReadyConnected(g: Gui)
    requires GuardOk(g)
    ensures g.ready ==> g.connected
  {
  }

  lemma StepGuard(s: State, step: Step)
    requires GuardOk(s.gui) && Enabled(s, step)
    ensures GuardOk(After(s, step).gui)
  {
    hide GuardOk, Launch, Queue, EndSuspension, Discard, Drop, Flush, Direct, AcknowledgeSuspend, CompleteResume;
    ReadyConnected(s.gui);
    var g := After(s, step).gui;
    match step
    case Activation(_, launches) => LaunchGuard(s.gui, true, launches);
    case SecondLaunch(_, launches) => LaunchGuard(s.gui, true, launches);
    case LaunchDue(launches) =>
      var later := s.gui.(due := s.gui.due - 1);
      GuardSame(s.gui, later);
      LaunchGuard(later, s.routes.pending != [], launches);
    case GuiIsReady => if GuiReady(s).1 { MarkGuard(s.gui, g, ReadyForActivation); }
    case ConnectionOpens => MarkGuard(s.gui, g, Opened);
    case ConnectionCloses(_) => MarkGuard(s.gui, g, Closed);
    case DaemonStop(_) => if s.lifecycle != ShuttingDown { MarkGuard(s.gui, g, Stopped); }
    case DaemonStart(_) | SuspendRequested(_) | SuspendAcknowledged(_, _) | ResumeCompleted(_) =>
  }

  lemma {:induction false} RunGuard(s: State, steps: seq<Step>)
    requires GuardOk(s.gui) && Runs(s, steps)
    ensures GuardOk(Final(s, steps).gui)
    decreases |steps|
  {
    hide GuardOk, After, Enabled;
    if steps != [] {
      StepGuard(s, steps[0]);
      RunGuard(After(s, steps[0]), steps[1..]);
    }
  }

  /**
   The GUI is launched again only after a session that became ready and closed: whenever a run has a
   launch with no stop since, and the next step launches, such a session lies in between.
   */
  lemma NoRelaunchLoop(steps: seq<Step>, next: Step, i: nat)
    requires Runs(BEGIN, steps) && LaunchAt(Final(BEGIN, steps).gui.marks, i) && Enabled(Final(BEGIN, steps), next)
    requires After(Final(BEGIN, steps), next).gui.marks == Final(BEGIN, steps).gui.marks + [Launched]
    ensures SessionAfter(Final(BEGIN, steps).gui.marks, i)
  {
    hide Runs, Final, SessionAfter, OpenSince, Queue, EndSuspension;
    assert GuardOk(BEGIN.gui);
    RunGuard(BEGIN, steps);
    var s := Final(BEGIN, steps);
    assert After(s, next).gui.marks[|s.gui.marks|] == Launched;
    assert Guarded(s.gui, i);
    assert !s.gui.launchRequested;
  }

  /** A stop forgets the guard: two launches with only a stop and two starts in between. */
  lemma StopForgetsTheGuard(route: Route)
    ensures
      var steps := [DaemonStart(true), Activation(route, true), DaemonStop(true), DaemonStart(true),
                    DaemonStart(true), Activation(route, true)];
      Runs(BEGIN, steps) && Final(BEGIN, steps).gui.marks == [Launched, Stopped, Launched]
  {
    hide Runs, Final, EndSuspension, Discard;
    var start, stop, activation := DaemonStart(true), DaemonStop(true), Activation(route, true);
    var s1 := After(BEGIN, start);
    var s2 := After(s1, activation);
    var s3 := After(s2, stop);
    Three(BEGIN, s1, s2, s3, start, activation, stop);
    LaunchedAgain(s3, route);
    RunsOn(BEGIN, [start, activation, stop], [start, start, activation]);
    assert [start, activation, stop] + [start, start, activation]
        == [start, activation, stop, start, start, activation];
  }

  lemma LaunchedAgain(s: State, route: Route)
    requires s.lifecycle == ShuttingDown && !s.gui.connected && !s.gui.launchRequested
    ensures var steps := [DaemonStart(true), DaemonStart(true), Activation(route, true)];
      Runs(s, steps) && Final(s, steps).gui.marks == s.gui.marks + [Launched]
  {
    hide Runs, Final, Queue;
    var s1 := After(s, DaemonStart(true));
    var s2 := After(s1, DaemonStart(true));
    var s3 := After(s2, Activation(route, true));
    Three(s, s1, s2, s3, DaemonStart(true), DaemonStart(true), Activation(route, true));
  }
}
