/** Which runs leave a call idle in a ready session: exactly those in which something stranded it. */
module RemoteStranding {
  import opened Wrappers
  import opened RemoteClient
  import opened RemoteWorld
  import opened RemoteSafety
  import opened RemoteProgress
  import opened RemoteTheorems

  /** A greeting that makes the session ready while it is not recovering: the first, or one after a stop. */
  predicate FirstGreeting(w: World, step: Step) {
    step.HelloAnswered? && !w.session.recovering && !LinkOf(w.session).ready
  }

  /** An acceptance of a submission made on an earlier connection. */
  predicate LateAcceptance(w: World, step: Step) {
    step.Replied? && step.reply.Accepted? && (step.id !in w.sentOn || w.sentOn[step.id] != w.session.epoch)
  }

  /** The step leaves the call with nothing to wake it. */
  predicate StrandsAt(w: World, step: Step, id: Id)
    requires Enabled(w, step)
  {
    (FirstGreeting(w, step) && Idle(w, id)) || (LateAcceptance(w, step) && step.id == id && Idle(After(w, step), id))
  }

  predicate NoRecovery(steps: seq<Step>) {
    forall step | step in steps :: !step.RecoveryEnded?
  }

  /** The run strands the call, and no recovery ends after that. */
  predicate StrandedIn(w: World, steps: seq<Step>, id: Id)
    requires Runs(w, steps)
    decreases |steps|
  {
    steps != []
    && ((StrandsAt(w, steps[0], id) && NoRecovery(steps[1..])) || StrandedIn(After(w, steps[0]), steps[1..], id))
  }

  // ---------------------------------------------------------------- a stranded call stays idle

  lemma SubmitKeepsIdle(w: World, k: Id, id: Id)
    requires Idle(w, id) && k != id
    ensures Idle(Take(w, SubmitPending(w.client, k, LinkOf(w.session))), id)
  {
    hide SendAll, Put;
    var r := SubmitPending(w.client, k, LinkOf(w.session));
    SendOne(w.(client := r.0), Submit(k));
    PutKeepsCalls(w.(client := r.0), Submit(k));
  }

  lemma AcknowledgeKeepsIdle(w: World, k: Id, id: Id)
    requires Idle(w, id)
    ensures Idle(Take(w, SubmitAcknowledgement(w.client, k, LinkOf(w.session))), id)
  {
    hide SendAll, Put;
    var r := SubmitAcknowledgement(w.client, k, LinkOf(w.session));
    SendOne(w.(client := r.0), Acknowledge(k));
    PutKeepsCalls(w.(client := r.0), Acknowledge(k));
  }

  lemma InvokedKeepsIdle(w: World, step: Step, id: Id)
    requires Idle(w, id) && step.Invoked? && Enabled(w, step) && step.id != id
    ensures Idle(After(w, step), id)
  {
    hide Take, SubmitPending;
    var link := LinkOf(w.session);
    var c := w.client.(pending := w.client.pending[step.id := Call(link.daemon, false, step.window, false)]);
    var w1 := w.(known := w.known + {step.id}, invoked := w.invoked + {step.id},
                 repeatable := if step.repeatable then w.repeatable + {step.id} else w.repeatable);
    SubmitKeepsIdle(w1.(client := c), step.id, id);
    TakeIgnoresClient(w1, c, SubmitPending(c, step.id, link));
  }

  lemma FiredKeepsIdle(w: World, timer: Timer, id: Id)
    requires Idle(w, id) && Enabled(w, Fired(timer)) && id in After(w, Fired(timer)).client.pending
    ensures Idle(After(w, Fired(timer)), id)
  {
    hide Take, SubmitPending, SubmitAcknowledgement;
    var c := w.client.(timers := w.client.timers - multiset{timer});
    TakeIgnoresClient(w, c, FireTimer(w.client, timer, LinkOf(w.session)));
    match timer
    case Resubmit(k) => SubmitKeepsIdle(w.(client := c), k, id);
    case SubmitAck(k) => AcknowledgeKeepsIdle(w.(client := c), k, id);
    case Timeout(k) => TakeNothing(w, if k in c.pending then Resolve(c, k) else c);
  }

  lemma RepliedKeepsIdle(w: World, id: Id, reply: Reply, k: Id)
    requires Idle(w, k) && Enabled(w, Replied(id, reply)) && LedgerOk(w)
    ensures Idle(After(w, Replied(id, reply)), k)
  {
    hide OnReply, LedgerOk, AfterReplied, LinkOf;
    SettledOne(w, k);
    SettledOne(w, id);
    RepliedIs(w, id, reply);
    OnReplyOther(w.client, id, reply, LinkOf(w.session), k);
    RepliedOther(w, id, reply, k);
  }

  lemma SessionKeepsIdle(w: World, step: Step, id: Id)
    requires Idle(w, id) && OfSession(step) && Enabled(w, step)
    ensures Idle(After(w, step), id)
  {
    hide LinkOf, AfterReplied, AfterImmediates, DaemonAfter, Response, Before, Take;
  }

  lemma ResolvedKeepsIdle(w: World, step: Step, id: Id)
    requires Idle(w, id) && (step.Notified? || step.ShutDown?) && Enabled(w, step)
    requires id in After(w, step).client.pending
    ensures Idle(After(w, step), id)
  {
  }

  lemma SameCallsIdle(w: World, w': World, id: Id)
    requires Idle(w, id) && SameCalls(w, w')
    ensures Idle(w', id)
  {
  }

  lemma CallIsNew(w: World, step: Step, id: Id)
    requires Safe(w) && Idle(w, id) && step.Invoked? && Enabled(w, step)
    ensures step.id != id
  {
  }

  lemma IdleStays(w: World, step: Step, id: Id)
    requires Safe(w) && LedgerOk(w) && Enabled(w, step) && Idle(w, id) && !step.RecoveryEnded?
    requires id in After(w, step).client.pending
    ensures Idle(After(w, step), id)
  {
    hide LedgerOk, Safe, After, Enabled, SameLedger, SameCalls, Idle;
    match step
    case Invoked(_, _, _) =>
      CallIsNew(w, step, id);
      InvokedKeepsIdle(w, step, id);
    case Replied(k, reply) => RepliedKeepsIdle(w, k, reply, id);
    case Fired(timer) => FiredKeepsIdle(w, timer, id);
    case Notified(_) | ShutDown => ResolvedKeepsIdle(w, step, id);
    case AckReplied(_, _) | ImmediateAsked(_, _) | ImmediateAnswered(_, _) | ImmediateRepeated(_)
       | ImmediateAbandoned(_) =>
      QuietStep(w, step);
      SameCallsIdle(w, After(w, step), id);
    case DaemonStarted(_) | DaemonDied | Delivered(_) | OperationEnded(_, _) | Trimmed(_) | ResultReleased(_)
       | FrameLost(_) =>
      DaemonStep(w, step);
      SameCallsIdle(w, After(w, step), id);
    case ConnectionMade | ConnectionLost | LossHandled | HelloAnswered | RecoveryBegun | Stopped =>
      SessionKeepsIdle(w, step, id);
  }

  lemma ClientForgets(c: Client, link: Link)
    ensures forall id, window, k | k in Invoke(c, id, window, link).0.pending :: k in c.pending || k == id
    ensures forall timer, k | k in FireTimer(c, timer, link).0.pending :: k in c.pending
  {
  }

  lemma RetryForgets(c: Client, calls: seq<Id>, acks: seq<Id>, link: Link)
    ensures forall id | id in Retry(c, calls, acks, link).0.pending :: id in c.pending
  {
    hide SubmitEach, AcknowledgeEach;
    SubmittingForgets(c, calls, link);
    AcknowledgingKeepsCalls(SubmitEach(c, calls, link).0, acks, link);
  }

  lemma TakeClient(w: World, r: (Client, seq<Frame>))
    ensures Take(w, r).client == r.0
  {
    hide SendAll;
    SendAllKeepsClient(w.(client := r.0), r.0, r.1);
  }

  lemma ResponseForgets(w: World, step: Step, id: Id)
    requires OfFrames(step) && Enabled(w, step) && id in w.known && id in Response(w, step).0.pending
    ensures id in w.client.pending
  {
    hide Invoke, FireTimer, Retry, LinkOf, Lists, SubmitEach;
    ClientForgets(w.client, LinkOf(w.session));
    if step.RecoveryEnded? { RetryForgets(w.client, step.calls, step.acks, LinkOf(Before(w, step).session)); }
  }

  lemma FramesForget(w: World, step: Step, id: Id)
    requires OfFrames(step) && Enabled(w, step) && id in w.known && id in After(w, step).client.pending
    ensures id in w.client.pending
  {
    hide Enabled, Take, Before, Response, AfterImmediates, DaemonAfter, AfterSession, AfterReplied;
    TakeClient(Before(w, step), Response(w, step));
    ResponseForgets(w, step, id);
  }

  lemma RepliedForgets(w: World, id: Id, reply: Reply, k: Id)
    requires Enabled(w, Replied(id, reply)) && k in After(w, Replied(id, reply)).client.pending
    ensures k in w.client.pending
  {
    hide OnReply, AfterReplied, LinkOf;
    RepliedIs(w, id, reply);
    if k != id { OnReplyOther(w.client, id, reply, LinkOf(w.session), k); }
    else if k !in w.client.pending { OnReplyUnknown(w.client, id, reply, LinkOf(w.session)); }
  }

  lemma ResolvedForgets(w: World, step: Step, id: Id)
    requires (step.Notified? || step.ShutDown?) && Enabled(w, step) && id in After(w, step).client.pending
    ensures id in w.client.pending
  {
  }

  lemma SamePending(w: World, w': World)
    requires SameLedger(w, w')
    ensures w'.client.pending == w.client.pending && w.known <= w'.known
  {
  }

  /** A call that has left the pending ones does not come back. */
  lemma PendingIsLost(w: World, step: Step, id: Id)
    requires Enabled(w, step) && id in w.known && id in After(w, step).client.pending
    ensures id in w.client.pending
  {
    hide After, Enabled, SameLedger, SameCalls;
    match step
    case Invoked(_, _, _) | Fired(_) | RecoveryEnded(_, _) => FramesForget(w, step, id);
    case Replied(k, reply) => RepliedForgets(w, k, reply, id);
    case Notified(_) | ShutDown => ResolvedForgets(w, step, id);
    case AckReplied(_, _) | ImmediateAsked(_, _) | ImmediateAnswered(_, _) | ImmediateRepeated(_)
       | ImmediateAbandoned(_) =>
      QuietStep(w, step);
      SamePending(w, After(w, step));
    case DaemonStarted(_) | DaemonDied | Delivered(_) | OperationEnded(_, _) | Trimmed(_) | ResultReleased(_)
       | FrameLost(_) =>
      DaemonStep(w, step);
      SamePending(w, After(w, step));
    case ConnectionMade | ConnectionLost | LossHandled | HelloAnswered | RecoveryBegun | Stopped =>
      SessionStep(w, step);
      SamePending(w, After(w, step));
  }

  lemma {:induction false} SubmittingForgets(c: Client, keys: seq<Id>, link: Link)
    ensures forall id | id in SubmitEach(c, keys, link).0.pending :: id in c.pending
    decreases |keys|
  {
    if keys != [] { SubmittingForgets(c, keys[..|keys| - 1], link); }
  }

  lemma KnownStays(w: World, step: Step, id: Id)
    requires Enabled(w, step) && id in w.known
    ensures id in After(w, step).known
  {
    hide Take, AfterReplied, AfterImmediates, DaemonAfter, AfterSession, Response, Before, Idle, Lists, SameCalls;
    match step
    case Invoked(_, _, _) | Fired(_) | RecoveryEnded(_, _) => FramesKnown(w, step, id);
    case Replied(k, reply) => RepliedIs(w, k, reply);
    case Notified(_) | ShutDown =>
    case AckReplied(_, _) | ImmediateAsked(_, _) | ImmediateAnswered(_, _) | ImmediateRepeated(_)
       | ImmediateAbandoned(_) => QuietStep(w, step);
    case DaemonStarted(_) | DaemonDied | Delivered(_) | OperationEnded(_, _) | Trimmed(_) | ResultReleased(_)
       | FrameLost(_) => DaemonStep(w, step);
    case ConnectionMade | ConnectionLost | LossHandled | HelloAnswered | RecoveryBegun | Stopped =>
      SessionStep(w, step);
  }

  lemma FramesKnown(w: World, step: Step, id: Id)
    requires OfFrames(step) && Enabled(w, step) && id in w.known
    ensures id in After(w, step).known
  {
    hide Enabled, Response, SendAll, AfterImmediates, DaemonAfter, AfterSession, AfterReplied;
    SendAllKnown(Before(w, step).(client := Response(w, step).0), Response(w, step).1);
  }

  lemma {:induction false} SendAllKnown(w: World, frames: seq<Frame>)
    ensures SendAll(w, frames).known == w.known
    decreases |frames|
  {
    if frames != [] { SendAllKnown(w, frames[..|frames| - 1]); }
  }

  lemma {:induction false} PendingThroughout(w: World, steps: seq<Step>, id: Id)
    requires Runs(w, steps) && id in w.known && id in Final(w, steps).client.pending
    ensures id in w.client.pending
    decreases |steps|
  {
    hide After, Enabled;
    if steps != [] {
      KnownStays(w, steps[0], id);
      PendingThroughout(After(w, steps[0]), steps[1..], id);
      PendingIsLost(w, steps[0], id);
    }
  }

  /** The facts a run keeps. */
  ghost predicate Kept(w: World) {
    Safe(w) && LedgerOk(w) && AwakeOk(w)
  }

  lemma KeptStep(w: World, step: Step)
    requires Kept(w) && Enabled(w, step)
    ensures Kept(After(w, step))
  {
    hide LedgerOk, AwakeOk, After, Enabled, SessionOk, NamesOk, AcksOk, WireOk, PinsOk, OnceOk;
    StepSafe(w, step);
    LedgerStep(w, step);
    AwakeStep(w, step);
  }

  lemma PendingIsKnown(w: World, id: Id)
    requires Safe(w) && id in w.client.pending
    ensures id in w.known
  {
  }

  lemma {:induction false} IdleThroughout(w: World, steps: seq<Step>, id: Id)
    requires Kept(w) && Runs(w, steps) && NoRecovery(steps) && Idle(w, id)
    requires id in Final(w, steps).client.pending
    ensures Idle(Final(w, steps), id)
    decreases |steps|
  {
    hide After, Enabled, Kept, Idle, Safe, LedgerOk, AwakeOk;
    if steps != [] {
      KeptStep(w, steps[0]);
      KeptParts(w);
      IdleIsPending(w, id);
      PendingIsKnown(w, id);
      KnownStays(w, steps[0], id);
      PendingThroughout(After(w, steps[0]), steps[1..], id);
      IdleStays(w, steps[0], id);
      IdleThroughout(After(w, steps[0]), steps[1..], id);
    }
  }

  lemma IdleIsPending(w: World, id: Id)
    requires Idle(w, id)
    ensures id in w.client.pending
  {
  }

  lemma KeptParts(w: World)
    requires Kept(w)
    ensures Safe(w) && LedgerOk(w) && AwakeOk(w)
  {
  }

  // ---------------------------------------------------------------- stranding steps do strand

  /** A first greeting leaves the session ready and every idle call idle. */
  lemma FirstGreetingStrands(w: World, step: Step, id: Id)
    requires Enabled(w, step) && FirstGreeting(w, step) && Idle(w, id)
    ensures LinkOf(After(w, step).session).ready && Idle(After(w, step), id)
  {
  }

  /** A late acceptance leaves its call idle unless a resubmission is queued for it or it was promised here. */
  lemma LateAcceptanceLeavesIdle(w: World, step: Step)
    requires Kept(w) && Enabled(w, step) && LateAcceptance(w, step) && step.id in w.client.pending
    requires step.reply.operation == Some(step.id)
    ensures Idle(After(w, step), step.id) <==> Resubmit(step.id) !in w.client.timers && step.id !in w.promised
    ensures LinkOf(After(w, step).session).ready == LinkOf(w.session).ready
  {
    hide Kept;
  }

  lemma StrandsIdle(w: World, step: Step, id: Id)
    requires Enabled(w, step) && StrandsAt(w, step, id)
    ensures Idle(After(w, step), id)
  {
    if FirstGreeting(w, step) && Idle(w, id) { FirstGreetingStrands(w, step, id); }
  }

  lemma {:induction false} StrandedIsIdle(w: World, steps: seq<Step>, id: Id)
    requires Kept(w) && Runs(w, steps) && StrandedIn(w, steps, id)
    requires id in Final(w, steps).client.pending
    ensures Idle(Final(w, steps), id)
    decreases |steps|
  {
    hide After, Enabled, Kept, Idle, StrandsAt;
    KeptStep(w, steps[0]);
    if StrandsAt(w, steps[0], id) && NoRecovery(steps[1..]) {
      StrandsIdle(w, steps[0], id);
      IdleThroughout(After(w, steps[0]), steps[1..], id);
    } else {
      StrandedIsIdle(After(w, steps[0]), steps[1..], id);
    }
  }

  // ---------------------------------------------------------------- nothing else strands

  lemma RecoveryClears(w: World, step: Step)
    requires Enabled(w, step) && step.RecoveryEnded?
    ensures After(w, step).stranded == {}
  {
    hide SendAll, Retry, SubmitEach, Lists;
    var w1 := w.(session := w.session.(recovering := false), stranded := {});
    var r := Retry(w.client, step.calls, step.acks, LinkOf(w1.session));
    SendAllStrands(w1.(client := r.0), r.1);
  }

  lemma {:induction false} StrandedByRun(w: World, steps: seq<Step>, id: Id)
    requires Runs(w, steps) && id in Final(w, steps).stranded
    ensures (id in w.stranded && NoRecovery(steps)) || StrandedIn(w, steps, id)
    decreases |steps|
  {
    hide After, Enabled, Idle, LinkOf;
    if steps != [] {
      StrandedByRun(After(w, steps[0]), steps[1..], id);
      if id in After(w, steps[0]).stranded && NoRecovery(steps[1..]) {
        if steps[0].RecoveryEnded? { RecoveryClears(w, steps[0]); }
        if id !in w.stranded { StrandedBy(w, steps[0], id); }
      }
    }
  }

  /**
   Over every run, a pending call of a ready session is idle exactly when the run stranded it: at a first
   greeting that found it idle, or by a late acceptance, with no recovery ending since.
   */
  lemma IdleExactlyWhenStranded(steps: seq<Step>, id: Id)
    requires Runs(START, steps)
    requires LinkOf(Final(START, steps).session).ready && id in Final(START, steps).client.pending
    ensures Idle(Final(START, steps), id) <==> StrandedIn(START, steps, id)
  {
    hide After, Enabled, LinkOf, Kept, StrandedIn, Runs, Final;
    StartKept();
    if StrandedIn(START, steps, id) { StrandedIsIdle(START, steps, id); }
    NoLostWakeUp(steps, id);
    if Idle(Final(START, steps), id) { StrandedByRun(START, steps, id); }
  }

  lemma StartKept()
    ensures Kept(START) && START.stranded == {}
  {
  }

  // ---------------------------------------------------------------- calm runs

  /** No greeting makes the session ready while calls are pending, and no acceptance comes late. */
  predicate Calm(w: World, step: Step) {
    && (step.HelloAnswered? ==> w.session.recovering || LinkOf(w.session).ready || w.client.pending == map[])
    && (step.Replied? && step.reply.Accepted? ==>
          step.id in w.sentOn && w.sentOn[step.id] == w.session.epoch)
  }

  predicate CalmRun(w: World, steps: seq<Step>)
    requires Runs(w, steps)
    decreases |steps|
  {
    steps == [] || (Calm(w, steps[0]) && CalmRun(After(w, steps[0]), steps[1..]))
  }

  lemma {:induction false} CalmStrandsNobody(w: World, steps: seq<Step>, id: Id)
    requires Runs(w, steps) && CalmRun(w, steps)
    ensures !StrandedIn(w, steps, id)
    decreases |steps|
  {
    hide After, Enabled;
    if steps != [] { CalmStrandsNobody(After(w, steps[0]), steps[1..], id); }
  }

  /** Over every calm run no wake-up is lost. */
  lemma CalmRunsLoseNoWakeUp(steps: seq<Step>, id: Id)
    requires Runs(START, steps) && CalmRun(START, steps)
    requires LinkOf(Final(START, steps).session).ready && id in Final(START, steps).client.pending
    ensures var w := Final(START, steps);
      w.client.pending[id].inFlight || Resubmit(id) in w.client.timers || id in w.promised
  {
    hide Runs, Final, StrandedIn, CalmRun, LinkOf;
    IdleExactlyWhenStranded(steps, id);
    CalmStrandsNobody(START, steps, id);
  }

  // ---------------------------------------------------------------- a stop and a new start

  /** A session that is stopped and started again strands every call that is neither in flight nor queued. */
  lemma StopStrandsAgain(w: World, id: Id)
    requires w.daemon.live.Some? && id in w.client.pending
    requires !w.client.pending[id].inFlight && Resubmit(id) !in w.client.timers
    ensures var w1 := After(w, Stopped);
      Enabled(w1, ConnectionMade)
      && var w2 := After(w1, ConnectionMade);
         Enabled(w2, HelloAnswered) && FirstGreeting(w2, HelloAnswered) && StrandsAt(w2, HelloAnswered, id)
         && LinkOf(After(w2, HelloAnswered).session).ready && Idle(After(w2, HelloAnswered), id)
  {
    var w2 := After(After(w, Stopped), ConnectionMade);
    FirstGreetingStrands(w2, HelloAnswered, id);
  }
}
