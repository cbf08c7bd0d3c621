/** How often the replay table forgets a command, and which commands it forgets. */
module RemoteReplay {
  import opened Wrappers
  import opened RemoteClient
  import opened RemoteWorld
  import opened RemoteSafety
  import opened RemoteProgress

  /** The steps of the run that make the table forget the command after it has run. */
  function Forgettings(w: World, steps: seq<Step>, id: Id): (n: nat)
    requires Runs(w, steps)
    decreases |steps|
  {
    if steps == [] then 0
    else (if Forgets(w, steps[0], id) then 1 else 0) + Forgettings(After(w, steps[0]), steps[1..], id)
  }

  /** Entries released to run again are of repeatable commands, and so is what was forgotten, or unencodable. */
  ghost predicate ReplayFor(w: World, id: Id) {
    && (id in w.daemon.table && w.daemon.table[id] == Released ==> id in w.repeatable)
    && (id in w.daemon.executions && id in w.daemon.table && w.daemon.table[id] == Rejected ==>
          id in w.repeatable || id in w.daemon.unencodable)
    && (id in w.daemon.forgotten ==> id in w.repeatable || id in w.daemon.unencodable)
  }

  ghost predicate ReplayOk(w: World) {
    forall id :: ReplayFor(w, id)
  }

  /** Nothing but the wire of the daemon changes. */
  ghost predicate DaemonApart(w: World, w': World) {
    w'.daemon == w.daemon.(wire := w'.daemon.wire) && w.repeatable <= w'.repeatable
  }

  lemma ReplayKept(w: World, w': World)
    requires ReplayOk(w) && DaemonApart(w, w')
    ensures ReplayOk(w')
  {
    forall id ensures ReplayFor(w', id) { assert ReplayFor(w, id); }
  }

  lemma PutApart(w: World, frame: Frame)
    ensures DaemonApart(w, Put(w, frame)) && Put(w, frame).repeatable == w.repeatable
  {
  }

  lemma SendApart(w: World, frame: Frame)
    ensures DaemonApart(w, Send(w, frame)) && Send(w, frame).repeatable == w.repeatable
  {
    hide Put;
    PutApart(w, frame);
    if frame.Submit? {
      PutApart(w.(outstanding := w.outstanding + multiset{frame.id}, sentOn := w.sentOn[frame.id := w.session.epoch],
                  promised := w.promised - {frame.id}, stranded := w.stranded - {frame.id}), frame);
    }
  }

  lemma {:induction false} SendAllApart(w: World, frames: seq<Frame>)
    ensures DaemonApart(w, SendAll(w, frames)) && SendAll(w, frames).repeatable == w.repeatable
    decreases |frames|
  {
    hide Send;
    if frames != [] {
      SendAllApart(w, frames[..|frames| - 1]);
      SendApart(SendAll(w, frames[..|frames| - 1]), frames[|frames| - 1]);
    }
  }

  lemma FramesApart(w: World, step: Step)
    requires OfFrames(step) && Enabled(w, step)
    ensures DaemonApart(w, After(w, step))
  {
    hide Enabled, SendAll, Response;
    SendAllApart(Before(w, step).(client := Response(w, step).0), Response(w, step).1);
  }

  lemma ImmediatesApart(w: World, step: Step)
    requires OfImmediates(step) && Enabled(w, step)
    ensures DaemonApart(w, AfterImmediates(w, step))
  {
    hide AfterFirst, AfterReply, Put, LinkOf, OnAckReply, ScheduleAck;
    match step
    case ImmediateAsked(id, repeatable) =>
      PutApart(w.(known := w.known + {id}, immediate := w.immediate[id := ImmediateCall(w.session.greeted, First)],
                  repeatable := if repeatable then w.repeatable + {id} else w.repeatable), Submit(id));
    case ImmediateRepeated(id) =>
      PutApart(w.(immediate := w.immediate[id := w.immediate[id].(phase := Second)]), Submit(id));
    case _ =>
  }

  lemma SessionApart(w: World, step: Step)
    requires OfSession(step) && Enabled(w, step)
    ensures DaemonApart(w, AfterSession(w, step))
  {
    hide Idle, LinkOf;
  }

  lemma AwayApart(w: World, step: Step)
    requires Enabled(w, step) && !OfDaemon(step)
    ensures DaemonApart(w, After(w, step))
  {
    hide Enabled, Take, Before, Response, AfterImmediates, AfterSession, DaemonAfter, OnReply, Idle, LinkOf;
    if OfFrames(step) { FramesApart(w, step); }
    if OfImmediates(step) { ImmediatesApart(w, step); }
    if OfSession(step) { SessionApart(w, step); }
  }

  // ---------------------------------------------------------------- the daemon

  /**
   A submission not in the table, or released to run again, runs its command unless the daemon is overloaded
   or denies it; the table then says that it is executing, answered or rejected. Any other changes nothing.
   */
  lemma SubmissionServed(d: Daemon, id: Id, repeatable: bool, outcome: Outcome)
    ensures
      var e := Handle(d, Submit(id), repeatable, outcome);
      var runs := id !in d.table || (repeatable && d.table[id] == Released);
      && e == d.(table := e.table, executions := e.executions, unencodable := e.unencodable)
      && e.executions ==
           d.executions + (if runs && outcome in {Begun, Done, Unencoded} then multiset{id} else multiset{})
      && e.unencodable == d.unencodable + (if runs && outcome == Unencoded then {id} else {})
      && e.table == d.table + (if !runs || outcome == Overloaded then map[]
                               else map[id := if outcome == Begun then Executing
                                              else if outcome == Done then Answered else Rejected])
  {
  }

  /** An acknowledgement removes the entry unless it is executing; an end answers or rejects it. */
  lemma EntryClosed(d: Daemon, id: Id, repeatable: bool, outcome: Outcome)
    ensures Handle(d, Acknowledge(id), repeatable, outcome)
         == d.(table := d.table - if id in d.table && d.table[id] == Executing then {} else {id})
    ensures End(d, id, true) == d.(table := d.table[id := Answered])
    ensures End(d, id, false) == d.(table := d.table[id := Rejected], unencodable := d.unencodable + {id})
  {
  }

  /** The end of an operation, the two ways an entry is forgotten, and the daemon's own coming and going. */
  lemma TableExactly(w: World, step: Step)
    requires OfDaemon(step) && Enabled(w, step) && !step.Delivered?
    ensures
      var d, e := w.daemon, DaemonAfter(w, step);
      && e.table == (match step
                     case OperationEnded(id, encoded) => d.table[id := if encoded then Answered else Rejected]
                     case Trimmed(id) => d.table - {id}
                     case ResultReleased(id) => d.table[id := if id in w.repeatable then Released else Expired]
                     case DaemonDied => map[]
                     case _ => d.table)
      && e.unencodable == d.unencodable + (if step.OperationEnded? && !step.encoded then {step.id} else {})
      && e.executions == d.executions
      && e.live == (match step
                    case DaemonStarted(instance) => Some(instance)
                    case DaemonDied => None
                    case _ => d.live)
      && e.wire == (match step
                    case DaemonDied => []
                    case FrameLost(k) => d.wire[..k] + d.wire[k + 1..]
                    case _ => d.wire)
  {
    hide Forgets, Trimmable;
  }

  /** Only finished entries are trimmed: a repeatable command's, or a rejection. */
  lemma TrimsExactly(w: World, id: Id)
    ensures Enabled(w, Trimmed(id)) <==>
      id in w.daemon.table && w.daemon.table[id] != Executing && (id in w.repeatable || w.daemon.table[id] == Rejected)
  {
  }

  lemma ServedReplay(w: World, outcome: Outcome)
    requires Safe(w) && ReplayOk(w) && Enabled(w, Delivered(outcome)) && w.daemon.wire[0].Submit?
    ensures ReplayOk(After(w, Delivered(outcome)))
  {
    hide SessionOk, NamesOk, AcksOk, PinsOk, After;
    DeliveredIs(w, outcome);
    var w' := After(w, Delivered(outcome));
    var id := w.daemon.wire[0].id;
    assert w.daemon.wire[0] == Submit(id);
    assert OnceFor(w, id);
    assert id in w.daemon.executions && Exempt(w.daemon, id) ==> id in w.daemon.forgotten;
    forall k ensures ReplayFor(w', k) { assert ReplayFor(w, k); }
  }

  lemma AcknowledgedReplay(w: World, outcome: Outcome)
    requires ReplayOk(w) && Enabled(w, Delivered(outcome)) && w.daemon.wire[0].Acknowledge?
    ensures ReplayOk(After(w, Delivered(outcome)))
  {
    hide After;
    DeliveredIs(w, outcome);
    var w' := After(w, Delivered(outcome));
    forall k ensures ReplayFor(w', k) { assert ReplayFor(w, k); }
  }

  lemma TableReplay(w: World, step: Step)
    requires ReplayOk(w) && OfDaemon(step) && Enabled(w, step) && !step.Delivered?
    ensures ReplayOk(w.(daemon := DaemonAfter(w, step)))
  {
    var w' := w.(daemon := DaemonAfter(w, step));
    forall k ensures ReplayFor(w', k) { assert ReplayFor(w, k); }
  }

  lemma ReplayStep(w: World, step: Step)
    requires Safe(w) && ReplayOk(w) && Enabled(w, step)
    ensures ReplayOk(After(w, step))
  {
    hide Safe, ReplayOk, DaemonApart, Enabled, Take, Before, Response, AfterImmediates, AfterSession, AfterReplied,
      DaemonAfter;
    if !OfDaemon(step) {
      AwayApart(w, step);
      ReplayKept(w, After(w, step));
    } else if step.Delivered? {
      var outcome := step.outcome;
      HasFrame(w, outcome);
      if w.daemon.wire[0].Submit? { ServedReplay(w, outcome); } else { AcknowledgedReplay(w, outcome); }
    } else {
      TableReplay(w, step);
    }
  }

  lemma HasFrame(w: World, outcome: Outcome)
    requires Enabled(w, Delivered(outcome))
    ensures w.daemon.wire != []
  {
  }

  // ---------------------------------------------------------------- every run

  lemma TableForgotten(w: World, step: Step, id: Id)
    requires OfDaemon(step) && Enabled(w, step)
    ensures DaemonAfter(w, step).forgotten[id] == w.daemon.forgotten[id] + if Forgets(w, step, id) then 1 else 0
  {
    hide Handle, Trimmable, End, Forget, Forgets;
    if !((step.Trimmed? || step.ResultReleased?) && step.id == id) { OthersForget(w, step, id); }
    match step
    case Delivered(outcome) =>
      HandleKeeps(w.daemon.(wire := w.daemon.wire[1..]), w.daemon.wire[0], w.daemon.wire[0].id in w.repeatable,
                  outcome);
    case OperationEnded(k, encoded) => EndKeeps(w.daemon, k, encoded);
    case Trimmed(k) => ForgetCounts(w, step, k, id, w.daemon.table - {k});
    case ResultReleased(k) =>
      ForgetCounts(w, step, k, id, w.daemon.table[k := if k in w.repeatable then Released else Expired]);
    case _ =>
  }

  lemma OthersForget(w: World, step: Step, id: Id)
    requires !((step.Trimmed? || step.ResultReleased?) && step.id == id)
    ensures !Forgets(w, step, id)
  {
  }

  lemma EndKeeps(d: Daemon, id: Id, encoded: bool)
    ensures End(d, id, encoded).forgotten == d.forgotten
  {
  }

  lemma ForgetCounts(w: World, step: Step, k: Id, id: Id, table: map<Id, Status>)
    ensures Forget(w, step, k, table).forgotten[id]
         == w.daemon.forgotten[id] + if k == id && Forgets(w, step, id) then 1 else 0
  {
    hide Forgets;
  }

  lemma ForgottenStep(w: World, step: Step, id: Id)
    requires Enabled(w, step)
    ensures After(w, step).daemon.forgotten[id] == w.daemon.forgotten[id] + if Forgets(w, step, id) then 1 else 0
  {
    hide Enabled, Take, Before, Response, AfterImmediates, AfterSession, AfterReplied, DaemonAfter;
    if OfDaemon(step) { TableForgotten(w, step, id); } else { AwayApart(w, step); }
  }

  lemma {:induction false} RunReplay(w: World, steps: seq<Step>, id: Id)
    requires Safe(w) && ReplayOk(w) && Runs(w, steps)
    ensures ReplayOk(Final(w, steps))
    ensures Final(w, steps).daemon.forgotten[id] == w.daemon.forgotten[id] + Forgettings(w, steps, id)
    decreases |steps|
  {
    hide Safe, ReplayOk, After, Enabled, Forgets;
    if steps != [] {
      StepSafe(w, steps[0]);
      ReplayStep(w, steps[0]);
      ForgottenStep(w, steps[0], id);
      RunReplay(After(w, steps[0]), steps[1..], id);
    }
  }

  lemma ReplayReachable(steps: seq<Step>, id: Id)
    requires Runs(START, steps)
    ensures var w := Final(START, steps);
      && w.daemon.forgotten[id] == Forgettings(START, steps, id)
      && (Forgettings(START, steps, id) > 0 ==> id in w.repeatable || id in w.daemon.unencodable)
  {
    hide Runs, Final, Forgettings;
    RunReplay(START, steps, id);
    assert ReplayFor(Final(START, steps), id);
  }
}
