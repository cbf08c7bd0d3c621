/** The remote-call protocol over every run, and the runs that show where its promises end. */
module RemoteTheorems {
  import opened Wrappers
  import opened RemoteClient
  import opened RemoteWorld
  import opened RemoteSafety
  import opened RemoteProgress
  import opened RemoteReplay

  lemma Reachable(steps: seq<Step>)
    requires Runs(START, steps)
    ensures Safe(Final(START, steps)) && LedgerOk(Final(START, steps)) && AwakeOk(Final(START, steps))
  {
    hide Runs, Final;
    RunKeeps(START, steps);
  }

  /**
   A command is executed at most once more than its daemon's table forgets it, so once at most in a run that
   never trims it nor releases its result to run again; and the table forgets only commands that are repeatable
   or whose result has no encoding.
   */
  lemma AtMostOnce(steps: seq<Step>, id: Id)
    requires Runs(START, steps)
    ensures var w := Final(START, steps);
      && w.daemon.executions[id] <= 1 + Forgettings(START, steps, id)
      && (Forgettings(START, steps, id) > 0 ==> id in w.repeatable || id in w.daemon.unencodable)
      && (w.daemon.executions[id] <= 1 || id in w.repeatable || id in w.daemon.unencodable)
  {
    hide Runs, Final, Forgettings, SessionOk, NamesOk, AcksOk, WireOk, PinsOk, LedgerOk, AwakeOk;
    Reachable(steps);
    ReplayReachable(steps, id);
    assert OnceFor(Final(START, steps), id);
  }

  /** Every submission on the wire is on its way to the daemon its command was first sent to. */
  lemma PinnedToOneDaemon(steps: seq<Step>, id: Id)
    requires Runs(START, steps) && Submit(id) in Final(START, steps).daemon.wire
    ensures var w := Final(START, steps); id in w.pin && w.daemon.live == Some(w.pin[id])
  {
    hide Runs, Final;
    Reachable(steps);
    var wire := Final(START, steps).daemon.wire;
    var i :| 0 <= i < |wire| && wire[i] == Submit(id);
  }

  lemma SendAllPins(w: World, frames: seq<Frame>, id: Id)
    requires id in w.pin
    ensures id in SendAll(w, frames).pin && SendAll(w, frames).pin[id] == w.pin[id]
    decreases |frames|
  {
    if frames != [] { SendAllPins(w, frames[..|frames| - 1], id); }
  }

  /** Over any run a command is never moved to another daemon. */
  lemma {:induction false} PinNeverMoves(w: World, steps: seq<Step>, id: Id)
    requires Runs(w, steps) && id in w.pin
    ensures id in Final(w, steps).pin && Final(w, steps).pin[id] == w.pin[id]
    decreases |steps|
  {
    if steps != [] {
      PinKept(w, steps[0], id);
      PinNeverMoves(After(w, steps[0]), steps[1..], id);
    }
  }

  lemma PinKept(w: World, step: Step, id: Id)
    requires Enabled(w, step) && id in w.pin
    ensures id in After(w, step).pin && After(w, step).pin[id] == w.pin[id]
  {
    hide SendAll, AfterImmediates, DaemonAfter, AfterSession, Response, Idle, Enabled, OnReply;
    if OfFrames(step) {
      SendAllPins(Before(w, step).(client := Response(w, step).0), Response(w, step).1, id);
    } else if OfImmediates(step) {
      ImmediatesPinned(w, step, id);
    } else if OfSession(step) {
      SessionPinned(w, step, id);
    }
  }

  lemma ImmediatesPinned(w: World, step: Step, id: Id)
    requires OfImmediates(step) && Enabled(w, step) && id in w.pin
    ensures id in AfterImmediates(w, step).pin && AfterImmediates(w, step).pin[id] == w.pin[id]
  {
    hide AfterFirst, AfterReply, LinkOf;
  }

  lemma SessionPinned(w: World, step: Step, id: Id)
    requires OfSession(step) && Enabled(w, step)
    ensures AfterSession(w, step).pin == w.pin
  {
    hide Idle, LinkOf;
  }

  /** Once an acknowledgement is on the wire, its command follows neither on the wire nor from the client. */
  lemma SilentAfterAcknowledgement(steps: seq<Step>, i: nat)
    requires Runs(START, steps) && i < |Final(START, steps).daemon.wire|
    requires Final(START, steps).daemon.wire[i].Acknowledge?
    ensures var w := Final(START, steps);
      var id := w.daemon.wire[i].id;
      Submit(id) !in w.daemon.wire[i..] && id !in w.client.pending && id !in w.immediate
  {
    hide Runs, Final;
    Reachable(steps);
  }

  /** Each call is pending with its promise open, or resolved exactly once; nothing else is resolved. */
  lemma ResolvedOnce(steps: seq<Step>, id: Id)
    requires Runs(START, steps)
    ensures var w := Final(START, steps);
      w.client.resolved[id] == (if id in w.invoked && id !in w.client.pending then 1 else 0)
      && (id in w.client.pending ==> id in w.invoked)
  {
    hide Runs, Final;
    Reachable(steps);
    assert Settled(Final(START, steps), id);
  }

  /** A call has at most one submission outstanding, and knows it. */
  lemma OneSubmissionOutstanding(steps: seq<Step>, id: Id)
    requires Runs(START, steps)
    ensures var w := Final(START, steps);
      w.outstanding[id] <= 1
      && (id in w.client.pending ==> (w.client.pending[id].inFlight <==> w.outstanding[id] == 1))
  {
    hide Runs, Final;
    Reachable(steps);
    assert Settled(Final(START, steps), id);
  }

  /**
   While the session is ready, a pending call is in flight, queued for resubmission, or accepted on this
   connection: exactly when it is not stranded.
   */
  lemma NoLostWakeUp(steps: seq<Step>, id: Id)
    requires Runs(START, steps)
    requires LinkOf(Final(START, steps).session).ready && id in Final(START, steps).client.pending
    ensures var w := Final(START, steps);
      id !in w.stranded <==>
        w.client.pending[id].inFlight || Resubmit(id) in w.client.timers || id in w.promised
  {
    hide Runs, Final;
    Reachable(steps);
  }

  lemma {:induction false} SendAllStrands(w: World, frames: seq<Frame>)
    ensures SendAll(w, frames).stranded <= w.stranded
    decreases |frames|
  {
    if frames != [] { SendAllStrands(w, frames[..|frames| - 1]); }
  }

  /** Calls are stranded by a first greeting they precede, or by an acceptance from an earlier connection. */
  lemma StrandedBy(w: World, step: Step, id: Id)
    requires Enabled(w, step) && id !in w.stranded && id in After(w, step).stranded
    ensures
      || (step.HelloAnswered? && !w.session.recovering && !LinkOf(w.session).ready && Idle(w, id))
      || (step.Replied? && step.id == id && step.reply.Accepted? && Idle(After(w, step), id)
          && (id !in w.sentOn || w.sentOn[id] != w.session.epoch))
  {
    hide SendAll, AfterImmediates, DaemonAfter, AfterSession, AfterReplied, Response, Idle, LinkOf, SameLedger;
    match step
    case Invoked(_, _, _) | Fired(_) | RecoveryEnded(_, _) =>
      SendAllStrands(Before(w, step).(client := Response(w, step).0), Response(w, step).1);
    case Replied(k, reply) => RepliedStrands(w, k, reply, id);
    case Notified(_) | ShutDown =>
    case AckReplied(_, _) | ImmediateAsked(_, _) | ImmediateAnswered(_, _) | ImmediateRepeated(_)
       | ImmediateAbandoned(_) => QuietStep(w, step);
    case DaemonStarted(_) | DaemonDied | Delivered(_) | OperationEnded(_, _) | Trimmed(_) | ResultReleased(_)
       | FrameLost(_) => DaemonStep(w, step);
    case ConnectionMade | ConnectionLost | LossHandled | HelloAnswered | RecoveryBegun | Stopped =>
      SessionStrands(w, step, id);
  }

  lemma RepliedStrands(w: World, id: Id, reply: Reply, k: Id)
    requires id in w.outstanding && k !in w.stranded && k in AfterReplied(w, id, reply).stranded
    ensures k == id && reply.Accepted? && Idle(AfterReplied(w, id, reply), id)
    ensures id !in w.sentOn || w.sentOn[id] != w.session.epoch
  {
    hide OnReply, LinkOf;
  }

  lemma SessionStrands(w: World, step: Step, id: Id)
    requires OfSession(step) && Enabled(w, step) && id !in w.stranded && id in AfterSession(w, step).stranded
    ensures step.HelloAnswered? && !w.session.recovering && !LinkOf(w.session).ready && Idle(w, id)
  {
    hide Idle, LinkOf;
  }

  /** After a recovery every call is in flight again. */
  lemma RecoveryWakesAll(w: World, calls: seq<Id>, acks: seq<Id>, id: Id)
    requires Enabled(w, RecoveryEnded(calls, acks)) && id in After(w, RecoveryEnded(calls, acks)).client.pending
    ensures id in w.client.pending && After(w, RecoveryEnded(calls, acks)).client.pending[id].inFlight
  {
    hide SendAll, SubmitEach, AcknowledgeEach;
    var w1 := w.(session := w.session.(recovering := false), stranded := {});
    RetriedInFlight(w1, calls);
    TakeRetry(w1, calls, acks);
    var w2 := Take(w1, SubmitEach(w1.client, calls, LinkOf(w1.session)));
    var r := AcknowledgeEach(w2.client, acks, LinkOf(w1.session));
    AcknowledgingKeepsCalls(w2.client, acks, LinkOf(w1.session));
    SendAllKeepsClient(w2.(client := r.0), r.0, r.1);
  }

  lemma {:induction false} AcknowledgingKeepsCalls(c: Client, keys: seq<Id>, link: Link)
    ensures AcknowledgeEach(c, keys, link).0.pending == c.pending
    decreases |keys|
  {
    if keys != [] { AcknowledgingKeepsCalls(c, keys[..|keys| - 1], link); }
  }

  // ---------------------------------------------------------------- where the promises end

  ghost predicate Reaches(w: World) {
    exists steps :: Runs(START, steps) && Final(START, steps) == w
  }

  lemma {:induction false} RunsOneMore(w: World, steps: seq<Step>, last: Step)
    requires Runs(w, steps) && Enabled(Final(w, steps), last)
    ensures Runs(w, steps + [last]) && Final(w, steps + [last]) == After(Final(w, steps), last)
    decreases |steps|
  {
    hide Enabled, After;
    var all := steps + [last];
    if steps == [] {
      assert all[1..] == [];
      assert Runs(After(w, last), all[1..]);
    } else {
      RunsOneMore(After(w, steps[0]), steps[1..], last);
      assert all[1..] == steps[1..] + [last];
    }
  }

  lemma Extend(w: World, step: Step)
    requires Reaches(w) && Enabled(w, step)
    ensures Reaches(After(w, step))
  {
    hide Enabled, After;
    var steps :| Runs(START, steps) && Final(START, steps) == w;
    RunsOneMore(START, steps, step);
    assert Final(START, steps + [step]) == After(w, step);
  }

  lemma StartReached()
    ensures Reaches(START)
  {
    assert Runs(START, []) && Final(START, []) == START;
  }

  /** A started daemon, connected and greeted. */
  function Greeted(d: Instance): World {
    START.(daemon := START.daemon.(live := Some(d), started := {d}),
           session := Session(Some(d), false, Some(d), false, 1))
  }

  lemma GreetedReached(d: Instance)
    ensures Reaches(Greeted(d))
  {
    hide Reaches;
    StartReached();
    Extend(START, DaemonStarted(d));
    Extend(After(START, DaemonStarted(d)), ConnectionMade);
    Extend(After(After(START, DaemonStarted(d)), ConnectionMade), HelloAnswered);
    assert After(After(After(START, DaemonStarted(d)), ConnectionMade), HelloAnswered) == Greeted(d);
  }

  /** The call has been submitted and has reached the wire. */
  function Submitted(d: Instance, id: Id, repeatable: bool): World {
    var w := Greeted(d);
    w.(client := w.client.(pending := map[id := Call(Some(d), true, false, false)]),
       daemon := w.daemon.(wire := [Submit(id)]), known := {id}, invoked := {id},
       repeatable := if repeatable then {id} else {}, pin := map[id := d],
       outstanding := multiset{id}, sentOn := map[id := 1])
  }

  lemma SubmittedReached(d: Instance, id: Id, repeatable: bool)
    ensures Reaches(Submitted(d, id, repeatable))
  {
    hide Reaches, SendAll;
    GreetedReached(d);
    var w := Greeted(d);
    Extend(w, Invoked(id, false, repeatable));
    var r := Invoke(w.client, id, false, LinkOf(w.session));
    SendOne(w.(known := {id}, invoked := {id}, repeatable := if repeatable then {id} else {}).(client := r.0),
            Submit(id));
    assert r.1 == [Submit(id)];
    assert w.known + {id} == {id} && w.invoked + {id} == {id} && w.repeatable + {id} == {id};
    assert After(w, Invoked(id, false, repeatable)) == Submitted(d, id, repeatable);
  }

  /** The connection broke after the daemon took the call, and is back; the session still recovers. */
  function Reconnected(d: Instance, id: Id, repeatable: bool, status: Status): World {
    var w := Submitted(d, id, repeatable);
    w.(client := w.client.(pending := map[id := Call(Some(d), false, false, false)]),
       daemon := w.daemon.(wire := [], table := map[id := status], executions := multiset{id},
                           unencodable := if status == Rejected then {id} else {}),
       session := Session(Some(d), false, Some(d), true, 2), outstanding := multiset{})
  }

  lemma ReconnectedReached(d: Instance, id: Id, repeatable: bool, outcome: Outcome)
    requires outcome == Done || outcome == Unencoded
    ensures Reaches(Reconnected(d, id, repeatable, if outcome == Done then Answered else Rejected))
  {
    hide Reaches, SendAll;
    SubmittedReached(d, id, repeatable);
    var w0 := Submitted(d, id, repeatable);
    Extend(w0, Delivered(outcome));
    var w1 := After(w0, Delivered(outcome));
    assert w1 == w0.(daemon := w0.daemon.(wire := [], executions := multiset{id},
      table := map[id := if outcome == Done then Answered else Rejected],
      unencodable := if outcome == Unencoded then {id} else {}));
    ConnectionReplaced(w1, d, id);
  }

  lemma LostReply(w: World, id: Id)
    requires Enabled(w, Replied(id, Unavailable))
    requires id in w.outstanding && id in w.client.pending && w.session.recovering
    ensures After(w, Replied(id, Unavailable))
         == w.(client := w.client.(pending := w.client.pending[id := w.client.pending[id].(inFlight := false)]),
               outstanding := w.outstanding - multiset{id})
  {
  }

  /** The connection breaks and the session begins to recover. */
  lemma Broken(w: World)
    requires Reaches(w) && w.session.connected.Some?
    ensures Reaches(w.(session := w.session.(connected := None, unhandled := false, recovering := true)))
  {
    hide Reaches, SendAll;
    Extend(w, ConnectionLost);
    Extend(After(w, ConnectionLost), LossHandled);
  }

  /** The recovering session connects to the daemon and is greeted. */
  lemma Rejoined(w: World, d: Instance)
    requires Reaches(w) && w.daemon.live == Some(d)
    requires w.session.connected.None? && !w.session.unhandled && w.session.recovering
    ensures Reaches(w.(session := Session(Some(d), false, Some(d), true, w.session.epoch + 1), promised := {}))
  {
    hide Reaches, SendAll;
    Extend(w, ConnectionMade);
    Extend(After(w, ConnectionMade), HelloAnswered);
  }

  lemma ConnectionReplaced(w1: World, d: Instance, id: Id)
    requires Reaches(w1) && w1.session == Session(Some(d), false, Some(d), false, 1) && w1.daemon.live == Some(d)
    requires w1.outstanding == multiset{id} && w1.promised == {}
    requires w1.client == FRESH.(pending := map[id := Call(Some(d), true, false, false)])
    ensures Reaches(w1.(client := w1.client.(pending := map[id := Call(Some(d), false, false, false)]),
                        session := Session(Some(d), false, Some(d), true, 2), outstanding := multiset{}))
  {
    hide Reaches, After;
    Broken(w1);
    var w3 := w1.(session := Session(None, false, Some(d), true, 1));
    LostReply(w3, id);
    Extend(w3, Replied(id, Unavailable));
    var w4 := w3.(client := w1.client.(pending := map[id := Call(Some(d), false, false, false)]),
                  outstanding := multiset{});
    assert After(w3, Replied(id, Unavailable)) == w4;
    Rejoined(w4, d);
    assert w4.(session := Session(Some(d), false, Some(d), true, 2), promised := {})
        == w1.(client := w4.client, session := Session(Some(d), false, Some(d), true, 2), outstanding := multiset{});
  }

  lemma RetryOfOne(c: Client, id: Id, link: Link)
    ensures Retry(c, [id], [], link) == SubmitPending(c, id, link)
    ensures SubmitEach(c, [id], link) == SubmitPending(c, id, link)
  {
    hide SubmitEach, AcknowledgeEach, SubmitPending;
    EachOfNone(c, link);
    SubmitEachStep(c, [id], 0, link);
    assert [id][..1] == [id] && [id][..0] == [];
    var r := SubmitPending(c, id, link);
    EachOfNone(r.0, link);
    assert [] + r.1 == r.1 && r.1 + [] == r.1;
  }

  /** The session recovered on a new connection to the same daemon, with one call to retry. */
  ghost predicate RetriesOne(w: World, d: Instance, id: Id) {
    && w.daemon.live == w.session.connected == w.session.greeted == Some(d) && w.session.recovering
    && w.client == FRESH.(pending := map[id := Call(Some(d), false, false, false)])
    && w.daemon.wire == []
  }

  lemma MayRecover(w: World, d: Instance, id: Id)
    requires RetriesOne(w, d, id)
    ensures Enabled(w, RecoveryEnded([id], []))
  {
    hide SubmitEach;
    RetryOfOne(w.client, id, LinkOf(w.session.(recovering := false)));
  }

  lemma Resubmission(w: World, d: Instance, id: Id)
    requires RetriesOne(w, d, id) && Enabled(w, RecoveryEnded([id], []))
    ensures var w' := After(w, RecoveryEnded([id], []));
      w'.daemon == w.daemon.(wire := [Submit(id)]) && w'.repeatable == w.repeatable
  {
    hide SendAll, SubmitEach, Retry, Enabled, Send;
    var w1 := w.(session := w.session.(recovering := false), stranded := {});
    RetryOfOne(w.client, id, LinkOf(w1.session));
    var r := SubmitPending(w.client, id, LinkOf(w1.session));
    assert r.1 == [Submit(id)];
    SendOne(w1.(client := r.0), Submit(id));
    SubmissionSent(w1.(client := r.0), id);
  }

  lemma SubmissionSent(w: World, id: Id)
    requires w.session.connected.Some? && w.session.connected == w.daemon.live
    ensures var w' := Send(w, Submit(id));
      w'.daemon == w.daemon.(wire := w.daemon.wire + [Submit(id)]) && w'.repeatable == w.repeatable
  {
  }

  /** The resubmission of a call the daemon has forgotten runs its command again. */
  lemma SecondExecution(w: World, d: Instance, id: Id)
    requires Reaches(w) && RetriesOne(w, d, id) && w.daemon.executions == multiset{id}
    requires id in w.daemon.table ==> w.daemon.table[id] == Released && id in w.repeatable
    ensures exists w' :: (Reaches(w') && w'.daemon.executions[id] == 2
                          && w'.repeatable == w.repeatable && w'.daemon.unencodable == w.daemon.unencodable)
  {
    hide Reaches, Take, Retry, SubmitEach, Lists;
    MayRecover(w, d, id);
    Resubmission(w, d, id);
    Extend(w, RecoveryEnded([id], []));
    var w1 := After(w, RecoveryEnded([id], []));
    Extend(w1, Delivered(Done));
    assert After(w1, Delivered(Done)).daemon.executions[id] == 2;
  }

  /** A result without an encoding leaves a rejection, which the table may forget: the command runs again. */
  lemma UnencodableRunsTwice(d: Instance, id: Id)
    ensures exists w :: Reaches(w) && w.daemon.executions[id] == 2 && id !in w.repeatable && id in w.daemon.unencodable
  {
    hide Reaches;
    ReconnectedReached(d, id, false, Unencoded);
    var w := Reconnected(d, id, false, Rejected);
    Extend(w, Trimmed(id));
    SecondExecution(After(w, Trimmed(id)), d, id);
  }

  /** A repeatable command whose result was released runs again. */
  lemma RepeatableRunsTwice(d: Instance, id: Id)
    ensures exists w :: Reaches(w) && w.daemon.executions[id] == 2 && id in w.repeatable && id !in w.daemon.unencodable
  {
    hide Reaches;
    ReconnectedReached(d, id, true, Done);
    var w := Reconnected(d, id, true, Answered);
    Extend(w, ResultReleased(id));
    SecondExecution(After(w, ResultReleased(id)), d, id);
  }

  /** A call made before there is a connection. */
  lemma EarlyCall(d: Instance, id: Id)
    ensures var w := START.(daemon := START.daemon.(live := Some(d), started := {d}),
                            client := FRESH.(pending := map[id := Call(None, false, false, false)]),
                            known := {id}, invoked := {id});
      Reaches(w)
  {
    hide Reaches, SendAll;
    StartReached();
    Extend(START, DaemonStarted(d));
    var w1 := After(START, DaemonStarted(d));
    Extend(w1, Invoked(id, false, false));
    var r := Invoke(w1.client, id, false, LinkOf(w1.session));
    SendOne(w1.(known := w1.known + {id}, invoked := w1.invoked + {id}).(client := r.0), Submit(id));
    assert r.1 == [] && w1.known + {id} == {id} && w1.invoked + {id} == {id} && {} + {d} == {d};
    assert After(w1, Invoked(id, false, false)) == w1.(client := r.0, known := {id}, invoked := {id});
  }

  /** A call made before the first greeting stays idle in a ready session. */
  lemma EarlyCallStrands(d: Instance, id: Id)
    ensures exists w :: Reaches(w) && LinkOf(w.session).ready && Idle(w, id) && id in w.stranded
  {
    hide Reaches;
    EarlyCall(d, id);
    var w2 := START.(daemon := START.daemon.(live := Some(d), started := {d}),
                     client := FRESH.(pending := map[id := Call(None, false, false, false)]),
                     known := {id}, invoked := {id});
    Extend(w2, ConnectionMade);
    var w3 := After(w2, ConnectionMade);
    Extend(w3, HelloAnswered);
    var w4 := After(w3, HelloAnswered);
    assert Idle(w4, id) && id in w4.stranded;
  }

  /** An acceptance that arrives after the session has recovered on a new connection strands its call. */
  lemma LateAcceptanceStrands(d: Instance, id: Id)
    ensures exists w :: Reaches(w) && LinkOf(w.session).ready && Idle(w, id) && id in w.stranded
  {
    hide Reaches, SendAll, SubmitEach, AcknowledgeEach;
    SubmittedReached(d, id, false);
    var w0 := Submitted(d, id, false);
    Broken(w0);
    var w3 := w0.(session := Session(None, false, Some(d), true, 1));
    Rejoined(w3, d);
    var w4 := w3.(session := Session(Some(d), false, Some(d), true, 2));
    var w5 := w4.(session := w4.session.(recovering := false), stranded := {});
    var link := LinkOf(w5.session);
    RetryOfOne(w4.client, id, link);
    Extend(w4, RecoveryEnded([id], []));
    TakeNothing(w5, w4.client);
    assert After(w4, RecoveryEnded([id], [])) == w5;
    Extend(w5, Replied(id, Accepted(Some(id))));
    var w6 := After(w5, Replied(id, Accepted(Some(id))));
    assert Idle(w6, id) && id in w6.stranded;
  }
}
