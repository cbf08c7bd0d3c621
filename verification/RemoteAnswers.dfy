/** What an answer is worth: the call it ends stays ended, and its acknowledgement stays owed until it is answered. */
module RemoteAnswers {
  import opened Wrappers
  import opened RemoteClient
  import opened RemoteWorld
  import opened RemoteSafety
  import opened RemoteProgress
  import opened RemoteTheorems
  import opened RemoteStranding

  // ---------------------------------------------------------------- answered for good

  lemma AnswerEnds(w: World, id: Id, reply: Reply)
    requires Enabled(w, Replied(id, reply)) && id in w.client.pending && Ends(id, reply)
    ensures var w' := After(w, Replied(id, reply));
      Settles(w.client, w'.client, id) && w'.outstanding == w.outstanding - multiset{id} && w'.known == w.known
  {
    hide OnReply, Idle, LinkOf, Settles;
    FinalReply(w.client, id, reply, LinkOf(w.session));
    RepliedIs(w, id, reply);
  }

  /** A terminal event ends its call too. */
  lemma EventEnds(w: World, id: Id)
    requires Enabled(w, Notified(id))
    ensures Settles(w.client, After(w, Notified(id)).client, id)
  {
  }

  /** So does the terminal timeout. */
  lemma TimeoutEnds(w: World, id: Id)
    requires Enabled(w, Fired(Timeout(id))) && id in w.client.pending
    ensures Settles(w.client.(timers := w.client.timers - multiset{Timeout(id)}), After(w, Fired(Timeout(id))).client,
                    id)
  {
    hide Take, Settles, Resolve, LinkOf;
    FiredIs(w, id);
    TimeoutResolves(w.client, id, LinkOf(w.session));
  }

  lemma FiredIs(w: World, id: Id)
    requires Enabled(w, Fired(Timeout(id)))
    ensures After(w, Fired(Timeout(id))).client == FireTimer(w.client, Timeout(id), LinkOf(w.session)).0
  {
    hide Take, FireTimer, LinkOf;
    TakeClient(w, FireTimer(w.client, Timeout(id), LinkOf(w.session)));
  }

  lemma TimeoutResolves(c: Client, id: Id, link: Link)
    requires Timeout(id) in c.timers && id in c.pending
    ensures Settles(c.(timers := c.timers - multiset{Timeout(id)}), FireTimer(c, Timeout(id), link).0, id)
  {
  }

  /**
   A lost transport makes an immediate call give up if it did not know its daemon, or else reconnect once;
   every other reply ends it, and is acknowledged unless it is an acceptance without a result.
   */
  lemma ImmediateEnds(w: World, id: Id, reply: Reply)
    requires Enabled(w, ImmediateAnswered(id, reply))
    ensures
      var call := w.immediate[id];
      var lost := call.phase == First && reply == Unavailable;
      var w' := After(w, ImmediateAnswered(id, reply));
      && w'.immediate == (if lost && call.original.Some? then w.immediate[id := call.(phase := Reconnecting)]
                          else w.immediate - {id})
      && w'.client == (if lost || reply.Accepted? then w.client
                       else w.client.(acks := w.client.acks + {id},
                                      timers := w.client.timers + multiset{SubmitAck(id)}))
  {
  }

  lemma {:induction false} KnownThroughout(w: World, steps: seq<Step>, id: Id)
    requires Runs(w, steps) && id in w.known && id !in w.client.pending
    ensures id in Final(w, steps).known && id !in Final(w, steps).client.pending
    decreases |steps|
  {
    hide After, Enabled;
    if steps != [] {
      KnownStays(w, steps[0], id);
      if id in After(w, steps[0]).client.pending { PendingIsLost(w, steps[0], id); }
      KnownThroughout(After(w, steps[0]), steps[1..], id);
    }
  }

  lemma {:induction false} InvokedStays(w: World, steps: seq<Step>, more: seq<Step>)
    requires Runs(w, steps) && Runs(Final(w, steps), more)
    ensures Runs(w, steps + more) && Final(w, steps + more) == Final(Final(w, steps), more)
    decreases |steps|
  {
    hide After, Enabled;
    if steps == [] {
      assert steps + more == more;
    } else {
      InvokedStays(After(w, steps[0]), steps[1..], more);
      assert (steps + more)[1..] == steps[1..] + more;
    }
  }

  /**
   A result, a rejection or a wrong acceptance that reaches a pending call ends it for good: whatever
   happens after, its promise has been resolved once and the call is not pending, so it is not submitted again.
   */
  lemma AnsweredForGood(steps: seq<Step>, id: Id, reply: Reply, more: seq<Step>)
    requires Runs(START, steps) && id in Final(START, steps).client.pending
    requires Enabled(Final(START, steps), Replied(id, reply)) && Ends(id, reply)
    requires Runs(After(Final(START, steps), Replied(id, reply)), more)
    ensures var w := Final(After(Final(START, steps), Replied(id, reply)), more);
      w.client.resolved[id] == 1 && id !in w.client.pending
  {
    hide Runs, Final, After, Enabled, Settles;
    var w := Final(START, steps);
    var w' := After(w, Replied(id, reply));
    Reachable(steps);
    PendingIsKnown(w, id);
    AnswerEnds(w, id, reply);
    SettledGone(w.client, w'.client, id);
    KnownThroughout(w', more, id);
    RunsOneMore(START, steps, Replied(id, reply));
    InvokedStays(START, steps + [Replied(id, reply)], more);
    ResolvedOnce(steps, id);
    ResolvedOnce(steps + [Replied(id, reply)] + more, id);
    StillInvoked(w, w', id, reply);
    InvokedThroughout(w', more, id);
  }

  lemma SettledGone(c: Client, c': Client, id: Id)
    requires Settles(c, c', id)
    ensures id !in c'.pending && id in c'.acks && SubmitAck(id) in c'.timers
  {
  }

  lemma StillInvoked(w: World, w': World, id: Id, reply: Reply)
    requires Enabled(w, Replied(id, reply)) && w' == After(w, Replied(id, reply))
    ensures w'.invoked == w.invoked
  {
    hide OnReply, Idle, LinkOf;
    RepliedIs(w, id, reply);
  }

  lemma {:induction false} SendAllInvoked(w: World, frames: seq<Frame>)
    ensures SendAll(w, frames).invoked == w.invoked
    decreases |frames|
  {
    if frames != [] { SendAllInvoked(w, frames[..|frames| - 1]); }
  }

  lemma InvokedStep(w: World, step: Step, id: Id)
    requires Enabled(w, step) && id in w.invoked
    ensures id in After(w, step).invoked
  {
    hide Take, AfterReplied, AfterImmediates, DaemonAfter, AfterSession, Response, Before, Enabled, SameCalls;
    match step
    case Invoked(_, _, _) | Fired(_) | RecoveryEnded(_, _) => FramesInvoked(w, step, id);
    case Replied(k, reply) => StillInvoked(w, After(w, step), k, reply);
    case Notified(_) | ShutDown =>
    case AckReplied(_, _) | ImmediateAsked(_, _) | ImmediateAnswered(_, _) | ImmediateRepeated(_)
       | ImmediateAbandoned(_) => QuietStep(w, step);
    case DaemonStarted(_) | DaemonDied | Delivered(_) | OperationEnded(_, _) | Trimmed(_) | ResultReleased(_)
       | FrameLost(_) => DaemonStep(w, step);
    case ConnectionMade | ConnectionLost | LossHandled | HelloAnswered | RecoveryBegun | Stopped =>
      SessionStep(w, step);
  }

  lemma FramesInvoked(w: World, step: Step, id: Id)
    requires OfFrames(step) && Enabled(w, step) && id in w.invoked
    ensures id in After(w, step).invoked
  {
    hide Enabled, Response, SendAll, AfterImmediates, DaemonAfter, AfterSession, AfterReplied;
    SendAllInvoked(Before(w, step).(client := Response(w, step).0), Response(w, step).1);
  }

  lemma {:induction false} InvokedThroughout(w: World, steps: seq<Step>, id: Id)
    requires Runs(w, steps) && id in w.invoked
    ensures id in Final(w, steps).invoked
    decreases |steps|
  {
    hide After, Enabled;
    if steps != [] {
      InvokedStep(w, steps[0], id);
      InvokedThroughout(After(w, steps[0]), steps[1..], id);
    }
  }

  // ---------------------------------------------------------------- owed until answered

  /** The daemon has answered the acknowledgement, or the client gave up. */
  predicate Discharges(step: Step, id: Id) {
    step.ShutDown? || (step.AckReplied? && step.id == id && step.reply != Unavailable && step.reply != Busy)
  }

  lemma ClientOwes(c: Client, link: Link, id: Id)
    requires id in c.acks
    ensures forall k :: id in SubmitPending(c, k, link).0.acks
    ensures forall k :: SubmitAcknowledgement(c, k, link).0.acks == c.acks
  {
  }

  lemma {:induction false} EachOwes(c: Client, keys: seq<Id>, link: Link, id: Id)
    requires id in c.acks
    ensures id in SubmitEach(c, keys, link).0.acks && id in AcknowledgeEach(c, keys, link).0.acks
    decreases |keys|
  {
    hide SubmitPending, SubmitAcknowledgement;
    if keys != [] {
      EachOwes(c, keys[..|keys| - 1], link, id);
      ClientOwes(SubmitEach(c, keys[..|keys| - 1], link).0, link, id);
      ClientOwes(AcknowledgeEach(c, keys[..|keys| - 1], link).0, link, id);
    }
  }

  lemma ResponseOwes(w: World, step: Step, id: Id)
    requires OfFrames(step) && Enabled(w, step) && id in w.client.acks
    ensures id in Response(w, step).0.acks
  {
    hide SubmitPending, SubmitAcknowledgement, SubmitEach, AcknowledgeEach, LinkOf, Lists;
    var link := LinkOf(Before(w, step).session);
    match step
    case Invoked(k, window, _) =>
      ClientOwes(w.client.(pending := w.client.pending[k := Call(link.daemon, false, window, false)]), link, id);
    case Fired(timer) => ClientOwes(w.client.(timers := w.client.timers - multiset{timer}), link, id);
    case RecoveryEnded(calls, acks) =>
      EachOwes(w.client, calls, link, id);
      EachOwes(SubmitEach(w.client, calls, link).0, acks, link, id);
  }

  lemma FramesOwe(w: World, step: Step, id: Id)
    requires OfFrames(step) && Enabled(w, step) && id in w.client.acks
    ensures id in After(w, step).client.acks
  {
    hide Take, AfterReplied, AfterImmediates, DaemonAfter, AfterSession, Response, Before, Enabled;
    ResponseOwes(w, step, id);
    TakeClient(Before(w, step), Response(w, step));
  }

  lemma OthersOwe(w: World, step: Step, id: Id)
    requires Enabled(w, step) && (step.Notified? || OfDaemon(step)) && id in w.client.acks
    ensures id in After(w, step).client.acks
  {
    hide AfterReplied, AfterImmediates, DaemonAfter, AfterSession, Response, Before, Take, Enabled;
  }

  lemma OwedStep(w: World, step: Step, id: Id)
    requires Enabled(w, step) && id in w.client.acks && !Discharges(step, id)
    ensures id in After(w, step).client.acks
  {
    hide After, Enabled;
    match step
    case Invoked(_, _, _) | Fired(_) | RecoveryEnded(_, _) => FramesOwe(w, step, id);
    case Replied(k, reply) => RepliedOwes(w, k, reply, id);
    case AckReplied(_, _) | ImmediateAsked(_, _) | ImmediateAnswered(_, _) | ImmediateRepeated(_)
       | ImmediateAbandoned(_) => ImmediatesOwe(w, step, id);
    case ConnectionMade | ConnectionLost | LossHandled | HelloAnswered | RecoveryBegun | Stopped =>
      SessionOwes(w, step);
    case Notified(_) | DaemonStarted(_) | DaemonDied | Delivered(_) | OperationEnded(_, _) | Trimmed(_)
       | ResultReleased(_) | FrameLost(_) => OthersOwe(w, step, id);
    case ShutDown =>
  }

  lemma RepliedOwes(w: World, k: Id, reply: Reply, id: Id)
    requires Enabled(w, Replied(k, reply)) && id in w.client.acks
    ensures id in After(w, Replied(k, reply)).client.acks
  {
    hide OnReply, LinkOf, AfterReplied, Settles;
    RepliedIs(w, k, reply);
    if k in w.client.pending {
      if Ends(k, reply) {
        FinalReply(w.client, k, reply, LinkOf(w.session));
        SettlesOwes(w.client, OnReply(w.client, k, reply, LinkOf(w.session)), k);
      } else {
        PassingReply(w.client, k, reply, LinkOf(w.session));
      }
    } else {
      OnReplyUnknown(w.client, k, reply, LinkOf(w.session));
    }
  }

  lemma SettlesOwes(c: Client, c': Client, id: Id)
    requires Settles(c, c', id)
    ensures c'.acks == c.acks + {id}
  {
  }

  lemma ImmediatesOwe(w: World, step: Step, id: Id)
    requires OfImmediates(step) && Enabled(w, step) && id in w.client.acks && !Discharges(step, id)
    ensures id in After(w, step).client.acks
  {
    hide AfterFirst, AfterReply, LinkOf, Put, AfterReplied, DaemonAfter, AfterSession, Response, Before, Take,
      OnAckReply;
    match step
    case ImmediateAsked(k, repeatable) =>
      PutLeaves(w.(known := w.known + {k}, immediate := w.immediate[k := ImmediateCall(w.session.greeted, First)],
                   repeatable := if repeatable then w.repeatable + {k} else w.repeatable), Submit(k));
    case ImmediateRepeated(k) =>
      PutLeaves(w.(immediate := w.immediate[k := w.immediate[k].(phase := Second)]), Submit(k));
    case AckReplied(k, reply) => AckRepliedOwes(w.client, k, reply, id);
    case ImmediateAnswered(_, _) =>
    case ImmediateAbandoned(_) =>
  }

  lemma AckRepliedOwes(c: Client, k: Id, reply: Reply, id: Id)
    requires id in c.acks && (k != id || reply.Unavailable? || reply.Busy?)
    ensures id in OnAckReply(c, k, reply).acks
  {
  }

  lemma SessionOwes(w: World, step: Step)
    requires OfSession(step) && Enabled(w, step)
    ensures After(w, step).client == w.client
  {
    hide Idle, LinkOf, AfterReplied, AfterImmediates, DaemonAfter, Response, Before, Take;
  }

  /** An acknowledgement stays owed over any run until the daemon answers it or the client gives up. */
  lemma {:induction false} OwedUntilAnswered(w: World, steps: seq<Step>, id: Id)
    requires Runs(w, steps) && id in w.client.acks && forall step | step in steps :: !Discharges(step, id)
    ensures id in Final(w, steps).client.acks
    decreases |steps|
  {
    hide After, Enabled, Discharges;
    if steps != [] {
      OwedStep(w, steps[0], id);
      OwedUntilAnswered(After(w, steps[0]), steps[1..], id);
    }
  }
}
