/** Each call is resolved once, has one submission outstanding at most, and is not forgotten while ready. */
module RemoteProgress {
  import opened Wrappers
  import opened RemoteClient
  import opened RemoteWorld
  import opened RemoteSafety

  // ---------------------------------------------------------------- the ledger of promises

  predicate Settled(w: World, id: Id) {
    && w.client.resolved[id] == (if id in w.invoked && id !in w.client.pending then 1 else 0)
    && (id in w.client.pending ==>
          id in w.invoked && w.outstanding[id] == (if w.client.pending[id].inFlight then 1 else 0))
    && w.outstanding[id] <= 1
    && (id in w.invoked ==> id in w.known)
    && (id in w.outstanding ==> id in w.invoked)
  }

  ghost predicate LedgerOk(w: World) {
    forall id :: Settled(w, id)
  }

  /** Nothing in the session, the daemon or the immediate calls touches the ledger. */
  predicate SameLedger(w: World, w': World) {
    w'.client.pending == w.client.pending && w'.client.resolved == w.client.resolved
    && w'.outstanding == w.outstanding && w'.invoked == w.invoked && w.known <= w'.known
  }

  lemma LedgerKept(w: World, w': World)
    requires LedgerOk(w) && SameLedger(w, w')
    ensures LedgerOk(w')
  {
    forall id ensures Settled(w', id) { assert Settled(w, id); }
  }

  lemma LedgerResolve(w: World, id: Id)
    requires LedgerOk(w)
    ensures LedgerOk(w.(client := Resolve(w.client, id)))
  {
    var w' := w.(client := Resolve(w.client, id));
    forall k ensures Settled(w', k) { assert Settled(w, k); }
  }

  lemma LedgerSubmit(w: World, id: Id)
    requires LedgerOk(w)
    ensures LedgerOk(Take(w, SubmitPending(w.client, id, LinkOf(w.session))))
  {
    hide SendAll;
    var r := SubmitPending(w.client, id, LinkOf(w.session));
    SendOne(w.(client := r.0), Submit(id));
    var w' := Take(w, r);
    forall k ensures Settled(w', k) { assert Settled(w, k); assert Settled(w, id); }
  }

  lemma LedgerAcknowledge(w: World, id: Id)
    requires LedgerOk(w)
    ensures LedgerOk(Take(w, SubmitAcknowledgement(w.client, id, LinkOf(w.session))))
  {
    hide SendAll, LedgerOk;
    var r := SubmitAcknowledgement(w.client, id, LinkOf(w.session));
    SendOne(w.(client := r.0), Acknowledge(id));
    LedgerKept(w, Take(w, r));
  }

  lemma {:induction false} LedgerSubmitEach(w: World, keys: seq<Id>)
    requires LedgerOk(w)
    ensures LedgerOk(Take(w, SubmitEach(w.client, keys, LinkOf(w.session))))
    decreases |keys|
  {
    hide LedgerOk, SubmitPending, SendAll, SubmitEach;
    if keys == [] {
      EachOfNone(w.client, LinkOf(w.session));
      SendOne(w, Submit(0));
      assert w.(client := w.client) == w;
    } else {
      var last := |keys| - 1;
      LedgerSubmitEach(w, keys[..last]);
      TakeSubmitEach(w, keys, last);
      assert keys[..last + 1] == keys;
      LedgerSubmit(Take(w, SubmitEach(w.client, keys[..last], LinkOf(w.session))), keys[last]);
    }
  }

  lemma {:induction false} LedgerAcknowledgeEach(w: World, keys: seq<Id>)
    requires LedgerOk(w)
    ensures LedgerOk(Take(w, AcknowledgeEach(w.client, keys, LinkOf(w.session))))
    decreases |keys|
  {
    hide LedgerOk, SubmitAcknowledgement, SendAll, AcknowledgeEach;
    if keys == [] {
      EachOfNone(w.client, LinkOf(w.session));
      SendOne(w, Submit(0));
      assert w.(client := w.client) == w;
    } else {
      var last := |keys| - 1;
      LedgerAcknowledgeEach(w, keys[..last]);
      TakeAcknowledgeEach(w, keys, last);
      assert keys[..last + 1] == keys;
      LedgerAcknowledge(Take(w, AcknowledgeEach(w.client, keys[..last], LinkOf(w.session))), keys[last]);
    }
  }

  lemma LedgerInvoked(w: World, id: Id, window: bool, repeatable: bool)
    requires LedgerOk(w) && Enabled(w, Invoked(id, window, repeatable))
    ensures LedgerOk(After(w, Invoked(id, window, repeatable)))
  {
    hide Take, SubmitPending;
    var link := LinkOf(w.session);
    var w1 := w.(known := w.known + {id}, invoked := w.invoked + {id},
                 repeatable := if repeatable then w.repeatable + {id} else w.repeatable);
    var c1 := w.client.(pending := w.client.pending[id := Call(link.daemon, false, window, false)]);
    assert LedgerOk(w1.(client := c1)) by {
      forall k ensures Settled(w1.(client := c1), k) { assert Settled(w, k); }
    }
    LedgerSubmit(w1.(client := c1), id);
    TakeIgnoresClient(w1, c1, SubmitPending(c1, id, link));
  }

  /** A reply ends the flight of its submission, and either resolves the call or keeps it pending. */
  lemma OnReplyOutcome(c: Client, id: Id, reply: Reply, link: Link)
    requires id in c.pending
    ensures var c' := OnReply(c, id, reply, link);
      && (id in c'.pending ==> !c'.pending[id].inFlight && c'.resolved[id] == c.resolved[id])
      && (id !in c'.pending ==> c'.resolved[id] == c.resolved[id] + 1)
      && (id in c'.pending && link.ready && !reply.Accepted? ==> Resubmit(id) in c'.timers)
  {
  }

  /** It touches no other call. */
  lemma OnReplyOther(c: Client, id: Id, reply: Reply, link: Link, k: Id)
    requires k != id
    ensures var c' := OnReply(c, id, reply, link);
      && (k in c'.pending <==> k in c.pending)
      && (k in c'.pending ==> c'.pending[k] == c.pending[k])
      && c'.resolved[k] == c.resolved[k]
      && (Resubmit(k) in c'.timers <==> Resubmit(k) in c.timers)
  {
  }

  lemma OnReplyUnknown(c: Client, id: Id, reply: Reply, link: Link)
    requires id !in c.pending
    ensures OnReply(c, id, reply, link) == c
  {
  }

  /** What a reply leaves alone. */
  lemma RepliedIs(w: World, id: Id, reply: Reply)
    requires id in w.outstanding
    ensures var w' := AfterReplied(w, id, reply);
      && w'.client == OnReply(w.client, id, reply, LinkOf(w.session)) && w'.outstanding == w.outstanding - multiset{id}
      && w'.invoked == w.invoked && w'.known == w.known && w'.session == w.session
  {
    hide OnReply, Idle, LinkOf;
  }

  lemma RepliedOther(w: World, id: Id, reply: Reply, k: Id)
    requires id in w.outstanding && k != id
    ensures var w' := AfterReplied(w, id, reply);
      (k in w'.promised <==> k in w.promised) && (k in w'.stranded <==> k in w.stranded)
  {
    hide OnReply, Idle, LinkOf;
  }

  lemma LedgerReplied(w: World, id: Id, reply: Reply)
    requires LedgerOk(w) && Enabled(w, Replied(id, reply))
    ensures LedgerOk(After(w, Replied(id, reply)))
  {
    hide OnReply, AfterReplied, LinkOf;
    var w' := AfterReplied(w, id, reply);
    RepliedIs(w, id, reply);
    forall k ensures Settled(w', k) {
      assert Settled(w, k);
      if k != id {
        OnReplyOther(w.client, id, reply, LinkOf(w.session), k);
      } else if id in w.client.pending {
        OnReplyOutcome(w.client, id, reply, LinkOf(w.session));
      } else {
        OnReplyUnknown(w.client, id, reply, LinkOf(w.session));
      }
    }
  }

  lemma LedgerFired(w: World, timer: Timer)
    requires LedgerOk(w) && Enabled(w, Fired(timer))
    ensures LedgerOk(After(w, Fired(timer)))
  {
    hide Take, SubmitPending, SubmitAcknowledgement, LedgerOk, Resolve;
    var c := w.client.(timers := w.client.timers - multiset{timer});
    var w1 := w.(client := c);
    LedgerKept(w, w1);
    TakeIgnoresClient(w, c, FireTimer(w.client, timer, LinkOf(w.session)));
    match timer
    case Resubmit(id) => LedgerSubmit(w1, id);
    case SubmitAck(id) => LedgerAcknowledge(w1, id);
    case Timeout(id) =>
      LedgerResolve(w1, id);
      TakeNothing(w, if id in c.pending then Resolve(c, id) else c);
  }

  lemma TakeNothing(w: World, c: Client)
    ensures Take(w, (c, [])) == w.(client := c)
  {
    SendOne(w.(client := c), Submit(0));
  }

  lemma LedgerShutDown(w: World)
    requires LedgerOk(w)
    ensures LedgerOk(After(w, ShutDown))
  {
    var w' := After(w, ShutDown);
    forall k ensures Settled(w', k) { assert Settled(w, k); }
  }

  lemma LedgerRecovered(w: World, calls: seq<Id>, acks: seq<Id>)
    requires LedgerOk(w) && Enabled(w, RecoveryEnded(calls, acks))
    ensures LedgerOk(After(w, RecoveryEnded(calls, acks)))
  {
    hide LedgerOk, Take, Retry, SubmitEach, AcknowledgeEach, Lists;
    var w1 := w.(session := w.session.(recovering := false), stranded := {});
    LedgerKept(w, w1);
    LedgerSubmitEach(w1, calls);
    TakeRetry(w1, calls, acks);
    LedgerAcknowledgeEach(Take(w1, SubmitEach(w1.client, calls, LinkOf(w1.session))), acks);
  }

  lemma LedgerLearns(w: World, id: Id)
    requires LedgerOk(w)
    ensures LedgerOk(w.(known := w.known + {id}))
  {
    hide LedgerOk;
    LedgerKept(w, w.(known := w.known + {id}));
  }

  lemma LedgerNotified(w: World, id: Id)
    requires LedgerOk(w) && Enabled(w, Notified(id))
    ensures LedgerOk(After(w, Notified(id)))
  {
    hide LedgerOk, Resolve;
    LedgerResolve(w, id);
    LedgerLearns(w.(client := Resolve(w.client, id)), id);
  }

  // ---------------------------------------------------------------- what most steps leave alone

  predicate SameCalls(w: World, w': World) {
    && w'.client.pending == w.client.pending && w'.promised == w.promised && w'.stranded == w.stranded
    && w'.session == w.session
    && forall id | id in w.client.pending :: Resubmit(id) in w'.client.timers <==> Resubmit(id) in w.client.timers
  }

  lemma PutLeaves(w: World, frame: Frame)
    ensures var w' := Put(w, frame); w' == w.(daemon := w'.daemon, pin := w'.pin)
  {
  }

  lemma AfterImmediateLeaves(w: World, id: Id, plan: ImmediatePlan)
    requires id in w.immediate
    ensures SameLedger(w, AfterImmediate(w, id, plan)) && SameCalls(w, AfterImmediate(w, id, plan))
  {
  }

  lemma QuietStep(w: World, step: Step)
    requires Enabled(w, step) && OfImmediates(step)
    ensures SameLedger(w, After(w, step)) && SameCalls(w, After(w, step))
  {
    hide AfterFirst, AfterReply, LinkOf, Put, DaemonAfter, AfterSession, AfterReplied, AfterImmediate, SameLedger,
      SameCalls;
    match step
    case AckReplied(id, reply) => AckRepliedLeaves(w, id, reply);
    case ImmediateAsked(id, repeatable) => AskedLeaves(w, id, repeatable);
    case ImmediateAnswered(id, reply) =>
      AfterImmediateLeaves(w, id, if w.immediate[id].phase == First then AfterFirst(w.immediate[id].original, reply)
                                  else AfterReply(reply));
    case ImmediateRepeated(id) => RepeatedLeaves(w, id);
    case ImmediateAbandoned(id) => AfterImmediateLeaves(w, id, GiveUp);
  }

  lemma AckRepliedLeaves(w: World, id: Id, reply: Reply)
    ensures var w' := w.(client := OnAckReply(w.client, id, reply)); SameLedger(w, w') && SameCalls(w, w')
  {
  }

  lemma AskedLeaves(w: World, id: Id, repeatable: bool)
    requires Enabled(w, ImmediateAsked(id, repeatable))
    ensures var w' := After(w, ImmediateAsked(id, repeatable)); SameLedger(w, w') && SameCalls(w, w')
  {
    hide Put;
    PutLeaves(w.(known := w.known + {id}, immediate := w.immediate[id := ImmediateCall(w.session.greeted, First)],
                 repeatable := if repeatable then w.repeatable + {id} else w.repeatable), Submit(id));
  }

  lemma RepeatedLeaves(w: World, id: Id)
    requires Enabled(w, ImmediateRepeated(id))
    ensures var w' := After(w, ImmediateRepeated(id)); SameLedger(w, w') && SameCalls(w, w')
  {
    hide Put;
    PutLeaves(w.(immediate := w.immediate[id := w.immediate[id].(phase := Second)]), Submit(id));
  }

  lemma DaemonStep(w: World, step: Step)
    requires Enabled(w, step) && OfDaemon(step)
    ensures SameLedger(w, After(w, step)) && SameCalls(w, After(w, step))
  {
    hide DaemonAfter, AfterImmediates, AfterSession, AfterReplied;
  }

  lemma SessionStep(w: World, step: Step)
    requires Enabled(w, step) && OfSession(step)
    ensures SameLedger(w, After(w, step))
  {
    hide DaemonAfter, AfterImmediates, AfterSession, AfterReplied, Before, Response, Take, Enabled, SameLedger;
    SessionLeaves(w, step);
  }

  lemma SessionLeaves(w: World, step: Step)
    requires Enabled(w, step) && OfSession(step)
    ensures SameLedger(w, AfterSession(w, step))
  {
    hide Idle, LinkOf;
  }

  lemma LedgerStep(w: World, step: Step)
    requires LedgerOk(w) && Enabled(w, step)
    ensures LedgerOk(After(w, step))
  {
    hide LedgerOk, Enabled, After, SameLedger, SameCalls;
    match step
    case Invoked(id, window, repeatable) => LedgerInvoked(w, id, window, repeatable);
    case Replied(id, reply) => LedgerReplied(w, id, reply);
    case Fired(timer) => LedgerFired(w, timer);
    case Notified(id) => LedgerNotified(w, id);
    case ShutDown => LedgerShutDown(w);
    case RecoveryEnded(calls, acks) => LedgerRecovered(w, calls, acks);
    case AckReplied(_, _) | ImmediateAsked(_, _) | ImmediateAnswered(_, _) | ImmediateRepeated(_)
       | ImmediateAbandoned(_) =>
      QuietStep(w, step);
      LedgerKept(w, After(w, step));
    case DaemonStarted(_) | DaemonDied | Delivered(_) | OperationEnded(_, _) | Trimmed(_) | ResultReleased(_)
       | FrameLost(_) =>
      DaemonStep(w, step);
      LedgerKept(w, After(w, step));
    case ConnectionMade | ConnectionLost | LossHandled | HelloAnswered | RecoveryBegun | Stopped =>
      SessionStep(w, step);
      LedgerKept(w, After(w, step));
  }

  // ---------------------------------------------------------------- no lost wake-up

  /** While the session is ready the idle calls are exactly the stranded ones. */
  predicate AwakeOk(w: World) {
    LinkOf(w.session).ready ==> forall id | id in w.client.pending :: Idle(w, id) <==> id in w.stranded
  }

  lemma AwakeSubmit(w: World, id: Id)
    requires forall k | k in w.client.pending && k != id ::
      LinkOf(w.session).ready ==> (Idle(w, k) <==> k in w.stranded)
    requires LinkOf(w.session).ready && id in w.client.pending && w.client.pending[id].inFlight ==> id !in w.stranded
    ensures AwakeOk(Take(w, SubmitPending(w.client, id, LinkOf(w.session))))
    ensures Take(w, SubmitPending(w.client, id, LinkOf(w.session))).session == w.session
  {
    hide SendAll, Send, Put, Idle, LinkOf;
    var r := SubmitPending(w.client, id, LinkOf(w.session));
    SendOne(w.(client := r.0), Submit(id));
    PutKeepsCalls(w.(client := r.0), Submit(id));
    var w' := Take(w, r);
    forall k | LinkOf(w'.session).ready && k in w'.client.pending ensures Idle(w', k) <==> k in w'.stranded {
      if k != id { SameIdle(w, w', k); } else { SubmittedIsAwake(w, w', id); }
    }
  }

  lemma SubmittedIsAwake(w: World, w': World, id: Id)
    requires id in w'.client.pending && w'.client.pending[id].inFlight && id !in w'.stranded
    ensures Idle(w', id) <==> id in w'.stranded
  {
  }

  lemma SameIdle(w: World, w': World, k: Id)
    requires k in w.client.pending && k in w'.client.pending && w'.client.pending[k] == w.client.pending[k]
    requires (Resubmit(k) in w'.client.timers <==> Resubmit(k) in w.client.timers)
    requires (k in w'.promised <==> k in w.promised)
    ensures Idle(w', k) == Idle(w, k)
  {
  }

  lemma AwakeKept(w: World, w': World)
    requires AwakeOk(w) && SameCalls(w, w')
    ensures AwakeOk(w')
  {
    assert forall id | id in w.client.pending :: Idle(w', id) == Idle(w, id);
  }

  lemma AwakeAcknowledge(w: World, id: Id)
    requires AwakeOk(w)
    ensures AwakeOk(Take(w, SubmitAcknowledgement(w.client, id, LinkOf(w.session))))
  {
    hide SendAll, AwakeOk;
    var r := SubmitAcknowledgement(w.client, id, LinkOf(w.session));
    SendOne(w.(client := r.0), Acknowledge(id));
    AwakeKept(w, Take(w, r));
  }

  lemma {:induction false} AwakeAcknowledgeEach(w: World, keys: seq<Id>)
    requires AwakeOk(w)
    ensures AwakeOk(Take(w, AcknowledgeEach(w.client, keys, LinkOf(w.session))))
    decreases |keys|
  {
    hide AwakeOk, SubmitAcknowledgement, SendAll, AcknowledgeEach;
    if keys == [] {
      EachOfNone(w.client, LinkOf(w.session));
      TakeNothing(w, w.client);
      assert w.(client := w.client) == w;
    } else {
      var last := |keys| - 1;
      AwakeAcknowledgeEach(w, keys[..last]);
      TakeAcknowledgeEach(w, keys, last);
      assert keys[..last + 1] == keys;
      AwakeAcknowledge(Take(w, AcknowledgeEach(w.client, keys[..last], LinkOf(w.session))), keys[last]);
    }
  }

  /** Every call visited by a retry is in flight or resolved. */
  lemma {:induction false} RetriedInFlight(w: World, keys: seq<Id>)
    requires LinkOf(w.session).ready && w.stranded == {}
    ensures var w' := Take(w, SubmitEach(w.client, keys, LinkOf(w.session)));
      && (forall id | id in w'.client.pending :: id in w.client.pending)
      && (forall id | id in w'.client.pending && id in keys :: w'.client.pending[id].inFlight)
      && w'.stranded == {} && w'.session == w.session
    decreases |keys|
  {
    hide SendAll, SubmitEach, Put;
    var link := LinkOf(w.session);
    if keys == [] {
      EachOfNone(w.client, link);
      TakeNothing(w, w.client);
    } else {
      var last := |keys| - 1;
      RetriedInFlight(w, keys[..last]);
      TakeSubmitEach(w, keys, last);
      assert keys[..last + 1] == keys;
      var before := Take(w, SubmitEach(w.client, keys[..last], link));
      var r := SubmitPending(before.client, keys[last], link);
      SendOne(before.(client := r.0), Submit(keys[last]));
      PutKeepsCalls(before.(client := r.0), Submit(keys[last]));
    }
  }

  lemma PutKeepsCalls(w: World, frame: Frame)
    ensures var w' := Send(w, frame);
      && w'.client == w.client && w'.session == w.session
      && w'.stranded == (if frame.Submit? then w.stranded - {frame.id} else w.stranded)
      && w'.promised == (if frame.Submit? then w.promised - {frame.id} else w.promised)
  {
  }

  lemma AwakeRecovered(w: World, calls: seq<Id>, acks: seq<Id>)
    requires Enabled(w, RecoveryEnded(calls, acks))
    ensures AwakeOk(After(w, RecoveryEnded(calls, acks)))
  {
    hide Take, Retry, SubmitEach, AcknowledgeEach;
    var w1 := w.(session := w.session.(recovering := false), stranded := {});
    RetriedInFlight(w1, calls);
    TakeRetry(w1, calls, acks);
    var w2 := Take(w1, SubmitEach(w1.client, calls, LinkOf(w1.session)));
    assert AwakeOk(w2) by {
      forall id | id in w2.client.pending ensures !Idle(w2, id) {
        assert id in calls;
      }
    }
    AwakeAcknowledgeEach(w2, acks);
  }

  lemma AwakeInvoked(w: World, id: Id, window: bool, repeatable: bool)
    requires AwakeOk(w) && Enabled(w, Invoked(id, window, repeatable))
    ensures AwakeOk(After(w, Invoked(id, window, repeatable)))
  {
    hide Take, SubmitPending;
    var link := LinkOf(w.session);
    var c1 := w.client.(pending := w.client.pending[id := Call(link.daemon, false, window, false)]);
    var w1 := w.(known := w.known + {id}, invoked := w.invoked + {id},
                 repeatable := if repeatable then w.repeatable + {id} else w.repeatable);
    assert forall k | k in c1.pending && k != id :: Idle(w1.(client := c1), k) == Idle(w, k);
    AwakeSubmit(w1.(client := c1), id);
    TakeIgnoresClient(w1, c1, SubmitPending(c1, id, link));
  }

  lemma SettledOne(w: World, id: Id)
    requires LedgerOk(w)
    ensures Settled(w, id)
  {
  }

  lemma AwakeReplied(w: World, id: Id, reply: Reply)
    requires AwakeOk(w) && LedgerOk(w) && Enabled(w, Replied(id, reply))
    ensures AwakeOk(After(w, Replied(id, reply)))
  {
    hide OnReply, LedgerOk, AfterReplied, LinkOf, Idle;
    var w' := AfterReplied(w, id, reply);
    RepliedIs(w, id, reply);
    SettledOne(w, id);
    forall k | LinkOf(w'.session).ready && k in w'.client.pending ensures Idle(w', k) <==> k in w'.stranded {
      if k != id {
        OnReplyOther(w.client, id, reply, LinkOf(w.session), k);
        RepliedOther(w, id, reply, k);
        SameIdle(w, w', k);
      } else {
        AwakeAnswered(w, id, reply);
      }
    }
  }

  /** The call that was answered is idle only if the reply stranded it. */
  lemma AwakeAnswered(w: World, id: Id, reply: Reply)
    requires AwakeOk(w) && Settled(w, id) && id in w.outstanding && LinkOf(w.session).ready
    requires id in AfterReplied(w, id, reply).client.pending
    ensures var w' := AfterReplied(w, id, reply); Idle(w', id) <==> id in w'.stranded
  {
    hide OnReply, LinkOf;
    if id in w.client.pending {
      OnReplyOutcome(w.client, id, reply, LinkOf(w.session));
    } else {
      OnReplyUnknown(w.client, id, reply, LinkOf(w.session));
    }
  }

  lemma AwakeFired(w: World, timer: Timer)
    requires AwakeOk(w) && Enabled(w, Fired(timer))
    ensures AwakeOk(After(w, Fired(timer)))
  {
    hide Take, SubmitPending, SubmitAcknowledgement, AwakeOk, Idle;
    var c := w.client.(timers := w.client.timers - multiset{timer});
    var w1 := w.(client := c);
    TakeIgnoresClient(w, c, FireTimer(w.client, timer, LinkOf(w.session)));
    match timer
    case Resubmit(id) => AwakeResubmit(w, id);
    case SubmitAck(id) =>
      AwakeKept(w, w1);
      AwakeAcknowledge(w1, id);
    case Timeout(id) =>
      var c' := if id in c.pending then Resolve(c, id) else c;
      TakeNothing(w, c');
      AwakeFewer(w, w.(client := c'));
  }

  lemma AwakeResubmit(w: World, id: Id)
    requires AwakeOk(w)
    ensures var w1 := w.(client := w.client.(timers := w.client.timers - multiset{Resubmit(id)}));
      AwakeOk(Take(w1, SubmitPending(w1.client, id, LinkOf(w1.session))))
  {
    hide Take, SubmitPending, LinkOf;
    var w1 := w.(client := w.client.(timers := w.client.timers - multiset{Resubmit(id)}));
    forall k | k in w1.client.pending && k != id ensures Idle(w1, k) == Idle(w, k) { SameIdle(w, w1, k); }
    AwakeSubmit(w1, id);
  }

  /** Resolving calls wakes and strands nobody. */
  lemma AwakeFewer(w: World, w': World)
    requires AwakeOk(w)
    requires w'.promised == w.promised && w'.stranded == w.stranded && w'.session == w.session
    requires forall id | id in w'.client.pending ::
      id in w.client.pending && w'.client.pending[id] == w.client.pending[id]
      && (Resubmit(id) in w'.client.timers <==> Resubmit(id) in w.client.timers)
    ensures AwakeOk(w')
  {
    assert forall id | id in w'.client.pending :: Idle(w', id) == Idle(w, id);
  }

  lemma AwakeGreeted(w: World)
    requires AwakeOk(w) && Enabled(w, HelloAnswered)
    ensures AwakeOk(AfterSession(w, HelloAnswered))
  {
    hide LinkOf, Idle;
    var w' := AfterSession(w, HelloAnswered);
    GreetedLink(w);
    forall k | k in w.client.pending ensures Idle(w', k) == Idle(w, k) { SameIdle(w, w', k); }
  }

  lemma GreetedLink(w: World)
    requires Enabled(w, HelloAnswered)
    ensures var w' := AfterSession(w, HelloAnswered);
      && (w.session.recovering ==> !LinkOf(w'.session).ready)
      && w'.client == w.client && w'.promised == w.promised
  {
    hide Idle;
  }

  /** Other changes of the session do not make it ready, or change nothing. */
  lemma NotReadier(w: World, step: Step)
    requires SessionOk(w) && Enabled(w, step) && OfSession(step) && !step.HelloAnswered?
    ensures LinkOf(AfterSession(w, step).session).ready ==> AfterSession(w, step) == w
  {
  }

  lemma AwakeSession(w: World, step: Step)
    requires AwakeOk(w) && SessionOk(w) && Enabled(w, step)
    requires OfSession(step)
    ensures AwakeOk(After(w, step))
  {
    hide AfterImmediates, DaemonAfter, AfterSession, AfterReplied, Before, Response, Take, LinkOf, Idle;
    if step.HelloAnswered? { AwakeGreeted(w); } else { NotReadier(w, step); }
  }

  lemma AwakeResolved(w: World, step: Step)
    requires AwakeOk(w) && Enabled(w, step) && (step.Notified? || step.ShutDown?)
    ensures AwakeOk(After(w, step))
  {
    hide AwakeOk;
    AwakeFewer(w, After(w, step));
  }

  lemma AwakeStep(w: World, step: Step)
    requires AwakeOk(w) && LedgerOk(w) && SessionOk(w) && Enabled(w, step)
    ensures AwakeOk(After(w, step))
  {
    hide LedgerOk, AwakeOk, SessionOk, Enabled, After, SameLedger, SameCalls;
    match step
    case Invoked(id, window, repeatable) => AwakeInvoked(w, id, window, repeatable);
    case Replied(id, reply) => AwakeReplied(w, id, reply);
    case Fired(timer) => AwakeFired(w, timer);
    case Notified(_) | ShutDown => AwakeResolved(w, step);
    case RecoveryEnded(calls, acks) => AwakeRecovered(w, calls, acks);
    case ConnectionMade | ConnectionLost | LossHandled | HelloAnswered | RecoveryBegun | Stopped =>
      AwakeSession(w, step);
    case AckReplied(_, _) | ImmediateAsked(_, _) | ImmediateAnswered(_, _) | ImmediateRepeated(_)
       | ImmediateAbandoned(_) =>
      QuietStep(w, step);
      AwakeKept(w, After(w, step));
    case DaemonStarted(_) | DaemonDied | Delivered(_) | OperationEnded(_, _) | Trimmed(_) | ResultReleased(_)
       | FrameLost(_) =>
      DaemonStep(w, step);
      AwakeKept(w, After(w, step));
  }

  // ---------------------------------------------------------------- every run

  lemma {:induction false} RunKeeps(w: World, steps: seq<Step>)
    requires Safe(w) && LedgerOk(w) && AwakeOk(w) && Runs(w, steps)
    ensures Safe(Final(w, steps)) && LedgerOk(Final(w, steps)) && AwakeOk(Final(w, steps))
    decreases |steps|
  {
    hide LedgerOk, AwakeOk, After, Enabled, SessionOk, NamesOk, AcksOk, WireOk, PinsOk, OnceOk;
    if steps != [] {
      StepSafe(w, steps[0]);
      LedgerStep(w, steps[0]);
      AwakeStep(w, steps[0]);
      RunKeeps(After(w, steps[0]), steps[1..]);
    }
  }
}
