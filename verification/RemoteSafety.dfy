/** What every step keeps, and so what holds at every moment of every run: no command runs twice. */
module RemoteSafety {
  import opened Wrappers
  import opened RemoteClient
  import opened RemoteWorld

  // ---------------------------------------------------------------- the invariant

  /** The client is finished with the command: it will never be submitted again. */
  ghost predicate Finished(w: World, id: Id) {
    id in w.known && id !in w.client.pending && id !in w.immediate
  }

  /** A ready session was greeted by the daemon it is connected to. */
  ghost predicate SessionOk(w: World) {
    var s := w.session;
    && (s.connected.Some? && !s.recovering && s.greeted.Some? ==> s.greeted == s.connected)
    && (s.connected.None? && !s.unhandled && !s.recovering ==> s.greeted.None?)
    && (s.unhandled ==> s.connected.None?)
    && (s.greeted.Some? ==> s.greeted.value in w.daemon.started)
    && (s.connected.Some? ==> s.connected.value in w.daemon.started)
    && (w.daemon.live.Some? ==> w.daemon.live.value in w.daemon.started)
  }

  ghost predicate NamesOk(w: World) {
    && (forall id | id in w.client.pending :: id in w.known && id !in w.immediate)
    && (forall id | id in w.immediate :: id in w.known)
    && (forall id | id in w.pin :: id in w.known && w.pin[id] in w.daemon.started)
  }

  ghost predicate AcksOk(w: World) {
    && (forall id | id in w.client.acks :: Finished(w, id))
    && (forall id | SubmitAck(id) in w.client.timers :: Finished(w, id))
  }

  /** Submissions travel only to the pinned daemon, acknowledgements only for finished commands, and last. */
  ghost predicate WireOk(w: World) {
    var wire := w.daemon.wire;
    && (forall i | 0 <= i < |wire| && wire[i].Submit? ::
          wire[i].id in w.pin && w.daemon.live == Some(w.pin[wire[i].id]))
    && (forall i | 0 <= i < |wire| && wire[i].Acknowledge? :: Finished(w, wire[i].id))
    && (forall i, j | 0 <= i < j < |wire| && wire[i].Acknowledge? && wire[j].Submit? :: wire[i].id != wire[j].id)
  }

  ghost predicate Dead(w: World, instance: Instance) {
    instance in w.daemon.started && w.daemon.live != Some(instance)
  }

  /** A call whose command has been sent remembers where. */
  ghost predicate PinsOk(w: World) {
    && (forall id | id in w.client.pending && id in w.pin :: w.client.pending[id].daemon == Some(w.pin[id]))
    && (forall id | id in w.immediate && id in w.pin ::
          w.immediate[id].original.None? || w.immediate[id].original.value == w.pin[id]
          || Dead(w, w.immediate[id].original.value))
  }

  /** Commands allowed to run again: they have been forgotten as often as they were executed. */
  predicate Exempt(d: Daemon, id: Id) {
    d.executions[id] <= d.forgotten[id]
  }

  predicate Remembered(d: Daemon, id: Id) {
    id in d.table && d.table[id] != Released
  }

  /**
   A command is executed once more than it is forgotten, at most, and when it is, its daemon remembers it
   for as long as a submission may still arrive.
   */
  ghost predicate OnceFor(w: World, id: Id) {
    id in w.daemon.executions ==>
      && id in w.pin
      && (!Exempt(w.daemon, id) ==>
            w.daemon.executions[id] == 1 + w.daemon.forgotten[id]
            && (w.daemon.live == Some(w.pin[id]) ==>
                  Remembered(w.daemon, id) || (Finished(w, id) && Submit(id) !in w.daemon.wire)))
  }

  ghost predicate OnceOk(w: World) {
    forall id :: OnceFor(w, id)
  }

  ghost predicate Safe(w: World) {
    SessionOk(w) && NamesOk(w) && AcksOk(w) && WireOk(w) && PinsOk(w) && OnceOk(w)
  }

  /** A step away from the daemon keeps what concerns the wire and the table if finished stays finished. */
  lemma AwayFromDaemon(w: World, w': World)
    requires Safe(w) && w'.daemon == w.daemon && w'.pin == w.pin
    requires forall id | Finished(w, id) :: Finished(w', id)
    requires SessionOk(w') && NamesOk(w') && AcksOk(w') && PinsOk(w')
    ensures Safe(w')
  {
    hide SessionOk, NamesOk, AcksOk, PinsOk, Finished;
    assert OnceOk(w') by {
      forall id ensures OnceFor(w', id) { assert OnceFor(w, id); }
    }
  }

  /** The bookkeeping of replies plays no part in the invariant. */
  lemma Bookkeeping(w: World, outstanding: multiset<Id>, sentOn: map<Id, nat>, promised: set<Id>, stranded: set<Id>)
    requires Safe(w)
    ensures Safe(w.(outstanding := outstanding, sentOn := sentOn, promised := promised, stranded := stranded))
  {
    hide WireOk, OnceOk;
    AwayFromDaemon(w, w.(outstanding := outstanding, sentOn := sentOn, promised := promised, stranded := stranded));
  }

  // ---------------------------------------------------------------- changes of the client

  /** Forgetting calls, and acknowledging only what is finished, keeps the invariant. */
  lemma ClientChange(w: World, c: Client)
    requires Safe(w)
    requires forall id | id in c.pending ::
      id in w.client.pending && c.pending[id].daemon == w.client.pending[id].daemon
    requires forall id | id in c.acks :: id in w.client.acks || Finished(w.(client := c), id)
    requires forall id | SubmitAck(id) in c.timers :: SubmitAck(id) in w.client.timers || Finished(w.(client := c), id)
    ensures Safe(w.(client := c))
  {
    hide WireOk, OnceOk;
    AwayFromDaemon(w, w.(client := c));
  }

  lemma Resolving(w: World, id: Id)
    requires Safe(w) && id in w.known && id !in w.immediate
    ensures Safe(w.(client := Resolve(w.client, id)))
  {
    hide Safe;
    ClientChange(w, Resolve(w.client, id));
  }

  // ---------------------------------------------------------------- frames

  lemma PutKeepsFinished(w: World, frame: Frame)
    ensures forall k :: Finished(Put(w, frame), k) == Finished(w, k)
    ensures var w' := Put(w, frame);
      && w'.daemon == w.daemon.(wire := w'.daemon.wire)
      && (forall k | k in w.pin :: k in w'.pin && w'.pin[k] == w.pin[k])
      && (forall k | Submit(k) in w'.daemon.wire :: Submit(k) in w.daemon.wire || frame == Submit(k))
  {
  }

  lemma PutOnce(w: World, frame: Frame)
    requires OnceOk(w) && (frame.Submit? ==> !Finished(w, frame.id))
    ensures OnceOk(Put(w, frame))
  {
    hide Finished, Put;
    PutKeepsFinished(w, frame);
    forall k ensures OnceFor(Put(w, frame), k) { assert OnceFor(w, k); }
  }

  lemma PutAcknowledgeWire(w: World, id: Id)
    requires WireOk(w) && Finished(w, id)
    ensures WireOk(Put(w, Acknowledge(id)))
  {
    PutKeepsFinished(w, Acknowledge(id));
  }

  lemma PutAcknowledge(w: World, id: Id)
    requires Safe(w) && Finished(w, id)
    ensures Safe(Put(w, Acknowledge(id)))
  {
    hide WireOk, OnceOk;
    PutAcknowledgeWire(w, id);
    PutOnce(w, Acknowledge(id));
    PutKeepsFinished(w, Acknowledge(id));
  }

  /** A live command that can only be going to the daemon it is pinned to. */
  ghost predicate MaySubmit(w: World, id: Id) {
    && id in w.known && !Finished(w, id)
    && (w.session.connected.Some? && w.session.connected == w.daemon.live ==>
          && (id in w.client.pending ==> w.client.pending[id].daemon == w.daemon.live)
          && (id in w.immediate && id !in w.pin ==>
                w.immediate[id].original.None? || w.immediate[id].original == w.daemon.live
                || Dead(w, w.immediate[id].original.value))
          && (id in w.pin ==> w.daemon.live == Some(w.pin[id])))
  }

  lemma SubmissionAppended(w: World, w': World, id: Id)
    requires WireOk(w) && !Finished(w, id)
    requires w'.daemon.live == w.daemon.live && w'.daemon.wire == w.daemon.wire + [Submit(id)]
    requires forall k :: Finished(w', k) == Finished(w, k)
    requires forall k | k in w.pin :: k in w'.pin && w'.pin[k] == w.pin[k]
    requires id in w'.pin && w'.daemon.live == Some(w'.pin[id])
    ensures WireOk(w')
  {
    hide Finished;
  }

  lemma PutSubmitWire(w: World, id: Id)
    requires Safe(w) && MaySubmit(w, id)
    ensures WireOk(Put(w, Submit(id)))
  {
    hide SessionOk, NamesOk, AcksOk, PinsOk, OnceOk, WireOk, Finished;
    var w' := Put(w, Submit(id));
    PutKeepsFinished(w, Submit(id));
    if w' != w { SubmissionAppended(w, w', id); }
  }

  lemma PutSubmit(w: World, id: Id)
    requires Safe(w) && MaySubmit(w, id)
    ensures Safe(Put(w, Submit(id)))
  {
    hide WireOk, OnceOk;
    PutSubmitWire(w, id);
    PutOnce(w, Submit(id));
  }

  lemma SendSafe(w: World, frame: Frame)
    requires Safe(Put(w, frame))
    ensures Safe(Send(w, frame))
  {
    hide Safe;
    var sent := Send(w, frame);
    Bookkeeping(Put(w, frame), sent.outstanding, sent.sentOn, sent.promised, sent.stranded);
  }

  lemma SendOne(w: World, frame: Frame)
    ensures SendAll(w, [frame]) == Send(w, frame)
    ensures SendAll(w, []) == w
  {
    hide Send;
    assert [frame][..0] == [];
    assert SendAll(w, []) == w;
    assert SendAll(w, [frame]) == Send(SendAll(w, [frame][..|[frame]| - 1]), [frame][|[frame]| - 1]);
  }

  lemma Submitting(w: World, id: Id)
    requires Safe(w)
    ensures Safe(Take(w, SubmitPending(w.client, id, LinkOf(w.session))))
  {
    hide Send, SendAll, Put;
    var link := LinkOf(w.session);
    var r := SubmitPending(w.client, id, link);
    SendOne(w.(client := r.0), Submit(id));
    if r.1 != [] {
      ClientPinned(w, id);
      PutSubmit(w.(client := r.0), id);
      SendSafe(w.(client := r.0), Submit(id));
    } else if r.0 != w.client {
      Resolving(w, id);
    } else {
      assert w.(client := r.0) == w;
    }
  }

  /** A submission fixes the call on the daemon the session was greeted by. */
  lemma ClientPinned(w: World, id: Id)
    requires Safe(w) && SubmitPending(w.client, id, LinkOf(w.session)).1 != []
    ensures var w' := w.(client := SubmitPending(w.client, id, LinkOf(w.session)).0);
      Safe(w') && id in w'.client.pending && w'.client.pending[id].daemon == w.session.greeted == w.session.connected
      && SubmitPending(w.client, id, LinkOf(w.session)).1 == [Submit(id)]
  {
    hide WireOk, OnceOk;
    AwayFromDaemon(w, w.(client := SubmitPending(w.client, id, LinkOf(w.session)).0));
  }

  lemma Acknowledging(w: World, id: Id)
    requires Safe(w)
    ensures Safe(Take(w, SubmitAcknowledgement(w.client, id, LinkOf(w.session))))
  {
    hide Send, SendAll, Put;
    var r := SubmitAcknowledgement(w.client, id, LinkOf(w.session));
    SendOne(w.(client := r.0), Acknowledge(id));
    ClientChange(w, r.0);
    if r.1 != [] {
      PutAcknowledge(w.(client := r.0), id);
      SendSafe(w.(client := r.0), Acknowledge(id));
    }
  }

  lemma {:induction false} SubmittingEach(w: World, keys: seq<Id>)
    requires Safe(w)
    ensures Safe(Take(w, SubmitEach(w.client, keys, LinkOf(w.session))))
    decreases |keys|
  {
    hide Safe, SubmitPending, SendAll, SubmitEach;
    if keys == [] {
      EachOfNone(w.client, LinkOf(w.session));
      SendOne(w, Submit(0));
      assert w.(client := w.client) == w;
    } else {
      var last := |keys| - 1;
      SubmittingEach(w, keys[..last]);
      TakeSubmitEach(w, keys, last);
      assert keys[..last + 1] == keys;
      Submitting(Take(w, SubmitEach(w.client, keys[..last], LinkOf(w.session))), keys[last]);
    }
  }

  lemma {:induction false} AcknowledgingEach(w: World, keys: seq<Id>)
    requires Safe(w)
    ensures Safe(Take(w, AcknowledgeEach(w.client, keys, LinkOf(w.session))))
    decreases |keys|
  {
    hide Safe, SubmitAcknowledgement, SendAll, AcknowledgeEach;
    if keys == [] {
      EachOfNone(w.client, LinkOf(w.session));
      SendOne(w, Submit(0));
      assert w.(client := w.client) == w;
    } else {
      var last := |keys| - 1;
      AcknowledgingEach(w, keys[..last]);
      TakeAcknowledgeEach(w, keys, last);
      assert keys[..last + 1] == keys;
      Acknowledging(Take(w, AcknowledgeEach(w.client, keys[..last], LinkOf(w.session))), keys[last]);
    }
  }

  // ---------------------------------------------------------------- steps of the client

  lemma InvokedSafe(w: World, id: Id, window: bool, repeatable: bool)
    requires Safe(w) && Enabled(w, Invoked(id, window, repeatable))
    ensures Safe(After(w, Invoked(id, window, repeatable)))
  {
    hide Take, SubmitPending, WireOk, OnceOk;
    var link := LinkOf(w.session);
    var call := Call(link.daemon, false, window, false);
    var w1 := w.(known := w.known + {id}, invoked := w.invoked + {id},
                 repeatable := if repeatable then w.repeatable + {id} else w.repeatable);
    var c1 := w.client.(pending := w.client.pending[id := call]);
    var w2 := w1.(client := c1);
    AwayFromDaemon(w, w2);
    Submitting(w2, id);
    TakeIgnoresClient(w1, c1, SubmitPending(c1, id, link));
  }

  lemma TakeIgnoresClient(w: World, c: Client, r: (Client, seq<Frame>))
    ensures Take(w.(client := c), r) == Take(w, r)
  {
    hide SendAll;
    assert w.(client := c).(client := r.0) == w.(client := r.0);
  }

  lemma OnReplyForgets(c: Client, id: Id, reply: Reply, link: Link)
    ensures var c' := OnReply(c, id, reply, link);
      && (forall k | k in c'.pending :: k in c.pending && c'.pending[k].daemon == c.pending[k].daemon)
      && (forall k | k in c'.acks :: k in c.acks || (k == id && id in c.pending && id !in c'.pending))
      && (forall k | SubmitAck(k) in c'.timers ::
            SubmitAck(k) in c.timers || (k == id && id in c.pending && id !in c'.pending))
  {
  }

  lemma RepliedSafe(w: World, id: Id, reply: Reply)
    requires Safe(w) && Enabled(w, Replied(id, reply))
    ensures Safe(After(w, Replied(id, reply)))
  {
    hide SessionOk, AcksOk, WireOk, PinsOk, OnceOk, OnReply, Idle;
    var w' := After(w, Replied(id, reply));
    OnReplyForgets(w.client, id, reply, LinkOf(w.session));
    ClientChange(w, w'.client);
    Bookkeeping(w.(client := w'.client), w'.outstanding, w'.sentOn, w'.promised, w'.stranded);
  }

  lemma FiredSafe(w: World, timer: Timer)
    requires Safe(w) && Enabled(w, Fired(timer))
    ensures Safe(After(w, Fired(timer)))
  {
    hide Take, SubmitPending, SubmitAcknowledgement;
    var c := w.client.(timers := w.client.timers - multiset{timer});
    var link := LinkOf(w.session);
    var w1 := w.(client := c);
    ClientChange(w, c);
    TakeIgnoresClient(w, c, FireTimer(w.client, timer, link));
    match timer
    case Resubmit(id) => Submitting(w1, id);
    case SubmitAck(id) => Acknowledging(w1, id);
    case Timeout(id) => TimedOutSafe(w1, id);
  }

  lemma TimedOutSafe(w: World, id: Id)
    requires Safe(w)
    ensures Safe(Take(w, (if id in w.client.pending then Resolve(w.client, id) else w.client, [])))
  {
    hide SendAll;
    var c := if id in w.client.pending then Resolve(w.client, id) else w.client;
    SendOne(w.(client := c), Submit(id));
    ClientChange(w, c);
  }

  lemma NotifiedSafe(w: World, id: Id)
    requires Safe(w) && Enabled(w, Notified(id))
    ensures Safe(After(w, Notified(id)))
  {
    hide WireOk, OnceOk, Resolve;
    var w1 := w.(known := w.known + {id});
    AwayFromDaemon(w, w1);
    Resolving(w1, id);
    assert w1.(client := Resolve(w.client, id)) == After(w, Notified(id));
  }

  lemma ImmediateAskedSafe(w: World, id: Id, repeatable: bool)
    requires Safe(w) && Enabled(w, ImmediateAsked(id, repeatable))
    ensures Safe(After(w, ImmediateAsked(id, repeatable)))
  {
    hide Put, WireOk, OnceOk;
    var w1 := w.(known := w.known + {id}, immediate := w.immediate[id := ImmediateCall(w.session.greeted, First)],
                 repeatable := if repeatable then w.repeatable + {id} else w.repeatable);
    AwayFromDaemon(w, w1);
    PutSubmit(w1, id);
  }

  lemma ImmediateRepeatedSafe(w: World, id: Id)
    requires Safe(w) && Enabled(w, ImmediateRepeated(id))
    ensures Safe(After(w, ImmediateRepeated(id)))
  {
    hide Put, WireOk, OnceOk;
    var w1 := w.(immediate := w.immediate[id := w.immediate[id].(phase := Second)]);
    AwayFromDaemon(w, w1);
    PutSubmit(w1, id);
  }

  lemma ImmediateSettled(w: World, id: Id, plan: ImmediatePlan)
    requires Safe(w) && id in w.known && (plan != Reconnect ==> Finished(w, id))
    ensures Safe(if plan == Settle(true) then w.(client := ScheduleAck(w.client, id)) else w)
  {
    hide Safe;
    if plan == Settle(true) { ClientChange(w, ScheduleAck(w.client, id)); }
  }

  lemma AfterImmediateSafe(w: World, id: Id, plan: ImmediatePlan)
    requires Safe(w) && id in w.immediate
    ensures Safe(AfterImmediate(w, id, plan))
  {
    hide WireOk, OnceOk, ScheduleAck;
    var w1 := w.(immediate := if plan == Reconnect then w.immediate[id := w.immediate[id].(phase := Reconnecting)]
                              else w.immediate - {id});
    AwayFromDaemon(w, w1);
    ImmediateSettled(w1, id, plan);
  }

  // ---------------------------------------------------------------- steps of the daemon

  lemma DeliveredIs(w: World, outcome: Outcome)
    requires Enabled(w, Delivered(outcome))
    ensures var frame := w.daemon.wire[0];
      After(w, Delivered(outcome)) == w.(daemon :=
        Handle(w.daemon.(wire := w.daemon.wire[1..]), frame, frame.id in w.repeatable, outcome))
  {
    hide Handle;
  }

  lemma HandleKeeps(d: Daemon, frame: Frame, repeatable: bool, outcome: Outcome)
    ensures var e := Handle(d, frame, repeatable, outcome);
      e == d.(table := e.table, executions := e.executions, unencodable := e.unencodable)
  {
  }

  lemma DeliveredWire(w: World, outcome: Outcome)
    requires Safe(w) && Enabled(w, Delivered(outcome))
    ensures WireOk(After(w, Delivered(outcome)))
  {
    hide SessionOk, NamesOk, AcksOk, PinsOk, OnceOk, After, Serve;
    DeliveredIs(w, outcome);
    var w' := After(w, Delivered(outcome));
    HandleKeeps(w.daemon.(wire := w.daemon.wire[1..]), w.daemon.wire[0], w.daemon.wire[0].id in w.repeatable, outcome);
    assert forall k :: Finished(w', k) == Finished(w, k);
    assert forall i | 0 <= i < |w'.daemon.wire| :: w'.daemon.wire[i] == w.daemon.wire[i + 1];
  }

  /** Only a command that is not remembered is executed, and then it is. */
  lemma ServedOnce(d: Daemon, id: Id, repeatable: bool, outcome: Outcome)
    ensures var e := Serve(d, id, repeatable, outcome);
      && e == d.(table := e.table, executions := e.executions, unencodable := e.unencodable)
      && (forall k | k != id :: e.executions[k] == d.executions[k] && Remembered(e, k) == Remembered(d, k))
      && (Remembered(d, id) ==> e.executions[id] == d.executions[id] && Remembered(e, id))
      && (e.executions[id] != d.executions[id] ==> e.executions[id] == d.executions[id] + 1 && Remembered(e, id))
  {
  }

  /** A command that has run and is not forgotten does not run now. */
  lemma SubmissionOnce(w: World, outcome: Outcome)
    requires Safe(w) && Enabled(w, Delivered(outcome)) && w.daemon.wire[0].Submit?
    ensures OnceOk(After(w, Delivered(outcome)))
  {
    hide SessionOk, NamesOk, AcksOk, PinsOk, After, Serve, Remembered;
    DeliveredIs(w, outcome);
    var w' := After(w, Delivered(outcome));
    var id := w.daemon.wire[0].id;
    ServedOnce(w.daemon.(wire := w.daemon.wire[1..]), id, id in w.repeatable, outcome);
    assert w.daemon.wire[0] == Submit(id);
    forall k ensures OnceFor(w', k) {
      assert OnceFor(w, k);
      assert Finished(w', k) == Finished(w, k);
      assert Remembered(w.daemon.(wire := w.daemon.wire[1..]), k) == Remembered(w.daemon, k) by { SameTable(w, k); }
    }
  }

  lemma SameTable(w: World, k: Id)
    requires w.daemon.wire != []
    ensures Remembered(w.daemon.(wire := w.daemon.wire[1..]), k) == Remembered(w.daemon, k)
  {
  }

  /** What an acknowledgement makes the daemon forget arrives no more. */
  lemma AcknowledgementOnce(w: World, outcome: Outcome)
    requires Safe(w) && Enabled(w, Delivered(outcome)) && w.daemon.wire[0].Acknowledge?
    ensures OnceOk(After(w, Delivered(outcome)))
  {
    hide SessionOk, NamesOk, AcksOk, PinsOk, After;
    DeliveredIs(w, outcome);
    var w' := After(w, Delivered(outcome));
    var id := w.daemon.wire[0].id;
    assert forall j | 0 < j < |w.daemon.wire| :: w.daemon.wire[j] != Submit(id);
    assert Submit(id) !in w'.daemon.wire;
    forall k ensures OnceFor(w', k) {
      assert OnceFor(w, k);
      assert Finished(w', k) == Finished(w, k);
    }
  }

  lemma DeliveredSafe(w: World, outcome: Outcome)
    requires Safe(w) && Enabled(w, Delivered(outcome))
    ensures Safe(After(w, Delivered(outcome)))
  {
    hide WireOk, OnceOk, After, Handle;
    DeliveredWire(w, outcome);
    if w.daemon.wire[0].Submit? { SubmissionOnce(w, outcome); } else { AcknowledgementOnce(w, outcome); }
    DeliveredIs(w, outcome);
    HandleKeeps(w.daemon.(wire := w.daemon.wire[1..]), w.daemon.wire[0], w.daemon.wire[0].id in w.repeatable, outcome);
    var w' := After(w, Delivered(outcome));
    assert forall k :: Finished(w', k) == Finished(w, k);
  }

  /** Rewriting entries of the table; what is no longer remembered counts as forgotten. */
  lemma TableChange(w: World, d: Daemon)
    requires Safe(w) && CountsForgotten(w.daemon, d)
    ensures Safe(w.(daemon := d))
  {
    var w' := w.(daemon := d);
    TableOnce(w, w');
    hide OnceOk;
    assert forall id :: Finished(w', id) == Finished(w, id);
  }

  lemma TableOnce(w: World, w': World)
    requires OnceOk(w) && w' == w.(daemon := w'.daemon) && CountsForgotten(w.daemon, w'.daemon)
    ensures OnceOk(w')
  {
    hide Remembered;
    forall id ensures OnceFor(w', id) {
      assert OnceFor(w, id);
      assert Finished(w', id) == Finished(w, id);
      assert w'.daemon.forgotten[id] >= w.daemon.forgotten[id];
    }
  }

  lemma TableStepSafe(w: World, step: Step)
    requires Safe(w) && Enabled(w, step) && (step.OperationEnded? || step.Trimmed? || step.ResultReleased?)
    ensures Safe(After(w, step))
  {
    hide Safe, AfterImmediates, AfterSession, AfterReplied, Before, Response, Take, DaemonAfter, Remembered;
    TableStepForgets(w, step);
    TableChange(w, DaemonAfter(w, step));
  }

  /** What of the daemon a step on the table changes, and that it counts what it forgets. */
  ghost predicate CountsForgotten(d: Daemon, e: Daemon) {
    && e == d.(table := e.table, unencodable := e.unencodable, forgotten := e.forgotten)
    && d.forgotten <= e.forgotten
    && forall id | Remembered(d, id) && id in d.executions :: Remembered(e, id) || e.forgotten[id] > d.forgotten[id]
  }

  lemma EndCounts(d: Daemon, id: Id, encoded: bool)
    ensures CountsForgotten(d, End(d, id, encoded))
  {
  }

  lemma TrimCounts(w: World, id: Id)
    ensures CountsForgotten(w.daemon, Forget(w, Trimmed(id), id, w.daemon.table - {id}))
  {
  }

  lemma ReleaseCounts(w: World, id: Id)
    ensures CountsForgotten(w.daemon, Forget(w, ResultReleased(id), id,
      w.daemon.table[id := if id in w.repeatable then Released else Expired]))
  {
  }

  lemma TableStepForgets(w: World, step: Step)
    requires Enabled(w, step) && (step.OperationEnded? || step.Trimmed? || step.ResultReleased?)
    ensures CountsForgotten(w.daemon, DaemonAfter(w, step))
  {
    hide CountsForgotten, Forget, End;
    match step
    case OperationEnded(id, encoded) => EndCounts(w.daemon, id, encoded);
    case Trimmed(id) => TrimCounts(w, id);
    case ResultReleased(id) => ReleaseCounts(w, id);
  }

  /** A daemon that starts is new to every command; with one that dies, its wire and its table go. */
  lemma LifeSafe(w: World, step: Step)
    requires Safe(w) && Enabled(w, step) && (step.DaemonStarted? || step.DaemonDied?)
    ensures Safe(After(w, step))
  {
    hide OnceOk, AfterImmediates, AfterSession, AfterReplied, Before, Response, Take;
    LifeOnce(w, step);
    var w' := After(w, step);
    assert forall k :: Finished(w', k) == Finished(w, k);
  }

  lemma LifeOnce(w: World, step: Step)
    requires Safe(w) && Enabled(w, step) && (step.DaemonStarted? || step.DaemonDied?)
    ensures OnceOk(After(w, step))
  {
    hide SessionOk, AcksOk, PinsOk, AfterImmediates, AfterSession, AfterReplied;
    var w' := After(w, step);
    forall k ensures OnceFor(w', k) {
      assert OnceFor(w, k);
      assert Finished(w', k) == Finished(w, k);
    }
  }

  lemma FrameLostWire(w: World, k: nat)
    requires Safe(w) && Enabled(w, FrameLost(k))
    ensures WireOk(After(w, FrameLost(k)))
  {
    hide SessionOk, NamesOk, AcksOk, PinsOk, OnceOk;
    var w' := After(w, FrameLost(k));
    assert forall id :: Finished(w', id) == Finished(w, id);
    assert forall i | 0 <= i < |w'.daemon.wire| :: w'.daemon.wire[i] == w.daemon.wire[if i < k then i else i + 1];
  }

  lemma FrameLostOnce(w: World, k: nat)
    requires OnceOk(w) && Enabled(w, FrameLost(k))
    ensures OnceOk(After(w, FrameLost(k)))
  {
    var w' := After(w, FrameLost(k));
    assert forall f | f in w'.daemon.wire :: f in w.daemon.wire;
    forall id ensures OnceFor(w', id) {
      assert OnceFor(w, id);
      assert Finished(w', id) == Finished(w, id);
    }
  }

  lemma FrameLostSafe(w: World, k: nat)
    requires Safe(w) && Enabled(w, FrameLost(k))
    ensures Safe(After(w, FrameLost(k)))
  {
    hide WireOk, OnceOk;
    FrameLostWire(w, k);
    FrameLostOnce(w, k);
    var w' := After(w, FrameLost(k));
    assert forall id :: Finished(w', id) == Finished(w, id);
  }

  // ---------------------------------------------------------------- steps of the session

  lemma SessionChangeSafe(w: World, step: Step)
    requires Safe(w) && Enabled(w, step)
    requires OfSession(step)
    ensures Safe(After(w, step))
  {
    hide NamesOk, AcksOk, WireOk, PinsOk, OnceOk, AfterImmediates, DaemonAfter, AfterReplied, Before,
      Response, Take, Idle, LinkOf;
    SessionStepOk(w, step);
    var w' := AfterSession(w, step);
    assert w' == w.(session := w'.session, promised := w'.promised, stranded := w'.stranded);
    NewSession(w, w'.session, w'.promised, w'.stranded);
  }

  lemma SessionStepOk(w: World, step: Step)
    requires SessionOk(w) && Enabled(w, step)
    requires OfSession(step)
    ensures SessionOk(After(w, step))
  {
    hide AfterImmediates, DaemonAfter, AfterReplied, Before, Response, Take, Idle, LinkOf;
  }

  lemma NewSession(w: World, s: Session, promised: set<Id>, stranded: set<Id>)
    requires Safe(w) && SessionOk(w.(session := s))
    ensures Safe(w.(session := s, promised := promised, stranded := stranded))
  {
    hide WireOk, OnceOk;
    AwayFromDaemon(w, w.(session := s));
    Bookkeeping(w.(session := s), w.outstanding, w.sentOn, promised, stranded);
  }

  lemma Recovering(w: World, s: Session)
    requires Safe(w) && w.session.connected.Some? && w.session.greeted == w.session.connected
    requires s == w.session.(recovering := false)
    ensures Safe(w.(session := s, stranded := {}))
  {
    hide WireOk, OnceOk, NamesOk, AcksOk, PinsOk;
    NewSession(w, s, w.promised, {});
  }

  lemma RecoveryEndedSafe(w: World, calls: seq<Id>, acks: seq<Id>)
    requires Safe(w) && Enabled(w, RecoveryEnded(calls, acks))
    ensures Safe(After(w, RecoveryEnded(calls, acks)))
  {
    hide Take, Retry, SubmitEach, AcknowledgeEach, Lists, Safe;
    var w1 := w.(session := w.session.(recovering := false), stranded := {});
    Recovering(w, w1.session);
    SubmittingEach(w1, calls);
    TakeRetry(w1, calls, acks);
    AcknowledgingEach(Take(w1, SubmitEach(w1.client, calls, LinkOf(w1.session))), acks);
  }

  // ---------------------------------------------------------------- every step, every run

  lemma StepSafe(w: World, step: Step)
    requires Safe(w) && Enabled(w, step)
    ensures Safe(After(w, step))
  {
    hide Safe, After;
    match step
    case Invoked(id, window, repeatable) => InvokedSafe(w, id, window, repeatable);
    case Replied(id, reply) => RepliedSafe(w, id, reply);
    case AckReplied(id, reply) => QuietSafe(w, step);
    case Fired(timer) => FiredSafe(w, timer);
    case Notified(id) => NotifiedSafe(w, id);
    case ShutDown => QuietSafe(w, step);
    case ImmediateAsked(id, repeatable) => ImmediateAskedSafe(w, id, repeatable);
    case ImmediateAnswered(id, reply) => ImmediateEndSafe(w, step);
    case ImmediateRepeated(id) => ImmediateRepeatedSafe(w, id);
    case ImmediateAbandoned(id) => ImmediateEndSafe(w, step);
    case Delivered(outcome) => DeliveredSafe(w, outcome);
    case FrameLost(k) => FrameLostSafe(w, k);
    case RecoveryEnded(calls, acks) => RecoveryEndedSafe(w, calls, acks);
    case ConnectionMade | ConnectionLost | LossHandled | HelloAnswered | RecoveryBegun | Stopped =>
      SessionChangeSafe(w, step);
    case DaemonStarted(_) | DaemonDied => LifeSafe(w, step);
    case OperationEnded(_, _) | Trimmed(_) | ResultReleased(_) => TableStepSafe(w, step);
  }

  lemma QuietSafe(w: World, step: Step)
    requires Safe(w) && Enabled(w, step) && (step.AckReplied? || step.ShutDown?)
    ensures Safe(After(w, step))
  {
    hide Safe;
    ClientChange(w, After(w, step).client);
  }

  lemma ImmediateEndSafe(w: World, step: Step)
    requires Safe(w) && Enabled(w, step) && (step.ImmediateAnswered? || step.ImmediateAbandoned?)
    ensures Safe(After(w, step))
  {
    hide Safe, AfterImmediate;
    AfterImmediateSafe(w, step.id,
      if step.ImmediateAbandoned? then GiveUp
      else if w.immediate[step.id].phase == First then AfterFirst(w.immediate[step.id].original, step.reply)
      else AfterReply(step.reply));
  }
}
