/**
 The remote action client: calls that survive lost connections, resolved once and then acknowledged.

 A command id, a daemon instance and a key are numbers here. A reply is reduced to what the client
 looks at. The promise of a call is resolved by adding its id to `resolved`.
 */
module RemoteClient {
  import opened Wrappers

  type Id = nat
  type Instance = nat

  /** What travels to the daemon: a command, or the acknowledgement of one. */
  datatype Frame = Submit(id: Id) | Acknowledge(id: Id)

  datatype Reply =
    | Unavailable                            // CommandRejected, TransportUnavailable
    | Busy                                   // CommandRejected, Busy
    | Refused                                // CommandRejected, any other code
    | Immediate                              // CommandAccepted with its result
    | Accepted(operation: Option<Id>)        // CommandAccepted, result to follow

  datatype Timer = Resubmit(id: Id) | SubmitAck(id: Id) | Timeout(id: Id)

  datatype Call = Call(daemon: Option<Instance>, inFlight: bool, window: bool, timeoutScheduled: bool)

  /** What the client asks its session. */
  datatype Link = Link(ready: bool, daemon: Option<Instance>)

  datatype Client = Client(
    pending: map<Id, Call>,
    acks: set<Id>,
    acksInFlight: set<Id>,
    timers: multiset<Timer>,
    resolved: multiset<Id>)

  const FRESH := Client(map[], {}, {}, multiset{}, multiset{})

  function ScheduleAck(c: Client, id: Id): (c': Client) {
    c.(acks := c.acks + {id}, timers := c.timers + multiset{SubmitAck(id)})
  }

  /** `complete` and `fail`: the acknowledgement is scheduled whether or not the call is still known. */
  function Resolve(c: Client, id: Id): (c': Client) {
    var c' := ScheduleAck(c, id);
    if id in c.pending then c'.(pending := c.pending - {id}, resolved := c.resolved + multiset{id}) else c'
  }

  function SubmitPending(c: Client, id: Id, link: Link): (r: (Client, seq<Frame>)) {
    if id !in c.pending || c.pending[id].inFlight || !link.ready then (c, [])
    else
      var call := c.pending[id];
      if call.daemon.Some? && link.daemon.Some? && call.daemon != link.daemon then (Resolve(c, id), [])
      else
        var daemon := if call.daemon.None? then link.daemon else call.daemon;
        (c.(pending := c.pending[id := call.(daemon := daemon, inFlight := true)]), [Submit(id)])
  }

  function Invoke(c: Client, id: Id, window: bool, link: Link): (r: (Client, seq<Frame>)) {
    SubmitPending(c.(pending := c.pending[id := Call(link.daemon, false, window, false)]), id, link)
  }

  function OnReply(c: Client, id: Id, reply: Reply, link: Link): (c': Client) {
    if id !in c.pending then c
    else
      var call := c.pending[id].(inFlight := false);
      var landed := c.(pending := c.pending[id := call]);
      match reply
      case Unavailable => if link.ready then landed.(timers := landed.timers + multiset{Resubmit(id)}) else landed
      case Busy => Resolve(landed, id)
      case Refused => Resolve(landed, id)
      case Immediate => Resolve(landed, id)
      case Accepted(operation) =>
        if operation != Some(id) then Resolve(landed, id)
        else if call.window && !call.timeoutScheduled then
          landed.(pending := c.pending[id := call.(timeoutScheduled := true)],
                  timers := landed.timers + multiset{Timeout(id)})
        else landed
  }

  /** The promise of the call, if it is pending, is resolved; its acknowledgement is owed and queued. */
  predicate Settles(c: Client, c': Client, id: Id) {
    && c'.pending == c.pending - {id}
    && c'.resolved == c.resolved + (if id in c.pending then multiset{id} else multiset{})
    && c'.acks == c.acks + {id} && c'.acksInFlight == c.acksInFlight
    && c'.timers == c.timers + multiset{SubmitAck(id)}
  }

  /** Every reply ends a call but a lost transport and the acceptance of this very command. */
  predicate Ends(id: Id, reply: Reply) {
    reply != Unavailable && reply != Accepted(Some(id))
  }

  lemma FinalReply(c: Client, id: Id, reply: Reply, link: Link)
    requires id in c.pending && Ends(id, reply)
    ensures Settles(c, OnReply(c, id, reply, link), id)
  {
  }

  /**
   Any other reply ends the flight only: a lost transport queues a resubmission in a ready session, and an
   acceptance starts the terminal timeout of a window's call, once.
   */
  lemma PassingReply(c: Client, id: Id, reply: Reply, link: Link)
    requires id in c.pending && !Ends(id, reply)
    ensures
      var call := c.pending[id];
      var waits := reply.Accepted? && call.window && !call.timeoutScheduled;
      OnReply(c, id, reply, link) == c.(
        pending := c.pending[id :=
          Call(call.daemon, false, call.window, call.timeoutScheduled || waits)],
        timers := c.timers + (if reply.Unavailable? && link.ready then multiset{Resubmit(id)}
                              else if waits then multiset{Timeout(id)} else multiset{}))
  {
  }

  function SubmitAcknowledgement(c: Client, id: Id, link: Link): (r: (Client, seq<Frame>)) {
    if !link.ready || id !in c.acks || id in c.acksInFlight then (c, [])
    else (c.(acksInFlight := c.acksInFlight + {id}), [Acknowledge(id)])
  }

  function OnAckReply(c: Client, id: Id, reply: Reply): (c': Client) {
    c.(acksInFlight := c.acksInFlight - {id},
       acks := if reply.Unavailable? || reply.Busy? then c.acks else c.acks - {id})
  }

  function FireTimer(c: Client, timer: Timer, link: Link): (r: (Client, seq<Frame>)) {
    var c' := c.(timers := c.timers - multiset{timer});
    match timer
    case Resubmit(id) => SubmitPending(c', id, link)
    case SubmitAck(id) => SubmitAcknowledgement(c', id, link)
    case Timeout(id) => (if id in c.pending then Resolve(c', id) else c', [])
  }

  function SubmitEach(c: Client, keys: seq<Id>, link: Link): (r: (Client, seq<Frame>))
    decreases |keys|
  {
    if keys == [] then (c, [])
    else
      var last := |keys| - 1;
      var (before, sent) := SubmitEach(c, keys[..last], link);
      var (after, frames) := SubmitPending(before, keys[last], link);
      (after, sent + frames)
  }

  function AcknowledgeEach(c: Client, keys: seq<Id>, link: Link): (r: (Client, seq<Frame>))
    decreases |keys|
  {
    if keys == [] then (c, [])
    else
      var last := |keys| - 1;
      var (before, sent) := AcknowledgeEach(c, keys[..last], link);
      var (after, frames) := SubmitAcknowledgement(before, keys[last], link);
      (after, sent + frames)
  }

  lemma EachOfNone(c: Client, link: Link)
    ensures SubmitEach(c, [], link) == AcknowledgeEach(c, [], link) == (c, [])
  {
  }

  lemma SubmitEachStep(c: Client, keys: seq<Id>, i: nat, link: Link)
    requires i < |keys|
    ensures
      var before := SubmitEach(c, keys[..i], link);
      var step := SubmitPending(before.0, keys[i], link);
      SubmitEach(c, keys[..i + 1], link) == (step.0, before.1 + step.1)
  {
    hide SubmitPending;
    assert keys[..i + 1][..i] == keys[..i];
  }

  lemma AcknowledgeEachStep(c: Client, keys: seq<Id>, i: nat, link: Link)
    requires i < |keys|
    ensures
      var before := AcknowledgeEach(c, keys[..i], link);
      var step := SubmitAcknowledgement(before.0, keys[i], link);
      AcknowledgeEach(c, keys[..i + 1], link) == (step.0, before.1 + step.1)
  {
    hide SubmitAcknowledgement;
    assert keys[..i + 1][..i] == keys[..i];
  }

  /** `retryPending`, visiting the hash containers in the given orders. */
  function Retry(c: Client, calls: seq<Id>, acks: seq<Id>, link: Link): (r: (Client, seq<Frame>)) {
    var (c1, submitted) := SubmitEach(c, calls, link);
    var (c2, acknowledged) := AcknowledgeEach(c1, acks, link);
    (c2, submitted + acknowledged)
  }

  /** Some order of a set: each member once. */
  predicate Lists(keys: seq<Id>, members: set<Id>) {
    (forall i | 0 <= i < |keys| :: keys[i] in members)
    && (forall k | k in members :: k in keys)
    && forall i, j | 0 <= i < j < |keys| :: keys[i] != keys[j]
  }

  function FailAll(c: Client): (c': Client) {
    Client(map[], {}, {}, c.timers, c.resolved + multiset(c.pending.Keys))
  }

  /** What `invokeImmediate` does after its first reply. */
  datatype ImmediatePlan = GiveUp | Reconnect | Settle(acknowledge: bool)

  /** A reply that is not a lost transport settles the call; only a final answer is acknowledged. */
  function AfterReply(reply: Reply): (plan: ImmediatePlan) {
    Settle(!reply.Accepted?)
  }

  function AfterFirst(original: Option<Instance>, reply: Reply): (plan: ImmediatePlan) {
    if reply != Unavailable then AfterReply(reply)
    else if original.None? then GiveUp else Reconnect
  }

  /** The command is repeated only to the daemon that was asked first. */
  function MayRepeat(original: Option<Instance>, reconnected: Option<Instance>): (b: bool) {
    reconnected.Some? && reconnected == original
  }

  // ---------------------------------------------------------------- the object

  class RemoteActionClient {
    var pending: map<Id, Call>
    var pendingAcknowledgements: set<Id>
    var acknowledgementsInFlight: set<Id>
    var timers: multiset<Timer>
    var resolved: multiset<Id>
    var sent: seq<Frame>          // handed to the session, in order

    ghost function State(): (c: Client)
      reads this
    {
      Client(pending, pendingAcknowledgements, acknowledgementsInFlight, timers, resolved)
    }

    constructor ()
      ensures State() == FRESH && sent == []
    {
      pending, pendingAcknowledgements, acknowledgementsInFlight := map[], {}, {};
      timers, resolved, sent := multiset{}, multiset{}, [];
    }

    method ScheduleAcknowledgement(id: Id)
      modifies this
      ensures State() == ScheduleAck(old(State()), id) && sent == old(sent)
      ensures pendingAcknowledgements == old(pendingAcknowledgements) + {id}
      ensures timers == old(timers) + multiset{SubmitAck(id)}
      ensures pending == old(pending) && resolved == old(resolved)
    {
      pendingAcknowledgements := pendingAcknowledgements + {id};
      timers := timers + multiset{SubmitAck(id)};
    }

    method Complete(id: Id)
      modifies this
      ensures State() == Resolve(old(State()), id) && sent == old(sent)
      ensures Settles(old(State()), State(), id)
    {
      ScheduleAcknowledgement(id);
      if id !in pending { return; }
      resolved := resolved + multiset{id};
      pending := pending - {id};
    }

    method SubmitPendingCall(id: Id, link: Link)
      modifies this
      ensures var r := SubmitPending(old(State()), id, link); State() == r.0 && sent == old(sent) + r.1
      ensures
        var c := old(State());
        if id !in c.pending || c.pending[id].inFlight || !link.ready then State() == c && sent == old(sent)
        else if c.pending[id].daemon.Some? && link.daemon.Some? && c.pending[id].daemon.value != link.daemon.value then
          Settles(c, State(), id) && sent == old(sent)
        else
          && sent == old(sent) + [Submit(id)] && State() == c.(pending := pending)
          && pending == c.pending[id := c.pending[id].(
               inFlight := true,
               daemon := if c.pending[id].daemon.Some? then c.pending[id].daemon else link.daemon)]
    {
      if id !in pending || pending[id].inFlight || !link.ready { return; }
      var call := pending[id];
      if call.daemon.Some? && link.daemon.Some? && call.daemon.value != link.daemon.value {
        Complete(id);
        return;
      }
      if call.daemon.None? { call := call.(daemon := link.daemon); }
      pending := pending[id := call.(inFlight := true)];
      sent := sent + [Submit(id)];
    }

    method InvokeCall(id: Id, window: bool, link: Link)
      modifies this
      ensures var r := Invoke(old(State()), id, window, link); State() == r.0 && sent == old(sent) + r.1
      ensures pending == old(pending)[id := Call(link.daemon, link.ready, window, false)]
      ensures sent == old(sent) + if link.ready then [Submit(id)] else []
      ensures State() == old(State()).(pending := pending)
    {
      pending := pending[id := Call(link.daemon, false, window, false)];
      SubmitPendingCall(id, link);
    }

    method HandleReply(id: Id, reply: Reply, link: Link)
      modifies this
      ensures State() == OnReply(old(State()), id, reply, link) && sent == old(sent)
    {
      if id !in pending { return; }
      pending := pending[id := pending[id].(inFlight := false)];
      match reply {
        case Unavailable =>
          if link.ready { timers := timers + multiset{Resubmit(id)}; }
        case Accepted(operation) =>
          if operation != Some(id) {
            Complete(id);
          } else if pending[id].window && !pending[id].timeoutScheduled {
            pending := pending[id := pending[id].(timeoutScheduled := true)];
            timers := timers + multiset{Timeout(id)};
          }
        case _ =>
          Complete(id);
      }
    }

    method SendAcknowledgement(id: Id, link: Link)
      modifies this
      ensures var r := SubmitAcknowledgement(old(State()), id, link); State() == r.0 && sent == old(sent) + r.1
      ensures
        var sends := link.ready && id in old(pendingAcknowledgements) && id !in old(acknowledgementsInFlight);
        && sent == old(sent) + (if sends then [Acknowledge(id)] else [])
        && acknowledgementsInFlight == old(acknowledgementsInFlight) + (if sends then {id} else {})
        && State() == old(State()).(acksInFlight := acknowledgementsInFlight)
    {
      if !link.ready || id !in pendingAcknowledgements || id in acknowledgementsInFlight { return; }
      acknowledgementsInFlight := acknowledgementsInFlight + {id};
      sent := sent + [Acknowledge(id)];
    }

    method HandleAckReply(id: Id, reply: Reply)
      modifies this
      ensures State() == OnAckReply(old(State()), id, reply) && sent == old(sent)
      ensures acknowledgementsInFlight == old(acknowledgementsInFlight) - {id}
      ensures pendingAcknowledgements ==
        old(pendingAcknowledgements) - if reply in {Unavailable, Busy} then {} else {id}
      ensures pending == old(pending) && timers == old(timers) && resolved == old(resolved)
    {
      acknowledgementsInFlight := acknowledgementsInFlight - {id};
      if reply.Immediate? || reply.Accepted? {
        pendingAcknowledgements := pendingAcknowledgements - {id};
        return;
      }
      if reply != Unavailable && reply != Busy {
        pendingAcknowledgements := pendingAcknowledgements - {id};
      }
    }

    method Elapse(timer: Timer, link: Link)
      requires timer in timers
      modifies this
      ensures var r := FireTimer(old(State()), timer, link); State() == r.0 && sent == old(sent) + r.1
      ensures timer.Timeout? && timer.id in old(pending) ==>
        Settles(old(State()).(timers := old(timers) - multiset{timer}), State(), timer.id) && sent == old(sent)
      ensures timer.Timeout? && timer.id !in old(pending) ==>
        State() == old(State()).(timers := old(timers) - multiset{timer}) && sent == old(sent)
      ensures timer.Resubmit? ==>
        var r := SubmitPending(old(State()).(timers := old(timers) - multiset{timer}), timer.id, link);
        State() == r.0 && sent == old(sent) + r.1
      ensures timer.SubmitAck? ==>
        var r := SubmitAcknowledgement(old(State()).(timers := old(timers) - multiset{timer}), timer.id, link);
        State() == r.0 && sent == old(sent) + r.1
    {
      timers := timers - multiset{timer};
      match timer {
        case Resubmit(id) => SubmitPendingCall(id, link);
        case SubmitAck(id) => SendAcknowledgement(id, link);
        case Timeout(id) => if id in pending { Complete(id); }
      }
    }

    /** The keys are copied first, because submitting changes the containers. */
    method RetryPending(link: Link) returns (ghost calls: seq<Id>, ghost acks: seq<Id>)
      modifies this
      ensures Lists(calls, old(pending).Keys)
      ensures Lists(acks, SubmitEach(old(State()), calls, link).0.acks)
      ensures var r := Retry(old(State()), calls, acks, link); State() == r.0 && sent == old(sent) + r.1
    {
      hide Lists, SubmitEach, AcknowledgeEach;
      var keys := CopyKeys(pending.Keys);
      calls := keys;
      SubmitCalls(keys, link);
      keys := CopyKeys(pendingAcknowledgements);
      acks := keys;
      SubmitAcknowledgements(keys, link);
    }

    method SubmitCalls(keys: seq<Id>, link: Link)
      modifies this
      ensures var r := SubmitEach(old(State()), keys, link); State() == r.0 && sent == old(sent) + r.1
    {
      hide SubmitPending, SubmitEach;
      EachOfNone(State(), link);
      for i := 0 to |keys|
        invariant var r := SubmitEach(old(State()), keys[..i], link); State() == r.0 && sent == old(sent) + r.1
      {
        SubmitEachStep(old(State()), keys, i, link);
        SubmitPendingCall(keys[i], link);
      }
      assert keys[..|keys|] == keys;
    }

    method SubmitAcknowledgements(keys: seq<Id>, link: Link)
      modifies this
      ensures var r := AcknowledgeEach(old(State()), keys, link); State() == r.0 && sent == old(sent) + r.1
    {
      hide SubmitAcknowledgement, AcknowledgeEach;
      EachOfNone(State(), link);
      for i := 0 to |keys|
        invariant var r := AcknowledgeEach(old(State()), keys[..i], link); State() == r.0 && sent == old(sent) + r.1
      {
        AcknowledgeEachStep(old(State()), keys, i, link);
        SendAcknowledgement(keys[i], link);
      }
      assert keys[..|keys|] == keys;
    }

    method CopyKeys(members: set<Id>) returns (keys: seq<Id>)
      ensures Lists(keys, members)
    {
      keys := [];
      var left := members;
      while left != {}
        invariant left <= members && Lists(keys, members - left)
        decreases |left|
      {
        var k :| k in left;
        keys, left := keys + [k], left - {k};
      }
      assert members - left == members;
    }

    /** Every promise is finished and every acknowledgement forgotten. */
    method FailAllCalls()
      modifies this
      ensures State() == FailAll(old(State())) && sent == old(sent)
      ensures pending == map[] && pendingAcknowledgements == acknowledgementsInFlight == {}
      ensures resolved == old(resolved) + multiset(old(pending).Keys) && timers == old(timers)
    {
      var calls := pending.Keys;
      pending, pendingAcknowledgements, acknowledgementsInFlight := map[], {}, {};
      Finish(calls);
    }

    method Finish(calls: set<Id>)
      modifies this`resolved
      ensures resolved == old(resolved) + multiset(calls)
    {
      var left := calls;
      while left != {}
        invariant left <= calls && resolved + multiset(left) == old(resolved) + multiset(calls)
        decreases |left|
      {
        var k :| k in left;
        resolved := resolved + multiset{k};
        assert multiset(left) == multiset(left - {k}) + multiset{k};
        left := left - {k};
      }
    }

    /**
     A call answered before it returns. The session's answers arrive as arguments; the command is
     sent at most twice, the second time only to the same daemon.
     */
    method InvokeImmediate(id: Id, original: Option<Instance>, first: Reply, reconnectFailed: bool,
                           reconnected: Option<Instance>, second: Reply) returns (result: Option<Reply>)
      modifies this
      ensures
        var repeated := first == Unavailable && original.Some? && !reconnectFailed && reconnected == original;
        var last := if repeated then second else first;
        var settled := repeated || first != Unavailable;
        && (repeated <==>
              AfterFirst(original, first) == Reconnect && !reconnectFailed && MayRepeat(original, reconnected))
        && (settled <==> repeated || AfterFirst(original, first).Settle?)
        && sent == old(sent) + [Submit(id)] + (if repeated then [Submit(id)] else [])
        && result == (if settled then Some(last) else None)
        && (settled && !last.Accepted? ==> State() == ScheduleAck(old(State()), id) && AfterReply(last) == Settle(true))
        && (settled && last.Accepted? ==> State() == old(State()) && AfterReply(last) == Settle(false))
        && (!settled ==> State() == old(State()))
    {
      sent := sent + [Submit(id)];
      var reply := first;
      if reply == Unavailable {
        if original.None? || reconnectFailed { return None; }
        if reconnected.None? || reconnected.value != original.value { return None; }
        sent := sent + [Submit(id)];
        reply := second;
      }
      if reply.Unavailable? || reply.Busy? || reply.Refused? {
        ScheduleAcknowledgement(id);
        return Some(reply);
      }
      if reply.Accepted? { return Some(reply); }
      ScheduleAcknowledgement(id);
      return Some(reply);
    }
  }
}
