/** What a retry sends and leaves, call by call, and when the client sends anything at all. */
module RemoteRetry {
  import opened Wrappers
  import opened RemoteClient
  import opened RemoteWorld

  /** The call was made with another daemon than the one greeted now. */
  predicate Elsewhere(call: Call, link: Link) {
    call.daemon.Some? && link.daemon.Some? && call.daemon.value != link.daemon.value
  }

  predicate Once(keys: seq<Id>) {
    forall i, j | 0 <= i < j < |keys| :: keys[i] != keys[j]
  }

  /** The call after a visit in a ready session. */
  function Visited(call: Call, link: Link): Call {
    if call.inFlight then call
    else Call(if call.daemon.None? then link.daemon else call.daemon, true, call.window, call.timeoutScheduled)
  }

  predicate Leaves(c: Client, id: Id, link: Link) {
    id in c.pending && !c.pending[id].inFlight && Elsewhere(c.pending[id], link)
  }

  lemma VisitExactly(c: Client, id: Id, link: Link)
    requires link.ready
    ensures var r := SubmitPending(c, id, link);
      var leaves := Leaves(c, id, link);
      && r.0.pending == (if id !in c.pending then c.pending else if leaves then c.pending - {id}
                         else c.pending[id := Visited(c.pending[id], link)])
      && r.1 == (if id in c.pending && !leaves && !c.pending[id].inFlight then [Submit(id)] else [])
      && (leaves ==> Settles(c, r.0, id))
      && (!leaves ==> r.0 == c.(pending := r.0.pending))
  {
    if id in c.pending { assert c.pending[id := c.pending[id]] == c.pending; }
  }

  lemma OnceLess(keys: seq<Id>)
    requires keys != [] && Once(keys)
    ensures Once(keys[..|keys| - 1]) && keys[|keys| - 1] !in keys[..|keys| - 1]
    ensures forall k :: k in keys <==> k in keys[..|keys| - 1] || k == keys[|keys| - 1]
  {
  }

  /**
   Each visited call that was idle goes out once, pinned to the daemon of the session if it had none; a call
   of another daemon is given up and acknowledged instead. Nothing else is sent, and no other call touched.
   */
  lemma {:induction false} SubmitEachExactly(c: Client, keys: seq<Id>, link: Link, id: Id)
    requires link.ready && Once(keys)
    ensures var r := SubmitEach(c, keys, link);
      var visits := id in keys && id in c.pending;
      && (id in r.0.pending <==> id in c.pending && !(visits && Leaves(c, id, link)))
      && (id in r.0.pending ==>
            r.0.pending[id] == if visits then Visited(c.pending[id], link) else c.pending[id])
      && multiset(r.1)[Submit(id)] == (if visits && !c.pending[id].inFlight && !Leaves(c, id, link) then 1 else 0)
      && Acknowledge(id) !in r.1
      && r.0.acksInFlight == c.acksInFlight
      && (id in r.0.acks <==> id in c.acks || (visits && Leaves(c, id, link)))
      && r.0.resolved[id] == c.resolved[id] + (if visits && Leaves(c, id, link) then 1 else 0)
    decreases |keys|
  {
    hide SubmitPending, Elsewhere;
    if keys != [] {
      var init, last := keys[..|keys| - 1], keys[|keys| - 1];
      OnceLess(keys);
      SubmitEachExactly(c, init, link, id);
      SubmitEachExactly(c, init, link, last);
      VisitExactly(SubmitEach(c, init, link).0, last, link);
    }
  }

  /** Each visited acknowledgement that is owed and not under way goes out once. */
  lemma {:induction false} AcknowledgeEachExactly(c: Client, keys: seq<Id>, link: Link, id: Id)
    requires link.ready && Once(keys)
    ensures var r := AcknowledgeEach(c, keys, link);
      && r.0 == c.(acksInFlight := r.0.acksInFlight)
      && (id in r.0.acksInFlight <==> id in c.acksInFlight || (id in keys && id in c.acks))
      && multiset(r.1)[Acknowledge(id)] == (if id in keys && id in c.acks && id !in c.acksInFlight then 1 else 0)
      && Submit(id) !in r.1
    decreases |keys|
  {
    if keys != [] {
      var init, last := keys[..|keys| - 1], keys[|keys| - 1];
      OnceLess(keys);
      AcknowledgeEachExactly(c, init, link, id);
      AcknowledgeEachExactly(c, init, link, last);
    }
  }

  lemma ListsOnce(keys: seq<Id>, members: set<Id>)
    requires Lists(keys, members)
    ensures Once(keys) && forall k :: k in keys <==> k in members
  {
  }

  /**
   A retry in a ready session sends every idle call that may go to this daemon once, and then once every
   acknowledgement that is owed and not under way. No call stays idle.
   */
  lemma RetryExactly(c: Client, calls: seq<Id>, acks: seq<Id>, link: Link, id: Id)
    requires link.ready && Lists(calls, c.pending.Keys) && Lists(acks, SubmitEach(c, calls, link).0.acks)
    ensures var r := Retry(c, calls, acks, link);
      var idle := id in c.pending && !c.pending[id].inFlight;
      var leaves := idle && Elsewhere(c.pending[id], link);
      && multiset(r.1)[Submit(id)] == (if idle && !leaves then 1 else 0)
      && (id in r.0.pending <==> id in c.pending && !leaves)
      && (id in r.0.pending ==> r.0.pending[id] == Visited(c.pending[id], link) && r.0.pending[id].inFlight)
      && (id in r.0.acks <==> id in c.acks || leaves)
      && (id in r.0.acksInFlight <==> id in c.acksInFlight || id in r.0.acks)
      && multiset(r.1)[Acknowledge(id)] == (if id in r.0.acks && id !in c.acksInFlight then 1 else 0)
      && r.0.resolved[id] == c.resolved[id] + (if leaves then 1 else 0)
  {
    hide SubmitEach, AcknowledgeEach, Elsewhere, Lists, Once;
    ListsOnce(calls, c.pending.Keys);
    SubmitEachExactly(c, calls, link, id);
    var middle := SubmitEach(c, calls, link).0;
    ListsOnce(acks, middle.acks);
    AcknowledgeEachExactly(middle, acks, link, id);
    var f, g := SubmitEach(c, calls, link).1, AcknowledgeEach(middle, acks, link).1;
    assert multiset(f + g) == multiset(f) + multiset(g);
    assert Submit(id) !in multiset(g) && Acknowledge(id) !in multiset(f);
  }

  lemma {:induction false} NothingSent(c: Client, keys: seq<Id>, link: Link)
    requires !link.ready
    ensures SubmitEach(c, keys, link) == AcknowledgeEach(c, keys, link) == (c, [])
    decreases |keys|
  {
    if keys != [] {
      NothingSent(c, keys[..|keys| - 1], link);
      var none: seq<Frame> := [];
      assert none + none == none;
    }
  }

  /** The client hands frames over only to a session that is connected, greeted and not recovering. */
  lemma FramesOnlyWhenReady(w: World, step: Step)
    requires OfFrames(step) && Enabled(w, step) && Response(w, step).1 != []
    ensures var s := After(w, step).session;
      s.connected.Some? && s.greeted.Some? && !s.recovering
  {
    hide SubmitEach, AcknowledgeEach, SendAll;
    var link := LinkOf(Before(w, step).session);
    SendAllKeepsSession(Before(w, step).(client := Response(w, step).0), Response(w, step).1);
    if step.RecoveryEnded? && !link.ready {
      NothingSent(w.client, step.calls, link);
      NothingSent(w.client, step.acks, link);
    }
  }

  /** In such a session a new call goes out at once. */
  lemma SentWhenReady(w: World, step: Step)
    requires step.Invoked? && Enabled(w, step)
    requires w.session.connected.Some? && w.session.greeted.Some? && !w.session.recovering
    ensures Response(w, step).1 == [Submit(step.id)]
  {
  }
}
