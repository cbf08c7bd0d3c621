/**
 The world around the remote action client: its session, the first-in first-out wire to the daemon,
 the daemon processes that come and go, and the replay table each of them keeps.

 A run is any list of steps, each possible where it is taken. Replies carry arbitrary content, timers
 fire in any order, connections break at any moment and frames may be lost, so whatever holds of every
 run holds of every schedule.
 */
module RemoteWorld {
  import opened Wrappers
  import opened RemoteClient

  /** `connected` names the daemon at the other end; `unhandled` is a loss the session has not seen yet. */
  datatype Session = Session(
    connected: Option<Instance>,
    unhandled: bool,
    greeted: Option<Instance>,
    recovering: bool,
    epoch: nat)

  /** What the replay table remembers of a command. */
  datatype Status =
    | Executing      // accepted, result to follow
    | Answered       // the result is kept
    | Rejected       // a rejection is kept
    | Expired        // the result was released; resubmission is refused
    | Released       // the result was released; resubmission runs the command again

  /** `forgotten` counts how often the table forgot a command that had run, so that it may run again. */
  datatype Daemon = Daemon(
    live: Option<Instance>,
    started: set<Instance>,
    wire: seq<Frame>,
    table: map<Id, Status>,
    executions: multiset<Id>,
    unencodable: set<Id>,
    forgotten: multiset<Id>)

  datatype Phase = First | Reconnecting | Second

  datatype ImmediateCall = ImmediateCall(original: Option<Instance>, phase: Phase)

  /**
   `pin` remembers to which daemon a command was first sent, `outstanding` and `sentOn` the submissions
   whose reply has not arrived, `promised` the calls accepted on this connection, and `stranded` the
   calls nothing will wake before the next recovery.
   */
  datatype World = World(
    client: Client,
    session: Session,
    daemon: Daemon,
    immediate: map<Id, ImmediateCall>,
    known: set<Id>,
    invoked: set<Id>,
    repeatable: set<Id>,
    pin: map<Id, Instance>,
    outstanding: multiset<Id>,
    sentOn: map<Id, nat>,
    promised: set<Id>,
    stranded: set<Id>)

  const START := World(
    FRESH, Session(None, false, None, false, 0), Daemon(None, {}, [], map[], multiset{}, {}, multiset{}),
    map[], {}, {}, {}, map[], multiset{}, map[], {}, {})

  /** How a command that is not yet in the table fares. */
  datatype Outcome = Overloaded | Denied | Begun | Done | Unencoded

  datatype Step =
    | Invoked(id: Id, window: bool, repeatable: bool)
    | Replied(id: Id, reply: Reply)
    | AckReplied(id: Id, reply: Reply)
    | Fired(timer: Timer)
    | Notified(id: Id)
    | ShutDown
    | ImmediateAsked(id: Id, repeatable: bool)
    | ImmediateAnswered(id: Id, reply: Reply)
    | ImmediateRepeated(id: Id)
    | ImmediateAbandoned(id: Id)
    | DaemonStarted(instance: Instance)
    | DaemonDied
    | Delivered(outcome: Outcome)
    | OperationEnded(id: Id, encoded: bool)
    | Trimmed(id: Id)
    | ResultReleased(id: Id)
    | FrameLost(k: nat)
    | ConnectionMade
    | ConnectionLost
    | LossHandled
    | HelloAnswered
    | RecoveryBegun
    | RecoveryEnded(calls: seq<Id>, acks: seq<Id>)
    | Stopped

  function LinkOf(s: Session): (link: Link) {
    Link(s.greeted.Some? && !s.recovering && s.connected.Some?, s.greeted)
  }

  /** A frame reaches the wire only while the daemon at the other end still lives. */
  function Put(w: World, frame: Frame): (w': World) {
    if w.session.connected.None? || w.session.connected != w.daemon.live then w
    else
      var sent := w.(daemon := w.daemon.(wire := w.daemon.wire + [frame]));
      if frame.Acknowledge? || frame.id in w.pin then sent
      else sent.(pin := w.pin[frame.id := w.session.connected.value])
  }

  /** A frame of the asynchronous client: a submission is watched until its reply arrives. */
  function Send(w: World, frame: Frame): (w': World) {
    match frame
    case Acknowledge(_) => Put(w, frame)
    case Submit(id) =>
      Put(w.(outstanding := w.outstanding + multiset{id}, sentOn := w.sentOn[id := w.session.epoch],
             promised := w.promised - {id}, stranded := w.stranded - {id}), frame)
  }

  function SendAll(w: World, frames: seq<Frame>): (w': World)
    decreases |frames|
  {
    if frames == [] then w
    else Send(SendAll(w, frames[..|frames| - 1]), frames[|frames| - 1])
  }

  /** The client takes a new state and hands frames to its session. */
  function Take(w: World, r: (Client, seq<Frame>)): (w': World) {
    SendAll(w.(client := r.0), r.1)
  }

  /** Nothing will happen to the call before the next recovery. */
  predicate Idle(w: World, id: Id) {
    id in w.client.pending && !w.client.pending[id].inFlight && Resubmit(id) !in w.client.timers
    && id !in w.promised
  }

  // ---------------------------------------------------------------- the daemon

  /** A submission: replayed from the table, refused, or executed and remembered. */
  function Serve(d: Daemon, id: Id, repeatable: bool, outcome: Outcome): (d': Daemon) {
    if id in d.table && !(repeatable && d.table[id] == Released) then d
    else
      match outcome
      case Overloaded => d
      case Denied => d.(table := d.table[id := Rejected])
      case Begun => d.(table := d.table[id := Executing], executions := d.executions + multiset{id})
      case Done => d.(table := d.table[id := Answered], executions := d.executions + multiset{id})
      case Unencoded =>
        d.(table := d.table[id := Rejected], executions := d.executions + multiset{id},
           unencodable := d.unencodable + {id})
  }

  function Handle(d: Daemon, frame: Frame, repeatable: bool, outcome: Outcome): (d': Daemon) {
    match frame
    case Submit(id) => Serve(d, id, repeatable, outcome)
    case Acknowledge(id) => if id in d.table && d.table[id] != Executing then d.(table := d.table - {id}) else d
  }

  /** The finished operation answers later submissions, with a rejection if its result has no encoding. */
  function End(d: Daemon, id: Id, encoded: bool): (d': Daemon) {
    if encoded then d.(table := d.table[id := Answered])
    else d.(table := d.table[id := Rejected], unencodable := d.unencodable + {id})
  }

  /** Entries `trimReplays` may forget: a result that may be recomputed, or a rejection. */
  predicate Trimmable(w: World, id: Id) {
    id in w.daemon.table && w.daemon.table[id] != Executing
    && (id in w.repeatable || w.daemon.table[id] == Rejected)
  }

  /** The step makes the table forget a command that has run. */
  predicate Forgets(w: World, step: Step, id: Id) {
    id in w.daemon.table && w.daemon.table[id] != Released
    && ((step == Trimmed(id) && id in w.daemon.executions) || (step == ResultReleased(id) && id in w.repeatable))
  }

  /** The table after trimming or releasing. */
  function Forget(w: World, step: Step, id: Id, table: map<Id, Status>): (d: Daemon) {
    w.daemon.(table := table,
              forgotten := w.daemon.forgotten + if Forgets(w, step, id) then multiset{id} else multiset{})
  }

  // ---------------------------------------------------------------- steps

  predicate Enabled(w: World, step: Step) {
    match step
    case Invoked(id, _, _) => id !in w.known
    case Replied(id, _) => id in w.outstanding
    case AckReplied(_, _) => true
    case Fired(timer) => timer in w.client.timers
    case Notified(id) => id !in w.immediate
    case ShutDown => true
    case ImmediateAsked(id, _) => id !in w.known
    case ImmediateAnswered(id, _) => id in w.immediate && w.immediate[id].phase != Reconnecting
    case ImmediateRepeated(id) =>
      id in w.immediate && w.immediate[id].phase == Reconnecting && !w.session.recovering
      && MayRepeat(w.immediate[id].original, w.session.greeted)
    case ImmediateAbandoned(id) => id in w.immediate && w.immediate[id].phase == Reconnecting
    case DaemonStarted(instance) => w.daemon.live.None? && instance !in w.daemon.started
    case DaemonDied => w.daemon.live.Some?
    case Delivered(_) => w.daemon.live.Some? && w.daemon.wire != []
    case OperationEnded(id, _) => id in w.daemon.table && w.daemon.table[id] == Executing
    case Trimmed(id) => Trimmable(w, id)
    case ResultReleased(id) => id in w.daemon.table && w.daemon.table[id] == Answered
    case FrameLost(k) => k < |w.daemon.wire|
    case ConnectionMade => w.session.connected.None? && !w.session.unhandled && w.daemon.live.Some?
    case ConnectionLost => w.session.connected.Some?
    case LossHandled => w.session.unhandled
    case HelloAnswered => w.session.connected.Some?
    case RecoveryBegun => true
    case RecoveryEnded(calls, acks) =>
      w.session.connected.Some? && w.session.greeted == w.session.connected
      && Lists(calls, w.client.pending.Keys)
      && Lists(acks, SubmitEach(w.client, calls, LinkOf(w.session.(recovering := false))).0.acks)
    case Stopped => true
  }

  function AfterReplied(w: World, id: Id, reply: Reply): (w': World)
    requires id in w.outstanding
  {
    var c := OnReply(w.client, id, reply, LinkOf(w.session));
    var heard := w.(client := c, outstanding := w.outstanding - multiset{id});
    if id !in c.pending || !reply.Accepted? then heard
    else if id in w.sentOn && w.sentOn[id] == w.session.epoch then heard.(promised := w.promised + {id})
    else if Idle(heard, id) then heard.(stranded := w.stranded + {id})
    else heard
  }

  function AfterImmediate(w: World, id: Id, plan: ImmediatePlan): (w': World)
    requires id in w.immediate
  {
    match plan
    case GiveUp => w.(immediate := w.immediate - {id})
    case Reconnect => w.(immediate := w.immediate[id := w.immediate[id].(phase := Reconnecting)])
    case Settle(acknowledge) =>
      w.(immediate := w.immediate - {id}, client := if acknowledge then ScheduleAck(w.client, id) else w.client)
  }

  /** Steps in which the client sends frames. */
  predicate OfFrames(step: Step) {
    step.Invoked? || step.Fired? || step.RecoveryEnded?
  }

  /** The world in which it sends them. */
  function Before(w: World, step: Step): (w': World)
    requires OfFrames(step)
  {
    match step
    case Invoked(id, _, repeatable) =>
      w.(known := w.known + {id}, invoked := w.invoked + {id},
         repeatable := if repeatable then w.repeatable + {id} else w.repeatable)
    case Fired(_) => w
    case RecoveryEnded(_, _) => w.(session := w.session.(recovering := false), stranded := {})
  }

  /** Its new state and the frames. */
  function Response(w: World, step: Step): (r: (Client, seq<Frame>))
    requires OfFrames(step) && Enabled(w, step)
  {
    var link := LinkOf(Before(w, step).session);
    match step
    case Invoked(id, window, _) => Invoke(w.client, id, window, link)
    case Fired(timer) => FireTimer(w.client, timer, link)
    case RecoveryEnded(calls, acks) => Retry(w.client, calls, acks, link)
  }

  predicate OfImmediates(step: Step) {
    step.AckReplied? || step.ImmediateAsked? || step.ImmediateAnswered? || step.ImmediateRepeated?
    || step.ImmediateAbandoned?
  }

  predicate OfDaemon(step: Step) {
    step.DaemonStarted? || step.DaemonDied? || step.Delivered? || step.OperationEnded? || step.Trimmed?
    || step.ResultReleased? || step.FrameLost?
  }

  predicate OfSession(step: Step) {
    step.ConnectionMade? || step.ConnectionLost? || step.LossHandled? || step.HelloAnswered?
    || step.RecoveryBegun? || step.Stopped?
  }

  function AfterImmediates(w: World, step: Step): (w': World)
    requires OfImmediates(step) && Enabled(w, step)
  {
    match step
    case AckReplied(id, reply) => w.(client := OnAckReply(w.client, id, reply))
    case ImmediateAsked(id, repeatable) =>
      Put(w.(known := w.known + {id}, immediate := w.immediate[id := ImmediateCall(w.session.greeted, First)],
             repeatable := if repeatable then w.repeatable + {id} else w.repeatable),
          Submit(id))
    case ImmediateAnswered(id, reply) =>
      AfterImmediate(w, id, if w.immediate[id].phase == First then AfterFirst(w.immediate[id].original, reply)
                            else AfterReply(reply))
    case ImmediateRepeated(id) =>
      Put(w.(immediate := w.immediate[id := w.immediate[id].(phase := Second)]), Submit(id))
    case ImmediateAbandoned(id) => AfterImmediate(w, id, GiveUp)
  }

  /** What becomes of the daemon; nothing else changes. */
  function DaemonAfter(w: World, step: Step): (d: Daemon)
    requires OfDaemon(step) && Enabled(w, step)
  {
    match step
    case DaemonStarted(instance) => w.daemon.(live := Some(instance), started := w.daemon.started + {instance})
    case DaemonDied => w.daemon.(live := None, wire := [], table := map[])
    case Delivered(outcome) =>
      var frame := w.daemon.wire[0];
      Handle(w.daemon.(wire := w.daemon.wire[1..]), frame, frame.id in w.repeatable, outcome)
    case OperationEnded(id, encoded) => End(w.daemon, id, encoded)
    case Trimmed(id) => Forget(w, step, id, w.daemon.table - {id})
    case ResultReleased(id) =>
      Forget(w, step, id, w.daemon.table[id := if id in w.repeatable then Released else Expired])
    case FrameLost(k) => w.daemon.(wire := w.daemon.wire[..k] + w.daemon.wire[k + 1..])
  }

  function AfterSession(w: World, step: Step): (w': World)
    requires OfSession(step) && Enabled(w, step)
  {
    match step
    case ConnectionMade =>
      w.(session := w.session.(connected := w.daemon.live, epoch := w.session.epoch + 1), promised := {})
    case ConnectionLost => w.(session := w.session.(connected := None, unhandled := true))
    case LossHandled => w.(session := w.session.(unhandled := false, recovering := true))
    case HelloAnswered =>
      var greeted := w.(session := w.session.(greeted := w.session.connected));
      if LinkOf(w.session).ready || w.session.recovering then greeted
      else greeted.(stranded := set id | id in w.client.pending && Idle(w, id))
    case RecoveryBegun => w.(session := w.session.(recovering := true))
    case Stopped =>
      w.(session := w.session.(connected := None, unhandled := false, greeted := None, recovering := false))
  }

  function After(w: World, step: Step): (w': World)
    requires Enabled(w, step)
  {
    match step
    case Invoked(_, _, _) | Fired(_) | RecoveryEnded(_, _) => Take(Before(w, step), Response(w, step))
    case Replied(id, reply) => AfterReplied(w, id, reply)
    case Notified(id) => w.(client := Resolve(w.client, id), known := w.known + {id})
    case ShutDown => w.(client := FailAll(w.client))
    case AckReplied(_, _) | ImmediateAsked(_, _) | ImmediateAnswered(_, _) | ImmediateRepeated(_)
       | ImmediateAbandoned(_) => AfterImmediates(w, step)
    case DaemonStarted(_) | DaemonDied | Delivered(_) | OperationEnded(_, _) | Trimmed(_) | ResultReleased(_)
       | FrameLost(_) => w.(daemon := DaemonAfter(w, step))
    case ConnectionMade | ConnectionLost | LossHandled | HelloAnswered | RecoveryBegun | Stopped =>
      AfterSession(w, step)
  }

  predicate Runs(w: World, steps: seq<Step>)
    decreases |steps|
  {
    steps == [] || (Enabled(w, steps[0]) && Runs(After(w, steps[0]), steps[1..]))
  }

  function Final(w: World, steps: seq<Step>): (w': World)
    requires Runs(w, steps)
    decreases |steps|
  {
    if steps == [] then w else Final(After(w, steps[0]), steps[1..])
  }

  // ---------------------------------------------------------------- taking several frames

  lemma PutIgnoresClient(w: World, c: Client, frame: Frame)
    ensures Put(w.(client := c), frame) == Put(w, frame).(client := c)
    ensures Put(w, frame).client == w.client
  {
  }

  lemma SendIgnoresClient(w: World, c: Client, frame: Frame)
    ensures Send(w.(client := c), frame) == Send(w, frame).(client := c)
    ensures Send(w, frame).client == w.client
  {
    hide Put;
    match frame
    case Acknowledge(_) => PutIgnoresClient(w, c, frame);
    case Submit(id) =>
      PutIgnoresClient(w.(outstanding := w.outstanding + multiset{id}, sentOn := w.sentOn[id := w.session.epoch],
                          promised := w.promised - {id}, stranded := w.stranded - {id}), c, frame);
  }

  lemma {:induction false} SendAllKeepsClient(w: World, c: Client, frames: seq<Frame>)
    ensures SendAll(w.(client := c), frames) == SendAll(w, frames).(client := c)
    ensures SendAll(w, frames).client == w.client
    decreases |frames|
  {
    hide Send;
    if frames != [] {
      SendAllKeepsClient(w, c, frames[..|frames| - 1]);
      SendIgnoresClient(SendAll(w, frames[..|frames| - 1]), c, frames[|frames| - 1]);
    }
  }

  lemma {:induction false} SendAllConcat(w: World, a: seq<Frame>, b: seq<Frame>)
    ensures SendAll(w, a + b) == SendAll(SendAll(w, a), b)
    decreases |b|
  {
    if b == [] {
      assert a + b == a;
    } else {
      assert (a + b)[..|a + b| - 1] == a + b[..|b| - 1];
      SendAllConcat(w, a, b[..|b| - 1]);
    }
  }

  lemma TakeTwice(w: World, c1: Client, f1: seq<Frame>, c2: Client, f2: seq<Frame>)
    ensures Take(w, (c2, f1 + f2)) == Take(Take(w, (c1, f1)), (c2, f2))
  {
    hide SendAll;
    SendAllConcat(w.(client := c2), f1, f2);
    SendAllKeepsClient(w.(client := c1), c2, f1);
    assert w.(client := c1).(client := c2) == w.(client := c2);
  }

  lemma {:induction false} SendAllKeepsSession(w: World, frames: seq<Frame>)
    ensures SendAll(w, frames).session == w.session
    decreases |frames|
  {
    if frames != [] { SendAllKeepsSession(w, frames[..|frames| - 1]); }
  }

  lemma {:induction false} TakeSubmitEach(w: World, keys: seq<Id>, i: nat)
    requires i < |keys|
    ensures
      var link := LinkOf(w.session);
      var before := Take(w, SubmitEach(w.client, keys[..i], link));
      Take(w, SubmitEach(w.client, keys[..i + 1], link)) == Take(before, SubmitPending(before.client, keys[i], link))
      && before.session == w.session
  {
    hide SendAll, SubmitPending, SubmitEach;
    var link := LinkOf(w.session);
    var r := SubmitEach(w.client, keys[..i], link);
    var s := SubmitPending(r.0, keys[i], link);
    SubmitEachStep(w.client, keys, i, link);
    TakeTwice(w, r.0, r.1, s.0, s.1);
    SendAllKeepsClient(w.(client := r.0), r.0, r.1);
    SendAllKeepsSession(w.(client := r.0), r.1);
  }

  lemma {:induction false} TakeAcknowledgeEach(w: World, keys: seq<Id>, i: nat)
    requires i < |keys|
    ensures
      var link := LinkOf(w.session);
      var before := Take(w, AcknowledgeEach(w.client, keys[..i], link));
      Take(w, AcknowledgeEach(w.client, keys[..i + 1], link))
        == Take(before, SubmitAcknowledgement(before.client, keys[i], link))
      && before.session == w.session
  {
    hide SendAll, SubmitAcknowledgement, AcknowledgeEach;
    var link := LinkOf(w.session);
    var r := AcknowledgeEach(w.client, keys[..i], link);
    var s := SubmitAcknowledgement(r.0, keys[i], link);
    AcknowledgeEachStep(w.client, keys, i, link);
    TakeTwice(w, r.0, r.1, s.0, s.1);
    SendAllKeepsClient(w.(client := r.0), r.0, r.1);
    SendAllKeepsSession(w.(client := r.0), r.1);
  }

  lemma TakeRetry(w: World, calls: seq<Id>, acks: seq<Id>)
    ensures
      var link := LinkOf(w.session);
      var middle := Take(w, SubmitEach(w.client, calls, link));
      Take(w, Retry(w.client, calls, acks, link)) == Take(middle, AcknowledgeEach(middle.client, acks, link))
      && middle.session == w.session
  {
    hide SendAll, SubmitEach, AcknowledgeEach;
    var link := LinkOf(w.session);
    var r := SubmitEach(w.client, calls, link);
    var s := AcknowledgeEach(r.0, acks, link);
    TakeTwice(w, r.0, r.1, s.0, s.1);
    SendAllKeepsClient(w.(client := r.0), r.0, r.1);
    SendAllKeepsSession(w.(client := r.0), r.1);
  }
}
