/** Refresh tickets: only the latest refresh of the current scope may install its result. */
module RefreshTickets {
  const WORD := 0x1_0000_0000_0000_0000

  type word = n: nat | n < WORD

  type ScopeId = nat

  datatype Ticket = Ticket(scope: ScopeId, generation: word, causeEpoch: word)

  datatype State = State(scope: ScopeId, generation: word, installedEpoch: word, closed: bool)

  function Next(generation: word): word {
    (generation + 1) % WORD
  }

  function Begin(s: State, causeEpoch: word): (r: (State, Ticket)) {
    var s' := s.(generation := Next(s.generation));
    (s', Ticket(s.scope, s'.generation, causeEpoch))
  }

  function Replace(s: State, scope: ScopeId): State {
    State(scope, Next(s.generation), 0, false)
  }

  function Close(s: State): State {
    s.(closed := true, generation := Next(s.generation))
  }

  predicate Accepts(s: State, ticket: Ticket, resultEpoch: word) {
    !s.closed && ticket.scope == s.scope && ticket.generation == s.generation
    && resultEpoch >= ticket.causeEpoch && resultEpoch >= s.installedEpoch
  }

  function Install(s: State, ticket: Ticket, resultEpoch: word): State {
    if Accepts(s, ticket, resultEpoch) then s.(installedEpoch := resultEpoch) else s
  }

  class RefreshGeneration {
    var scope: ScopeId
    var generation: word
    var installedEpoch: word
    var closed: bool

    ghost function Abs(): State
      reads this
    {
      State(scope, generation, installedEpoch, closed)
    }

    constructor (scope: ScopeId)
      ensures Abs() == State(scope, 0, 0, false)
    {
      this.scope, generation, installedEpoch, closed := scope, 0, 0, false;
    }

    method BeginRefresh(causeEpoch: word) returns (ticket: Ticket)
      modifies this
      ensures (Abs(), ticket) == Begin(old(Abs()), causeEpoch)
      ensures generation == if old(generation) == 0xFFFF_FFFF_FFFF_FFFF then 0 else old(generation) + 1
      ensures scope == old(scope) && installedEpoch == old(installedEpoch) && closed == old(closed)
      ensures ticket.scope == scope && ticket.generation == generation && ticket.causeEpoch == causeEpoch
    {
      generation := (generation + 1) % WORD;
      return Ticket(scope, generation, causeEpoch);
    }

    method ReplaceScope(scope: ScopeId)
      modifies this
      ensures Abs() == Replace(old(Abs()), scope)
      ensures this.scope == scope && installedEpoch == 0 && !closed
      ensures generation == if old(generation) == 0xFFFF_FFFF_FFFF_FFFF then 0 else old(generation) + 1
    {
      this.scope := scope;
      generation := (generation + 1) % WORD;
      installedEpoch := 0;
      closed := false;
    }

    method CloseScope()
      modifies this
      ensures Abs() == Close(old(Abs()))
      ensures closed && scope == old(scope) && installedEpoch == old(installedEpoch)
      ensures generation == if old(generation) == 0xFFFF_FFFF_FFFF_FFFF then 0 else old(generation) + 1
    {
      closed := true;
      generation := (generation + 1) % WORD;
    }

    method TryInstall(ticket: Ticket, resultEpoch: word) returns (ok: bool)
      modifies this
      ensures ok == Accepts(old(Abs()), ticket, resultEpoch)
      ensures Abs() == Install(old(Abs()), ticket, resultEpoch)
      ensures ok <==>
        && !old(closed) && ticket.scope == old(scope) && ticket.generation == old(generation)
        && resultEpoch >= ticket.causeEpoch && resultEpoch >= old(installedEpoch)
      ensures installedEpoch == if ok then resultEpoch else old(installedEpoch)
      ensures scope == old(scope) && generation == old(generation) && closed == old(closed)
    {
      if closed || ticket.scope != scope || ticket.generation != generation { return false; }
      if resultEpoch < ticket.causeEpoch || resultEpoch < installedEpoch { return false; }
      installedEpoch := resultEpoch;
      return true;
    }
  }

  // ---------------------------------------------------------------- runs

  datatype Step = Begun(causeEpoch: word) | Replaced(scope: ScopeId) | Closed | Installed(issue: nat, resultEpoch: word)

  /** A ticket, with the number of generations there had been when it was issued. */
  datatype Issue = Issue(ticket: Ticket, at: nat)

  /**
   `turns` counts the generations without wrapping, `since` is its value when the scope was last replaced,
   `installs` are the epochs installed in the current scope.
   */
  datatype World = World(state: State, turns: nat, since: nat, issued: seq<Issue>, installs: seq<word>)

  function First(scope: ScopeId): World {
    World(State(scope, 0, 0, false), 0, 0, [], [])
  }

  predicate Enabled(w: World, step: Step) {
    step.Installed? ==> step.issue < |w.issued|
  }

  function After(w: World, step: Step): World
    requires Enabled(w, step)
  {
    match step
    case Begun(causeEpoch) =>
      var r := Begin(w.state, causeEpoch);
      w.(state := r.0, turns := w.turns + 1, issued := w.issued + [Issue(r.1, w.turns + 1)])
    case Replaced(scope) =>
      w.(state := Replace(w.state, scope), turns := w.turns + 1, since := w.turns + 1, installs := [])
    case Closed => w.(state := Close(w.state), turns := w.turns + 1)
    case Installed(issue, resultEpoch) =>
      var ticket := w.issued[issue].ticket;
      w.(state := Install(w.state, ticket, resultEpoch),
         installs := if Accepts(w.state, ticket, resultEpoch) then w.installs + [resultEpoch] else w.installs)
  }

  predicate Runs(w: World, steps: seq<Step>)
    decreases |steps|
  {
    steps == [] || (Enabled(w, steps[0]) && Runs(After(w, steps[0]), steps[1..]))
  }

  function Final(w: World, steps: seq<Step>): World
    requires Runs(w, steps)
    decreases |steps|
  {
    if steps == [] then w else Final(After(w, steps[0]), steps[1..])
  }

  predicate Sorted(epochs: seq<word>) {
    forall i, j | 0 <= i < j < |epochs| :: epochs[i] <= epochs[j]
  }

  /** `generation` is the number of turns modulo a word, in the world and in every ticket. */
  predicate Consistent(w: World) {
    && w.state.generation == w.turns % WORD && w.since <= w.turns
    && (forall i | 0 <= i < |w.issued| ::
          w.issued[i].at <= w.turns && w.issued[i].ticket.generation == w.issued[i].at % WORD
          && (w.issued[i].at > w.since ==> w.issued[i].ticket.scope == w.state.scope))
    && Sorted(w.installs)
    && (forall i | 0 <= i < |w.installs| :: w.installs[i] <= w.state.installedEpoch)
  }

  lemma NextTurn(turns: nat, generation: word)
    requires generation == turns % WORD
    ensures Next(generation) == (turns + 1) % WORD
  {
  }

  lemma StepConsistent(w: World, step: Step)
    requires Consistent(w) && Enabled(w, step)
    ensures Consistent(After(w, step))
  {
    NextTurn(w.turns, w.state.generation);
  }

  lemma {:induction false} RunConsistent(w: World, steps: seq<Step>)
    requires Consistent(w) && Runs(w, steps)
    ensures Consistent(Final(w, steps)) && Final(w, steps).turns >= w.turns
    ensures w.issued <= Final(w, steps).issued
    decreases |steps|
  {
    if steps != [] {
      StepConsistent(w, steps[0]);
      RunConsistent(After(w, steps[0]), steps[1..]);
    }
  }

  lemma SameResidue(a: nat, b: nat)
    requires a <= b
    ensures a % WORD == b % WORD <==> (b - a) % WORD == 0
  {
  }

  /**
   A ticket is accepted exactly when the scope is open and its own, the epochs allow it, and the number of
   refreshes begun, scopes replaced and scopes closed since it was issued is a multiple of 2^64.
   */
  lemma AcceptedExactly(scope: ScopeId, steps: seq<Step>, i: nat, resultEpoch: word)
    requires Runs(First(scope), steps) && i < |Final(First(scope), steps).issued|
    ensures var w := Final(First(scope), steps);
      var issue := w.issued[i];
      issue.at <= w.turns
      && (Accepts(w.state, issue.ticket, resultEpoch) <==>
            !w.state.closed && issue.ticket.scope == w.state.scope && (w.turns - issue.at) % WORD == 0
            && resultEpoch >= issue.ticket.causeEpoch && resultEpoch >= w.state.installedEpoch)
  {
    RunConsistent(First(scope), steps);
    var w := Final(First(scope), steps);
    SameResidue(w.issued[i].at, w.turns);
  }

  /** Before the counter wraps, an accepted ticket is the latest begun, with no close or replacement since. */
  lemma InstallsTheLatest(scope: ScopeId, steps: seq<Step>, i: nat, resultEpoch: word)
    requires Runs(First(scope), steps) && i < |Final(First(scope), steps).issued|
    requires Final(First(scope), steps).turns - Final(First(scope), steps).issued[i].at < WORD
    requires Accepts(Final(First(scope), steps).state, Final(First(scope), steps).issued[i].ticket, resultEpoch)
    ensures var w := Final(First(scope), steps);
      w.issued[i].at == w.turns
      && (forall j | 0 <= j < |w.issued| :: w.issued[j].at <= w.issued[i].at)
  {
    AcceptedExactly(scope, steps, i, resultEpoch);
    RunConsistent(First(scope), steps);
  }

  /** An outdated ticket stays rejected, even by a later scope of the same name, until the counter wraps. */
  lemma OutdatedForever(scope: ScopeId, steps: seq<Step>, later: seq<Step>, i: nat, resultEpoch: word)
    requires Runs(First(scope), steps) && Runs(Final(First(scope), steps), later)
    requires i < |Final(First(scope), steps).issued|
    requires Final(First(scope), steps).issued[i].at < Final(First(scope), steps).turns
    requires Final(Final(First(scope), steps), later).turns - Final(First(scope), steps).issued[i].at < WORD
    ensures var w := Final(First(scope), steps);
      !Accepts(Final(w, later).state, w.issued[i].ticket, resultEpoch)
  {
    RunConsistent(First(scope), steps);
    var w := Final(First(scope), steps);
    RunConsistent(w, later);
    var end := Final(w, later);
    assert end.issued[i] == w.issued[i];
    SameResidue(w.issued[i].at, end.turns);
  }

  /** The epochs installed in one scope never decrease. */
  lemma EpochsNeverDecrease(scope: ScopeId, steps: seq<Step>)
    requires Runs(First(scope), steps)
    ensures Sorted(Final(First(scope), steps).installs)
  {
    RunConsistent(First(scope), steps);
  }
}
