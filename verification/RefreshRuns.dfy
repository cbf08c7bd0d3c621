/** Refreshes, settings updates and sign-ins in any interleaving. */
module RefreshRuns {
  import opened Wrappers
  import opened Credentials
  import opened CredentialTheorems

  /**
   `seen` holds every access token that ever appeared, `retired` the tokens a connection no longer has,
   `commits` the refreshes that replaced a token, by connection and starting token.
   */
  datatype World = World(
    keeper: State, underWay: multiset<Capture>, seen: set<Token>,
    retired: set<(Connection, Token)>, commits: multiset<(Connection, Token)>)

  datatype Step =
    | SignedIn(handle: Handle, credentials: Secrets, now: int)
    | SettingsUpdated(update: Option<seq<Account>>, env: Env)
    | RefreshBegun(id: Connection, force: bool, env: Env)
    | RefreshCompleted(capture: Capture, result: Refresh, env: Env, storeFails: bool)

  /** Handles are fresh, and so are the tokens of sign-ins and refreshes. */
  ghost predicate Enabled(w: World, step: Step) {
    match step
    case SignedIn(handle, credentials, _) =>
      handle != 0 && handle !in w.keeper.staged && credentials.access != 0 && credentials.access !in w.seen
    case SettingsUpdated(_, _) => true
    case RefreshBegun(id, force, env) => Begin(w.keeper, id, force, env).Some?
    case RefreshCompleted(capture, result, _, _) =>
      capture in w.underWay && (result.Renewed? ==> result.access !in w.seen)
  }

  function Retiring(before: State, after: State): set<(Connection, Token)> {
    set id | id in before.store && (id !in after.store || after.store[id].access != before.store[id].access)
      :: (id, before.store[id].access)
  }

  /** The state changes; tokens that leave a connection are retired. */
  function Moved(w: World, after: State): World {
    w.(keeper := after, retired := w.retired + Retiring(w.keeper, after))
  }

  function After(w: World, step: Step): World {
    match step
    case SignedIn(handle, credentials, now) =>
      w.(keeper := w.keeper.(staged := Pruned(w.keeper.staged, now)[handle := Staged(credentials, now)]),
         seen := w.seen + {credentials.access})
    case SettingsUpdated(update, env) => Moved(w, Update(w.keeper, update, env).state)
    case RefreshBegun(id, force, env) =>
      var started := Begin(w.keeper, id, force, env);
      if started.Some? then w.(underWay := w.underWay + multiset{started.value}) else w
    case RefreshCompleted(capture, result, env, storeFails) =>
      var r := Complete(w.keeper, capture, result, env, storeFails);
      var w' := Moved(w, r.state).(underWay := w.underWay - multiset{capture},
                                 seen := if result.Renewed? then w.seen + {result.access} else w.seen);
      if r.outcome.Committed? then w'.(commits := w.commits + multiset{(capture.id, capture.access)}) else w'
  }

  ghost predicate Runs(w: World, steps: seq<Step>)
    decreases |steps|
  {
    steps == [] || (Enabled(w, steps[0]) && Runs(After(w, steps[0]), steps[1..]))
  }

  ghost function Final(w: World, steps: seq<Step>): World
    requires Runs(w, steps)
    decreases |steps|
  {
    if steps == [] then w else Final(After(w, steps[0]), steps[1..])
  }

  function Begins(stored: map<Connection, Secrets>, accounts: seq<Account>): World {
    World(State(stored, accounts, accounts, map[]), multiset{}, set id | id in stored :: stored[id].access, {},
          multiset{})
  }

  // ---------------------------------------------------------------- tokens never come back

  predicate StagedFresh(w: World) {
    && (forall h | h in w.keeper.staged :: w.keeper.staged[h].credentials.access in w.seen)
    && (forall h, id | h in w.keeper.staged && id in w.keeper.store ::
          w.keeper.store[id].access != w.keeper.staged[h].credentials.access)
    && (forall h, p | h in w.keeper.staged && p in w.retired :: p.1 != w.keeper.staged[h].credentials.access)
    && (forall h, k | h in w.keeper.staged && k in w.keeper.staged && h != k ::
          w.keeper.staged[h].credentials.access != w.keeper.staged[k].credentials.access)
  }

  predicate StoreFresh(w: World) {
    && (forall id | id in w.keeper.store ::
          w.keeper.store[id].access in w.seen && (id, w.keeper.store[id].access) !in w.retired)
    && (forall p | p in w.retired :: p.1 in w.seen)
  }

  ghost predicate Ok(w: World) {
    && NoHandles(w.keeper.accounts) && NoHandles(w.keeper.saved)
    && StagedFresh(w) && StoreFresh(w)
    && (forall p: (Connection, Token) :: w.commits[p] <= 1)
    && (forall p: (Connection, Token) | p in w.commits :: p in w.retired)
  }

  /** What a settings update may do to the tokens: install staged ones, which it then forgets. */
  predicate Installs(before: State, after: State) {
    && (forall h | h in after.staged :: h in before.staged && after.staged[h] == before.staged[h])
    && (forall id | id in after.store ::
          (id in before.store && after.store[id] == before.store[id])
          || exists h :: h in before.staged && h !in after.staged && after.store[id] == before.staged[h].credentials)
  }

  lemma MovedOk(w: World, after: State)
    requires Ok(w) && Installs(w.keeper, after) && NoHandles(after.accounts) && NoHandles(after.saved)
    ensures Ok(Moved(w, after))
  {
    var w' := Moved(w, after);
    forall id | id in after.store
      ensures after.store[id].access in w.seen && (id, after.store[id].access) !in w'.retired
      ensures forall h | h in after.staged :: after.store[id].access != after.staged[h].credentials.access
    {
      if !(id in w.keeper.store && after.store[id] == w.keeper.store[id]) {
        var h :| h in w.keeper.staged && h !in after.staged && after.store[id] == w.keeper.staged[h].credentials;
      }
    }
  }

  /** The accounts of an update, rejected or not, carry no handles. */
  lemma UpdateInstalls(s: State, update: Option<seq<Account>>, env: Env)
    requires NoHandles(s.accounts) && NoHandles(s.saved)
    ensures var after := Update(s, update, env).state;
      Installs(s, after) && NoHandles(after.accounts) && NoHandles(after.saved)
  {
    hide Installs, NoHandles;
    UpdateNoHandles(s, update, env);
    if Update(s, update, env).updated { UpdatedInstalls(s, update, env); } else { RejectedInstalls(s, update, env); }
  }

  lemma RejectedInstalls(s: State, update: Option<seq<Account>>, env: Env)
    requires !Update(s, update, env).updated
    ensures Installs(s, Update(s, update, env).state)
  {
    hide Changes, Overridden, Removed, Prepared, Refreshed, FirstUnreadable;
  }

  lemma UpdateNoHandles(s: State, update: Option<seq<Account>>, env: Env)
    requires NoHandles(s.accounts) && NoHandles(s.saved)
    ensures NoHandles(Update(s, update, env).state.accounts) && NoHandles(Update(s, update, env).state.saved)
  {
    hide Changes, Overridden, Removed, Prepared, Refreshed, FirstUnreadable, NoHandles;
    if update.Some? {
      var pruned := s.(staged := Pruned(s.staged, env.now));
      PreparedNoHandles(update.value, s.store);
      if forall a | a in update.value :: Usable(a, pruned.staged, env.unreadable) {
        HandlesStaged(update.value, pruned, env);
        var changes := Changes(update.value, pruned);
        RefreshedNoHandles(Prepared(update.value, s.store), Overridden(s.store, changes), env.unreadableAfter);
      }
    } else {
      RefreshedNoHandles(s.saved, Overridden(s.store, []), env.unreadableAfter);
    }
  }

  lemma PreparedNoHandles(accounts: seq<Account>, store: map<Connection, Secrets>)
    ensures NoHandles(Prepared(accounts, store))
  {
  }

  lemma RefreshedNoHandles(accounts: seq<Account>, store: map<Connection, Secrets>, unreadable: set<Connection>)
    requires NoHandles(accounts)
    ensures NoHandles(Refreshed(accounts, store, unreadable))
  {
    var r := Refreshed(accounts, store, unreadable);
    forall a | a in r ensures a.handle == 0 {
      var i :| 0 <= i < |r| && r[i] == a;
      assert accounts[i] in accounts;
    }
  }

  lemma UpdatedInstalls(s: State, update: Option<seq<Account>>, env: Env)
    requires Update(s, update, env).updated
    ensures Installs(s, Update(s, update, env).state)
  {
    hide Changes, Overridden, Prepared, Flagged;
    var r := Update(s, update, env);
    if update.Some? {
      var pruned := s.(staged := Pruned(s.staged, env.now));
      var accounts := update.value;
      forall a | a in accounts ensures Usable(a, pruned.staged, env.unreadable) {}
      var changes := Changes(accounts, pruned);
      ChangesUseHandles(accounts, pruned);
      forall id | id in r.state.store && !(id in s.store && r.state.store[id] == s.store[id])
        ensures exists h :: h in s.staged && h !in r.state.staged && r.state.store[id] == s.staged[h].credentials
      {
        OverriddenBy(s.store, changes, id);
        var c :| c in changes && Lookup(Overridden(s.store, changes), id) == Some(c.replacement);
        assert c.handle in Handles(changes);
      }
    } else {
      OverriddenByNothing(s.store);
    }
  }

  lemma OverriddenByNothing(store: map<Connection, Secrets>)
    ensures Overridden(store, []) == store
  {
  }

  lemma {:induction false} OverriddenBy(store: map<Connection, Secrets>, changes: seq<Change>, id: Connection)
    requires Lookup(Overridden(store, changes), id) != Lookup(store, id)
    ensures exists c :: c in changes && Lookup(Overridden(store, changes), id) == Some(c.replacement)
  {
    if changes != [] {
      var init, last := changes[..|changes| - 1], changes[|changes| - 1];
      assert last in changes;
      if last.id != id {
        OverriddenBy(store, init, id);
        var c :| c in init && Lookup(Overridden(store, init), id) == Some(c.replacement);
        assert c in changes;
      }
    }
  }

  lemma SignedInOk(w: World, step: Step)
    requires Ok(w) && step.SignedIn? && Enabled(w, step)
    ensures Ok(After(w, step))
  {
  }

  /** A completion forgets no staged sign-in but the old ones, and its accounts carry no handles. */
  lemma CompleteKeeps(s: State, capture: Capture, result: Refresh, env: Env, storeFails: bool)
    requires NoHandles(s.accounts) && NoHandles(s.saved)
    ensures var after := Complete(s, capture, result, env, storeFails).state;
      && NoHandles(after.accounts) && NoHandles(after.saved)
      && forall h | h in after.staged :: h in s.staged && after.staged[h] == s.staged[h]
  {
    hide Update, Installs, NoHandles;
    var i := IndexOf(s.accounts, capture.id);
    if i < |s.accounts| && capture.id in s.store {
      match result
      case Renewed(access, refresh, scope, expiresAt) =>
        var current := s.store[capture.id];
        var stored := s.(store := s.store[capture.id := Secrets(access, refresh, current.registration)]);
        var update := Some(s.accounts[i := RefreshedAccount(s.accounts[i], scope, expiresAt)]);
        UpdateInstalls(stored, update, env);
        InstallsStaged(stored, Update(stored, update, env).state);
      case Failed(_) =>
        var account := s.accounts[i].(reauthenticate := true, revision := s.accounts[i].revision + 1);
        var update := Some(s.accounts[i := account]);
        UpdateInstalls(s, update, env);
        InstallsStaged(s, Update(s, update, env).state);
    }
  }

  lemma InstallsStaged(s: State, after: State)
    requires Installs(s, after)
    ensures forall h | h in after.staged :: h in s.staged && after.staged[h] == s.staged[h]
  {
  }

  lemma OkHandles(w: World)
    requires Ok(w)
    ensures NoHandles(w.keeper.accounts) && NoHandles(w.keeper.saved)
  {
    hide StagedFresh, StoreFresh, NoHandles;
  }

  lemma SameStoreInstalls(s: State, after: State)
    requires after.store == s.store
    requires forall h | h in after.staged :: h in s.staged && after.staged[h] == s.staged[h]
    ensures Installs(s, after)
  {
  }

  lemma RefreshCompletedOk(w: World, step: Step)
    requires Ok(w) && step.RefreshCompleted? && Enabled(w, step)
    ensures Ok(After(w, step))
  {
    hide Complete, Ok, NoHandles, Installs, Moved;
    var capture := step.capture;
    var r := Complete(w.keeper, capture, step.result, step.env, step.storeFails);
    OkHandles(w);
    RefreshIsCompareAndSwap(w.keeper, capture, step.result, step.env, step.storeFails);
    CompleteKeeps(w.keeper, capture, step.result, step.env, step.storeFails);
    if r.outcome.Committed? {
      CommitOk(w, capture, step.result, r.state);
    } else {
      SameStoreInstalls(w.keeper, r.state);
      MovedOk(w, r.state);
      SameSeen(w, r.state);
      MoreSeen(Moved(w, r.state), if step.result.Renewed? then {step.result.access} else {},
               w.underWay - multiset{capture});
    }
  }

  lemma SameSeen(w: World, after: State)
    ensures Moved(w, after).seen + {} == w.seen == Moved(w, after).seen
  {
  }

  lemma MoreSeen(w: World, more: set<Token>, underWay: multiset<Capture>)
    requires Ok(w)
    ensures Ok(w.(seen := w.seen + more, underWay := underWay))
  {
  }

  /** The starting token leaves the connection for good, so it commits no second refresh. */
  lemma CommitOk(w: World, capture: Capture, result: Refresh, after: State)
    requires Ok(w) && result.Renewed? && result.access !in w.seen
    requires capture.id in w.keeper.store && w.keeper.store[capture.id].access == capture.access
    requires after.store == w.keeper.store[capture.id :=
      Secrets(result.access, result.refresh, w.keeper.store[capture.id].registration)]
    requires NoHandles(after.accounts) && NoHandles(after.saved)
    requires forall h | h in after.staged :: h in w.keeper.staged && after.staged[h] == w.keeper.staged[h]
    ensures Ok(Moved(w, after).(underWay := w.underWay - multiset{capture}, seen := w.seen + {result.access},
                                commits := w.commits + multiset{(capture.id, capture.access)}))
  {
    hide NoHandles;
    var p := (capture.id, capture.access);
    assert p !in w.retired && w.commits[p] == 0;
    OneRetires(w, capture.id, after);
  }

  lemma OneRetires(w: World, id: Connection, after: State)
    requires id in w.keeper.store && id in after.store && after.store == w.keeper.store[id := after.store[id]]
    requires after.store[id].access != w.keeper.store[id].access
    ensures Retiring(w.keeper, after) == {(id, w.keeper.store[id].access)}
  {
  }

  lemma StepOk(w: World, step: Step)
    requires Ok(w) && Enabled(w, step)
    ensures Ok(After(w, step))
  {
    hide Complete, Update;
    match step
    case SignedIn(_, _, _) => SignedInOk(w, step);
    case SettingsUpdated(update, env) =>
      UpdateInstalls(w.keeper, update, env);
      MovedOk(w, Update(w.keeper, update, env).state);
    case RefreshBegun(_, _, _) => MoreSeen(w, {}, After(w, step).underWay);
    case RefreshCompleted(_, _, _, _) => RefreshCompletedOk(w, step);
  }

  lemma {:induction false} RunOk(w: World, steps: seq<Step>)
    requires Ok(w) && Runs(w, steps)
    ensures Ok(Final(w, steps))
    decreases |steps|
  {
    hide Ok, After, Enabled;
    if steps != [] {
      StepOk(w, steps[0]);
      RunOk(After(w, steps[0]), steps[1..]);
    }
  }

  /** With fresh tokens at most one refresh commits for each starting token of a connection. */
  lemma OneCommitPerToken(stored: map<Connection, Secrets>, accounts: seq<Account>, steps: seq<Step>,
                          id: Connection, token: Token)
    requires NoHandles(accounts) && Runs(Begins(stored, accounts), steps)
    ensures Final(Begins(stored, accounts), steps).commits[(id, token)] <= 1
  {
    hide Runs, Final;
    var w := Begins(stored, accounts);
    assert Ok(w);
    RunOk(w, steps);
  }

  /** A token that a connection has lost is never its token again. */
  lemma RetiredForGood(stored: map<Connection, Secrets>, accounts: seq<Account>, steps: seq<Step>, id: Connection)
    requires NoHandles(accounts) && Runs(Begins(stored, accounts), steps)
    ensures var w := Final(Begins(stored, accounts), steps);
      id in w.keeper.store ==> (id, w.keeper.store[id].access) !in w.retired
  {
    hide Runs, Final;
    var w := Begins(stored, accounts);
    assert Ok(w);
    RunOk(w, steps);
  }
}
