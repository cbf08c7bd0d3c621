/** What the credential transaction and the refresh promise, for one call and over every run. */
module CredentialTheorems {
  import opened Wrappers
  import opened Credentials

  // ---------------------------------------------------------------- the transaction

  /** The last sign-in an update names for a connection. */
  predicate LastSignIn(accounts: seq<Account>, i: nat, id: Connection) {
    i < |accounts| && accounts[i].id == id && accounts[i].handle != 0
    && forall k | i < k < |accounts| && accounts[k].handle != 0 :: accounts[k].id != id
  }

  lemma ChangesOneMore(init: seq<Account>, last: Account, s: State)
    requires forall a | a in init + [last] && a.handle != 0 :: a.handle in s.staged
    ensures forall a | a in init && a.handle != 0 :: a.handle in s.staged
    ensures last.handle != 0 ==> last.handle in s.staged
    ensures var before := Overridden(s.store, Changes(init, s));
      Overridden(s.store, Changes(init + [last], s))
        == if last.handle == 0 then before else before[last.id := s.staged[last.handle].credentials]
  {
    var accounts := init + [last];
    assert last in accounts && accounts[..|accounts| - 1] == init;
    forall a | a in init && a.handle != 0 ensures a.handle in s.staged { assert a in accounts; }
    var changes := Changes(accounts, s);
    if last.handle != 0 {
      assert changes[..|changes| - 1] == Changes(init, s);
    } else {
      assert changes == Changes(init, s);
    }
  }

  lemma {:induction false} ChangesOverride(accounts: seq<Account>, s: State, id: Connection)
    requires forall a | a in accounts && a.handle != 0 :: a.handle in s.staged
    ensures forall i: nat | LastSignIn(accounts, i, id) ::
      Lookup(Overridden(s.store, Changes(accounts, s)), id) == Some(s.staged[accounts[i].handle].credentials)
    ensures (forall i: nat :: !LastSignIn(accounts, i, id)) ==>
      Lookup(Overridden(s.store, Changes(accounts, s)), id) == Lookup(s.store, id)
    decreases |accounts|, 1
  {
    if accounts == [] {
      assert Overridden(s.store, Changes(accounts, s)) == s.store;
    } else {
      ChangesOverrideStep(accounts, s, id);
    }
  }

  lemma {:induction false} ChangesOverrideStep(accounts: seq<Account>, s: State, id: Connection)
    requires accounts != [] && forall a | a in accounts && a.handle != 0 :: a.handle in s.staged
    ensures forall i: nat | LastSignIn(accounts, i, id) ::
      Lookup(Overridden(s.store, Changes(accounts, s)), id) == Some(s.staged[accounts[i].handle].credentials)
    ensures (forall i: nat :: !LastSignIn(accounts, i, id)) ==>
      Lookup(Overridden(s.store, Changes(accounts, s)), id) == Lookup(s.store, id)
    decreases |accounts|, 0
  {
    hide Changes, Overridden;
    var n := |accounts| - 1;
    var init, last := accounts[..n], accounts[n];
    assert accounts == init + [last];
    ChangesOneMore(init, last, s);
    ChangesOverride(init, s, id);
    if last.handle != 0 && last.id == id {
      assert LastSignIn(accounts, n, id);
    } else {
      assert forall i: nat :: LastSignIn(accounts, i, id) <==> LastSignIn(init, i, id);
    }
  }

  /**
   After a successful update each connection holds the last sign-in named for it, or what it held before;
   removed accounts hold nothing, unless their removal failed.
   */
  lemma CommittedCredentials(s: State, accounts: seq<Account>, env: Env, id: Connection)
    requires Update(s, Some(accounts), env).updated
    ensures var store := Update(s, Some(accounts), env).state.store;
      var removed := (exists a | a in s.accounts :: a.id == id) && (forall a | a in accounts :: a.id != id)
                     && id !in env.failedRemovals;
      && (removed ==> id !in store)
      && (!removed ==>
            && (forall i: nat | LastSignIn(accounts, i, id) ::
                  accounts[i].handle in s.staged
                  && id in store && store[id] == s.staged[accounts[i].handle].credentials)
            && ((forall i: nat :: !LastSignIn(accounts, i, id)) ==>
                  (id in store <==> id in s.store) && (id in store ==> store[id] == s.store[id])))
  {
    hide Changes, Overridden;
    var pruned := s.(staged := Pruned(s.staged, env.now));
    forall a | a in accounts ensures Usable(a, pruned.staged, env.unreadable) {}
    ChangesOverride(accounts, pruned, id);
    var r := Update(s, Some(accounts), env).state;
    SameNames(accounts, r.accounts, id);
  }

  lemma SameNames(a: seq<Account>, b: seq<Account>, id: Connection)
    requires |a| == |b| && forall i | 0 <= i < |a| :: a[i].id == b[i].id
    ensures Names(a, id) == Names(b, id)
  {
    if Names(a, id) {
      var x :| x in a && x.id == id;
      var i :| 0 <= i < |a| && a[i] == x;
      assert b[i] in b;
    }
    if Names(b, id) {
      var x :| x in b && x.id == id;
      var i :| 0 <= i < |b| && b[i] == x;
      assert a[i] in a;
    }
  }

  lemma {:induction false} ChangesUseHandles(accounts: seq<Account>, s: State)
    requires forall a | a in accounts && a.handle != 0 :: a.handle in s.staged
    ensures forall c | c in Changes(accounts, s) ::
      c.handle != 0 && c.handle in s.staged && c.replacement == s.staged[c.handle].credentials
    ensures forall a | a in accounts && a.handle != 0 :: a.handle in Handles(Changes(accounts, s))
  {
    if accounts != [] {
      var init, last := accounts[..|accounts| - 1], accounts[|accounts| - 1];
      ChangesUseHandles(init, s);
      var before, all := Changes(init, s), Changes(accounts, s);
      assert forall c | c in before :: c in all;
      forall a | a in accounts && a.handle != 0 ensures a.handle in Handles(all) {
        if a in init {
          var c :| c in before && c.handle == a.handle;
          assert c in all;
        } else {
          assert a == last;
          assert all[|all| - 1] in all;
        }
      }
    }
  }

  /** A sign-in is spent by the update that uses it, and was at most ten minutes old. */
  lemma SignInsAreSpent(s: State, accounts: seq<Account>, env: Env, a: Account)
    requires Update(s, Some(accounts), env).updated && a in accounts && a.handle != 0
    ensures a.handle in s.staged && s.staged[a.handle].createdAt >= env.now - 600
    ensures a.handle !in Update(s, Some(accounts), env).state.staged
  {
    hide Changes, Overridden, Prepared, Flagged, Removed;
    var pruned := s.(staged := Pruned(s.staged, env.now));
    forall b | b in accounts ensures Usable(b, pruned.staged, env.unreadable) {}
    ChangesUseHandles(accounts, pruned);
  }

  // ---------------------------------------------------------------- the last rejection

  /** How many sign-ins the accounts name, and so how many credentials are written. */
  function SignIns(accounts: seq<Account>): nat {
    if accounts == [] then 0
    else SignIns(accounts[..|accounts| - 1]) + (if accounts[|accounts| - 1].handle == 0 then 0 else 1)
  }

  /** The daemon is ready, reads every account, and knows every sign-in named, none older than ten minutes. */
  predicate Admitted(s: State, accounts: seq<Account>, env: Env) {
    env.ready && forall a | a in accounts ::
      a.id !in env.unreadable
      && (a.handle != 0 ==> a.handle in s.staged && s.staged[a.handle].createdAt >= env.now - 600)
  }

  /** The repository is given the accounts: no write of a sign-in has failed before. */
  predicate Submitted(s: State, accounts: seq<Account>, env: Env) {
    Admitted(s, accounts, env) && forall k | k in env.failedWrites :: SignIns(accounts) <= k
  }

  /** Everything succeeded until the flags of the new snapshot could not be refreshed. */
  predicate LateRejection(s: State, accounts: seq<Account>, env: Env) {
    Submitted(s, accounts, env) && env.accepted && env.reloaded
    && exists a | a in accounts :: a.id in env.unreadableAfter
  }

  lemma AdmittedIs(s: State, accounts: seq<Account>, env: Env)
    requires env.ready
    ensures Admitted(s, accounts, env) <==>
      forall a | a in accounts :: Usable(a, Pruned(s.staged, env.now), env.unreadable)
    ensures Admitted(s, accounts, env) ==>
      forall a | a in accounts && a.handle != 0 :: a.handle in Pruned(s.staged, env.now)
  {
    forall a | a in accounts
      ensures Usable(a, Pruned(s.staged, env.now), env.unreadable) <==>
        a.id !in env.unreadable
        && (a.handle != 0 ==> a.handle in s.staged && s.staged[a.handle].createdAt >= env.now - 600)
    {
    }
  }

  lemma {:induction false} ChangesCount(accounts: seq<Account>, s: State)
    requires forall a | a in accounts && a.handle != 0 :: a.handle in s.staged
    ensures |Changes(accounts, s)| == SignIns(accounts)
  {
    if accounts != [] { ChangesCount(accounts[..|accounts| - 1], s); }
  }

  /** What is first unreadable depends on the names of the accounts only. */
  lemma SameFirst(a: seq<Account>, b: seq<Account>, unreadable: set<Connection>)
    requires |a| == |b| && forall i | 0 <= i < |a| :: a[i].id == b[i].id
    ensures FirstUnreadable(a, unreadable) == FirstUnreadable(b, unreadable)
    ensures FirstUnreadable(a, unreadable) < |a| <==> exists x | x in a :: x.id in unreadable
  {
    hide FirstUnreadable;
  }

  /** An update with accounts is the plan that writes the sign-ins and then the accounts. */
  lemma UpdateIs(s: State, accounts: seq<Account>, env: Env)
    ensures var pruned := s.(staged := Pruned(s.staged, env.now));
      Update(s, Some(accounts), env) ==
        if !env.ready then Outcome(false, s)
        else if !Admitted(s, accounts, env) then Outcome(false, pruned)
        else Apply(pruned, Prepared(accounts, s.store), Changes(accounts, pruned), env)
    ensures Admitted(s, accounts, env) ==>
      && env.ready && (forall a | a in accounts && a.handle != 0 :: a.handle in Pruned(s.staged, env.now))
      && |Changes(accounts, s.(staged := Pruned(s.staged, env.now)))| == SignIns(accounts)
  {
    hide Apply, Changes, Prepared, Pruned, Usable, Admitted;
    if env.ready {
      AdmittedIs(s, accounts, env);
      if Admitted(s, accounts, env) { ChangesCount(accounts, s.(staged := Pruned(s.staged, env.now))); }
    } else {
      assert !Admitted(s, accounts, env) by { NotAdmitted(s, accounts, env); }
    }
  }

  lemma NotAdmitted(s: State, accounts: seq<Account>, env: Env)
    requires !env.ready
    ensures !Admitted(s, accounts, env)
  {
  }

  /**
   A rejected update keeps the accounts of the snapshot, unless it is rejected last. Then the snapshot
   holds the requested accounts: up to the first one that cannot be read their flags tell what was stored
   before the rollback, and from there on what the request was prepared with. The store is as before all
   the same, and the repository keeps the requested accounts as soon as it has accepted them.
   */
  lemma RejectedSnapshot(s: State, accounts: seq<Account>, env: Env)
    requires !Update(s, Some(accounts), env).updated
    ensures var r := Update(s, Some(accounts), env).state;
      var n := FirstUnreadable(accounts, env.unreadableAfter);
      && r.store == s.store
      && (!LateRejection(s, accounts, env) ==> r.accounts == s.accounts)
      && (LateRejection(s, accounts, env) ==>
            n < |accounts| == |r.accounts|
            && (forall i | n <= i < |accounts| :: r.accounts[i] == accounts[i].(handle := 0,
                  hasCredentials := accounts[i].handle != 0
                    || (accounts[i].id in s.store && s.store[accounts[i].id].access != 0)))
            && (forall i | 0 <= i < n :: r.accounts[i] == accounts[i].(handle := 0,
                  hasCredentials := Written(s, accounts, accounts[i].id).Some?
                    && Written(s, accounts, accounts[i].id).value.access != 0)))
  {
    hide Update, Overridden, Changes, Prepared, FirstUnreadable, Refreshed, LastSignIn, Pruned, Written, LateRejection;
    RejectedState(s, accounts, env);
    if LateRejection(s, accounts, env) {
      var request, changes := Prepared(accounts, s.store), Changes(accounts, s.(staged := Pruned(s.staged, env.now)));
      SameFirst(accounts, request, env.unreadableAfter);
      forall i | 0 <= i < |accounts|
        ensures Lookup(Overridden(s.store, changes), accounts[i].id) == Written(s, accounts, accounts[i].id)
      {
        WrittenIs(s, accounts, env, accounts[i].id);
      }
    }
  }

  lemma RejectedState(s: State, accounts: seq<Account>, env: Env)
    requires !Update(s, Some(accounts), env).updated
    ensures var r := Update(s, Some(accounts), env).state;
      var pruned := s.(staged := Pruned(s.staged, env.now));
      && r.store == s.store
      && (!LateRejection(s, accounts, env) ==> r.accounts == s.accounts)
      && (LateRejection(s, accounts, env) ==>
            && (forall a | a in accounts && a.handle != 0 :: a.handle in pruned.staged && a.handle in s.staged)
            && FirstUnreadable(accounts, env.unreadableAfter) < |accounts|
            && r.accounts == Refreshed(Prepared(accounts, s.store), Overridden(s.store, Changes(accounts, pruned)),
                                       env.unreadableAfter))
  {
    hide Update, Apply, Overridden, Changes, Prepared, FirstUnreadable, Refreshed, Pruned;
    UpdateIs(s, accounts, env);
    if Admitted(s, accounts, env) {
      var pruned := s.(staged := Pruned(s.staged, env.now));
      var request := Prepared(accounts, s.store);
      SameFirst(accounts, request, env.unreadableAfter);
      ApplyRejected(pruned, request, Changes(accounts, pruned), env);
    }
  }

  lemma WrittenIs(s: State, accounts: seq<Account>, env: Env, id: Connection)
    requires forall a | a in accounts && a.handle != 0 :: a.handle in Pruned(s.staged, env.now)
    ensures Lookup(Overridden(s.store, Changes(accounts, s.(staged := Pruned(s.staged, env.now)))), id)
         == Written(s, accounts, id)
  {
    hide Overridden, Changes, LastSignIn;
    ChangesOverride(accounts, s.(staged := Pruned(s.staged, env.now)), id);
  }

  lemma HandlesStaged(accounts: seq<Account>, s: State, env: Env)
    requires forall a | a in accounts :: Usable(a, s.staged, env.unreadable)
    ensures forall a | a in accounts && a.handle != 0 :: a.handle in s.staged
  {
  }

  lemma ApplyRejected(s: State, request: seq<Account>, changes: seq<Change>, env: Env)
    requires !Apply(s, request, changes, env).updated
    ensures var r := Apply(s, request, changes, env).state;
      var late := (forall k | 0 <= k < |changes| :: k !in env.failedWrites) && env.accepted && env.reloaded;
      && r.store == s.store
      && (late ==> FirstUnreadable(request, env.unreadableAfter) < |request|
                   && r.accounts == Refreshed(request, Overridden(s.store, changes), env.unreadableAfter))
      && (!late ==> r.accounts == s.accounts)
  {
    hide Overridden, FirstUnreadable, Refreshed, Removed;
  }

  /** What the update wrote for a connection before it was undone: its last sign-in, or what it held. */
  ghost function Written(s: State, accounts: seq<Account>, id: Connection): Option<Secrets>
    requires forall a | a in accounts && a.handle != 0 :: a.handle in s.staged
  {
    if exists i: nat :: LastSignIn(accounts, i, id) then
      var i: nat :| LastSignIn(accounts, i, id);
      assert accounts[i] in accounts;
      Some(s.staged[accounts[i].handle].credentials)
    else Lookup(s.store, id)
  }

  /**
   A sign-in whose update is rejected last: the snapshot says that its account has credentials, and the
   store has none.
   */
  lemma RejectedSnapshotMisleads(token: Token)
    requires token != 0
    ensures
      var plain := Account(1, 0, 0, false, 0, 0, 0, 0, 0, false);
      var accounts := [plain.(handle := 7), plain.(id := 2)];
      var s := State(map[], [plain, plain.(id := 2)], [plain, plain.(id := 2)],
                     map[7 := Staged(Secrets(token, 0, 0), 0)]);
      var env := Env(true, 0, {}, {}, true, true, {2}, {});
      var r := Update(s, Some(accounts), env);
      !r.updated && r.state.store == map[] && r.state.accounts[0].id == 1 && r.state.accounts[0].hasCredentials
  {
    var plain := Account(1, 0, 0, false, 0, 0, 0, 0, 0, false);
    var accounts := [plain.(handle := 7), plain.(id := 2)];
    var s := State(map[], [plain, plain.(id := 2)], [plain, plain.(id := 2)],
                   map[7 := Staged(Secrets(token, 0, 0), 0)]);
    var env := Env(true, 0, {}, {}, true, true, {2}, {});
    var pruned := s.(staged := Pruned(s.staged, env.now));
    assert pruned.staged == s.staged;
    forall a | a in accounts ensures Usable(a, pruned.staged, env.unreadable) {}
    assert LastSignIn(accounts, 0, 1);
    ChangesOverride(accounts, pruned, 1);
    var prepared := Prepared(accounts, s.store);
    assert prepared[1].id in env.unreadableAfter && prepared[0].id !in env.unreadableAfter;
    assert FirstUnreadable(prepared, env.unreadableAfter) == 1;
  }

  // ---------------------------------------------------------------- the refresh

  predicate NoHandles(accounts: seq<Account>) {
    forall a | a in accounts :: a.handle == 0
  }

  lemma {:induction false} NoChanges(accounts: seq<Account>, s: State)
    requires NoHandles(accounts)
    ensures Changes(accounts, s) == []
  {
    if accounts != [] { NoChanges(accounts[..|accounts| - 1], s); }
  }

  /** An update of the same accounts that names no sign-in touches no credentials. */
  lemma QuietUpdate(s: State, accounts: seq<Account>, env: Env)
    requires NoHandles(accounts) && |accounts| == |s.accounts|
    requires forall i | 0 <= i < |accounts| :: accounts[i].id == s.accounts[i].id
    ensures var r := Update(s, Some(accounts), env);
      r.state.store == s.store && |r.state.accounts| == |accounts|
      && (forall i | 0 <= i < |accounts| ::
            r.state.accounts[i].id == accounts[i].id
            && (r.state.accounts[i].reauthenticate == accounts[i].reauthenticate
                || r.state.accounts[i] == s.accounts[i]))
  {
    hide Changes, Prepared, FirstUnreadable, Refreshed;
    var pruned := s.(staged := Pruned(s.staged, env.now));
    NoChanges(accounts, pruned);
    var r := Update(s, Some(accounts), env);
    if r.updated {
      forall id | id in s.store ensures Names(s.accounts, id) ==> Names(r.state.accounts, id) {
        SameNames(s.accounts, accounts, id);
        SameNames(accounts, r.state.accounts, id);
      }
    }
  }

  /**
   Compare and swap: a completion changes the credentials of its own connection only, or the need to sign
   in again of its accounts only, and only if the access token is still the one captured at the start.
   */
  lemma RefreshIsCompareAndSwap(s: State, capture: Capture, result: Refresh, env: Env, storeFails: bool)
    requires NoHandles(s.accounts)
    ensures var r := Complete(s, capture, result, env, storeFails);
      var same := capture.id in s.store && s.store[capture.id].access == capture.access;
      && (forall id | id != capture.id :: Lookup(r.state.store, id) == Lookup(s.store, id))
      && (r.state.store != s.store ==> same && r.outcome.Committed?)
      && (r.outcome.Committed? ==>
            same && result.Renewed? && s.store[capture.id].refresh == capture.refresh
            && r.state.store == s.store[capture.id :=
                 Secrets(result.access, result.refresh, s.store[capture.id].registration)])
      && |r.state.accounts| == |s.accounts|
      && (forall i | 0 <= i < |s.accounts| ::
            r.state.accounts[i].reauthenticate != s.accounts[i].reauthenticate ==>
              same && s.accounts[i].id == capture.id)
  {
    hide Update;
    var i := IndexOf(s.accounts, capture.id);
    if i < |s.accounts| && capture.id in s.store {
      match result
      case Renewed(access, refresh, scope, expiresAt) =>
        var current := s.store[capture.id];
        var stored := s.(store := s.store[capture.id := Secrets(access, refresh, current.registration)]);
        QuietUpdate(stored, s.accounts[i := RefreshedAccount(s.accounts[i], scope, expiresAt)], env);
        assert stored.store[capture.id := current] == s.store;
      case Failed(_) =>
        var account := s.accounts[i].(reauthenticate := true, revision := s.accounts[i].revision + 1);
        QuietUpdate(s, s.accounts[i := account], env);
    }
  }
}
