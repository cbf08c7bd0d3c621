/**
 What an update and a refresh change and what they leave, account by account and field by field, told from
 the request, the store and the answers alone.
 */
module CredentialUpdates {
  import opened Wrappers
  import opened Credentials
  import opened CredentialTheorems

  // ---------------------------------------------------------------- the settings update

  /** An update succeeds exactly when it is admitted and every store answers to the last. */
  lemma UpdatesExactly(s: State, accounts: seq<Account>, env: Env)
    ensures Update(s, Some(accounts), env).updated <==>
      && Submitted(s, accounts, env) && env.accepted && env.reloaded
      && forall a | a in accounts :: a.id !in env.unreadableAfter
  {
    hide Apply, Overridden, Changes, Prepared, FirstUnreadable, Pruned, Admitted, Update;
    UpdateIs(s, accounts, env);
    SameFirst(accounts, Prepared(accounts, s.store), env.unreadableAfter);
    var pruned := s.(staged := Pruned(s.staged, env.now));
    if Admitted(s, accounts, env) {
      ApplySucceeds(pruned, Prepared(accounts, s.store), Changes(accounts, pruned), env);
      FailedBelow(|Changes(accounts, pruned)|, env.failedWrites);
    }
  }

  lemma ApplySucceeds(s: State, request: seq<Account>, changes: seq<Change>, env: Env)
    ensures Apply(s, request, changes, env).updated <==>
      && (forall k | 0 <= k < |changes| :: k !in env.failedWrites) && env.accepted && env.reloaded
      && FirstUnreadable(request, env.unreadableAfter) == |request|
  {
    hide Overridden, FirstUnreadable, Refreshed, Removed;
  }

  lemma FailedBelow(n: nat, failed: set<nat>)
    ensures (forall k | 0 <= k < n :: k !in failed) <==> forall k | k in failed :: n <= k
  {
  }

  /**
   On success the snapshot and the repository hold the requested accounts, each as requested in every field
   but its handle and its flag. The flag of the snapshot tells what the store holds now; that of the
   repository tells whether a sign-in was named or the store held a token before.
   */
  lemma UpdatedAccounts(s: State, accounts: seq<Account>, env: Env)
    requires Update(s, Some(accounts), env).updated
    ensures var r := Update(s, Some(accounts), env).state;
      && |r.accounts| == |accounts| == |r.saved|
      && (forall i | 0 <= i < |accounts| ::
            r.accounts[i] == accounts[i].(handle := 0,
              hasCredentials := accounts[i].id in r.store && r.store[accounts[i].id].access != 0))
      && (forall i | 0 <= i < |accounts| ::
            r.saved[i] == accounts[i].(handle := 0,
              hasCredentials := accounts[i].handle != 0
                || (accounts[i].id in s.store && s.store[accounts[i].id].access != 0)))
  {
    hide Apply, Overridden, Changes, Prepared, FirstUnreadable, Refreshed, Pruned, Admitted, Update;
    UpdateIs(s, accounts, env);
    var pruned := s.(staged := Pruned(s.staged, env.now));
    AppliedAccounts(pruned, Prepared(accounts, s.store), Changes(accounts, pruned), env);
  }

  lemma AppliedAccounts(s: State, request: seq<Account>, changes: seq<Change>, env: Env)
    requires Apply(s, request, changes, env).updated
    ensures var r := Apply(s, request, changes, env).state;
      && r.saved == request && |r.accounts| == |request|
      && (forall i | 0 <= i < |request| ::
            r.accounts[i] == request[i].(handle := 0,
              hasCredentials := request[i].id in r.store && r.store[request[i].id].access != 0))
  {
    hide Overridden, FirstUnreadable, Refreshed;
    var stored := Overridden(s.store, changes);
    FlagsSurviveRemoval(request, stored, s.accounts, env);
    var accounts := Refreshed(request, stored, env.unreadableAfter);
    forall i | 0 <= i < |request|
      ensures var r := Apply(s, request, changes, env).state;
        accounts[i] == request[i].(handle := 0,
          hasCredentials := request[i].id in r.store && r.store[request[i].id].access != 0)
    {
      assert accounts[i] in accounts;
    }
  }

  /** What stays staged: the sign-ins of the last ten minutes, without those that a success has used. */
  lemma StagedAfterwards(s: State, accounts: seq<Account>, env: Env, h: Handle)
    ensures var r := Update(s, Some(accounts), env);
      && (h in r.state.staged <==>
            && h in s.staged && (env.ready ==> s.staged[h].createdAt >= env.now - 600)
            && !(r.updated && h != 0 && exists a | a in accounts :: a.handle == h))
      && (h in r.state.staged ==> r.state.staged[h] == s.staged[h])
  {
    hide Apply, Overridden, Changes, Prepared, FirstUnreadable, Refreshed, Admitted, Update;
    UpdateIs(s, accounts, env);
    var pruned := s.(staged := Pruned(s.staged, env.now));
    if Admitted(s, accounts, env) {
      var changes := Changes(accounts, pruned);
      AppliedStaged(pruned, Prepared(accounts, s.store), changes, env);
      ChangesUseHandles(accounts, pruned);
      HandlesNamed(accounts, pruned, h);
    }
  }

  lemma AppliedStaged(s: State, request: seq<Account>, changes: seq<Change>, env: Env)
    ensures var r := Apply(s, request, changes, env);
      r.state.staged == if r.updated then s.staged - Handles(changes) else s.staged
  {
    hide Overridden, FirstUnreadable, Refreshed, Removed;
  }

  lemma {:induction false} HandlesNamed(accounts: seq<Account>, s: State, h: Handle)
    requires forall a | a in accounts && a.handle != 0 :: a.handle in s.staged
    ensures h in Handles(Changes(accounts, s)) <==> h != 0 && exists a | a in accounts :: a.handle == h
  {
    if accounts != [] {
      var init, last := accounts[..|accounts| - 1], accounts[|accounts| - 1];
      assert accounts == init + [last];
      HandlesNamed(init, s, h);
      assert Handles(Changes(accounts, s))
          == Handles(Changes(init, s)) + (if last.handle == 0 then {} else {last.handle});
      assert (exists a | a in accounts :: a.handle == h)
        <==> (exists a | a in init :: a.handle == h) || last.handle == h;
    }
  }

  /** The repository keeps the prepared accounts as soon as it accepts them, whatever fails afterwards. */
  lemma SavedAfterwards(s: State, accounts: seq<Account>, env: Env)
    ensures var r := Update(s, Some(accounts), env).state;
      if Submitted(s, accounts, env) && env.accepted then
        |r.saved| == |accounts|
        && forall i | 0 <= i < |accounts| ::
             r.saved[i] == accounts[i].(handle := 0,
               hasCredentials := accounts[i].handle != 0
                 || (accounts[i].id in s.store && s.store[accounts[i].id].access != 0))
      else r.saved == s.saved
  {
    hide Apply, Overridden, Changes, Prepared, FirstUnreadable, Refreshed, Pruned, Admitted, Update;
    UpdateIs(s, accounts, env);
    var pruned := s.(staged := Pruned(s.staged, env.now));
    if Admitted(s, accounts, env) {
      AppliedSaved(pruned, Prepared(accounts, s.store), Changes(accounts, pruned), env);
      FailedBelow(|Changes(accounts, pruned)|, env.failedWrites);
    }
  }

  lemma AppliedSaved(s: State, request: seq<Account>, changes: seq<Change>, env: Env)
    ensures Apply(s, request, changes, env).state.saved
         == if (forall k | 0 <= k < |changes| :: k !in env.failedWrites) && env.accepted then request else s.saved
  {
    hide Overridden, FirstUnreadable, Refreshed, Removed;
  }

  /**
   An update without accounts leaves the repository and the staged sign-ins alone. It takes the saved
   accounts into the snapshot once the repository has accepted it and could be read again, and then
   succeeds exactly when every account can be read.
   */
  lemma ReloadsExactly(s: State, env: Env)
    ensures var r := Update(s, None, env);
      var n := FirstUnreadable(s.saved, env.unreadableAfter);
      var reloads := env.ready && env.accepted && env.reloaded;
      && (r.updated <==> reloads && forall a | a in s.saved :: a.id !in env.unreadableAfter)
      && r.state.saved == s.saved && r.state.staged == s.staged
      && (!r.updated ==> r.state.store == s.store)
      && (!reloads ==> r.state == s)
      && (reloads ==>
            |r.state.accounts| == |s.saved|
            && (forall i | 0 <= i < |s.saved| && i < n :: r.state.accounts[i] == s.saved[i].(handle := 0,
                  hasCredentials := s.saved[i].id in s.store && s.store[s.saved[i].id].access != 0))
            && (n < |s.saved| ==> r.state.accounts[n] == s.saved[n].(handle := 0))
            && (forall i | n < i < |s.saved| :: r.state.accounts[i] == s.saved[i]))
  {
    hide FirstUnreadable, Refreshed, Removed;
    SameFirst(s.saved, s.saved, env.unreadableAfter);
    assert Overridden(s.store, []) == s.store;
  }

  /** A successful reload removes the credentials of the accounts that are gone, and no others. */
  lemma ReloadRemoves(s: State, env: Env, id: Connection)
    requires Update(s, None, env).updated
    ensures var store := Update(s, None, env).state.store;
      && (id in store <==>
            id in s.store
            && !((exists a | a in s.accounts :: a.id == id) && (forall a | a in s.saved :: a.id != id)
                 && id !in env.failedRemovals))
      && (id in store ==> store[id] == s.store[id])
  {
    hide FirstUnreadable, Refreshed;
    assert Overridden(s.store, []) == s.store;
    SameNames(s.saved, Update(s, None, env).state.accounts, id);
  }

  // ---------------------------------------------------------------- updates without sign-ins

  /** The updates of a refresh name the accounts of the snapshot and no sign-in. */
  predicate Quiet(s: State, accounts: seq<Account>) {
    NoHandles(accounts) && |accounts| == |s.accounts|
    && forall i | 0 <= i < |accounts| :: accounts[i].id == s.accounts[i].id
  }

  /** The snapshot takes such an update in: every account was readable, and the repository did its part. */
  predicate Reaches(accounts: seq<Account>, env: Env) {
    env.ready && env.accepted && env.reloaded && forall a | a in accounts :: a.id !in env.unreadable
  }

  lemma {:induction false} NoSignIns(accounts: seq<Account>)
    requires NoHandles(accounts)
    ensures SignIns(accounts) == 0
  {
    if accounts != [] { NoSignIns(accounts[..|accounts| - 1]); }
  }

  lemma QuietSubmitted(s: State, accounts: seq<Account>, env: Env)
    requires NoHandles(accounts)
    ensures Submitted(s, accounts, env) && env.accepted && env.reloaded <==> Reaches(accounts, env)
  {
    NoSignIns(accounts);
  }

  lemma QuietExactly(s: State, accounts: seq<Account>, env: Env)
    requires Quiet(s, accounts)
    ensures var r := Update(s, Some(accounts), env);
      && (r.updated <==> Reaches(accounts, env) && forall a | a in accounts :: a.id !in env.unreadableAfter)
      && r.state.store == s.store
      && (!Reaches(accounts, env) ==> r.state.accounts == s.accounts)
      && (Reaches(accounts, env) ==>
            |r.state.accounts| == |accounts|
            && forall i | 0 <= i < |accounts| ::
                 r.state.accounts[i] == accounts[i].(hasCredentials := r.state.accounts[i].hasCredentials))
  {
    hide Update, Submitted, Reaches, NoHandles, LastSignIn, FirstUnreadable;
    UpdatesExactly(s, accounts, env);
    QuietSubmitted(s, accounts, env);
    QuietUpdate(s, accounts, env);
    QuietHandles(accounts);
    if Update(s, Some(accounts), env).updated { UpdatedAccounts(s, accounts, env); }
    else { RejectedSnapshot(s, accounts, env); }
  }

  lemma QuietHandles(accounts: seq<Account>)
    requires NoHandles(accounts)
    ensures forall i | 0 <= i < |accounts| :: accounts[i].handle == 0
  {
  }
}
