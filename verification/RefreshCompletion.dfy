/** When a refresh begins, and what its reply does to its account: exactly when, and field by field. */
module RefreshCompletion {
  import opened Wrappers
  import opened Credentials
  import opened CredentialTheorems
  import opened CredentialUpdates

  predicate First(accounts: seq<Account>, id: Connection, i: nat) {
    i < |accounts| && accounts[i].id == id && forall k | 0 <= k < i :: accounts[k].id != id
  }

  /**
   A refresh begins exactly for an account that can be refreshed and that holds a refresh token, unless
   its token lasts for more than five minutes or for ever and nobody insists. It captures what was stored.
   */
  lemma BeginsExactly(s: State, id: Connection, force: bool, env: Env, i: nat)
    requires First(s.accounts, id, i)
    ensures var a := s.accounts[i];
      var r := Begin(s, id, force, env);
      && (r.Some? <==>
            && env.ready && !a.reauthenticate && a.hasCredentials && a.tokenEndpoint != 0 && a.clientId != 0
            && id !in env.unreadable && id in s.store && s.store[id].refresh != 0
            && (force || (a.expiresAt != 0 && a.expiresAt <= env.now + 300)))
      && (r.Some? ==>
            && r.value.id == id && r.value.access == s.store[id].access && r.value.refresh == s.store[id].refresh
            && r.value.tokenEndpoint == a.tokenEndpoint && r.value.clientId == a.clientId
            && r.value.resource == a.resource)
  {
    IndexOfIs(s.accounts, id, i);
  }

  lemma BeginsForKnown(s: State, id: Connection, force: bool, env: Env)
    requires forall a | a in s.accounts :: a.id != id
    ensures Begin(s, id, force, env).None?
  {
    IndexOfIs(s.accounts, id, |s.accounts|);
  }

  // ---------------------------------------------------------------- the reply

  /** The connection can be read and still has the access token that the refresh started from. */
  predicate Current(s: State, capture: Capture, env: Env) {
    capture.id !in env.unreadable && capture.id in s.store && s.store[capture.id].access == capture.access
  }

  /** Nothing that the refresh was started with has changed since. */
  predicate Unchanged(s: State, capture: Capture, env: Env, a: Account) {
    && Current(s, capture, env) && s.store[capture.id].refresh == capture.refresh
    && a.tokenEndpoint == capture.tokenEndpoint && a.clientId == capture.clientId && a.resource == capture.resource
  }

  /** Another token was installed meanwhile: the reply is dropped and that token is the outcome. */
  lemma SupersededExactly(s: State, capture: Capture, result: Refresh, env: Env, storeFails: bool)
    ensures var r := Complete(s, capture, result, env, storeFails);
      && (r.outcome.Superseded? <==>
            capture.id !in env.unreadable && capture.id in s.store && s.store[capture.id].access != capture.access)
      && (r.outcome.Superseded? ==> r.outcome.access == s.store[capture.id].access)
      && (!Current(s, capture, env) ==> r.state == s && !r.outcome.Committed?)
  {
    hide Update;
  }

  /** A passing failure changes nothing, nor does a reply for an account that is gone. */
  lemma PassingFailure(s: State, capture: Capture, result: Refresh, env: Env, storeFails: bool)
    requires result == Failed(false) || forall a | a in s.accounts :: a.id != capture.id
    ensures var r := Complete(s, capture, result, env, storeFails);
      r.state == s && !r.outcome.Committed?
  {
    hide Update;
    if result.Renewed? || result.reauthenticate { IndexOfIs(s.accounts, capture.id, |s.accounts|); }
  }

  function Demanding(a: Account): Account {
    a.(reauthenticate := true, revision := a.revision + 1)
  }

  lemma RefusedIs(s: State, capture: Capture, env: Env, storeFails: bool, i: nat)
    requires First(s.accounts, capture.id, i)
    ensures var r := Complete(s, capture, Failed(true), env, storeFails);
      !r.outcome.Committed?
      && r.state == if Current(s, capture, env) && env.ready
                    then Update(s, Some(s.accounts[i := Demanding(s.accounts[i])]), env).state else s
  {
    hide Update;
    IndexOfIs(s.accounts, capture.id, i);
  }

  /**
   A refused grant: if the captured token is current and the snapshot takes the change in, then the first
   account of the connection must sign in again and its revision counts on. Nothing else of any account
   changes but what the flags tell.
   */
  lemma RefusedGrant(s: State, capture: Capture, env: Env, storeFails: bool, i: nat)
    requires NoHandles(s.accounts) && First(s.accounts, capture.id, i)
    ensures var r := Complete(s, capture, Failed(true), env, storeFails);
      var demands := Current(s, capture, env) && Reaches(s.accounts, env);
      && !r.outcome.Committed? && r.state.store == s.store
      && (!demands ==> r.state.accounts == s.accounts)
      && (demands ==>
            && |r.state.accounts| == |s.accounts|
            && r.state.accounts[i] == s.accounts[i].(reauthenticate := true, revision := s.accounts[i].revision + 1,
                 hasCredentials := r.state.accounts[i].hasCredentials)
            && forall j | 0 <= j < |s.accounts| && j != i ::
                 r.state.accounts[j] == s.accounts[j].(hasCredentials := r.state.accounts[j].hasCredentials))
  {
    hide Update, Complete, NoHandles, Reaches;
    RefusedIs(s, capture, env, storeFails, i);
    var accounts := s.accounts[i := Demanding(s.accounts[i])];
    ReplacedQuiet(s, i, Demanding(s.accounts[i]));
    QuietExactly(s, accounts, env);
    ReachesAlike(s.accounts, accounts, env);
  }

  lemma ReplacedQuiet(s: State, i: nat, a: Account)
    requires NoHandles(s.accounts) && i < |s.accounts| && a.id == s.accounts[i].id && a.handle == s.accounts[i].handle
    ensures Quiet(s, s.accounts[i := a])
  {
    forall b | b in s.accounts[i := a] ensures b.handle == 0 {
      assert b == a || b in s.accounts;
    }
  }

  lemma ReachesAlike(a: seq<Account>, b: seq<Account>, env: Env)
    requires |a| == |b| && forall i | 0 <= i < |a| :: a[i].id == b[i].id
    ensures Reaches(a, env) == Reaches(b, env)
    ensures (forall x | x in a :: x.id !in env.unreadableAfter) <==> forall x | x in b :: x.id !in env.unreadableAfter
    ensures Reaches(a, env) ==> env.ready
  {
    SameFirst(a, b, env.unreadableAfter);
    SameFirst(b, a, env.unreadableAfter);
    SameFirst(a, b, env.unreadable);
    SameFirst(b, a, env.unreadable);
  }

  /** The state that the update of a renewal starts from: the new tokens are stored. */
  function Stored(s: State, capture: Capture, result: Refresh): State
    requires result.Renewed? && capture.id in s.store
  {
    s.(store := s.store[capture.id := Secrets(result.access, result.refresh, s.store[capture.id].registration)])
  }

  lemma RenewalIs(s: State, capture: Capture, result: Refresh, env: Env, storeFails: bool, i: nat)
    requires First(s.accounts, capture.id, i) && result.Renewed?
    ensures var r := Complete(s, capture, result, env, storeFails);
      if Unchanged(s, capture, env, s.accounts[i]) && env.ready && !storeFails then
        var u := Update(Stored(s, capture, result),
                        Some(s.accounts[i := RefreshedAccount(s.accounts[i], result.scope, result.expiresAt)]), env);
        if u.updated then r == Completion(Committed(result.access), u.state)
        else r == Completion(Discarded, u.state.(store := u.state.store[capture.id := s.store[capture.id]]))
      else !r.outcome.Committed? && r.state == s
  {
    hide Update;
    IndexOfIs(s.accounts, capture.id, i);
  }

  /** A renewal commits exactly when nothing has changed since its start and every store does its part. */
  lemma CommitsExactly(s: State, capture: Capture, result: Refresh, env: Env, storeFails: bool, i: nat)
    requires NoHandles(s.accounts) && First(s.accounts, capture.id, i)
    ensures var r := Complete(s, capture, result, env, storeFails);
      r.outcome.Committed? <==>
        && result.Renewed? && Unchanged(s, capture, env, s.accounts[i]) && !storeFails
        && Reaches(s.accounts, env) && forall a | a in s.accounts :: a.id !in env.unreadableAfter
  {
    hide Update, Complete, NoHandles, Reaches, Unchanged;
    match result
    case Renewed(access, refresh, scope, expiresAt) =>
      RenewalIs(s, capture, result, env, storeFails, i);
      var accounts := s.accounts[i := RefreshedAccount(s.accounts[i], scope, expiresAt)];
      ReplacedQuiet(s, i, RefreshedAccount(s.accounts[i], scope, expiresAt));
      ReachesAlike(s.accounts, accounts, env);
      if capture.id in s.store { QuietExactly(Stored(s, capture, result), accounts, env); }
      else { assert !Unchanged(s, capture, env, s.accounts[i]) by { NotStored(s, capture, env, s.accounts[i]); } }
    case Failed(reauthenticate) =>
      if reauthenticate { RefusedIs(s, capture, env, storeFails, i); }
      else { PassingFailure(s, capture, result, env, storeFails); }
  }

  lemma NotStored(s: State, capture: Capture, env: Env, a: Account)
    requires capture.id !in s.store
    ensures !Unchanged(s, capture, env, a)
  {
  }

  /**
   After a commit the connection holds the new tokens, its first account the new scope and expiry and no
   demand to sign in again, and its revision counts on. The others are as they were, with true flags, and
   the repository holds the same.
   */
  lemma CommittedRenewal(s: State, capture: Capture, result: Refresh, env: Env, storeFails: bool, i: nat)
    requires NoHandles(s.accounts) && First(s.accounts, capture.id, i)
    requires Complete(s, capture, result, env, storeFails).outcome.Committed?
    ensures result.Renewed? && capture.id in s.store
    ensures var r := Complete(s, capture, result, env, storeFails);
      && r.outcome.access == result.access
      && capture.id in r.state.store && r.state.store == s.store[capture.id := r.state.store[capture.id]]
      && r.state.store[capture.id].access == result.access && r.state.store[capture.id].refresh == result.refresh
      && r.state.store[capture.id].registration == s.store[capture.id].registration
      && |r.state.accounts| == |s.accounts| && r.state.saved == r.state.accounts
      && r.state.accounts[i] == s.accounts[i].(scope := result.scope, expiresAt := result.expiresAt,
           reauthenticate := false, hasCredentials := result.access != 0, revision := s.accounts[i].revision + 1)
      && forall j | 0 <= j < |s.accounts| && j != i ::
           r.state.accounts[j] == s.accounts[j].(
             hasCredentials := s.accounts[j].id in r.state.store && r.state.store[s.accounts[j].id].access != 0)
  {
    hide Update, Complete, NoHandles, Reaches;
    CommitsExactly(s, capture, result, env, storeFails, i);
    RenewalIs(s, capture, result, env, storeFails, i);
    var accounts := s.accounts[i := RefreshedAccount(s.accounts[i], result.scope, result.expiresAt)];
    ReplacedQuiet(s, i, RefreshedAccount(s.accounts[i], result.scope, result.expiresAt));
    CommittedUpdate(Stored(s, capture, result), accounts, env);
    QuietHandles(s.accounts);
  }

  lemma CommittedUpdate(s: State, accounts: seq<Account>, env: Env)
    requires Quiet(s, accounts) && Update(s, Some(accounts), env).updated
    ensures var r := Update(s, Some(accounts), env).state;
      && r.store == s.store && |r.accounts| == |accounts| && r.saved == r.accounts
      && forall i | 0 <= i < |accounts| ::
           r.accounts[i] == accounts[i].(
             hasCredentials := accounts[i].id in s.store && s.store[accounts[i].id].access != 0)
  {
    hide Update, NoHandles, Reaches;
    QuietExactly(s, accounts, env);
    UpdatedAccounts(s, accounts, env);
    QuietHandles(accounts);
  }

  /**
   A renewal that does not commit leaves the store as it was. The accounts change only if the update was
   rejected last: then the snapshot keeps the scope and expiry of tokens that were rolled back.
   */
  lemma DiscardedRenewal(s: State, capture: Capture, result: Refresh, env: Env, storeFails: bool, i: nat)
    requires NoHandles(s.accounts) && First(s.accounts, capture.id, i) && result.Renewed?
    requires !Complete(s, capture, result, env, storeFails).outcome.Committed?
    ensures var r := Complete(s, capture, result, env, storeFails);
      var kept := Unchanged(s, capture, env, s.accounts[i]) && !storeFails && Reaches(s.accounts, env);
      && r.state.store == s.store
      && (!kept ==> r.state.accounts == s.accounts)
      && (kept ==>
            && |r.state.accounts| == |s.accounts|
            && r.state.accounts[i] == s.accounts[i].(scope := result.scope, expiresAt := result.expiresAt,
                 reauthenticate := false, revision := s.accounts[i].revision + 1,
                 hasCredentials := r.state.accounts[i].hasCredentials)
            && forall j | 0 <= j < |s.accounts| && j != i ::
                 r.state.accounts[j] == s.accounts[j].(hasCredentials := r.state.accounts[j].hasCredentials))
  {
    hide Update, Complete, NoHandles, Reaches;
    RenewalIs(s, capture, result, env, storeFails, i);
    var accounts := s.accounts[i := RefreshedAccount(s.accounts[i], result.scope, result.expiresAt)];
    ReplacedQuiet(s, i, RefreshedAccount(s.accounts[i], result.scope, result.expiresAt));
    ReachesAlike(s.accounts, accounts, env);
    if Unchanged(s, capture, env, s.accounts[i]) {
      QuietExactly(Stored(s, capture, result), accounts, env);
      assert Stored(s, capture, result).store[capture.id := s.store[capture.id]] == s.store;
    }
  }

  /**
   An account comes to need a new sign-in exactly when the server has refused the grant of its connection
   while the captured token is current, it is the first of that connection, and the snapshot takes the
   change in. A demand is lifted exactly by a renewal in the same circumstances, of which nothing changed
   since its start.
   */
  lemma DemandsSignInExactly(s: State, capture: Capture, result: Refresh, env: Env, storeFails: bool, j: nat)
    requires NoHandles(s.accounts) && j < |s.accounts|
    ensures var r := Complete(s, capture, result, env, storeFails).state;
      var reaches := First(s.accounts, capture.id, j) && Reaches(s.accounts, env);
      && |r.accounts| == |s.accounts|
      && (!s.accounts[j].reauthenticate ==>
            (r.accounts[j].reauthenticate <==> result == Failed(true) && Current(s, capture, env) && reaches))
      && (s.accounts[j].reauthenticate ==>
            (!r.accounts[j].reauthenticate <==>
               result.Renewed? && Unchanged(s, capture, env, s.accounts[j]) && !storeFails && reaches))
  {
    hide Update, Complete, NoHandles, Reaches, Unchanged;
    var i := IndexOf(s.accounts, capture.id);
    if i == |s.accounts| || result == Failed(false) {
      PassingFailure(s, capture, result, env, storeFails);
    } else {
      assert First(s.accounts, capture.id, j) <==> j == i;
      match result
      case Renewed(_, _, _, _) =>
        CommitsExactly(s, capture, result, env, storeFails, i);
        if Complete(s, capture, result, env, storeFails).outcome.Committed? {
          CommittedRenewal(s, capture, result, env, storeFails, i);
        } else {
          DiscardedRenewal(s, capture, result, env, storeFails, i);
        }
      case Failed(_) => RefusedGrant(s, capture, env, storeFails, i);
    }
  }
}
