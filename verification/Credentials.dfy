/**
 The daemon's credential transaction and the OAuth refresh built on it.

 Connections, handles, tokens and endpoints are numbers, 0 being the empty string. The outcomes of the
 credential store and of the settings repository are arguments: a failed write changes nothing, and the
 writes and removals of a rollback succeed.
 */
module Credentials {
  import opened Wrappers

  type Connection = nat
  type Handle = nat
  type Token = nat

  datatype Secrets = Secrets(access: Token, refresh: Token, registration: Token)

  datatype Account = Account(
    id: Connection, revision: nat, handle: Handle, hasCredentials: bool,
    tokenEndpoint: nat, clientId: nat, resource: nat, scope: nat, expiresAt: int, reauthenticate: bool)

  datatype Staged = Staged(credentials: Secrets, createdAt: int)

  /** The credential store, the accounts of the snapshot and of the repository, the staged sign-ins. */
  datatype State = State(
    store: map<Connection, Secrets>, accounts: seq<Account>, saved: seq<Account>, staged: map<Handle, Staged>)

  /** How the stores answer during one update; writes are numbered in the order they are made. */
  datatype Env = Env(
    ready: bool, now: int, unreadable: set<Connection>, failedWrites: set<nat>, accepted: bool,
    reloaded: bool, unreadableAfter: set<Connection>, failedRemovals: set<Connection>)

  datatype Change = Change(id: Connection, handle: Handle, replacement: Secrets, previous: Option<Secrets>)

  const LIFETIME := 600

  function Lookup(store: map<Connection, Secrets>, id: Connection): Option<Secrets> {
    if id in store then Some(store[id]) else None
  }

  predicate HasToken(secrets: Option<Secrets>) {
    secrets.Some? && secrets.value.access != 0
  }

  // ---------------------------------------------------------------- the specification

  function Pruned(staged: map<Handle, Staged>, now: int): map<Handle, Staged> {
    map h | h in staged && staged[h].createdAt >= now - LIFETIME :: staged[h]
  }

  /** The account as it will be saved. */
  function Cleared(account: Account, store: map<Connection, Secrets>): Account {
    account.(handle := 0, hasCredentials := account.handle != 0 || HasToken(Lookup(store, account.id)))
  }

  predicate Usable(account: Account, staged: map<Handle, Staged>, unreadable: set<Connection>) {
    account.id !in unreadable && (account.handle != 0 ==> account.handle in staged)
  }

  function Prepared(accounts: seq<Account>, store: map<Connection, Secrets>): (r: seq<Account>)
    ensures |r| == |accounts| && forall i | 0 <= i < |r| :: r[i] == Cleared(accounts[i], store)
  {
    if accounts == [] then []
    else Prepared(accounts[..|accounts| - 1], store) + [Cleared(accounts[|accounts| - 1], store)]
  }

  function Changes(accounts: seq<Account>, s: State): (r: seq<Change>)
    requires forall a | a in accounts && a.handle != 0 :: a.handle in s.staged
  {
    if accounts == [] then []
    else
      var last := accounts[|accounts| - 1];
      Changes(accounts[..|accounts| - 1], s)
      + (if last.handle == 0 then []
         else [Change(last.id, last.handle, s.staged[last.handle].credentials, Lookup(s.store, last.id))])
  }

  function Overridden(store: map<Connection, Secrets>, changes: seq<Change>): map<Connection, Secrets> {
    if changes == [] then store
    else
      var last := changes[|changes| - 1];
      Overridden(store, changes[..|changes| - 1])[last.id := last.replacement]
  }

  function Flagged(account: Account, store: map<Connection, Secrets>): Account {
    account.(handle := 0, hasCredentials := HasToken(Lookup(store, account.id)))
  }

  /** The index of the first account that cannot be read, or the number of accounts. */
  function FirstUnreadable(accounts: seq<Account>, unreadable: set<Connection>): (n: nat)
    ensures n <= |accounts| && (n < |accounts| ==> accounts[n].id in unreadable)
    ensures forall i | 0 <= i < n :: accounts[i].id !in unreadable
  {
    if accounts == [] || accounts[0].id in unreadable then 0
    else 1 + FirstUnreadable(accounts[1..], unreadable)
  }

  /** The flags are refreshed up to the first account that cannot be read. */
  function Refreshed(accounts: seq<Account>, store: map<Connection, Secrets>, unreadable: set<Connection>):
    (r: seq<Account>)
    ensures |r| == |accounts|
    ensures var n := FirstUnreadable(accounts, unreadable);
      forall i | 0 <= i < |accounts| ::
        r[i] == if i < n then Flagged(accounts[i], store)
                else if i == n then accounts[i].(handle := 0) else accounts[i]
  {
    var n := FirstUnreadable(accounts, unreadable);
    seq(|accounts|, i requires 0 <= i < |accounts| =>
      if i < n then Flagged(accounts[i], store) else if i == n then accounts[i].(handle := 0) else accounts[i])
  }

  predicate Names(accounts: seq<Account>, id: Connection) {
    exists a | a in accounts :: a.id == id
  }

  function Removed(store: map<Connection, Secrets>, previous: seq<Account>, current: seq<Account>,
                   failed: set<Connection>): map<Connection, Secrets>
  {
    map id | id in store && !(Names(previous, id) && !Names(current, id) && id !in failed) :: store[id]
  }

  function Handles(changes: seq<Change>): set<Handle> {
    set c | c in changes :: c.handle
  }

  // ---------------------------------------------------------------- the object

  class DaemonProcess {
    var store: map<Connection, Secrets>
    var accounts: seq<Account>
    var saved: seq<Account>
    var staged: map<Handle, Staged>

    ghost function Abs(): State
      reads this
    {
      State(store, accounts, saved, staged)
    }

    constructor (stored: map<Connection, Secrets>, configured: seq<Account>)
      ensures Abs() == State(stored, configured, configured, map[])
    {
      store, accounts, saved, staged := stored, configured, configured, map[];
    }

    method PrunePendingCredentials(now: int)
      modifies this`staged
      ensures staged == Pruned(old(staged), now)
      ensures forall h :: h in staged <==> h in old(staged) && old(staged)[h].createdAt >= now - 600
      ensures forall h | h in staged :: staged[h] == old(staged)[h]
    {
      var kept := map[];
      var left := staged.Keys;
      while left != {}
        invariant left <= staged.Keys && staged == old(staged)
        invariant kept == map h | h in staged && h !in left && staged[h].createdAt >= now - LIFETIME :: staged[h]
        decreases |left|
      {
        var h :| h in left;
        if staged[h].createdAt >= now - LIFETIME { kept := kept[h := staged[h]]; }
        left := left - {h};
      }
      staged := kept;
    }

    /** A successful sign-in with an access token is kept under a new handle. */
    method StageAuthenticationResult(succeeded: bool, credentials: Secrets, handle: Handle, now: int)
      returns (kept: bool)
      modifies this`staged
      ensures kept == (succeeded && credentials.access != 0)
      ensures staged == if kept then Pruned(old(staged), now)[handle := Staged(credentials, now)]
                        else Pruned(old(staged), now)
      ensures kept ==> handle in staged && staged[handle].credentials == credentials && staged[handle].createdAt == now
      ensures forall h | !(kept && h == handle) ::
        (h in staged <==> h in old(staged) && old(staged)[h].createdAt >= now - 600)
        && (h in staged ==> staged[h] == old(staged)[h])
    {
      PrunePendingCredentials(now);
      if !succeeded { return false; }
      if credentials.access == 0 { return false; }
      staged := staged[handle := Staged(credentials, now)];
      return true;
    }

    /** Credentials are looked up before any of them is written. */
    method PrepareChanges(requested: seq<Account>, env: Env)
      returns (failed: bool, prepared: seq<Account>, changes: seq<Change>)
      ensures failed <==> exists a | a in requested :: !Usable(a, staged, env.unreadable)
      ensures failed <==>
        exists a | a in requested :: a.id in env.unreadable || (a.handle != 0 && a.handle !in staged)
      ensures !failed ==>
        |prepared| == |requested|
        && forall i | 0 <= i < |requested| ::
             prepared[i] == requested[i].(handle := 0,
               hasCredentials := requested[i].handle != 0
                 || (requested[i].id in store && store[requested[i].id].access != 0))
      ensures !failed ==> prepared == Prepared(requested, store) && changes == Changes(requested, Abs())
    {
      prepared, changes := [], [];
      for i := 0 to |requested|
        invariant forall a | a in requested[..i] :: Usable(a, staged, env.unreadable)
        invariant prepared == Prepared(requested[..i], store) && changes == Changes(requested[..i], Abs())
      {
        var account := requested[i];
        assert requested[..i + 1] == requested[..i] + [account];
        if account.id in env.unreadable {
          assert !Usable(account, staged, env.unreadable);
          return true, prepared, changes;
        }
        var previous := Lookup(store, account.id);
        var result := account.(hasCredentials := HasToken(previous));
        if account.handle != 0 {
          if account.handle !in staged {
            assert !Usable(account, staged, env.unreadable);
            return true, prepared, changes;
          }
          changes := changes + [Change(account.id, account.handle, staged[account.handle].credentials, previous)];
          result := result.(hasCredentials := true);
        }
        prepared := prepared + [result.(handle := 0)];
        assert requested[..i + 1][..i] == requested[..i];
      }
      assert requested[..|requested|] == requested;
      return false, prepared, changes;
    }

    /** Undoes the writes in reverse; every change remembers what its connection had at entry. */
    method RollbackCredentials(ghost entry: map<Connection, Secrets>, changes: seq<Change>, stored: nat)
      requires stored <= |changes| && store == Overridden(entry, changes[..stored])
      requires forall c | c in changes :: c.previous == Lookup(entry, c.id)
      modifies this`store
      ensures store == entry
    {
      OverriddenElsewhere(entry, changes[..stored]);
      var left := stored;
      while left > 0
        invariant left <= |changes|
        invariant forall id | Lookup(store, id) != Lookup(entry, id) :: exists k | 0 <= k < left :: changes[k].id == id
      {
        left := left - 1;
        var change := changes[left];
        assert change in changes;
        if change.previous.Some? {
          store := store[change.id := change.previous.value];
        } else {
          store := store - {change.id};
        }
      }
      assert forall id :: Lookup(store, id) == Lookup(entry, id);
      SameLookups(store, entry);
    }

    method StoreChanges(changes: seq<Change>, env: Env) returns (ok: bool)
      requires forall c | c in changes :: c.previous == Lookup(store, c.id)
      modifies this`store
      ensures ok <==> forall k | 0 <= k < |changes| :: k !in env.failedWrites
      ensures store == if ok then Overridden(old(store), changes) else old(store)
    {
      ghost var entry := store;
      for i := 0 to |changes|
        invariant store == Overridden(entry, changes[..i])
        invariant forall k | 0 <= k < i :: k !in env.failedWrites
      {
        if i in env.failedWrites {
          RollbackCredentials(entry, changes, i);
          return false;
        }
        store := store[changes[i].id := changes[i].replacement];
        assert changes[..i + 1][..i] == changes[..i];
      }
      assert changes[..|changes|] == changes;
      return true;
    }

    method RefreshCredentialFlags(env: Env) returns (ok: bool)
      modifies this`accounts
      ensures ok <==> FirstUnreadable(old(accounts), env.unreadableAfter) == |old(accounts)|
      ensures ok ==>
        |accounts| == |old(accounts)|
        && forall i | 0 <= i < |accounts| ::
             accounts[i] == old(accounts)[i].(handle := 0,
               hasCredentials := accounts[i].id in store && store[accounts[i].id].access != 0)
      ensures accounts == Refreshed(old(accounts), store, env.unreadableAfter)
    {
      ghost var start := accounts;
      for i := 0 to |accounts|
        invariant |accounts| == |start| && forall k | i <= k < |start| :: accounts[k] == start[k]
        invariant i <= FirstUnreadable(start, env.unreadableAfter)
        invariant forall k | 0 <= k < i :: accounts[k] == Flagged(start[k], store)
      {
        accounts := accounts[i := accounts[i].(handle := 0)];
        if accounts[i].id in env.unreadableAfter { return false; }
        accounts := accounts[i := accounts[i].(hasCredentials := HasToken(Lookup(store, accounts[i].id)))];
      }
      return true;
    }

    method RemoveCredentials(previous: seq<Account>, env: Env)
      modifies this`store
      ensures store == Removed(old(store), previous, accounts, env.failedRemovals)
      ensures forall id | id in store :: id in old(store) && store[id] == old(store)[id]
      ensures forall id | id in old(store) ::
        id !in store <==>
          (exists a | a in previous :: a.id == id) && (forall a | a in accounts :: a.id != id)
          && id !in env.failedRemovals
    {
      for i := 0 to |previous|
        invariant store == Removed(old(store), previous[..i], accounts, env.failedRemovals)
      {
        assert previous[..i + 1] == previous[..i] + [previous[i]];
        if !Names(accounts, previous[i].id) && previous[i].id !in env.failedRemovals {
          store := store - {previous[i].id};
        }
      }
      assert previous[..|previous|] == previous;
    }

    method HandleUpdateSettings(update: Option<seq<Account>>, env: Env) returns (updated: bool)
      modifies this
      ensures !updated ==> store == old(store)
      ensures updated ==> forall a | a in accounts ::
        a.handle == 0 && (a.hasCredentials <==> HasToken(Lookup(store, a.id)))
      ensures Outcome(updated, Abs()) == Update(old(Abs()), update, env)
    {
      hide Apply, Changes, Prepared, Pruned;
      if !env.ready { return false; }
      if update.None? {
        updated := Commit(saved, [], env);
        return;
      }
      PrunePendingCredentials(env.now);
      var failed, prepared, changes := PrepareChanges(update.value, env);
      if failed { return false; }
      ChangesRemember(update.value, Abs());
      updated := Commit(prepared, changes, env);
    }

    /** Writes the credentials, then the settings; undoes the former when the latter fail. */
    method Commit(request: seq<Account>, changes: seq<Change>, env: Env) returns (updated: bool)
      requires forall c | c in changes :: c.previous == Lookup(store, c.id)
      modifies this
      ensures !updated ==> store == old(store)
      ensures updated ==> forall a | a in accounts ::
        a.handle == 0 && (a.hasCredentials <==> HasToken(Lookup(store, a.id)))
      ensures Outcome(updated, Abs()) == Apply(old(Abs()), request, changes, env)
    {
      hide Overridden, Removed, FirstUnreadable, Refreshed, Flagged;
      var previousAccounts := accounts;
      ghost var entry := store;
      assert changes[..|changes|] == changes;
      var ok := StoreChanges(changes, env);
      if !ok { return false; }
      if !env.accepted {
        RollbackCredentials(entry, changes, |changes|);
        return false;
      }
      saved := request;
      if !env.reloaded {
        RollbackCredentials(entry, changes, |changes|);
        return false;
      }
      accounts := saved;
      ok := RefreshCredentialFlags(env);
      if !ok {
        RollbackCredentials(entry, changes, |changes|);
        return false;
      }
      ForgetHandles(changes);
      ghost var stored := store;
      RemoveCredentials(previousAccounts, env);
      FlagsSurviveRemoval(saved, stored, previousAccounts, env);
      return true;
    }

    /** Before the request is sent: what the completion will compare with. */
    method StartOAuthRefresh(id: Connection, force: bool, env: Env) returns (started: Option<Capture>)
      ensures started == Begin(Abs(), id, force, env)
    {
      if !env.ready { return None; }
      var i := FindAccount(id);
      if i == |accounts| { return None; }
      var account := accounts[i];
      if account.reauthenticate || !account.hasCredentials || account.tokenEndpoint == 0 || account.clientId == 0 {
        return None;
      }
      if id in env.unreadable { return None; }
      var stored := Lookup(store, id);
      if stored.None? || stored.value.refresh == 0 { return None; }
      if !force && (account.expiresAt == 0 || account.expiresAt > env.now + 300) { return None; }
      return Some(Capture(id, stored.value.refresh, account.tokenEndpoint, account.clientId, account.resource,
                          stored.value.access));
    }

    method FindAccount(id: Connection) returns (i: nat)
      ensures i == IndexOf(accounts, id)
    {
      i := 0;
      while i < |accounts| && accounts[i].id != id
        invariant i <= |accounts| && forall k | 0 <= k < i :: accounts[k].id != id
      {
        i := i + 1;
      }
      IndexOfIs(accounts, id, i);
    }

    /** After the reply: `env` tells how the stores answer, `storeFails` whether the first write does. */
    method PerformOAuthRefresh(capture: Capture, result: Refresh, env: Env, storeFails: bool)
      returns (outcome: RefreshOutcome)
      modifies this
      ensures Completion(outcome, Abs()) == Complete(old(Abs()), capture, result, env, storeFails)
    {
      hide Update;
      outcome := Discarded;
      var i := FindAccount(capture.id);
      if capture.id in env.unreadable || Lookup(store, capture.id).None? { return; }
      var current := store[capture.id];
      if current.access != capture.access { return Superseded(current.access); }
      match result {
        case Renewed(access, refresh, scope, expiresAt) =>
          if env.ready && i < |accounts| && Matches(accounts[i], current, capture) {
            if storeFails { return; }
            store := store[capture.id := Secrets(access, refresh, current.registration)];
            var update := accounts[i := RefreshedAccount(accounts[i], scope, expiresAt)];
            var updated := HandleUpdateSettings(Some(update), env);
            if updated { return Committed(access); }
            store := store[capture.id := current];
          }
        case Failed(reauthenticate) =>
          if reauthenticate && env.ready && i < |accounts| {
            var update := accounts[i := accounts[i].(reauthenticate := true, revision := accounts[i].revision + 1)];
            var updated := HandleUpdateSettings(Some(update), env);
          }
      }
    }

    method ForgetHandles(changes: seq<Change>)
      modifies this`staged
      ensures staged == old(staged) - Handles(changes)
    {
      for i := 0 to |changes|
        invariant staged == old(staged) - Handles(changes[..i])
      {
        assert changes[..i + 1] == changes[..i] + [changes[i]];
        staged := staged - {changes[i].handle};
      }
      assert changes[..|changes|] == changes;
    }
  }

  // ---------------------------------------------------------------- the transaction as a function

  datatype Outcome = Outcome(updated: bool, state: State)

  /** The last rejection comes after the snapshot has been replaced and some of its flags refreshed. */
  function Apply(s: State, request: seq<Account>, changes: seq<Change>, env: Env): (r: Outcome) {
    if (exists k | 0 <= k < |changes| :: k in env.failedWrites) || !env.accepted then Outcome(false, s)
    else if !env.reloaded then Outcome(false, s.(saved := request))
    else
      var stored := Overridden(s.store, changes);
      var accounts := Refreshed(request, stored, env.unreadableAfter);
      if FirstUnreadable(request, env.unreadableAfter) < |request| then
        Outcome(false, s.(saved := request, accounts := accounts))
      else
        Outcome(true,
          State(Removed(stored, s.accounts, accounts, env.failedRemovals), accounts, request,
                s.staged - Handles(changes)))
  }

  function Update(s: State, update: Option<seq<Account>>, env: Env): (r: Outcome) {
    if !env.ready then Outcome(false, s)
    else if update.None? then Apply(s, s.saved, [], env)
    else
      var pruned := s.(staged := Pruned(s.staged, env.now));
      if exists a | a in update.value :: !Usable(a, pruned.staged, env.unreadable) then Outcome(false, pruned)
      else Apply(pruned, Prepared(update.value, s.store), Changes(update.value, pruned), env)
  }

  /** Removal takes credentials of accounts that are gone only, so the flags stay true. */
  lemma FlagsSurviveRemoval(request: seq<Account>, stored: map<Connection, Secrets>, previous: seq<Account>, env: Env)
    requires FirstUnreadable(request, env.unreadableAfter) == |request|
    ensures var accounts := Refreshed(request, stored, env.unreadableAfter);
      var store := Removed(stored, previous, accounts, env.failedRemovals);
      forall a | a in accounts :: a.handle == 0 && (a.hasCredentials <==> HasToken(Lookup(store, a.id)))
  {
    var accounts := Refreshed(request, stored, env.unreadableAfter);
    forall a | a in accounts
      ensures a.handle == 0 && (a.hasCredentials <==> HasToken(Lookup(stored, a.id))) && Names(accounts, a.id)
    {
      var i :| 0 <= i < |accounts| && accounts[i] == a;
    }
  }

  // ---------------------------------------------------------------- the refresh as a function

  /** What a refresh remembers while its request is under way. */
  datatype Capture = Capture(
    id: Connection, refresh: Token, tokenEndpoint: nat, clientId: nat, resource: nat, access: Token)

  datatype Refresh = Renewed(access: Token, refresh: Token, scope: nat, expiresAt: int) | Failed(reauthenticate: bool)

  datatype RefreshOutcome = Committed(access: Token) | Superseded(access: Token) | Discarded

  datatype Completion = Completion(outcome: RefreshOutcome, state: State)

  /** The first account with the id, or the number of accounts. */
  function IndexOf(accounts: seq<Account>, id: Connection): (i: nat)
    ensures i <= |accounts| && (i < |accounts| ==> accounts[i].id == id)
    ensures forall k | 0 <= k < i :: accounts[k].id != id
  {
    if accounts == [] then 0 else if accounts[0].id == id then 0 else 1 + IndexOf(accounts[1..], id)
  }

  lemma IndexOfIs(accounts: seq<Account>, id: Connection, i: nat)
    requires i <= |accounts| && (i < |accounts| ==> accounts[i].id == id)
    requires forall k | 0 <= k < i :: accounts[k].id != id
    ensures i == IndexOf(accounts, id)
  {
  }

  predicate Refreshable(account: Account, force: bool, now: int) {
    !account.reauthenticate && account.hasCredentials && account.tokenEndpoint != 0 && account.clientId != 0
    && (force || (account.expiresAt != 0 && account.expiresAt <= now + 300))
  }

  function Begin(s: State, id: Connection, force: bool, env: Env): Option<Capture> {
    var i := IndexOf(s.accounts, id);
    if !env.ready || i == |s.accounts| || id in env.unreadable || id !in s.store || s.store[id].refresh == 0
       || !Refreshable(s.accounts[i], force, env.now) then None
    else
      var account := s.accounts[i];
      Some(Capture(id, s.store[id].refresh, account.tokenEndpoint, account.clientId, account.resource,
                   s.store[id].access))
  }

  predicate Matches(account: Account, current: Secrets, capture: Capture) {
    current.refresh == capture.refresh && account.tokenEndpoint == capture.tokenEndpoint
    && account.clientId == capture.clientId && account.resource == capture.resource
  }

  function RefreshedAccount(account: Account, scope: nat, expiresAt: int): Account {
    account.(scope := scope, expiresAt := expiresAt, reauthenticate := false, hasCredentials := true,
             revision := account.revision + 1)
  }

  function Complete(s: State, capture: Capture, result: Refresh, env: Env, storeFails: bool): (r: Completion) {
    var i := IndexOf(s.accounts, capture.id);
    if capture.id in env.unreadable || capture.id !in s.store then Completion(Discarded, s)
    else if s.store[capture.id].access != capture.access then
      Completion(Superseded(s.store[capture.id].access), s)
    else if !env.ready || i == |s.accounts| then Completion(Discarded, s)
    else
      match result
      case Renewed(access, refresh, scope, expiresAt) =>
        var current := s.store[capture.id];
        if !Matches(s.accounts[i], current, capture) || storeFails then Completion(Discarded, s)
        else
          var stored := s.(store := s.store[capture.id := Secrets(access, refresh, current.registration)]);
          var r := Update(stored, Some(s.accounts[i := RefreshedAccount(s.accounts[i], scope, expiresAt)]), env);
          if r.updated then Completion(Committed(access), r.state)
          else Completion(Discarded, r.state.(store := r.state.store[capture.id := current]))
      case Failed(reauthenticate) =>
        if !reauthenticate then Completion(Discarded, s)
        else
          var account := s.accounts[i].(reauthenticate := true, revision := s.accounts[i].revision + 1);
          var r := Update(s, Some(s.accounts[i := account]), env);
          Completion(Discarded, r.state)
  }

  // ---------------------------------------------------------------- helpers

  lemma {:induction false} OverriddenElsewhere(store: map<Connection, Secrets>, changes: seq<Change>)
    ensures forall id | Lookup(Overridden(store, changes), id) != Lookup(store, id) ::
      exists k | 0 <= k < |changes| :: changes[k].id == id
  {
    if changes != [] {
      var init := changes[..|changes| - 1];
      OverriddenElsewhere(store, init);
      forall id | Lookup(Overridden(store, changes), id) != Lookup(store, id)
        ensures exists k | 0 <= k < |changes| :: changes[k].id == id
      {
        if id != changes[|changes| - 1].id {
          var k :| 0 <= k < |init| && init[k].id == id;
          assert changes[k].id == id;
        }
      }
    }
  }

  lemma SameLookups(a: map<Connection, Secrets>, b: map<Connection, Secrets>)
    requires forall id :: Lookup(a, id) == Lookup(b, id)
    ensures a == b
  {
    assert forall id :: id in a <==> Lookup(a, id).Some?;
    assert forall id :: id in b <==> Lookup(b, id).Some?;
    assert forall id | id in a :: Lookup(a, id) == Some(a[id]) && Lookup(b, id) == Some(a[id]);
  }

  lemma {:induction false} ChangesRemember(accounts: seq<Account>, s: State)
    requires forall a | a in accounts && a.handle != 0 :: a.handle in s.staged
    ensures forall c | c in Changes(accounts, s) :: c.previous == Lookup(s.store, c.id)
  {
    if accounts != [] {
      ChangesRemember(accounts[..|accounts| - 1], s);
    }
  }
}
