/** Dependency scopes: lists of mailboxes that widen to the whole account above 64. */
module DependencyScope {
  const MAXIMUM := 64

  datatype Scope = Scope(accountWide: bool, mailboxIds: seq<string>)

  predicate Distinct(ids: seq<string>) {
    forall i, j | 0 <= i < j < |ids| :: ids[i] != ids[j]
  }

  predicate WellFormed(s: Scope) {
    if s.accountWide then s.mailboxIds == []
    else |s.mailboxIds| <= MAXIMUM && "" !in s.mailboxIds && Distinct(s.mailboxIds)
  }

  function Add(s: Scope, id: string): (r: Scope) {
    if s.accountWide || id == "" || id in s.mailboxIds then s
    else if |s.mailboxIds| >= MAXIMUM then Scope(true, [])
    else s.(mailboxIds := s.mailboxIds + [id])
  }

  function AddAll(s: Scope, ids: seq<string>): (r: Scope) {
    if ids == [] then s else Add(AddAll(s, ids[..|ids| - 1]), ids[|ids| - 1])
  }

  function Merge(s: Scope, other: Scope): (r: Scope) {
    if s.accountWide then s else if other.accountWide then Scope(true, []) else AddAll(s, other.mailboxIds)
  }

  class MailDependencyScope {
    var accountWide: bool
    var mailboxIds: seq<string>

    ghost function Abs(): Scope
      reads this
    {
      Scope(accountWide, mailboxIds)
    }

    constructor ()
      ensures Abs() == Scope(false, [])
    {
      accountWide, mailboxIds := false, [];
    }

    method AddMailbox(id: string)
      modifies this
      ensures Abs() == Add(old(Abs()), id)
      ensures old(accountWide) || id == "" || id in old(mailboxIds) ==>
        accountWide == old(accountWide) && mailboxIds == old(mailboxIds)
      ensures !old(accountWide) && id != "" && id !in old(mailboxIds) ==>
        if |old(mailboxIds)| >= 64 then accountWide && mailboxIds == []
        else !accountWide && mailboxIds == old(mailboxIds) + [id]
    {
      if accountWide || id == "" || id in mailboxIds { return; }
      if |mailboxIds| >= MAXIMUM {
        accountWide, mailboxIds := true, [];
        return;
      }
      mailboxIds := mailboxIds + [id];
    }

    /** `other` may be this scope itself: then every id is already there. */
    method MergeWith(other: MailDependencyScope)
      modifies this
      ensures Abs() == Merge(old(Abs()), old(other.Abs()))
    {
      if accountWide { return; }
      if other.accountWide {
        accountWide, mailboxIds := true, [];
        return;
      }
      ghost var start := Abs();
      var ids := other.mailboxIds;
      for i := 0 to |ids|
        invariant Abs() == AddAll(start, ids[..i])
        invariant other == this ==> Abs() == start
      {
        assert ids[..i + 1][..i] == ids[..i];
        AddMailbox(ids[i]);
      }
      assert ids[..|ids|] == ids;
    }
  }

  // ---------------------------------------------------------------- what a scope covers

  datatype Coverage = Everything | Only(ids: set<string>)

  /** The mailboxes a scope stands for; empty ids name nothing. */
  function Covers(s: Scope): Coverage {
    if s.accountWide then Everything else Only(set id | id in s.mailboxIds && id != "")
  }

  /** The least coverage of both, where more than 64 mailboxes are the whole account. */
  function Join(a: Coverage, b: Coverage): Coverage {
    if a.Everything? || b.Everything? then Everything
    else if |a.ids + b.ids| > MAXIMUM then Everything
    else Only(a.ids + b.ids)
  }

  predicate Within(a: Coverage, b: Coverage) {
    b.Everything? || (a.Only? && a.ids <= b.ids)
  }

  predicate Bounded(a: Coverage) {
    a.Only? ==> |a.ids| <= MAXIMUM
  }

  lemma {:induction false} DistinctCount(ids: seq<string>)
    requires Distinct(ids) && "" !in ids
    ensures |Covers(Scope(false, ids)).ids| == |ids|
  {
    if ids != [] {
      var init, last := ids[..|ids| - 1], ids[|ids| - 1];
      DistinctCount(init);
      assert ids == init + [last];
      assert Covers(Scope(false, ids)).ids == Covers(Scope(false, init)).ids + {last};
      assert last !in init;
    }
  }

  lemma WellFormedIsBounded(s: Scope)
    requires WellFormed(s)
    ensures Bounded(Covers(s))
  {
    if !s.accountWide { DistinctCount(s.mailboxIds); }
  }

  /** Adding a mailbox keeps a scope well formed and joins the mailbox to what it covers. */
  lemma AddJoins(s: Scope, id: string)
    requires WellFormed(s)
    ensures WellFormed(Add(s, id))
    ensures Covers(Add(s, id)) == Join(Covers(s), Only(if id == "" then {} else {id}))
  {
    if !s.accountWide {
      DistinctCount(s.mailboxIds);
      var ids := Covers(s).ids;
      if id == "" {
        assert ids + {} == ids;
      } else if id in s.mailboxIds {
        assert ids + {id} == ids;
      } else {
        assert |ids + {id}| == |ids| + 1;
        if |s.mailboxIds| < MAXIMUM {
          assert Covers(Add(s, id)).ids == ids + {id};
        }
      }
    }
  }

  lemma CoversOneMore(init: seq<string>, last: string)
    ensures Covers(Scope(false, init + [last]))
         == Only(Covers(Scope(false, init)).ids + (if last == "" then {} else {last}))
  {
    var one := if last == "" then {} else {last};
    assert Covers(Scope(false, init + [last])).ids == Covers(Scope(false, init)).ids + one;
  }

  lemma JoinNothing(s: Scope)
    requires WellFormed(s)
    ensures Join(Covers(s), Covers(Scope(false, []))) == Covers(s)
  {
    WellFormedIsBounded(s);
    assert Covers(Scope(false, [])).ids == {};
    assert s.accountWide || Covers(s).ids + {} == Covers(s).ids;
  }

  lemma {:induction false} AddAllJoins(s: Scope, ids: seq<string>)
    requires WellFormed(s)
    ensures WellFormed(AddAll(s, ids))
    ensures Covers(AddAll(s, ids)) == Join(Covers(s), Covers(Scope(false, ids)))
  {
    hide WellFormed, Join, Add, Distinct;
    if ids == [] {
      JoinNothing(s);
    } else {
      var init, last := ids[..|ids| - 1], ids[|ids| - 1];
      AddAllJoins(s, init);
      AddJoins(AddAll(s, init), last);
      assert ids == init + [last];
      CoversOneMore(init, last);
      JoinWide(Covers(s), Covers(Scope(false, init)).ids, if last == "" then {} else {last});
    }
  }

  /**
   Merging refines the saturating union: any other list, even one with repeated or empty ids, is joined to
   what a well-formed scope covers, and the result is well formed.
   */
  lemma MergeRefinesJoin(s: Scope, other: Scope)
    requires WellFormed(s)
    ensures WellFormed(Merge(s, other))
    ensures Covers(Merge(s, other)) == Join(Covers(s), Covers(other))
  {
    if !s.accountWide && !other.accountWide { AddAllJoins(s, other.mailboxIds); }
  }

  lemma SubsetCount(a: set<string>, b: set<string>)
    requires a <= b
    ensures |a| <= |b|
    decreases a
  {
    if a != {} {
      var x :| x in a;
      SubsetCount(a - {x}, b - {x});
    }
  }

  /** Joining in two parts or at once saturates alike. */
  lemma JoinWide(a: Coverage, b: set<string>, c: set<string>)
    ensures Join(Join(a, Only(b)), Only(c)) == Join(a, Only(b + c))
  {
    if a.Only? {
      SubsetCount(a.ids + b, a.ids + b + c);
      assert a.ids + b + c == a.ids + (b + c);
    }
  }

  lemma JoinAssociative(a: Coverage, b: Coverage, c: Coverage)
    ensures Join(Join(a, b), c) == Join(a, Join(b, c))
  {
    if a.Only? && b.Only? && c.Only? {
      SubsetCount(a.ids + b.ids, a.ids + b.ids + c.ids);
      SubsetCount(b.ids + c.ids, a.ids + b.ids + c.ids);
      assert a.ids + b.ids + c.ids == a.ids + (b.ids + c.ids);
    }
  }

  /** Up to the order of the lists, merging commutes, associates, is idempotent and is absorbed by the account. */
  lemma MergeLaws(a: Scope, b: Scope, c: Scope)
    requires WellFormed(a) && WellFormed(b) && WellFormed(c)
    ensures Covers(Merge(a, b)) == Covers(Merge(b, a))
    ensures Covers(Merge(Merge(a, b), c)) == Covers(Merge(a, Merge(b, c)))
    ensures Covers(Merge(a, a)) == Covers(a)
    ensures Covers(Merge(a, Merge(a, b))) == Covers(Merge(a, b))
    ensures a.accountWide ==> Merge(a, b) == Merge(b, a) == Scope(true, [])
  {
    MergeRefinesJoin(a, b);
    MergeRefinesJoin(b, a);
    MergeRefinesJoin(b, c);
    MergeRefinesJoin(Merge(a, b), c);
    MergeRefinesJoin(a, Merge(b, c));
    MergeRefinesJoin(a, a);
    MergeRefinesJoin(a, Merge(a, b));
    JoinAssociative(Covers(a), Covers(b), Covers(c));
    JoinAssociative(Covers(a), Covers(a), Covers(b));
    WellFormedIsBounded(a);
    if !a.accountWide { assert Covers(a).ids + Covers(a).ids == Covers(a).ids; }
    if !a.accountWide && !b.accountWide { assert Covers(a).ids + Covers(b).ids == Covers(b).ids + Covers(a).ids; }
  }

  /** Merging never loses coverage, and widens to the account only when both lists do not fit. */
  lemma MergeCovers(a: Scope, b: Scope)
    requires WellFormed(a)
    ensures Within(Covers(a), Covers(Merge(a, b))) && Within(Covers(b), Covers(Merge(a, b)))
    ensures Merge(a, b).accountWide <==>
      a.accountWide || b.accountWide || |Covers(a).ids + Covers(b).ids| > 64
  {
    MergeRefinesJoin(a, b);
  }

  lemma {:induction false} AddAllAppends(s: Scope, ids: seq<string>)
    requires !AddAll(s, ids).accountWide
    ensures !s.accountWide && s.mailboxIds <= AddAll(s, ids).mailboxIds
  {
    if ids != [] { AddAllAppends(s, ids[..|ids| - 1]); }
  }

  /** A merge that does not widen appends: what was listed stays in place. */
  lemma MergeAppends(a: Scope, b: Scope)
    requires !Merge(a, b).accountWide
    ensures !a.accountWide && !b.accountWide && a.mailboxIds <= Merge(a, b).mailboxIds
  {
    if !a.accountWide && !b.accountWide { AddAllAppends(a, b.mailboxIds); }
  }

  /** The ids that are neither empty nor known, each where it first occurs. */
  function Unknown(known: seq<string>, ids: seq<string>): seq<string>
    decreases |ids|
  {
    if ids == [] then []
    else if ids[0] == "" || ids[0] in known then Unknown(known, ids[1..])
    else [ids[0]] + Unknown(known + [ids[0]], ids[1..])
  }

  lemma {:induction false} AddAllFront(s: Scope, ids: seq<string>)
    requires ids != []
    ensures AddAll(s, ids) == AddAll(Add(s, ids[0]), ids[1..])
  {
    if |ids| == 1 {
      assert ids[..0] == [] && AddAll(s, []) == s;
    } else {
      var init, last := ids[..|ids| - 1], ids[|ids| - 1];
      AddAllFront(s, init);
      assert init[1..] == ids[1..][..|ids| - 2];
    }
  }

  lemma {:induction false} AddAllWide(ids: seq<string>)
    ensures AddAll(Scope(true, []), ids) == Scope(true, [])
  {
    if ids != [] { AddAllWide(ids[..|ids| - 1]); }
  }

  lemma {:induction false} AddAllExactly(known: seq<string>, ids: seq<string>)
    requires |known| <= 64
    ensures var all := known + Unknown(known, ids);
      AddAll(Scope(false, known), ids) == if |all| <= 64 then Scope(false, all) else Scope(true, [])
    decreases |ids|
  {
    if ids == [] {
      assert known + Unknown(known, ids) == known;
    } else {
      AddAllFront(Scope(false, known), ids);
      if ids[0] == "" || ids[0] in known {
        AddAllExactly(known, ids[1..]);
      } else if |known| == 64 {
        AddAllWide(ids[1..]);
      } else {
        AddAllExactly(known + [ids[0]], ids[1..]);
        assert known + ([ids[0]] + Unknown(known + [ids[0]], ids[1..]))
            == known + [ids[0]] + Unknown(known + [ids[0]], ids[1..]);
      }
    }
  }

  /**
   Two lists merge into the first followed by what is new in the second, in its order and each once, or into
   the whole account when that is more than 64 ids.
   */
  lemma MergeExactly(a: seq<string>, b: seq<string>)
    requires |a| <= 64
    ensures var all := a + Unknown(a, b);
      Merge(Scope(false, a), Scope(false, b)) == if |all| <= 64 then Scope(false, all) else Scope(true, [])
  {
    AddAllExactly(a, b);
  }
}
