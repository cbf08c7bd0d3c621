/** The manifest does not depend on the order of the records, and selects what it should. */
module ManifestTheorems {
  import opened Wrappers
  import opened ManifestSpec

  // ---------------------------------------------------------------- orders

  lemma {:induction false} BelowTotal(a: seq<nat>, b: seq<nat>)
    ensures !Below(a, b) && !Below(b, a) ==> a == b
  {
    if a != [] && b != [] && a[0] == b[0] {
      BelowTotal(a[1..], b[1..]);
      assert a == [a[0]] + a[1..] && b == [b[0]] + b[1..];
    }
  }

  lemma {:induction false} BeforeIrreflexive(a: string)
    ensures !Before(a, a)
  {
    if a != [] { BeforeIrreflexive(a[1..]); }
  }

  lemma {:induction false} BeforeAntisymmetric(a: string, b: string)
    ensures !(Before(a, b) && Before(b, a))
  {
    if a != [] && b != [] { BeforeAntisymmetric(a[1..], b[1..]); }
  }

  lemma PrecedesAntisymmetric(a: Direction, b: Direction)
    ensures !(Precedes(a, b) && Precedes(b, a)) && !Precedes(a, a)
  {
    BeforeAntisymmetric(a.source, b.source);
    BeforeAntisymmetric(a.target, b.target);
    BeforeIrreflexive(a.source);
    BeforeIrreflexive(a.target);
  }

  lemma HasMember<T>(s: seq<T>)
    ensures s != [] ==> exists x :: x in s
  {
    if s != [] { assert s[0] in s; }
  }

  /** Strictly ordered lists with the same members are equal. */
  lemma {:induction false} SameFiles(a: seq<File>, b: seq<File>)
    requires FilesInOrder(a) && FilesInOrder(b)
    requires (forall f | f in a :: f in b) && (forall f | f in b :: f in a)
    ensures a == b
    decreases |a|
  {
    if a == [] {
      HasMember(b);
    } else {
      assert a[0] in b;
      assert b[0] in a;
      assert a[0] == b[0] by {
        var i :| 0 <= i < |b| && b[i] == a[0];
        var j :| 0 <= j < |a| && a[j] == b[0];
        if i > 0 && j > 0 { BeforeAntisymmetric(a[0].fileType, b[0].fileType); }
      }
      BeforeIrreflexive(a[0].fileType);
      forall f | f in a[1..] ensures f in b[1..] {
        var i :| 1 <= i < |a| && a[i] == f;
        assert f in b && f != b[0];
      }
      forall f | f in b[1..] ensures f in a[1..] {
        var i :| 1 <= i < |b| && b[i] == f;
        assert f in a && f != a[0];
      }
      SameFiles(a[1..], b[1..]);
      assert a == [a[0]] + a[1..] && b == [b[0]] + b[1..];
    }
  }

  lemma {:induction false} SameEntries(a: seq<Entry>, b: seq<Entry>)
    requires EntriesInOrder(a) && EntriesInOrder(b)
    requires (forall e | e in a :: e in b) && (forall e | e in b :: e in a)
    ensures a == b
    decreases |a|
  {
    if a == [] {
      HasMember(b);
    } else {
      assert a[0] in b;
      assert b[0] in a;
      PrecedesAntisymmetric(a[0].direction, b[0].direction);
      assert a[0] == b[0] by {
        var i :| 0 <= i < |b| && b[i] == a[0];
        var j :| 0 <= j < |a| && a[j] == b[0];
      }
      forall e | e in a[1..] ensures e in b[1..] {
        var i :| 1 <= i < |a| && a[i] == e;
        assert e in b && e != b[0];
      }
      forall e | e in b[1..] ensures e in a[1..] {
        var i :| 1 <= i < |b| && b[i] == e;
        assert e in a && e != a[0];
      }
      SameEntries(a[1..], b[1..]);
      assert a == [a[0]] + a[1..] && b == [b[0]] + b[1..];
    }
  }

  // ---------------------------------------------------------------- permutations

  lemma {:induction false} GroupMembers(records: seq<Record>, key: Key)
    ensures forall r :: r in Group(records, key) <==> r in records && Eligible(r) && KeyOf(r) == key
    ensures forall r ::
              multiset(Group(records, key))[r] == (if Eligible(r) && KeyOf(r) == key then multiset(records)[r] else 0)
  {
    if records != [] {
      GroupMembers(records[..|records| - 1], key);
      assert records == records[..|records| - 1] + [records[|records| - 1]];
    }
  }

  lemma SameGroupMembers(a: seq<Record>, b: seq<Record>, key: Key)
    requires multiset(a) == multiset(b)
    ensures multiset(Group(a, key)) == multiset(Group(b, key))
    ensures forall r :: r in Group(a, key) <==> r in Group(b, key)
  {
    hide Group, Eligible;
    GroupMembers(a, key);
    GroupMembers(b, key);
    var g, h := Group(a, key), Group(b, key);
    assert forall r :: multiset(g)[r] == multiset(h)[r];
    assert forall r :: r in g <==> r in multiset(g);
    assert forall r :: r in h <==> r in multiset(h);
  }

  lemma SameGroup(a: seq<Record>, b: seq<Record>, key: Key)
    requires multiset(a) == multiset(b)
    ensures multiset(Group(a, key)) == multiset(Group(b, key))
    ensures forall r :: r in Group(a, key) <==> r in Group(b, key)
    ensures Candidate(a, key) == Candidate(b, key)
  {
    hide Group, Complete;
    SameGroupMembers(a, b, key);
    CompleteAlike(Group(a, key), Group(b, key));
  }

  lemma CompleteAlike(a: seq<Record>, b: seq<Record>)
    requires forall r :: r in a <==> r in b
    ensures Complete(a) == Complete(b)
  {
    assert forall fileType :: HasType(a, fileType) == HasType(b, fileType);
  }

  lemma RepeatedMoves(a: seq<Record>, b: seq<Record>)
    requires multiset(a) == multiset(b) && Repeated(a)
    ensures Repeated(b)
  {
    var i, j :| 0 <= i < j < |a| && a[i].fileType == a[j].fileType;
    assert a[i] in multiset(a) && a[j] in multiset(a);
    if a[i] != a[j] {
      var k :| 0 <= k < |b| && b[k] == a[i];
      var l :| 0 <= l < |b| && b[l] == a[j];
      assert k != l;
      assert k < l || l < k;
    } else {
      TwiceCounted(a, i, j);
      CountedTwice(b, a[i]);
    }
  }

  lemma TwiceCounted<T>(s: seq<T>, i: int, j: int)
    requires 0 <= i < j < |s| && s[i] == s[j]
    ensures multiset(s)[s[i]] >= 2
  {
    assert s == s[..j] + [s[j]] + s[j + 1..];
    assert s[i] == s[..j][i];
    assert multiset(s) == multiset(s[..j]) + multiset{s[j]} + multiset(s[j + 1..]);
  }

  lemma {:induction false} CountedTwice<T>(s: seq<T>, x: T)
    requires multiset(s)[x] >= 2
    ensures exists i, j :: 0 <= i < j < |s| && s[i] == x && s[j] == x
  {
    var k :| 0 <= k < |s| && s[k] == x;
    var rest := s[..k] + s[k + 1..];
    assert s == s[..k] + [s[k]] + s[k + 1..];
    assert multiset(s) == multiset(rest) + multiset{x};
    assert x in rest;
    var m :| 0 <= m < |rest| && rest[m] == x;
    if m < k { assert s[m] == x; } else { assert s[m + 1] == x; }
  }

  lemma {:induction false} LatestIsMaximum(records: seq<Record>)
    requires records != []
    ensures forall r | r in records :: r.lastModified <= Latest(records)
    ensures exists r | r in records :: r.lastModified == Latest(records)
  {
    var last := records[|records| - 1];
    if |records| > 1 {
      LatestIsMaximum(records[..|records| - 1]);
      var m :| m in records[..|records| - 1] && m.lastModified == Latest(records[..|records| - 1]);
      assert m in records && last in records;
      assert forall r | r in records :: r in records[..|records| - 1] || r == last;
    } else {
      assert last in records;
    }
  }

  /** The highest complete candidates of a direction carry one version text. */
  ghost predicate NoTies(records: seq<Record>) {
    forall a: Key, b: Key | Candidate(records, a) && Candidate(records, b) && a.direction == b.direction
      && Highest(records, a) && Highest(records, b) :: a.version == b.version
  }

  lemma CandidateHasRecord(records: seq<Record>, key: Key)
    requires Candidate(records, key)
    ensures exists r :: r in records && Eligible(r) && KeyOf(r) == key
    ensures key.direction in Directions(records)
    ensures VersionKey(key.version).Some? && (key.architecture == PREFERRED || key.architecture == OTHER)
  {
    GroupMembers(records, key);
    var r :| r in Group(records, key) && r.fileType == "model";
    assert r in records && Candidate(records, KeyOf(r));
  }

  /** Without ties the choice in a direction is unique. */
  lemma BestIsUnique(records: seq<Record>, a: Key, b: Key)
    requires NoTies(records) && Best(records, a) && Best(records, b) && a.direction == b.direction
    ensures a == b
  {
    CandidateHasRecord(records, a);
    CandidateHasRecord(records, b);
    assert a.(architecture := PREFERRED) == b.(architecture := PREFERRED);
  }

  lemma ChosenMoves(a: seq<Record>, b: seq<Record>, pick: map<Direction, Key>)
    requires multiset(a) == multiset(b) && Chosen(a, pick)
    ensures Chosen(b, pick)
  {
    hide Group, Complete;
    forall key ensures Candidate(a, key) == Candidate(b, key) { SameGroup(a, b, key); }
    assert forall r :: r in a <==> r in multiset(a);
    assert forall r :: r in b <==> r in multiset(b);
    assert Directions(a) == Directions(b);
  }

  lemma UsableMoves(a: seq<Record>, b: seq<Record>, pick: map<Direction, Key>)
    requires multiset(a) == multiset(b) && Usable(a, pick)
    ensures Usable(b, pick)
  {
    hide Group, Repeated, Valid, Eligible;
    assert forall r :: r in a <==> r in multiset(a);
    assert forall r :: r in b <==> r in multiset(b);
    forall d | d in pick
      ensures !Repeated(Group(b, pick[d])) && forall r | r in Group(b, pick[d]) :: Valid(r)
    {
      SameGroup(a, b, pick[d]);
      if Repeated(Group(b, pick[d])) { RepeatedMoves(Group(b, pick[d]), Group(a, pick[d])); }
    }
  }

  lemma SameLists(a: seq<Record>, b: seq<Record>, files: seq<File>, others: seq<File>)
    requires forall r :: r in a <==> r in b
    requires forall r | r in a :: Valid(r)
    requires Lists(files, a) && Lists(others, b)
    ensures files == others
  {
    forall f | f in files ensures f in others {
      var r :| r in a && f == FileOf(r);
    }
    forall f | f in others ensures f in files {
      var r :| r in b && f == FileOf(r);
    }
    SameFiles(files, others);
  }

  lemma DescribedAlike(a: seq<Record>, b: seq<Record>, pick: map<Direction, Key>, m: seq<Entry>, n: seq<Entry>)
    requires multiset(a) == multiset(b) && Usable(a, pick) && Usable(b, pick)
    requires Describes(a, pick, m) && Describes(b, pick, n)
    ensures forall e | e in m :: e in n
  {
    hide Usable, Group, Lists;
    forall e | e in m ensures e in n {
      var f :| f in n && f.direction == e.direction;
      var key := pick[e.direction];
      SameGroup(a, b, key);
      UsableValid(a, pick, e.direction);
      SameLists(Group(a, key), Group(b, key), e.files, f.files);
    }
  }

  lemma UsableValid(a: seq<Record>, pick: map<Direction, Key>, d: Direction)
    requires Usable(a, pick) && d in pick
    ensures forall r | r in Group(a, pick[d]) :: Valid(r)
  {
  }

  lemma PicksAgree(records: seq<Record>, pick: map<Direction, Key>, other: map<Direction, Key>)
    requires NoTies(records) && Chosen(records, pick) && Chosen(records, other)
    ensures pick == other
  {
    hide Best, Candidate, NoTies, Directions;
    forall d | d in pick ensures pick[d] == other[d] {
      BestIsUnique(records, pick[d], other[d]);
    }
  }

  /**
   Stability: whatever order the records come in, and whatever order the dictionaries are visited in,
   generation fails or succeeds alike and gives the same manifest.
   */
  lemma ManifestIsStable(a: seq<Record>, b: seq<Record>, revision: Option<int>,
                         m: Option<Manifest>, n: Option<Manifest>)
    requires multiset(a) == multiset(b) && NoTies(a)
    requires Generates(a, revision, m) && Generates(b, revision, n)
    ensures m == n
  {
    hide NoTies, Chosen, Usable, Describes, Latest;
    var pick :| Chosen(a, pick) && Result(a, revision, pick, m);
    var other :| Chosen(b, other) && Result(b, revision, other, n);
    ChosenMoves(b, a, other);
    PicksAgree(a, pick, other);
    if Usable(a, pick) { UsableMoves(a, b, pick); }
    if Usable(b, pick) { UsableMoves(b, a, pick); }
    assert |a| == |multiset(a)| == |b|;
    if m.Some? && n.Some? {
      DescribedAlike(a, b, pick, m.value.entries, n.value.entries);
      DescribedAlike(b, a, pick, n.value.entries, m.value.entries);
      DescribesOrder(a, pick, m.value.entries);
      DescribesOrder(b, pick, n.value.entries);
      SameEntries(m.value.entries, n.value.entries);
      if a != [] { SameLatest(a, b); }
    }
  }

  lemma DescribesOrder(records: seq<Record>, pick: map<Direction, Key>, entries: seq<Entry>)
    requires Usable(records, pick) && Describes(records, pick, entries)
    ensures EntriesInOrder(entries)
  {
  }

  lemma SameLatest(a: seq<Record>, b: seq<Record>)
    requires multiset(a) == multiset(b) && a != [] && b != []
    ensures Latest(a) == Latest(b)
  {
    LatestIsMaximum(a);
    LatestIsMaximum(b);
    assert forall r :: r in a <==> r in multiset(a);
    assert forall r :: r in b <==> r in multiset(b);
  }

  lemma OnlyOnce(entries: seq<Entry>, i: int, j: int)
    requires EntriesInOrder(entries) && 0 <= i < |entries| && 0 <= j < |entries|
    requires entries[i].direction == entries[j].direction
    ensures i == j
  {
    PrecedesAntisymmetric(entries[i].direction, entries[j].direction);
  }

  /**
   Each direction with a complete candidate appears exactly once, at a version no complete candidate of it
   exceeds, and there with the preferred architecture whenever that is complete.
   */
  lemma SelectsTheBest(records: seq<Record>, revision: Option<int>, m: Manifest, key: Key)
    requires Generates(records, revision, Some(m)) && Candidate(records, key)
    ensures exists i :: (0 <= i < |m.entries| && m.entries[i].direction == key.direction
                         && (forall j | 0 <= j < |m.entries| && m.entries[j].direction == key.direction :: j == i)
                         && Best(records, Key(key.direction, m.entries[i].version, m.entries[i].architecture)))
  {
    hide Usable, Best, Candidate, Lists, Directions, EntriesInOrder, Revision, Revised;
    var pick :| Chosen(records, pick) && Result(records, revision, pick, Some(m));
    CandidateHasRecord(records, key);
    assert key.direction in pick;
    var e :| e in m.entries && e.direction == key.direction;
    var i :| 0 <= i < |m.entries| && m.entries[i] == e;
    forall j | 0 <= j < |m.entries| && m.entries[j].direction == key.direction ensures j == i {
      OnlyOnce(m.entries, i, j);
    }
    assert Key(key.direction, e.version, e.architecture) == pick[key.direction];
  }
}
