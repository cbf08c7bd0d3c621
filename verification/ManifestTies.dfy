/** When the manifest depends on the order in which a set of version texts is visited. */
module ManifestTies {
  import opened Wrappers
  import opened ManifestSpec
  import opened ManifestTheorems
  import opened ManifestGenerator

  // ---------------------------------------------------------------- unique choices

  /** A highest candidate, or its counterpart of the preferred architecture, is a best one. */
  lemma BestAtVersion(records: seq<Record>, key: Key) returns (best: Key)
    requires Candidate(records, key) && Highest(records, key)
    ensures Best(records, best) && best.direction == key.direction && best.version == key.version
  {
    hide Candidate;
    var preferred := key.(architecture := PREFERRED);
    best := if Candidate(records, preferred) then preferred else key;
  }

  /** The best choice is unique in every direction exactly when no version texts tie. */
  lemma UniqueExactlyWithoutTies(records: seq<Record>)
    ensures NoTies(records) <==>
      forall a: Key, b: Key | Best(records, a) && Best(records, b) && a.direction == b.direction :: a == b
  {
    hide Candidate, Highest, Best;
    if NoTies(records) {
      forall a: Key, b: Key | Best(records, a) && Best(records, b) && a.direction == b.direction ensures a == b {
        BestIsUnique(records, a, b);
      }
    }
    forall a: Key, b: Key | Candidate(records, a) && Candidate(records, b) && a.direction == b.direction
      && Highest(records, a) && Highest(records, b)
      ensures (forall x: Key, y: Key | Best(records, x) && Best(records, y) && x.direction == y.direction :: x == y)
        ==> a.version == b.version
    {
      var x := BestAtVersion(records, a);
      var y := BestAtVersion(records, b);
    }
  }

  /** In particular when the eligible version texts of a direction have distinct numbers. */
  lemma DistinctTextsNeverTie(records: seq<Record>)
    requires forall r, q | r in records && q in records && Eligible(r) && Eligible(q)
      && KeyOf(r).direction == KeyOf(q).direction && VersionKey(r.version) == VersionKey(q.version) ::
      r.version == q.version
    ensures NoTies(records)
  {
    hide VersionKey, Eligible;
    forall a: Key, b: Key | Candidate(records, a) && Candidate(records, b) && a.direction == b.direction
      && Highest(records, a) && Highest(records, b)
      ensures a.version == b.version
    {
      CandidateHasRecord(records, a);
      CandidateHasRecord(records, b);
      BelowTotal(VersionKey(a.version).value, VersionKey(b.version).value);
    }
  }

  // ---------------------------------------------------------------- a result exists for every choice

  lemma {:induction false} FileInserted(sorted: seq<File>, x: File) returns (r: seq<File>)
    requires FilesInOrder(sorted) && forall f | f in sorted :: f.fileType != x.fileType
    ensures FilesInOrder(r) && forall f :: f in r <==> f in sorted || f == x
    decreases |sorted|
  {
    hide Before;
    if sorted == [] {
      r := [x];
    } else {
      var first, rest := sorted[0], sorted[1..];
      BeforeTotal(x.fileType, first.fileType);
      assert sorted == [first] + rest;
      if Before(first.fileType, x.fileType) {
        var tail := FileInserted(rest, x);
        r := [first] + tail;
        forall f | f in tail ensures Before(first.fileType, f.fileType) {
          if f != x { var i :| 0 <= i < |rest| && rest[i] == f; }
        }
      } else {
        r := [x] + sorted;
        forall i | 0 <= i < |sorted| ensures Before(x.fileType, sorted[i].fileType) {
          if i > 0 { BeforeTransitive(x.fileType, first.fileType, sorted[i].fileType); }
        }
      }
    }
  }

  lemma {:induction false} FilesExist(group: seq<Record>) returns (files: seq<File>)
    requires !Repeated(group) && forall r | r in group :: Valid(r)
    ensures Lists(files, group)
    decreases |group|
  {
    hide Valid;
    files := [];
    if group != [] {
      var init, last := group[..|group| - 1], group[|group| - 1];
      assert group == init + [last];
      var before := FilesExist(init);
      forall f | f in before ensures f.fileType != last.fileType {
        var r :| r in init && f == FileOf(r);
        var i :| 0 <= i < |init| && init[i] == r;
        assert group[i] == r;
      }
      files := FileInserted(before, FileOf(last));
    }
  }

  lemma {:induction false} EntryInserted(sorted: seq<Entry>, x: Entry) returns (r: seq<Entry>)
    requires EntriesInOrder(sorted) && forall e | e in sorted :: e.direction != x.direction
    ensures EntriesInOrder(r) && forall e :: e in r <==> e in sorted || e == x
    decreases |sorted|
  {
    hide Precedes;
    if sorted == [] {
      r := [x];
    } else {
      var first, rest := sorted[0], sorted[1..];
      PrecedesTotal(x.direction, first.direction);
      assert sorted == [first] + rest;
      if Precedes(first.direction, x.direction) {
        var tail := EntryInserted(rest, x);
        r := [first] + tail;
        forall e | e in tail ensures Precedes(first.direction, e.direction) {
          if e != x { var i :| 0 <= i < |rest| && rest[i] == e; }
        }
      } else {
        r := [x] + sorted;
        forall i | 0 <= i < |sorted| ensures Precedes(x.direction, sorted[i].direction) {
          if i > 0 { PrecedesTransitive(x.direction, first.direction, sorted[i].direction); }
        }
      }
    }
  }

  /** The entries for some of the directions. */
  ghost predicate Covers(records: seq<Record>, pick: map<Direction, Key>, some: set<Direction>, entries: seq<Entry>)
    requires Usable(records, pick)
  {
    EntriesInOrder(entries)
    && (forall d | d in some :: exists e :: e in entries && e.direction == d)
    && (forall e | e in entries :: e.direction in some && e.direction in pick
          && e == EntryOf(pick[e.direction], e.files) && Lists(e.files, Group(records, pick[e.direction])))
  }

  lemma {:induction false} EntriesExist(records: seq<Record>, pick: map<Direction, Key>, some: set<Direction>)
    returns (entries: seq<Entry>)
    requires Usable(records, pick) && some <= pick.Keys && forall d | d in pick :: pick[d].direction == d
    ensures Covers(records, pick, some, entries)
    decreases |some|
  {
    hide Usable, Group, Lists, Repeated, Valid;
    entries := [];
    if some != {} {
      var d :| d in some;
      var before := EntriesExist(records, pick, some - {d});
      UsableGroup(records, pick, d);
      var files := FilesExist(Group(records, pick[d]));
      var entry := EntryOf(pick[d], files);
      entries := EntryInserted(before, entry);
      forall k | k in some ensures exists e :: e in entries && e.direction == k {
        if k == d {
          assert entry in entries && entry.direction == d;
        } else {
          assert k in some - {d};
          var e :| e in before && e.direction == k;
          assert e in entries;
        }
      }
    }
  }

  lemma UsableGroup(records: seq<Record>, pick: map<Direction, Key>, d: Direction)
    requires Usable(records, pick) && d in pick
    ensures !Repeated(Group(records, pick[d])) && forall r | r in Group(records, pick[d]) :: Valid(r)
  {
  }

  lemma ResultExists(records: seq<Record>, revision: Option<int>, pick: map<Direction, Key>)
    returns (result: Option<Manifest>)
    requires Chosen(records, pick)
    ensures Result(records, revision, pick, result)
    ensures result.Some? <==> Revised(records, revision) && Usable(records, pick)
  {
    hide Usable, Best, Directions, Lists, Group, Revised, Revision;
    result := None;
    if Revised(records, revision) && Usable(records, pick) {
      var entries := EntriesExist(records, pick, pick.Keys);
      result := Some(Manifest(Revision(records, revision), entries));
    }
  }

  // ---------------------------------------------------------------- exactly when the result is determined

  /** Every order of visiting the sets and dictionaries gives the same result. */
  ghost predicate Determined(records: seq<Record>, revision: Option<int>) {
    forall m, n | Generates(records, revision, m) && Generates(records, revision, n) :: m == n
  }

  lemma EntryVersion(records: seq<Record>, revision: Option<int>, pick: map<Direction, Key>, m: Manifest, d: Direction)
    requires Result(records, revision, pick, Some(m)) && d in pick && pick[d].direction == d
    ensures exists e :: e in m.entries && e.direction == d
    ensures forall e | e in m.entries && e.direction == d :: e.version == pick[d].version
  {
    hide Usable, Lists, Group, Revision;
  }

  /** With a tie, a choice that succeeds has a rival that fails or gives another manifest. */
  lemma TieGivesRival(records: seq<Record>, revision: Option<int>, pick: map<Direction, Key>)
    requires !NoTies(records) && Revised(records, revision) && Chosen(records, pick) && Usable(records, pick)
    ensures exists m, n :: m != n && Generates(records, revision, m) && Generates(records, revision, n)
  {
    hide Candidate, Highest, Best, Usable, Result, Directions, Revised;
    var a: Key, b: Key :| Candidate(records, a) && Candidate(records, b) && a.direction == b.direction
      && Highest(records, a) && Highest(records, b) && a.version != b.version;
    var d := a.direction;
    CandidateHasRecord(records, a);
    var other := BestAtVersion(records, if pick[d].version == a.version then b else a);
    var rival := pick[d := other];
    assert rival.Keys == pick.Keys;
    assert Chosen(records, rival);
    var m := ResultExists(records, revision, pick);
    var n := ResultExists(records, revision, rival);
    EntryVersion(records, revision, pick, m.value, d);
    if n.Some? { EntryVersion(records, revision, rival, n.value, d); }
    assert Generates(records, revision, m) && Generates(records, revision, n);
  }

  /**
   The result is determined exactly when no version texts tie, or nothing can be generated at all: there is
   no revision, or every choice meets a record that makes generation fail.
   */
  lemma DeterminedExactly(records: seq<Record>, revision: Option<int>)
    ensures Determined(records, revision) <==>
      NoTies(records) || !Revised(records, revision) || forall pick | Chosen(records, pick) :: !Usable(records, pick)
  {
    hide NoTies, Chosen, Usable, Result, Revised;
    if NoTies(records) {
      forall m, n | Generates(records, revision, m) && Generates(records, revision, n) ensures m == n {
        ManifestIsStable(records, records, revision, m, n);
      }
    } else if Revised(records, revision) && exists pick :: Chosen(records, pick) && Usable(records, pick) {
      var pick :| Chosen(records, pick) && Usable(records, pick);
      TieGivesRival(records, revision, pick);
    } else {
      forall m | Generates(records, revision, m) ensures m == None {
        var pick :| Chosen(records, pick) && Result(records, revision, pick, m);
        ResultFails(records, revision, pick, m);
      }
    }
  }

  lemma ResultFails(records: seq<Record>, revision: Option<int>, pick: map<Direction, Key>, m: Option<Manifest>)
    requires Result(records, revision, pick, m) && !(Revised(records, revision) && Usable(records, pick))
    ensures m == None
  {
  }

  // ---------------------------------------------------------------- 3.1 and 3.01

  function Hash(): string {
    seq(64, i => 'a')
  }

  function Sample(version: string, fileType: string): Record {
    Record("en", "de", version, OTHER, fileType,
           Some(Attachment(Some("file"), "application/zstd", Some(Hash()), Some(1))), Some(Hash()), Some(1), 0)
  }

  function Samples(version: string): seq<Record> {
    [Sample(version, "model"), Sample(version, "lex"), Sample(version, "vocab")]
  }

  lemma {:induction false} LowerKeeps(s: string)
    requires forall c | c in s :: !('A' <= c <= 'Z')
    ensures Lower(s) == s
  {
    if s != [] {
      assert s[0] in s && forall c | c in s[1..] :: c in s;
      LowerKeeps(s[1..]);
      assert s == [s[0]] + s[1..];
    }
  }

  lemma SampleValid(version: string, fileType: string)
    ensures Valid(Sample(version, fileType))
  {
    assert forall c | c in Hash() :: c == 'a';
    LowerKeeps(Hash());
  }

  lemma NotRepeatedMore(s: seq<Record>, x: Record)
    requires !Repeated(s) && forall r | r in s :: r.fileType != x.fileType
    ensures !Repeated(s + [x])
  {
    var t := s + [x];
    forall i, j | 0 <= i < j < |t| ensures t[i].fileType != t[j].fileType {
      if j == |s| { assert s[i] in s; } else { assert s[i].fileType != s[j].fileType; }
    }
  }

  /** Records of one group have different types. */
  predicate TypesDiffer(records: seq<Record>) {
    forall i, j | 0 <= i < j < |records| && KeyOf(records[i]) == KeyOf(records[j]) ::
      records[i].fileType != records[j].fileType
  }

  lemma TypesDifferPrefix(init: seq<Record>, last: Record)
    requires TypesDiffer(init + [last])
    ensures TypesDiffer(init)
    ensures forall r | r in init && KeyOf(r) == KeyOf(last) :: r.fileType != last.fileType
  {
    var records := init + [last];
    forall i, j | 0 <= i < j < |init| && KeyOf(init[i]) == KeyOf(init[j]) ensures init[i].fileType != init[j].fileType {
      assert records[i] == init[i] && records[j] == init[j];
    }
    forall r | r in init && KeyOf(r) == KeyOf(last) ensures r.fileType != last.fileType {
      var k :| 0 <= k < |init| && init[k] == r;
      assert records[k] == r && records[|init|] == last;
    }
  }

  lemma {:induction false} GroupNotRepeated(records: seq<Record>, key: Key)
    requires TypesDiffer(records)
    ensures !Repeated(Group(records, key))
  {
    hide Eligible, Repeated, Group, TypesDiffer;
    if records == [] {
      GroupOfNone(key);
    } else {
      var init, last := records[..|records| - 1], records[|records| - 1];
      assert records == init + [last];
      TypesDifferPrefix(init, last);
      GroupNotRepeated(init, key);
      GroupMembers(init, key);
      GroupOneMore(init, last, key);
      if KeyOf(last) == key { NotRepeatedMore(Group(init, key), last); }
    }
  }

  lemma GroupOfNone(key: Key)
    ensures Group([], key) == [] && !Repeated([])
  {
  }

  lemma GroupOneMore(init: seq<Record>, last: Record, key: Key)
    ensures Group(init + [last], key)
         == if Eligible(last) && KeyOf(last) == key then Group(init, key) + [last] else Group(init, key)
  {
    hide Eligible;
    assert (init + [last])[..|init|] == init;
    assert Group(init, key) + [] == Group(init, key);
  }

  lemma SampleVersions()
    ensures VersionKey("3.1") == VersionKey("3.01") == Some([3, 1])
  {
    assert "3.1"[..1] == "3" && "3.01"[..3] == "3.0" && "3.0"[..1] == "3";
    assert VersionKey("3") == Some([3]);
    assert [3] + [0] == [3, 0] && [3] + [1] == [3, 1] && [3, 0][..1] + [1] == [3, 1];
    assert VersionKey("3.0") == Some([3, 0]);
  }

  lemma SampleCandidate(records: seq<Record>, version: string)
    requires forall r | r in Samples(version) :: r in records
    requires VersionKey(version) == Some([3, 1])
    ensures Candidate(records, KeyOf(Sample(version, "model")))
  {
    hide VersionKey;
    var key := KeyOf(Sample(version, "model"));
    GroupMembers(records, key);
    forall t | t in {"model", "lex", "vocab"} ensures HasType(Group(records, key), t) {
      assert Sample(version, t) in Samples(version) && Sample(version, t) in Group(records, key);
    }
  }

  lemma SamplesTie(records: seq<Record>)
    requires records == Samples("3.1") + Samples("3.01")
    ensures !NoTies(records)
  {
    hide VersionKey, Candidate, Below, Eligible, Samples;
    SampleVersions();
    var a, b := KeyOf(Sample("3.1", "model")), KeyOf(Sample("3.01", "model"));
    SampleCandidate(records, "3.1");
    SampleCandidate(records, "3.01");
    forall k: Key | Candidate(records, k) ensures VersionKey(k.version) == Some([3, 1]) {
      CandidateHasRecord(records, k);
      SampleVersion(records);
    }
    BelowSelf([3, 1]);
    assert Highest(records, a) && Highest(records, b);
    assert |a.version| != |b.version|;
  }

  lemma SampleVersion(records: seq<Record>)
    requires records == Samples("3.1") + Samples("3.01")
    ensures forall r | r in records :: r.version == "3.1" || r.version == "3.01"
  {
  }

  lemma SamplesUsable(records: seq<Record>, pick: map<Direction, Key>)
    requires records == Samples("3.1") + Samples("3.01")
    ensures Usable(records, pick)
  {
    hide Valid, Group, Repeated, Eligible, VersionKey;
    assert |"3.1"| != |"3.01"|;
    SampleTypes(records);
    forall key: Key ensures !Repeated(Group(records, key)) && forall r | r in Group(records, key) :: Valid(r) {
      GroupNotRepeated(records, key);
      GroupMembers(records, key);
    }
  }

  lemma SampleTypes(records: seq<Record>)
    requires records == Samples("3.1") + Samples("3.01")
    ensures forall r | r in records :: Valid(r) && r.fileType in KNOWN_TYPES
    ensures TypesDiffer(records)
  {
    hide Valid;
    assert |"3.1"| != |"3.01"|;
    forall r | r in records ensures Valid(r) && r.fileType in KNOWN_TYPES {
      var i :| 0 <= i < |records| && records[i] == r;
      assert r == Sample(r.version, r.fileType);
      SampleValid(r.version, r.fileType);
    }
    assert |"model"| == 5 && |"lex"| == 3 && |"vocab"| == 5;
    assert "model"[0] != "vocab"[0];
  }

  /** Version texts `3.1` and `3.01` in one direction: two manifests can be generated. */
  lemma TiedTexts(revision: int)
    ensures !Determined(Samples("3.1") + Samples("3.01"), Some(revision))
  {
    hide Chosen, Usable, NoTies, Determined, Samples;
    var records := Samples("3.1") + Samples("3.01");
    SamplesTie(records);
    var pick := SomeChoice(records);
    SamplesUsable(records, pick);
    DeterminedExactly(records, Some(revision));
  }
}
