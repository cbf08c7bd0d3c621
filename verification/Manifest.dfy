/** The manifest generator: grouping, selection and sorting, proved to generate what the relation allows. */
module ManifestGenerator {
  import opened Wrappers
  import opened ManifestSpec
  import opened ManifestTheorems

  datatype Selection = Selection(key: Key, records: seq<Record>)

  // ---------------------------------------------------------------- orders are total

  lemma {:induction false} BelowTransitive(a: seq<nat>, b: seq<nat>, c: seq<nat>)
    ensures !Below(a, b) && !Below(b, c) ==> !Below(a, c)
  {
    if a != [] && b != [] && c != [] { BelowTransitive(a[1..], b[1..], c[1..]); }
  }

  lemma {:induction false} BeforeTotal(a: string, b: string)
    ensures a == b || Before(a, b) || Before(b, a)
  {
    if a != [] && b != [] && a[0] == b[0] {
      BeforeTotal(a[1..], b[1..]);
      assert a == [a[0]] + a[1..] && b == [b[0]] + b[1..];
    }
  }

  lemma {:induction false} BeforeTransitive(a: string, b: string, c: string)
    ensures Before(a, b) && Before(b, c) ==> Before(a, c)
  {
    if a != [] && b != [] && c != [] { BeforeTransitive(a[1..], b[1..], c[1..]); }
  }

  lemma PrecedesTotal(a: Direction, b: Direction)
    ensures a == b || Precedes(a, b) || Precedes(b, a)
  {
    BeforeTotal(a.source, b.source);
    BeforeTotal(a.target, b.target);
  }

  lemma PrecedesTransitive(a: Direction, b: Direction, c: Direction)
    ensures Precedes(a, b) && Precedes(b, c) ==> Precedes(a, c)
  {
    BeforeTransitive(a.source, b.source, c.source);
    BeforeTransitive(a.target, b.target, c.target);
  }

  // ---------------------------------------------------------------- a choice exists

  function Numbers(key: Key): seq<nat> {
    VersionKey(key.version).GetOr([])
  }

  lemma {:induction false} HighestExists(keys: set<Key>)
    requires keys != {}
    ensures exists k :: k in keys && forall q | q in keys :: !Below(Numbers(k), Numbers(q))
    decreases |keys|
  {
    var x :| x in keys;
    if keys != {x} {
      assert keys - {x} != {} by { assert keys == keys - {x} + {x}; }
      HighestExists(keys - {x});
      var k :| k in keys - {x} && forall q | q in keys - {x} :: !Below(Numbers(k), Numbers(q));
      var best := if Below(Numbers(k), Numbers(x)) then x else k;
      BelowSelf(Numbers(x));
      forall q | q in keys ensures !Below(Numbers(best), Numbers(q)) {
        if best == x && q != x {
          BelowAntisymmetric(Numbers(k), Numbers(x));
          BelowTransitive(Numbers(x), Numbers(k), Numbers(q));
        }
      }
    } else {
      BelowSelf(Numbers(x));
    }
  }

  lemma {:induction false} BelowSelf(a: seq<nat>)
    ensures !Below(a, a)
  {
    if a != [] { BelowSelf(a[1..]); }
  }

  lemma {:induction false} BelowAntisymmetric(a: seq<nat>, b: seq<nat>)
    ensures !(Below(a, b) && Below(b, a))
  {
    if a != [] && b != [] { BelowAntisymmetric(a[1..], b[1..]); }
  }

  lemma BestExists(records: seq<Record>, d: Direction)
    requires d in Directions(records)
    ensures exists k: Key :: k.direction == d && Best(records, k)
  {
    hide Candidate;
    var keys := set r | r in records && KeyOf(r).direction == d && Candidate(records, KeyOf(r)) :: KeyOf(r);
    var r :| r in records && Candidate(records, KeyOf(r)) && KeyOf(r).direction == d;
    assert KeyOf(r) in keys;
    HighestExists(keys);
    var k :| k in keys && forall q | q in keys :: !Below(Numbers(k), Numbers(q));
    forall q | Candidate(records, q) && q.direction == d ensures q in keys {
      CandidateHasRecord(records, q);
    }
    var preferred := k.(architecture := PREFERRED);
    if Candidate(records, preferred) {
      assert Best(records, preferred);
    } else {
      assert Best(records, k);
    }
  }

  ghost function BestKey(records: seq<Record>, d: Direction): (k: Key)
    requires d in Directions(records)
    ensures k.direction == d && Best(records, k)
  {
    BestExists(records, d);
    var k: Key :| k.direction == d && Best(records, k);
    k
  }

  ghost function SomeChoice(records: seq<Record>): (pick: map<Direction, Key>)
    ensures Chosen(records, pick)
  {
    map d | d in Directions(records) :: BestKey(records, d)
  }

  // ---------------------------------------------------------------- choose_candidates

  method GroupRecords(records: seq<Record>) returns (failed: bool, grouped: map<Key, seq<Record>>)
    ensures failed <==> !KnownTypes(records)
    ensures !failed ==> forall k :: k in grouped <==> Group(records, k) != []
    ensures !failed ==> forall k | k in grouped :: grouped[k] == Group(records, k)
  {
    hide VersionKey;
    grouped := map[];
    for i := 0 to |records|
      invariant KnownTypes(records[..i])
      invariant forall k :: k in grouped <==> Group(records[..i], k) != []
      invariant forall k | k in grouped :: grouped[k] == Group(records[..i], k)
    {
      var record := records[i];
      assert records[..i + 1] == records[..i] + [record] && records[..i + 1][..i] == records[..i];
      var version := VersionKey(record.version);
      if version.None? || version.value[0] != MODEL_MAJOR_VERSION { continue; }
      if record.architecture != PREFERRED && record.architecture != OTHER { continue; }
      if record.fileType !in KNOWN_TYPES {
        assert record in records && Eligible(record);
        return true, grouped;
      }
      var key := KeyOf(record);
      grouped := grouped[key := (if key in grouped then grouped[key] else []) + [record]];
    }
    assert records[..|records|] == records;
    return false, grouped;
  }

  ghost predicate Listed(grouped: map<Key, seq<Record>>, visited: set<Key>, d: Direction, candidates: seq<Selection>) {
    && candidates != []
    && (forall c | c in candidates :: c.key in visited && c.key.direction == d && c.key in grouped
          && c.records == grouped[c.key] && Complete(c.records))
    && d.source != "" && d.target != ""
  }

  method CollectDirections(grouped: map<Key, seq<Record>>) returns (directions: map<Direction, seq<Selection>>)
    ensures forall d | d in directions :: Listed(grouped, grouped.Keys, d, directions[d])
    ensures forall k | k in grouped && k.direction.source != "" && k.direction.target != "" && Complete(grouped[k]) ::
      k.direction in directions && Selection(k, grouped[k]) in directions[k.direction]
  {
    hide Complete;
    directions := map[];
    var left := grouped.Keys;
    while left != {}
      invariant left <= grouped.Keys
      invariant forall d | d in directions :: Listed(grouped, grouped.Keys - left, d, directions[d])
      invariant forall k | k in grouped && k !in left && k.direction.source != "" && k.direction.target != ""
                           && Complete(grouped[k]) ::
        k.direction in directions && Selection(k, grouped[k]) in directions[k.direction]
      decreases |left|
    {
      var key :| key in left;
      if key.direction.source != "" && key.direction.target != "" && Complete(grouped[key]) {
        var before := if key.direction in directions then directions[key.direction] else [];
        directions := directions[key.direction := before + [Selection(key, grouped[key])]];
      }
      left := left - {key};
    }
    assert grouped.Keys - left == grouped.Keys;
  }

  /** The distinct versions, highest first. */
  method SortVersions(versions: set<string>) returns (sorted: seq<string>)
    ensures forall v :: v in sorted <==> v in versions
    ensures forall i, j | 0 <= i < j < |sorted| ::
      !Below(VersionKey(sorted[i]).GetOr([]), VersionKey(sorted[j]).GetOr([]))
  {
    hide VersionKey, Below;
    sorted := [];
    var left := versions;
    while left != {}
      invariant left <= versions && forall v :: v in sorted <==> v in versions - left
      invariant forall i, j | 0 <= i < j < |sorted| ::
        !Below(VersionKey(sorted[i]).GetOr([]), VersionKey(sorted[j]).GetOr([]))
      decreases |left|
    {
      var v :| v in left;
      sorted := InsertVersion(sorted, v);
      left := left - {v};
    }
  }

  method InsertVersion(sorted: seq<string>, v: string) returns (r: seq<string>)
    requires forall i, j | 0 <= i < j < |sorted| ::
      !Below(VersionKey(sorted[i]).GetOr([]), VersionKey(sorted[j]).GetOr([]))
    ensures forall x :: x in r <==> x in sorted || x == v
    ensures forall i, j | 0 <= i < j < |r| :: !Below(VersionKey(r[i]).GetOr([]), VersionKey(r[j]).GetOr([]))
  {
    hide VersionKey, Below;
    var key := VersionKey(v).GetOr([]);
    var i := 0;
    while i < |sorted| && !Below(VersionKey(sorted[i]).GetOr([]), key)
      invariant i <= |sorted|
      invariant forall k | 0 <= k < i :: !Below(VersionKey(sorted[k]).GetOr([]), key)
    {
      i := i + 1;
    }
    r := sorted[..i] + [v] + sorted[i..];
    forall k | i <= k < |sorted| ensures !Below(key, VersionKey(sorted[k]).GetOr([])) {
      var next, other := VersionKey(sorted[i]).GetOr([]), VersionKey(sorted[k]).GetOr([]);
      BelowAntisymmetric(next, key);
      if k > i { BelowTransitive(key, next, other); }
    }
  }

  predicate Known(c: Selection) {
    c.key.architecture == PREFERRED || c.key.architecture == OTHER
  }

  /** The preferred architecture of a version, or else the other one. */
  method FindChoice(candidates: seq<Selection>, version: string) returns (choice: Option<Selection>)
    requires forall c | c in candidates :: Known(c)
    ensures choice.None? <==> forall c | c in candidates :: c.key.version != version
    ensures choice.Some? ==> choice.value in candidates && choice.value.key.version == version
    ensures choice.Some? && choice.value.key.architecture != PREFERRED ==>
      forall c | c in candidates && c.key.version == version :: c.key.architecture != PREFERRED
  {
    for i := 0 to |candidates|
      invariant forall c | c in candidates[..i] && c.key.version == version :: c.key.architecture != PREFERRED
    {
      if candidates[i].key.version == version && candidates[i].key.architecture == PREFERRED {
        return Some(candidates[i]);
      }
      assert candidates[..i + 1] == candidates[..i] + [candidates[i]];
    }
    assert candidates[..|candidates|] == candidates;
    for i := 0 to |candidates|
      invariant forall c | c in candidates[..i] :: c.key.version != version
    {
      if candidates[i].key.version == version && candidates[i].key.architecture == OTHER {
        return Some(candidates[i]);
      }
      assert candidates[..i + 1] == candidates[..i] + [candidates[i]];
      assert Known(candidates[i]);
    }
    return None;
  }

  /** Versions are tried from the highest; the first already has a candidate. */
  method SelectBest(candidates: seq<Selection>) returns (choice: Selection)
    requires candidates != [] && forall c | c in candidates :: Known(c)
    ensures choice in candidates
    ensures forall c | c in candidates :: !Below(Numbers(choice.key), Numbers(c.key))
    ensures choice.key.architecture == PREFERRED
      || forall c | c in candidates && c.key.version == choice.key.version :: c.key.architecture != PREFERRED
  {
    hide VersionKey, Below, Known;
    var versions := SortVersions(set c | c in candidates :: c.key.version);
    assert candidates[0] in candidates;
    assert candidates[0].key.version in versions;
    var found := FindChoice(candidates, versions[0]);
    assert versions[0] in versions;
    var first :| first in candidates && first.key.version == versions[0];
    choice := found.value;
    forall c | c in candidates ensures !Below(Numbers(choice.key), Numbers(c.key)) {
      assert c.key.version in versions;
      var k :| 0 <= k < |versions| && versions[k] == c.key.version;
      BelowSelf(Numbers(c.key));
    }
  }

  method HasDuplicates(files: seq<Record>) returns (b: bool)
    ensures b <==> Repeated(files)
  {
    var types := {};
    for i := 0 to |files|
      invariant forall t :: t in types <==> exists k :: 0 <= k < i && files[k].fileType == t
      invariant forall k, l | 0 <= k < l < i :: files[k].fileType != files[l].fileType
    {
      if files[i].fileType in types { return true; }
      types := types + {files[i].fileType};
    }
    return false;
  }

  predicate InOrder(selected: seq<Selection>) {
    forall i, j | 0 <= i < j < |selected| :: Precedes(selected[i].key.direction, selected[j].key.direction)
  }

  method InsertSelection(sorted: seq<Selection>, x: Selection) returns (r: seq<Selection>)
    requires InOrder(sorted) && forall s | s in sorted :: s.key.direction != x.key.direction
    ensures InOrder(r) && forall s :: s in r <==> s in sorted || s == x
  {
    hide Precedes;
    var i := 0;
    while i < |sorted| && Precedes(sorted[i].key.direction, x.key.direction)
      invariant i <= |sorted|
      invariant forall k | 0 <= k < i :: Precedes(sorted[k].key.direction, x.key.direction)
    {
      i := i + 1;
    }
    r := sorted[..i] + [x] + sorted[i..];
    forall k | i <= k < |sorted| ensures Precedes(x.key.direction, sorted[k].key.direction) {
      PrecedesTotal(x.key.direction, sorted[i].key.direction);
      assert sorted[i] in sorted;
      PrecedesTransitive(x.key.direction, sorted[i].key.direction, sorted[k].key.direction);
    }
  }

  lemma BestAmong(records: seq<Record>, grouped: map<Key, seq<Record>>, d: Direction,
                  candidates: seq<Selection>, choice: Selection)
    requires forall k :: k in grouped <==> Group(records, k) != []
    requires forall k | k in grouped :: grouped[k] == Group(records, k)
    requires Listed(grouped, grouped.Keys, d, candidates) && choice in candidates
    requires forall k | Candidate(records, k) && k.direction == d :: Selection(k, Group(records, k)) in candidates
    requires forall c | c in candidates :: !Below(Numbers(choice.key), Numbers(c.key))
    requires choice.key.architecture == PREFERRED
      || forall c | c in candidates && c.key.version == choice.key.version :: c.key.architecture != PREFERRED
    ensures Best(records, choice.key) && choice.key.direction == d && choice.records == Group(records, choice.key)
  {
    hide Group, Complete, Below, VersionKey;
    forall k | Candidate(records, k) && k.direction == choice.key.direction
      ensures !Below(Numbers(choice.key), Numbers(k))
    {
      assert Selection(k, Group(records, k)) in candidates;
    }
    if choice.key.architecture != PREFERRED {
      var other := choice.key.(architecture := PREFERRED);
      assert Candidate(records, other) ==> Selection(other, Group(records, other)) in candidates;
    }
  }

  lemma CandidatesListed(records: seq<Record>, grouped: map<Key, seq<Record>>,
                         directions: map<Direction, seq<Selection>>)
    requires forall k :: k in grouped <==> Group(records, k) != []
    requires forall k | k in grouped :: grouped[k] == Group(records, k)
    requires forall d | d in directions :: Listed(grouped, grouped.Keys, d, directions[d])
    requires forall k | k in grouped && k.direction.source != "" && k.direction.target != "" && Complete(grouped[k]) ::
      k.direction in directions && Selection(k, grouped[k]) in directions[k.direction]
    ensures directions.Keys == Directions(records)
    ensures forall k | Candidate(records, k) ::
      k.direction in directions && Selection(k, Group(records, k)) in directions[k.direction]
    ensures forall d, c | d in directions && c in directions[d] :: Known(c)
  {
    hide Group;
    forall k | Candidate(records, k)
      ensures k.direction in directions && Selection(k, Group(records, k)) in directions[k.direction]
    {
      assert Group(records, k) != [];
    }
    forall d, c | d in directions && c in directions[d] ensures Known(c) && Candidate(records, c.key) {
      CandidateHasRecord(records, c.key);
    }
    forall d | d in directions ensures d in Directions(records) {
      var c := directions[d][0];
      assert c in directions[d];
      CandidateHasRecord(records, c.key);
    }
    forall d | d in Directions(records) ensures d in directions {
      var r :| r in records && Candidate(records, KeyOf(r)) && KeyOf(r).direction == d;
    }
  }

  /** The directions not in `left` have been settled. */
  ghost predicate Progress(records: seq<Record>, pick: map<Direction, Key>, left: set<Direction>,
                           selected: seq<Selection>)
  {
    && InOrder(selected)
    && (forall d | d in pick && d !in left ::
          !Repeated(Group(records, pick[d])) && Selection(pick[d], Group(records, pick[d])) in selected)
    && (forall s | s in selected ::
          s.key.direction in pick && s.key.direction !in left
          && s == Selection(pick[s.key.direction], Group(records, pick[s.key.direction])))
  }

  lemma ProgressStep(records: seq<Record>, pick: map<Direction, Key>, left: set<Direction>,
                     selected: seq<Selection>, choice: Selection, longer: seq<Selection>)
    requires Progress(records, pick, left, selected) && choice.key.direction in left && left <= pick.Keys
    requires choice.records == Group(records, choice.key) && !Repeated(choice.records)
    requires InOrder(longer) && forall s :: s in longer <==> s in selected || s == choice
    ensures Progress(records, pick[choice.key.direction := choice.key], left - {choice.key.direction}, longer)
  {
    hide Group, Repeated, InOrder;
  }

  lemma ChosenUpdated(records: seq<Record>, pick: map<Direction, Key>, key: Key)
    requires Chosen(records, pick) && key.direction in pick && Best(records, key)
    ensures Chosen(records, pick[key.direction := key])
  {
    hide Best;
    assert pick[key.direction := key].Keys == pick.Keys;
  }

  method ChooseCandidates(records: seq<Record>)
    returns (failed: bool, selected: seq<Selection>, ghost pick: map<Direction, Key>)
    ensures Chosen(records, pick)
    ensures failed ==> !KnownTypes(records) || exists d | d in pick :: Repeated(Group(records, pick[d]))
    ensures !failed ==> KnownTypes(records) && InOrder(selected)
    ensures !failed ==> forall d | d in pick ::
      !Repeated(Group(records, pick[d])) && Selection(pick[d], Group(records, pick[d])) in selected
    ensures !failed ==> forall s | s in selected ::
      s.key.direction in pick && s == Selection(pick[s.key.direction], Group(records, pick[s.key.direction]))
  {
    hide Group, Complete, Below, VersionKey, Best, Known, Listed, Repeated, KnownTypes, Candidate,
      Precedes, Progress, Chosen, InOrder, Numbers, Directions;
    pick, selected := SomeChoice(records), [];
    var unknown, grouped := GroupRecords(records);
    if unknown { return true, selected, pick; }
    var directions := CollectDirections(grouped);
    CandidatesListed(records, grouped, directions);
    var left := directions.Keys;
    NothingYet(records, pick);
    while left != {}
      invariant left <= directions.Keys == pick.Keys && Chosen(records, pick) && Progress(records, pick, left, selected)
      decreases |left|
    {
      var d :| d in left;
      ListedSome(grouped, d, directions[d]);
      var choice := SelectBest(directions[d]);
      BestAmong(records, grouped, d, directions[d], choice);
      ChosenUpdated(records, pick, choice.key);
      var duplicates := HasDuplicates(choice.records);
      if duplicates {
        pick := pick[d := choice.key];
        assert d in pick && Repeated(Group(records, pick[d]));
        return true, selected, pick;
      }
      SelectedElsewhere(records, pick, left, selected, d);
      var longer := InsertSelection(selected, choice);
      ProgressStep(records, pick, left, selected, choice, longer);
      pick, selected, left := pick[d := choice.key], longer, left - {d};
    }
    ProgressEnds(records, pick, selected);
    return false, selected, pick;
  }

  lemma NothingYet(records: seq<Record>, pick: map<Direction, Key>)
    requires Chosen(records, pick)
    ensures pick.Keys == Directions(records) && Progress(records, pick, Directions(records), [])
  {
  }

  lemma ProgressEnds(records: seq<Record>, pick: map<Direction, Key>, selected: seq<Selection>)
    requires Progress(records, pick, {}, selected)
    ensures InOrder(selected)
    ensures forall d | d in pick ::
      !Repeated(Group(records, pick[d])) && Selection(pick[d], Group(records, pick[d])) in selected
    ensures forall s | s in selected ::
      s.key.direction in pick && s == Selection(pick[s.key.direction], Group(records, pick[s.key.direction]))
  {
  }

  lemma SelectedElsewhere(records: seq<Record>, pick: map<Direction, Key>, left: set<Direction>,
                          selected: seq<Selection>, d: Direction)
    requires Progress(records, pick, left, selected) && d in left
    ensures InOrder(selected) && forall s | s in selected :: s.key.direction != d
  {
  }

  lemma ListedSome(grouped: map<Key, seq<Record>>, d: Direction, candidates: seq<Selection>)
    requires Listed(grouped, grouped.Keys, d, candidates)
    ensures candidates != []
  {
  }

  // ---------------------------------------------------------------- build_manifest

  method InsertFile(sorted: seq<File>, x: File) returns (r: seq<File>)
    requires FilesInOrder(sorted) && forall f | f in sorted :: f.fileType != x.fileType
    ensures FilesInOrder(r) && forall f :: f in r <==> f in sorted || f == x
  {
    hide Before;
    var i := 0;
    while i < |sorted| && Before(sorted[i].fileType, x.fileType)
      invariant i <= |sorted|
      invariant forall k | 0 <= k < i :: Before(sorted[k].fileType, x.fileType)
    {
      i := i + 1;
    }
    r := sorted[..i] + [x] + sorted[i..];
    forall k | i <= k < |sorted| ensures Before(x.fileType, sorted[k].fileType) {
      assert sorted[i] in sorted;
      BeforeTotal(x.fileType, sorted[i].fileType);
      BeforeTransitive(x.fileType, sorted[i].fileType, sorted[k].fileType);
    }
  }

  /** The files of one candidate, or nothing when a record is not valid. */
  method ManifestFiles(group: seq<Record>) returns (files: Option<seq<File>>)
    requires !Repeated(group)
    ensures files.None? <==> exists r | r in group :: !Valid(r)
    ensures files.Some? ==> Lists(files.value, group)
  {
    hide Valid;
    var sorted: seq<File> := [];
    for i := 0 to |group|
      invariant forall k | 0 <= k < i :: Valid(group[k])
      invariant FilesInOrder(sorted)
      invariant forall f :: f in sorted <==> exists k :: 0 <= k < i && f == FileOf(group[k])
    {
      if !Valid(group[i]) {
        assert group[i] in group;
        return None;
      }
      forall f | f in sorted ensures f.fileType != group[i].fileType {
        var k :| 0 <= k < i && f == FileOf(group[k]);
        assert 0 <= k < i < |group| && !Repeated(group);
      }
      sorted := InsertFile(sorted, FileOf(group[i]));
    }
    assert forall r | r in group :: exists k :: 0 <= k < |group| && group[k] == r;
    return Some(sorted);
  }

  method Maximum(records: seq<Record>) returns (m: int)
    requires records != []
    ensures m == Latest(records)
  {
    m := records[0].lastModified;
    for i := 1 to |records|
      invariant m == Latest(records[..i])
    {
      assert records[..i + 1][..i] == records[..i];
      if records[i].lastModified > m { m := records[i].lastModified; }
    }
    assert records[..|records|] == records;
  }

  /**
   The entries in order, or nothing when a record is not valid. Directions arrive in strict order, so the
   guard against a repeated direction can never fire; it is an assertion here.
   */
  method BuildEntries(selected: seq<Selection>) returns (entries: Option<seq<Entry>>)
    requires InOrder(selected) && forall s | s in selected :: !Repeated(s.records)
    ensures entries.None? ==> exists s | s in selected :: exists r | r in s.records :: !Valid(r)
    ensures entries.Some? ==> |entries.value| == |selected| && EntriesInOrder(entries.value)
    ensures entries.Some? ==> forall k | 0 <= k < |selected| :: Described(selected[k], entries.value[k])
  {
    hide Precedes, Valid, Lists, Repeated, Before, Hyphens;
    var built: seq<Entry> := [];
    var seen: set<Direction> := {};
    for i := 0 to |selected|
      invariant |built| == i && EntriesInOrder(built)
      invariant forall d :: d in seen <==> exists k :: 0 <= k < i && selected[k].key.direction == d
      invariant forall k | 0 <= k < i :: Described(selected[k], built[k])
    {
      var candidate := selected[i];
      assert candidate in selected;
      NotSeen(selected, i);
      assert candidate.key.direction !in seen;
      seen := seen + {candidate.key.direction};
      var files := ManifestFiles(candidate.records);
      if files.None? { return None; }
      built := built + [EntryOf(candidate.key, files.value)];
    }
    return Some(built);
  }

  predicate Described(s: Selection, e: Entry) {
    e == EntryOf(s.key, e.files) && (forall r | r in s.records :: Valid(r)) && Lists(e.files, s.records)
  }

  /** The generator. */
  method BuildManifest(records: seq<Record>, revision: Option<int>) returns (result: Option<Manifest>)
    ensures Generates(records, revision, result)
  {
    hide Best, Directions, KnownTypes, Repeated, Group, Valid, Lists, EntriesInOrder, InOrder, Described;
    var failed, selected, pick := ChooseCandidates(records);
    if failed || !(revision.Some? || records != []) {
      assert Result(records, revision, pick, None);
      return None;
    }
    var latest := 0;
    if revision.None? { latest := Maximum(records); }
    var entries := BuildEntries(selected);
    if entries.None? {
      assert Result(records, revision, pick, None);
      return None;
    }
    result := Some(Manifest(if revision.Some? then revision.value else latest, entries.value));
    EntriesDescribe(records, pick, selected, entries.value);
    assert Result(records, revision, pick, result);
  }

  lemma NotSeen(selected: seq<Selection>, i: nat)
    requires InOrder(selected) && i < |selected|
    ensures forall k | 0 <= k < i :: selected[k].key.direction != selected[i].key.direction
  {
    forall k | 0 <= k < i ensures selected[k].key.direction != selected[i].key.direction {
      PrecedesAntisymmetric(selected[i].key.direction, selected[i].key.direction);
    }
  }

  lemma EntriesDescribe(records: seq<Record>, pick: map<Direction, Key>, selected: seq<Selection>, entries: seq<Entry>)
    requires KnownTypes(records) && EntriesInOrder(entries) && |entries| == |selected|
    requires forall d | d in pick ::
      !Repeated(Group(records, pick[d])) && Selection(pick[d], Group(records, pick[d])) in selected
    requires forall s | s in selected ::
      s.key.direction in pick && s == Selection(pick[s.key.direction], Group(records, pick[s.key.direction]))
    requires forall d | d in pick :: pick[d].direction == d
    requires forall k | 0 <= k < |entries| :: Described(selected[k], entries[k])
    ensures Usable(records, pick) && Describes(records, pick, entries)
  {
    hide Group, KnownTypes, Repeated, Valid, Lists, EntriesInOrder, Hyphens;
    forall d | d in pick
      ensures forall r | r in Group(records, pick[d]) :: Valid(r)
      ensures exists e :: e in entries && e.direction == d
    {
      var k :| 0 <= k < |selected| && selected[k] == Selection(pick[d], Group(records, pick[d]));
      assert entries[k] in entries && entries[k].direction == d;
    }
    forall e | e in entries
      ensures e.direction in pick && e == EntryOf(pick[e.direction], e.files)
      ensures (forall r | r in Group(records, pick[e.direction]) :: Valid(r))
              && Lists(e.files, Group(records, pick[e.direction]))
    {
      var k :| 0 <= k < |entries| && entries[k] == e;
      assert selected[k] in selected;
    }
  }
}
