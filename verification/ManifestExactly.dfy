/** What a generated manifest says, field by field, and how the texts it is chosen by are read. */
module ManifestExactly {
  import opened Wrappers
  import opened ManifestSpec
  import opened ManifestTheorems
  import opened ManifestGenerator
  import opened ManifestTies

  // ---------------------------------------------------------------- versions

  /** Digits, and dots between digits. */
  predicate Stable(v: string) {
    v != "" && forall i | 0 <= i < |v| ::
      '0' <= v[i] <= '9' || (v[i] == '.' && 0 < i < |v| - 1 && '0' <= v[i + 1] <= '9')
  }

  lemma StableShorter(v: string)
    requires |v| >= 2 && '0' <= v[|v| - 1] <= '9'
    ensures v[|v| - 2] != '.' ==> (Stable(v) <==> Stable(v[..|v| - 1]))
    ensures v[|v| - 2] == '.' ==> (Stable(v) <==> Stable(v[..|v| - 2]))
  {
    var n := |v|;
    var k := if v[n - 2] == '.' then n - 2 else n - 1;
    var w := v[..k];
    if Stable(v) {
      forall i | 0 <= i < k
        ensures '0' <= w[i] <= '9' || (w[i] == '.' && 0 < i < |w| - 1 && '0' <= w[i + 1] <= '9')
      {
        assert w[i] == v[i];
        if w[i] == '.' { assert '0' <= v[i + 1] <= '9'; }
      }
    }
    if Stable(w) {
      assert '0' <= w[k - 1] <= '9';
      forall i | 0 <= i < n
        ensures '0' <= v[i] <= '9' || (v[i] == '.' && 0 < i < n - 1 && '0' <= v[i + 1] <= '9')
      {
        if i < k { assert w[i] == v[i]; if w[i] == '.' { assert w[i + 1] == v[i + 1]; } }
      }
    }
  }

  /** Only such versions are read at all. */
  lemma {:induction false} VersionsExactly(v: string)
    ensures VersionKey(v).Some? <==> Stable(v)
    decreases |v|
  {
    hide Stable;
    var n := |v|;
    if n >= 2 && Digit(v[n - 1]) {
      StableShorter(v);
      VersionsExactly(if v[n - 2] == '.' then v[..n - 2] else v[..n - 1]);
    } else {
      ShortOrUnfinished(v);
    }
  }

  lemma ShortOrUnfinished(v: string)
    requires |v| < 2 || !('0' <= v[|v| - 1] <= '9')
    ensures Stable(v) <==> |v| == 1 && '0' <= v[0] <= '9'
  {
    if v != "" && !('0' <= v[|v| - 1] <= '9') { assert !(0 < |v| - 1 < |v| - 1); }
  }

  function Decimal(digits: string): int {
    if digits == "" then 0
    else 10 * Decimal(digits[..|digits| - 1]) + (digits[|digits| - 1] as int - '0' as int)
  }

  /** One more digit: the first of its number, or the next. */
  lemma VersionStep(v: string)
    requires v != "" && Digit(v[|v| - 1])
    ensures |v| == 1 ==> VersionKey(v) == Some([DigitValue(v[|v| - 1])])
    ensures |v| > 1 && v[|v| - 2] == '.' && VersionKey(v[..|v| - 2]).Some? ==>
      VersionKey(v) == Some(VersionKey(v[..|v| - 2]).value + [DigitValue(v[|v| - 1])])
    ensures |v| > 1 && v[|v| - 2] == '.' && VersionKey(v[..|v| - 2]).None? ==> VersionKey(v) == None
    ensures |v| > 1 && v[|v| - 2] != '.' && VersionKey(v[..|v| - 1]).Some? ==>
      VersionKey(v) == Some(Continued(VersionKey(v[..|v| - 1]).value, DigitValue(v[|v| - 1])))
    ensures |v| > 1 && v[|v| - 2] != '.' && VersionKey(v[..|v| - 1]).None? ==> VersionKey(v) == None
  {
  }

  function Continued(numbers: seq<nat>, d: nat): seq<nat>
    requires numbers != []
  {
    numbers[..|numbers| - 1] + [10 * numbers[|numbers| - 1] + d]
  }

  lemma ReadEnds(v: string)
    requires VersionKey(v).Some?
    ensures v != "" && Digit(v[|v| - 1])
  {
  }

  /** A run of digits is one number, and a dot begins the next. */
  lemma {:induction false} NumberRead(digits: string)
    requires digits != "" && forall c | c in digits :: '0' <= c <= '9'
    ensures Decimal(digits) >= 0 && VersionKey(digits) == Some([Decimal(digits)])
  {
    hide VersionKey;
    var init, last := digits[..|digits| - 1], digits[|digits| - 1];
    assert last in digits && forall c | c in init :: c in digits;
    VersionStep(digits);
    if init != "" {
      assert init[|init| - 1] == digits[|digits| - 2] && init[|init| - 1] in digits;
      NumberRead(init);
      assert Digit(last) && Continued([Decimal(init)], DigitValue(last)) == [10 * Decimal(init) + DigitValue(last)];
    } else {
      assert Decimal(init) == 0;
    }
  }

  lemma {:induction false} NumbersJoined(p: string, q: string)
    requires VersionKey(p).Some? && VersionKey(q).Some?
    ensures VersionKey(p + "." + q) == Some(VersionKey(p).value + VersionKey(q).value)
    decreases |q|
  {
    hide VersionKey;
    ReadEnds(p);
    ReadEnds(q);
    var n, v := |q|, p + "." + q;
    var a, d := VersionKey(p).value, DigitValue(q[n - 1]);
    assert v[|v| - 1] == q[n - 1];
    VersionStep(v);
    VersionStep(q);
    if n == 1 {
      assert v[..|v| - 2] == p;
    } else if q[n - 2] == '.' {
      NumbersJoined(p, q[..n - 2]);
      assert v[..|v| - 2] == p + "." + q[..n - 2];
      var b := VersionKey(q[..n - 2]).value;
      assert a + (b + [d]) == a + b + [d];
    } else {
      NumbersJoined(p, q[..n - 1]);
      assert v[..|v| - 1] == p + "." + q[..n - 1];
      LastNumber(a, VersionKey(q[..n - 1]).value, d);
    }
  }

  lemma LastNumber(a: seq<nat>, b: seq<nat>, d: nat)
    requires b != []
    ensures Continued(a + b, d) == a + Continued(b, d)
  {
  }

  // ---------------------------------------------------------------- orders

  predicate LessAt(a: seq<nat>, b: seq<nat>, i: nat) {
    i <= |a| && i < |b| && a[..i] == b[..i] && (i == |a| || a[i] < b[i])
  }

  /** Versions compare by the first number that differs; one that goes on is higher. */
  lemma {:induction false} BelowExactly(a: seq<nat>, b: seq<nat>)
    ensures Below(a, b) <==> exists i: nat :: LessAt(a, b, i)
  {
    if a == [] || b == [] || a[0] != b[0] {
      if Below(a, b) { assert LessAt(a, b, 0); }
      forall i: nat | LessAt(a, b, i) ensures i == 0 {}
    } else {
      BelowExactly(a[1..], b[1..]);
      forall i: nat | LessAt(a[1..], b[1..], i) ensures LessAt(a, b, i + 1) {
        assert a[..i + 1] == [a[0]] + a[1..][..i] && b[..i + 1] == [b[0]] + b[1..][..i];
      }
      forall i: nat | LessAt(a, b, i) ensures i > 0 && LessAt(a[1..], b[1..], i - 1) {
        assert a[1..][..i - 1] == a[..i][1..] && b[1..][..i - 1] == b[..i][1..];
      }
    }
  }

  predicate EarlierAt(a: string, b: string, i: nat) {
    i <= |a| && i < |b| && a[..i] == b[..i] && (i == |a| || a[i] < b[i])
  }

  /** Texts compare by the first code point that differs; one that goes on comes later. */
  lemma {:induction false} BeforeExactly(a: string, b: string)
    ensures Before(a, b) <==> exists i: nat :: EarlierAt(a, b, i)
  {
    if a == [] || b == [] || a[0] != b[0] {
      if Before(a, b) { assert EarlierAt(a, b, 0); }
      forall i: nat | EarlierAt(a, b, i) ensures i == 0 {}
    } else {
      BeforeExactly(a[1..], b[1..]);
      forall i: nat | EarlierAt(a[1..], b[1..], i) ensures EarlierAt(a, b, i + 1) {
        assert a[..i + 1] == [a[0]] + a[1..][..i] && b[..i + 1] == [b[0]] + b[1..][..i];
      }
      forall i: nat | EarlierAt(a, b, i) ensures i > 0 && EarlierAt(a[1..], b[1..], i - 1) {
        assert a[1..][..i - 1] == a[..i][1..] && b[1..][..i - 1] == b[..i][1..];
      }
    }
  }

  // ---------------------------------------------------------------- candidates

  predicate Of(r: Record, key: Key) {
    r.source == key.direction.source && r.target == key.direction.target && r.version == key.version
    && r.architecture == key.architecture
  }

  predicate Offers(records: seq<Record>, key: Key, fileType: string) {
    exists r :: r in records && Of(r, key) && r.fileType == fileType
  }

  predicate Supported(version: string, architecture: string) {
    VersionKey(version).Some? && VersionKey(version).value[0] == 3
    && (architecture == "base-memory" || architecture == "base")
  }

  lemma GroupExactly(records: seq<Record>, key: Key)
    ensures forall r :: r in Group(records, key) <==>
      r in records && Of(r, key) && Supported(key.version, key.architecture)
  {
    hide Group, VersionKey;
    GroupMembers(records, key);
  }

  /**
   A candidate names both languages, has the third major version and a known architecture, and has a model,
   a lexicon, and either one vocabulary or both of a pair.
   */
  lemma CandidateExactly(records: seq<Record>, key: Key)
    ensures Candidate(records, key) <==>
      && key.direction.source != "" && key.direction.target != "" && Supported(key.version, key.architecture)
      && Offers(records, key, "model") && Offers(records, key, "lex")
      && (Offers(records, key, "vocab") || (Offers(records, key, "srcvocab") && Offers(records, key, "trgvocab")))
  {
    hide Group, VersionKey;
    GroupExactly(records, key);
    var group := Group(records, key);
    if Supported(key.version, key.architecture) {
      forall t: string ensures HasType(group, t) <==> Offers(records, key, t) {
        if HasType(group, t) { var r :| r in group && r.fileType == t; assert Of(r, key); }
        if Offers(records, key, t) { var r :| r in records && Of(r, key) && r.fileType == t; assert r in group; }
      }
    }
  }

  // ---------------------------------------------------------------- files and entries

  lemma {:induction false} LowerExactly(s: string, i: nat)
    requires i < |s|
    ensures Lower(s)[i] == if 'A' <= s[i] <= 'Z' then (s[i] as int + 32) as char else s[i]
  {
    if i > 0 { LowerExactly(s[1..], i - 1); }
  }

  lemma {:induction false} HyphensExactly(s: string, i: nat)
    requires i < |s|
    ensures Hyphens(s)[i] == if s[i] == '_' then '-' else s[i]
  {
    if i > 0 { HyphensExactly(s[1..], i - 1); }
  }

  predicate Hexadecimal(hash: Option<string>) {
    hash.Some? && |hash.value| == 64
    && forall i | 0 <= i < 64 ::
         '0' <= hash.value[i] <= '9' || 'a' <= hash.value[i] <= 'f' || 'A' <= hash.value[i] <= 'F'
  }

  lemma HashExactly(hash: Option<string>)
    ensures ValidHash(hash) <==> Hexadecimal(hash)
  {
    if hash.Some? {
      var s := hash.value;
      var l := Lower(s);
      forall i | 0 <= i < |s|
        ensures l[i] == if 'A' <= s[i] <= 'Z' then (s[i] as int + 32) as char else s[i]
      {
        LowerExactly(s, i);
      }
      if Sha256(l) {
        forall i | 0 <= i < 64 ensures '0' <= s[i] <= '9' || 'a' <= s[i] <= 'f' || 'A' <= s[i] <= 'F' {
          assert l[i] in l;
        }
      }
      if Hexadecimal(hash) {
        forall c | c in l ensures Digit(c) || 'a' <= c <= 'f' {
          var i :| 0 <= i < |l| && l[i] == c;
        }
      }
    }
  }

  /** A record that can be published: a relative location, compressed with zstd, two hashes and two sizes. */
  lemma ValidExactly(r: Record)
    ensures Valid(r) <==>
      && r.attachment.Some? && r.attachment.value.location.Some? && r.attachment.value.location.value != ""
      && !("http://" <= r.attachment.value.location.value) && !("https://" <= r.attachment.value.location.value)
      && r.attachment.value.mimetype == "application/zstd"
      && Hexadecimal(r.attachment.value.hash) && Hexadecimal(r.decompressedHash)
      && r.attachment.value.size.Some? && r.attachment.value.size.value > 0
      && r.decompressedSize.Some? && r.decompressedSize.value > 0
  {
    hide Hexadecimal, ValidHash;
    if r.attachment.Some? { HashExactly(r.attachment.value.hash); }
    HashExactly(r.decompressedHash);
  }

  predicate Publishes(f: File, r: Record) {
    && r.attachment.Some? && r.attachment.value.location.Some? && r.attachment.value.hash.Some?
    && r.attachment.value.size.Some? && r.decompressedHash.Some? && r.decompressedSize.Some?
    && f.fileType == r.fileType
    && f.url == "https://firefox-settings-attachments.cdn.mozilla.net/" + r.attachment.value.location.value
    && f.compressedSize == r.attachment.value.size.value && f.decompressedSize == r.decompressedSize.value
    && f.compressedSha256 == Lower(r.attachment.value.hash.value)
    && f.decompressedSha256 == Lower(r.decompressedHash.value)
    && (r.fileType == "model" ==> f.installedName == "model.bin")
    && (r.fileType == "lex" ==> f.installedName == "lex.bin")
    && (r.fileType == "vocab" ==> f.installedName == "vocab.spm")
    && (r.fileType == "srcvocab" ==> f.installedName == "srcvocab.spm")
    && (r.fileType == "trgvocab" ==> f.installedName == "trgvocab.spm")
  }

  lemma FileExactly(r: Record)
    requires Valid(r)
    ensures Publishes(FileOf(r), r)
  {
    hide Lower;
    assert "model" + ".bin" == "model.bin" && "lex" + ".bin" == "lex.bin" && "vocab" + ".spm" == "vocab.spm";
    assert "srcvocab" + ".spm" == "srcvocab.spm" && "trgvocab" + ".spm" == "trgvocab.spm";
  }

  // ---------------------------------------------------------------- the manifest

  /** The revision is the one given, or else the latest of any record. */
  lemma RevisionExactly(records: seq<Record>, revision: Option<int>, m: Manifest)
    requires Generates(records, revision, Some(m))
    ensures revision.Some? ==> m.revision == revision.value
    ensures revision.None? ==>
      && (exists r | r in records :: r.lastModified == m.revision)
      && (forall r | r in records :: r.lastModified <= m.revision)
  {
    hide Chosen, Usable, Describes, Latest;
    var pick :| Chosen(records, pick) && Result(records, revision, pick, Some(m));
    if revision.None? { LatestIsMaximum(records); }
  }

  /**
   Every entry describes the records of one candidate: its languages with hyphens for underscores, and each
   of its records as one file, in order of type.
   */
  lemma EntryExactly(records: seq<Record>, revision: Option<int>, m: Manifest, e: Entry)
    requires Generates(records, revision, Some(m)) && e in m.entries
    ensures var key := Key(e.direction, e.version, e.architecture);
      && Candidate(records, key)
      && e.source == Hyphens(e.direction.source) && e.target == Hyphens(e.direction.target)
      && (forall f | f in e.files :: exists r :: r in records && Of(r, key) && Publishes(f, r))
      && (forall r | r in records && Of(r, key) :: Valid(r) && exists f :: f in e.files && Publishes(f, r))
      && (forall i, j | 0 <= i < j < |e.files| :: Before(e.files[i].fileType, e.files[j].fileType))
  {
    hide Candidate, Highest, Directions, Hyphens, Group, Repeated, KnownTypes, Revision, Valid, Publishes, FileOf,
      EntriesInOrder, Of, Supported, Before;
    var pick :| Chosen(records, pick) && Result(records, revision, pick, Some(m));
    var key := pick[e.direction];
    assert key == Key(e.direction, e.version, e.architecture);
    CandidateSupported(records, key);
    GroupExactly(records, key);
    forall f | f in e.files ensures exists r :: r in records && Of(r, key) && Publishes(f, r) {
      var r :| r in Group(records, key) && f == FileOf(r);
      FileExactly(r);
    }
    forall r | r in records && Of(r, key) ensures Valid(r) && exists f :: f in e.files && Publishes(f, r) {
      assert r in Group(records, key);
      FileExactly(r);
    }
  }

  lemma CandidateSupported(records: seq<Record>, key: Key)
    requires Candidate(records, key)
    ensures Supported(key.version, key.architecture)
  {
    hide Offers, VersionKey, Candidate;
    CandidateExactly(records, key);
  }

  /** Entries come in the order of their source languages, then of their targets, none twice. */
  lemma EntriesSorted(records: seq<Record>, revision: Option<int>, m: Manifest, i: nat, j: nat)
    requires Generates(records, revision, Some(m)) && i < j < |m.entries|
    ensures var a, b := m.entries[i].direction, m.entries[j].direction;
      Before(a.source, b.source) || (a.source == b.source && Before(a.target, b.target))
  {
    hide Chosen, Usable, Before, Revision, Lists;
  }

  /**
   Each direction that has a candidate has one entry, at a version below that of no candidate, and of the
   memory-saving architecture if that version has it.
   */
  lemma SelectsExactly(records: seq<Record>, revision: Option<int>, m: Manifest, key: Key)
    requires Generates(records, revision, Some(m)) && Candidate(records, key)
    ensures exists i ::
      (0 <= i < |m.entries| && m.entries[i].direction == key.direction
       && (forall j | 0 <= j < |m.entries| && m.entries[j].direction == key.direction :: j == i)
       && VersionKey(m.entries[i].version).Some? && VersionKey(key.version).Some?
       && !Below(VersionKey(m.entries[i].version).value, VersionKey(key.version).value)
       && (m.entries[i].architecture == "base-memory"
           || (m.entries[i].architecture == "base"
               && !Candidate(records, Key(key.direction, m.entries[i].version, "base-memory")))))
  {
    hide Generates, Candidate, VersionKey, Below;
    SelectsTheBest(records, revision, m, key);
    var i :| 0 <= i < |m.entries| && m.entries[i].direction == key.direction
      && (forall j | 0 <= j < |m.entries| && m.entries[j].direction == key.direction :: j == i)
      && Best(records, Key(key.direction, m.entries[i].version, m.entries[i].architecture));
    CandidateSupported(records, key);
    CandidateSupported(records, Key(key.direction, m.entries[i].version, m.entries[i].architecture));
  }

  // ---------------------------------------------------------------- failure

  predicate Twice(records: seq<Record>, key: Key, i: int, j: int) {
    0 <= i < j < |records| && Of(records[i], key) && Of(records[j], key) && records[i].fileType == records[j].fileType
  }

  /** Two records of the candidate have one type, or one of them cannot be published. */
  ghost predicate Unpublishable(records: seq<Record>, key: Key) {
    (exists i, j :: Twice(records, key, i, j)) || exists r :: r in records && Of(r, key) && !Valid(r)
  }

  lemma RepeatedMore(s: seq<Record>, x: Record)
    ensures Repeated(s + [x]) <==> Repeated(s) || HasType(s, x.fileType)
  {
    var t := s + [x];
    if Repeated(t) && !Repeated(s) {
      var i, j :| 0 <= i < j < |t| && t[i].fileType == t[j].fileType;
      assert s[i] in s;
    }
    if Repeated(s) {
      var i, j :| 0 <= i < j < |s| && s[i].fileType == s[j].fileType;
      assert t[i].fileType == t[j].fileType;
    }
    if HasType(s, x.fileType) {
      var r :| r in s && r.fileType == x.fileType;
      var i :| 0 <= i < |s| && s[i] == r;
      assert t[i].fileType == t[|s|].fileType;
    }
  }

  lemma TwiceMore(init: seq<Record>, last: Record, key: Key)
    ensures (exists i, j :: Twice(init + [last], key, i, j)) <==>
      (exists i, j :: Twice(init, key, i, j)) || (Of(last, key) && Offers(init, key, last.fileType))
  {
    hide Of;
    var records := init + [last];
    if i, j :| Twice(records, key, i, j) {
      if j < |init| { assert Twice(init, key, i, j); } else { assert init[i] in init; }
    }
    if i, j :| Twice(init, key, i, j) { assert Twice(records, key, i, j); }
    if Of(last, key) && Offers(init, key, last.fileType) {
      var r :| r in init && Of(r, key) && r.fileType == last.fileType;
      var i :| 0 <= i < |init| && init[i] == r;
      assert Twice(records, key, i, |init|);
    }
  }

  lemma {:induction false} RepeatedExactly(records: seq<Record>, key: Key)
    requires Supported(key.version, key.architecture)
    ensures Repeated(Group(records, key)) <==> exists i, j :: Twice(records, key, i, j)
    decreases |records|
  {
    hide Group, Repeated, Of, Supported, HasType, Offers, Twice;
    if records == [] {
      GroupOfNone(key);
      NeverTwice(key);
    } else {
      var init, last := records[..|records| - 1], records[|records| - 1];
      assert records == init + [last];
      RepeatedExactly(init, key);
      GroupOneMore(init, last, key);
      TwiceMore(init, last, key);
      RepeatedMore(Group(init, key), last);
      OfGroup(last, key);
      OfferedType(init, key, last.fileType);
    }
  }

  lemma NeverTwice(key: Key)
    ensures !exists i, j :: Twice([], key, i, j)
  {
  }

  lemma OfGroup(r: Record, key: Key)
    requires Supported(key.version, key.architecture)
    ensures Of(r, key) <==> Eligible(r) && KeyOf(r) == key
  {
    hide VersionKey;
  }

  lemma OfferedType(records: seq<Record>, key: Key, fileType: string)
    requires Supported(key.version, key.architecture)
    ensures HasType(Group(records, key), fileType) <==> Offers(records, key, fileType)
  {
    hide Group, Of, Supported;
    GroupExactly(records, key);
  }

  lemma UnusableIs(records: seq<Record>, pick: map<Direction, Key>)
    requires Chosen(records, pick)
    ensures Usable(records, pick) <==> KnownTypes(records) && forall d | d in pick :: !Unpublishable(records, pick[d])
  {
    hide Group, Repeated, Valid, KnownTypes, Highest, Candidate, Of, Supported, Directions, Twice;
    forall d | d in pick
      ensures Unpublishable(records, pick[d]) <==>
        Repeated(Group(records, pick[d])) || exists r | r in Group(records, pick[d]) :: !Valid(r)
    {
      assert Best(records, pick[d]);
      CandidateSupported(records, pick[d]);
      GroupExactly(records, pick[d]);
      RepeatedExactly(records, pick[d]);
    }
  }

  /**
   Generation can fail exactly when there is no revision at all, a supported record has an unknown type, or
   a best candidate of some direction has a repeated or an unpublishable record.
   */
  lemma FailsExactly(records: seq<Record>, revision: Option<int>)
    ensures Generates(records, revision, None) <==>
      || (revision.None? && records == [])
      || (exists r | r in records ::
            (Supported(r.version, r.architecture) && r.fileType !in {"model", "lex", "vocab", "srcvocab", "trgvocab"}))
      || exists key :: Best(records, key) && Unpublishable(records, key)
  {
    hide Best, Directions, Unpublishable, VersionKey, Usable, Chosen, KnownTypes;
    var unknown := !KnownTypes(records);
    UnknownIs(records);
    if Generates(records, revision, None) && Revised(records, revision) && !unknown {
      var pick :| Chosen(records, pick) && Result(records, revision, pick, None);
      UnusableIs(records, pick);
      var d :| d in pick && Unpublishable(records, pick[d]);
      ChosenBest(records, pick, d);
    }
    if !Revised(records, revision) || unknown {
      var pick := SomeChoice(records);
      UnusableIs(records, pick);
      assert Result(records, revision, pick, None);
    }
    if exists key :: Best(records, key) && Unpublishable(records, key) {
      var key :| Best(records, key) && Unpublishable(records, key);
      var pick := ChoiceWith(records, key);
      UnusableIs(records, pick);
      assert Result(records, revision, pick, None);
    }
  }

  lemma UnknownIs(records: seq<Record>)
    ensures !KnownTypes(records) <==>
      exists r | r in records ::
        (Supported(r.version, r.architecture) && r.fileType !in {"model", "lex", "vocab", "srcvocab", "trgvocab"})
  {
    hide VersionKey;
    assert forall r: Record :: Eligible(r) <==> Supported(r.version, r.architecture);
  }

  lemma ChosenBest(records: seq<Record>, pick: map<Direction, Key>, d: Direction)
    requires Chosen(records, pick) && d in pick
    ensures Best(records, pick[d])
  {
  }

  lemma ChoiceWith(records: seq<Record>, key: Key) returns (pick: map<Direction, Key>)
    requires Best(records, key)
    ensures Chosen(records, pick) && key.direction in pick && pick[key.direction] == key
  {
    hide Candidate, Highest;
    pick := SomeChoice(records);
    CandidateHasRecord(records, key);
    ChosenUpdated(records, pick, key);
    pick := pick[key.direction := key];
  }
}
