/**
 Generated file names within a budget of UTF-8 bytes, over UTF-16 code units.

 UTF-8 lengths follow section 3 of RFC 3629 and surrogate pairs section 2.1 of RFC 2781. A surrogate
 outside a pair is encoded as a single question mark.
 */
module FileNaming {
  type unit = n: nat | n < 0x1_0000

  type Text = seq<unit>

  const DOT: unit := 0x2E
  const SLASH: unit := 0x2F
  const DASH: unit := 0x2D
  const FILE: Text := [0x66, 0x69, 0x6C, 0x65]

  predicate High(u: unit) { 0xD800 <= u < 0xDC00 }

  predicate Low(u: unit) { 0xDC00 <= u < 0xE000 }

  predicate Pair(s: Text, i: int) {
    0 <= i && i + 1 < |s| && High(s[i]) && Low(s[i + 1])
  }

  function UnitSize(u: unit): nat {
    if u < 0x80 || High(u) || Low(u) then 1 else if u < 0x800 then 2 else 3
  }

  /** The number of UTF-8 bytes, read from the front. */
  function Utf8Size(s: Text): nat {
    if s == [] then 0
    else if Pair(s, 0) then 4 + Utf8Size(s[2..])
    else UnitSize(s[0]) + Utf8Size(s[1..])
  }

  // ---------------------------------------------------------------- chopping

  /** The number of units of the last code point. */
  function LastWidth(s: Text): (k: nat)
    ensures k <= |s| && (s != [] ==> 1 <= k <= 2)
  {
    if s == [] then 0 else if Pair(s, |s| - 2) then 2 else 1
  }

  function Chop(s: Text): Text {
    s[..|s| - LastWidth(s)]
  }

  function LastSize(s: Text): nat
    requires s != []
  {
    if LastWidth(s) == 2 then 4 else UnitSize(s[|s| - 1])
  }

  /** Whole code points are dropped from the end until the rest fits. */
  function Truncated(s: Text, budget: int): (r: Text)
    decreases |s|
  {
    if s == [] || Utf8Size(s) <= budget then s else Truncated(Chop(s), budget)
  }

  method ChopLastUnicodeCodePoint(value: Text) returns (chopped: Text)
    ensures chopped == Chop(value)
  {
    if |value| >= 2 && Low(value[|value| - 1]) && High(value[|value| - 2]) {
      return value[..|value| - 2];
    }
    return if value == [] then [] else value[..|value| - 1];
  }

  method TruncateToBudget(value: Text, budget: int) returns (r: Text)
    ensures r == Truncated(value, budget)
  {
    r := value;
    while r != [] && Utf8Size(r) > budget
      invariant Truncated(r, budget) == Truncated(value, budget)
      decreases |r|
    {
      r := ChopLastUnicodeCodePoint(r);
    }
  }

  // ---------------------------------------------------------------- the parts of a name

  /** The index after the last occurrence, or 0. */
  function AfterLast(s: Text, u: unit): (i: nat)
    ensures i <= |s| && (i > 0 ==> s[i - 1] == u) && u !in s[i..]
  {
    if s == [] then 0
    else if s[|s| - 1] == u then |s|
    else
      var i := AfterLast(s[..|s| - 1], u);
      assert s[i..] == s[..|s| - 1][i..] + [s[|s| - 1]];
      i
  }

  /** The index of the first occurrence, or the length. */
  function FirstOf(s: Text, u: unit): (i: nat)
    ensures i <= |s| && (i < |s| ==> s[i] == u) && u !in s[..i]
  {
    if s == [] then 0
    else if s[0] == u then 0
    else
      var i := FirstOf(s[1..], u);
      assert s[..1 + i] == [s[0]] + s[1..][..i];
      1 + i
  }

  function FileName(path: Text): Text {
    path[AfterLast(path, SLASH)..]
  }

  /** Up to the last dot. */
  function CompleteBaseName(path: Text): Text {
    var name := FileName(path);
    var i := AfterLast(name, DOT);
    if i == 0 then name else name[..i - 1]
  }

  /** From after the first dot; the two parts overlap when a name has several dots. */
  function CompleteSuffix(path: Text): Text {
    var name := FileName(path);
    var i := FirstOf(name, DOT);
    if i == |name| then [] else name[i + 1..]
  }

  function Extension(path: Text): Text {
    if CompleteSuffix(path) == [] then [] else [DOT] + CompleteSuffix(path)
  }

  // ---------------------------------------------------------------- the two names

  function KeptExtension(path: Text, budget: int): Text {
    if Utf8Size(Extension(path)) >= budget then [] else Extension(path)
  }

  function Base(path: Text, budget: int): Text {
    var base := Truncated(CompleteBaseName(path), budget);
    if base == [] then Truncated(FILE, budget) else base
  }

  function Generated(path: Text, budget: int): Text {
    if budget <= 0 then []
    else if Utf8Size(path) <= budget then path
    else
      var extension := KeptExtension(path, budget);
      Base(path, budget - Utf8Size(extension)) + extension
  }

  function Digits(n: nat): (s: Text)
    ensures s != [] && forall u | u in s :: 0x30 <= u <= 0x39
  {
    if n < 10 then [0x30 + n] else Digits(n / 10) + [0x30 + n % 10]
  }

  function Marker(discriminator: nat): Text {
    [DASH] + Digits(discriminator)
  }

  function Max(a: int, b: int): int {
    if a >= b then a else b
  }

  /** The budget left for the base name. */
  function Left(marker: Text, extension: Text, budget: int): int {
    Max(0, budget - Utf8Size(marker) - Utf8Size(extension))
  }

  function CollisionExtension(path: Text, discriminator: nat, budget: int): Text {
    Truncated(Extension(path), budget - Utf8Size(Marker(discriminator)))
  }

  function CollisionBase(path: Text, budget: int): Text {
    var base := Truncated(CompleteBaseName(path), budget);
    if base == [] && budget > 0 then Truncated(FILE, budget) else base
  }

  function Collision(path: Text, discriminator: nat, budget: int): Text {
    var marker := Marker(discriminator);
    var extension := CollisionExtension(path, discriminator, budget);
    CollisionBase(path, Left(marker, extension, budget)) + marker + extension
  }

  method TruncateGeneratedFileName(fileName: Text, maximumUtf8Bytes: int) returns (r: Text)
    ensures r == Generated(fileName, maximumUtf8Bytes)
  {
    hide Utf8Size, Truncated, CompleteSuffix, CompleteBaseName;
    if maximumUtf8Bytes <= 0 { return []; }
    if Utf8Size(fileName) <= maximumUtf8Bytes { return fileName; }
    var suffix := CompleteSuffix(fileName);
    var extension: Text := if suffix == [] then [] else [DOT] + suffix;
    if Utf8Size(extension) >= maximumUtf8Bytes { extension := []; }
    var baseBudget := maximumUtf8Bytes - Utf8Size(extension);
    var baseName := TruncateToBudget(CompleteBaseName(fileName), baseBudget);
    if baseName == [] { baseName := TruncateToBudget(FILE, baseBudget); }
    return baseName + extension;
  }

  method CollisionMailSaveFileName(fileName: Text, discriminator: nat, maximumUtf8Bytes: int) returns (r: Text)
    ensures r == Collision(fileName, discriminator, maximumUtf8Bytes)
  {
    hide Utf8Size, Chop, Digits, Truncated, CompleteBaseName, CompleteSuffix;
    var suffix := CompleteSuffix(fileName);
    var extension: Text := if suffix == [] then [] else [DOT] + suffix;
    ghost var whole := extension;
    var marker := Marker(discriminator);
    var budget := maximumUtf8Bytes - Utf8Size(marker);
    while extension != [] && Utf8Size(marker) + Utf8Size(extension) > maximumUtf8Bytes
      invariant Truncated(extension, budget) == Truncated(whole, budget)
      decreases |extension|
    {
      TruncatedStep(extension, budget);
      extension := ChopLastUnicodeCodePoint(extension);
    }
    TruncatedStop(extension, budget);
    var baseBudget := Max(0, maximumUtf8Bytes - Utf8Size(marker) - Utf8Size(extension));
    var baseName := TruncateToBudget(CompleteBaseName(fileName), baseBudget);
    if baseName == [] && baseBudget > 0 {
      baseName := TruncateToBudget(FILE, baseBudget);
    }
    return baseName + marker + extension;
  }

  lemma TruncatedStep(s: Text, budget: int)
    requires s != [] && Utf8Size(s) > budget
    ensures |Chop(s)| < |s| && Truncated(s, budget) == Truncated(Chop(s), budget)
  {
  }

  lemma TruncatedStop(s: Text, budget: int)
    ensures s == [] || Utf8Size(s) <= budget ==> Truncated(s, budget) == s
  {
  }

  // ---------------------------------------------------------------- sizes

  /** No surrogate pair straddles the cut. */
  predicate Aligned(s: Text, n: int) {
    0 <= n <= |s| && !Pair(s, n - 1)
  }

  lemma {:induction false} SizeOfConcat(a: Text, b: Text)
    requires Aligned(a + b, |a|)
    ensures Utf8Size(a + b) == Utf8Size(a) + Utf8Size(b)
    decreases |a|
  {
    var s := a + b;
    if a == [] {
      assert s == b;
    } else if Pair(s, 0) {
      assert |a| >= 2;
      assert s[2..] == a[2..] + b;
      assert Pair(a, 0);
      AlignedTail(s, 2, |a|);
      SizeOfConcat(a[2..], b);
    } else {
      assert s[1..] == a[1..] + b;
      AlignedTail(s, 1, |a|);
      SizeOfConcat(a[1..], b);
    }
  }

  lemma AlignedTail(s: Text, k: nat, n: nat)
    requires k <= n <= |s| && Aligned(s, n)
    ensures Aligned(s[k..], n - k)
  {
  }

  /** Chopping removes the bytes of the last code point. */
  lemma ChopSize(s: Text)
    requires s != []
    ensures Utf8Size(s) == Utf8Size(Chop(s)) + LastSize(s)
    ensures Aligned(s, |Chop(s)|)
  {
    var n := |s| - LastWidth(s);
    var last := s[n..];
    assert s == s[..n] + last;
    SizeOfConcat(s[..n], last);
    assert LastWidth(s) == 2 ==> last[2..] == [];
    assert LastWidth(s) == 1 ==> last[1..] == [];
  }

  /** The longest prefix of whole code points that fits; a negative budget fits nothing. */
  lemma {:induction false} TruncatedIsLongest(s: Text, budget: int)
    ensures var r := Truncated(s, budget);
      && r <= s && Aligned(s, |r|)
      && (budget >= 0 ==> Utf8Size(r) <= budget)
      && (budget < 0 ==> r == [])
      && (forall n | |r| < n <= |s| && Aligned(s, n) :: Utf8Size(s[..n]) > budget)
    decreases |s|
  {
    var r := Truncated(s, budget);
    if s == [] || Utf8Size(s) <= budget {
      assert s[..|s|] == s;
    } else {
      hide Utf8Size, Truncated, Chop;
      ChopSize(s);
      TruncatedStep(s, budget);
      ChopIsPrefix(s);
      var c := Chop(s);
      TruncatedIsLongest(c, budget);
      AlignedInPrefix(s, |c|, |r|);
      forall n | |r| < n <= |s| && Aligned(s, n) ensures Utf8Size(s[..n]) > budget {
        if n <= |c| {
          AlignedInPrefix(s, |c|, n);
          assert s[..n] == c[..n];
        } else {
          LastStartsThere(s, n);
          assert s[..n] == s;
        }
      }
    }
  }

  lemma ChopIsPrefix(s: Text)
    ensures Chop(s) <= s
  {
  }

  lemma AlignedInPrefix(s: Text, m: nat, n: nat)
    requires n <= m <= |s| && Aligned(s, m)
    ensures Aligned(s[..m], n) <==> Aligned(s, n)
  {
  }

  /** The last code point begins where chopping cuts. */
  lemma LastStartsThere(s: Text, n: nat)
    requires |Chop(s)| < n <= |s| && Aligned(s, n)
    ensures n == |s|
  {
  }

  /** A nonempty ASCII text leaves something within any positive budget. */
  lemma FileFits(budget: int)
    requires budget > 0
    ensures Truncated(FILE, budget) != []
  {
    TruncatedIsLongest(FILE, budget);
    assert Aligned(FILE, 1) && FILE[..1] == [0x66];
    assert Utf8Size([0x66]) == 1 by { assert [0x66][1..] == []; }
  }

  // ---------------------------------------------------------------- well-formed text

  /** Every surrogate belongs to a pair. */
  predicate WellFormed(s: Text) {
    && (forall i | 0 <= i < |s| && High(s[i]) :: Pair(s, i))
    && (forall i | 0 <= i < |s| && Low(s[i]) :: Pair(s, i - 1))
  }

  lemma SliceWellFormed(s: Text, from: nat, to: nat)
    requires WellFormed(s) && from <= to <= |s| && Aligned(s, from) && Aligned(s, to)
    ensures WellFormed(s[from..to])
  {
    var r := s[from..to];
    forall i | 0 <= i < |r| && High(r[i]) ensures Pair(r, i) {
      assert Pair(s, from + i);
    }
    forall i | 0 <= i < |r| && Low(r[i]) ensures Pair(r, i - 1) {
      assert Pair(s, from + i - 1);
    }
  }

  lemma ConcatWellFormed(a: Text, b: Text)
    requires WellFormed(a) && WellFormed(b)
    ensures WellFormed(a + b)
  {
    var r := a + b;
    forall i | 0 <= i < |r| && High(r[i]) ensures Pair(r, i) {
      if i < |a| { assert Pair(a, i); } else { assert Pair(b, i - |a|); }
    }
    forall i | 0 <= i < |r| && Low(r[i]) ensures Pair(r, i - 1) {
      if i < |a| { assert Pair(a, i - 1); } else { assert Pair(b, i - |a| - 1); }
    }
  }

  lemma FileNameWellFormed(path: Text)
    requires WellFormed(path)
    ensures WellFormed(FileName(path))
  {
    hide AfterLast, WellFormed;
    var k := AfterLast(path, SLASH);
    SliceWellFormed(path, k, |path|);
    assert FileName(path) == path[k..|path|];
  }

  lemma BaseWellFormed(name: Text)
    requires WellFormed(name)
    ensures var i := AfterLast(name, DOT); i > 0 ==> WellFormed(name[..i - 1])
  {
    hide AfterLast, WellFormed;
    var i := AfterLast(name, DOT);
    if i > 0 {
      SliceWellFormed(name, 0, i - 1);
      assert name[0..i - 1] == name[..i - 1];
    }
  }

  lemma SuffixWellFormed(name: Text)
    requires WellFormed(name)
    ensures var j := FirstOf(name, DOT); j < |name| ==> WellFormed(name[j + 1..])
  {
    hide FirstOf, WellFormed;
    var j := FirstOf(name, DOT);
    if j < |name| {
      SliceWellFormed(name, j + 1, |name|);
      assert name[j + 1..|name|] == name[j + 1..];
    }
  }

  lemma PartsWellFormed(path: Text)
    requires WellFormed(path)
    ensures WellFormed(CompleteBaseName(path)) && WellFormed(Extension(path))
  {
    hide AfterLast, FirstOf, FileName, WellFormed;
    var name := FileName(path);
    FileNameWellFormed(path);
    BaseWellFormed(name);
    SuffixWellFormed(name);
    DotWellFormed();
    if CompleteSuffix(path) != [] { ConcatWellFormed([DOT], CompleteSuffix(path)); }
  }

  lemma DotWellFormed()
    ensures WellFormed([DOT]) && WellFormed([])
  {
  }

  lemma TruncatedWellFormed(s: Text, budget: int)
    requires WellFormed(s)
    ensures WellFormed(Truncated(s, budget))
  {
    TruncatedIsLongest(s, budget);
    var r := Truncated(s, budget);
    SliceWellFormed(s, 0, |r|);
    assert s[0..|r|] == r;
  }

  // ---------------------------------------------------------------- generated names

  /** The extension starts with a dot, so the size of a name is the sum of its parts. */
  lemma ExtendedSize(base: Text, extension: Text)
    requires extension == [] || !Low(extension[0])
    ensures Utf8Size(base + extension) == Utf8Size(base) + Utf8Size(extension)
  {
    SizeOfConcat(base, extension);
  }

  lemma NothingFits()
    ensures Utf8Size([]) == 0 && WellFormed([])
  {
  }

  lemma FileWellFormed()
    ensures WellFormed(FILE)
  {
  }

  lemma FileFitsBeside(path: Text, budget: int)
    requires budget > 0
    ensures budget - Utf8Size(KeptExtension(path, budget)) > 0
  {
    hide CompleteSuffix;
    NothingFits();
  }

  /** A generated name fits its budget, is not empty, and creates no lone surrogate. */
  lemma GeneratedNameFits(path: Text, budget: int)
    ensures var r := Generated(path, budget);
      && (budget > 0 ==> Utf8Size(r) <= budget)
      && (budget <= 0 ==> r == [])
      && (budget > 0 && path != [] ==> r != [])
      && (WellFormed(path) ==> WellFormed(r))
  {
    hide Truncated, Utf8Size, CompleteBaseName, CompleteSuffix, WellFormed;
    NothingFits();
    if budget > 0 && Utf8Size(path) > budget {
      var extension := KeptExtension(path, budget);
      var left := budget - Utf8Size(extension);
      FileFitsBeside(path, budget);
      TruncatedIsLongest(CompleteBaseName(path), left);
      TruncatedIsLongest(FILE, left);
      FileFits(left);
      ExtendedSize(Base(path, left), extension);
      if WellFormed(path) {
        PartsWellFormed(path);
        TruncatedWellFormed(CompleteBaseName(path), left);
        FileWellFormed();
        TruncatedWellFormed(FILE, left);
        ConcatWellFormed(Base(path, left), extension);
      }
    }
  }

  /** A shortened name keeps the whole extension when it fits, after the longest base that fits beside it. */
  lemma GeneratedNameKeeps(path: Text, budget: int)
    requires budget > 0 && Utf8Size(path) > budget
    ensures
      var extension := KeptExtension(path, budget);
      var base := Generated(path, budget)[..|Generated(path, budget)| - |extension|];
      var source := if base <= CompleteBaseName(path) then CompleteBaseName(path) else FILE;
      && Generated(path, budget) == base + extension
      && (extension == Extension(path) || (extension == [] && Utf8Size(Extension(path)) >= budget))
      && base <= source
      && (forall n | |base| < n <= |source| && Aligned(source, n) ::
            Utf8Size(source[..n]) + Utf8Size(extension) > budget)
  {
    hide Truncated, Utf8Size;
    var extension := KeptExtension(path, budget);
    var left := budget - Utf8Size(extension);
    var base := Base(path, left);
    assert (base + extension)[..|base + extension| - |extension|] == base;
    TruncatedIsLongest(CompleteBaseName(path), left);
    TruncatedIsLongest(FILE, left);
    FileFitsBeside(path, budget);
    FileFits(left);
  }

  // ---------------------------------------------------------------- collision names

  lemma {:induction false} AsciiSize(s: Text)
    requires forall u | u in s :: u < 0x80
    ensures Utf8Size(s) == |s|
  {
    if s != [] {
      assert s[0] in s && forall u | u in s[1..] :: u in s;
      AsciiSize(s[1..]);
    }
  }

  lemma {:induction false} SizeCountsUnits(s: Text)
    ensures Utf8Size(s) >= |s|
  {
    if s != [] { if Pair(s, 0) { SizeCountsUnits(s[2..]); } else { SizeCountsUnits(s[1..]); } }
  }

  lemma MarkerSize(discriminator: nat)
    ensures Utf8Size(Marker(discriminator)) == |Marker(discriminator)| >= 2
    ensures DOT !in Marker(discriminator) && forall u | u in Marker(discriminator) :: u < 0x80
  {
    AsciiSize(Marker(discriminator));
  }

  lemma CollisionParts(path: Text, discriminator: nat, budget: int)
    ensures var marker := Marker(discriminator);
      var extension := CollisionExtension(path, discriminator, budget);
      var left := Left(marker, extension, budget);
      var base := CollisionBase(path, left);
      && extension <= Extension(path) && Aligned(Extension(path), |extension|)
      && (extension != [] ==> extension[0] == DOT)
      && (extension != [] ==> Utf8Size(marker) + Utf8Size(extension) <= budget)
      && (forall n | |extension| < n <= |Extension(path)| && Aligned(Extension(path), n) ::
            Utf8Size(marker) + Utf8Size(Extension(path)[..n]) > budget)
      && Utf8Size(base) <= left
  {
    hide Truncated, Digits, CompleteSuffix, CompleteBaseName;
    var marker := Marker(discriminator);
    var extension := CollisionExtension(path, discriminator, budget);
    TruncatedIsLongest(Extension(path), budget - Utf8Size(marker));
    TruncatedIsLongest(CompleteBaseName(path), Left(marker, extension, budget));
    TruncatedIsLongest(FILE, Left(marker, extension, budget));
    SizeCountsUnits(extension);
  }

  /** A collision name fits the budget whenever its marker does, and otherwise is the marker alone. */
  lemma CollisionNameFits(path: Text, discriminator: nat, budget: int)
    ensures var r := Collision(path, discriminator, budget);
      && (Utf8Size(Marker(discriminator)) <= budget ==> Utf8Size(r) <= budget)
      && (Utf8Size(Marker(discriminator)) > budget ==> r == Marker(discriminator))
  {
    hide Truncated, Digits, Extension, CompleteBaseName;
    var marker := Marker(discriminator);
    var extension := CollisionExtension(path, discriminator, budget);
    var left := Left(marker, extension, budget);
    var base := CollisionBase(path, left);
    CollisionParts(path, discriminator, budget);
    ExtendedSize(marker, extension);
    SizeOfConcat(base, marker + extension);
    assert base + marker + extension == base + (marker + extension);
    SizeCountsUnits(base);
    assert Utf8Size([]) == 0;
  }

  lemma {:induction false} DigitsInjective(a: nat, b: nat)
    requires Digits(a) == Digits(b)
    ensures a == b
  {
    if a >= 10 && b >= 10 {
      assert Digits(a)[..|Digits(a)| - 1] == Digits(a / 10);
      assert Digits(b)[..|Digits(b)| - 1] == Digits(b / 10);
      DigitsInjective(a / 10, b / 10);
      assert Digits(a)[|Digits(a)| - 1] == 0x30 + a % 10;
      assert Digits(b)[|Digits(b)| - 1] == 0x30 + b % 10;
    }
  }

  lemma {:induction false} AfterLastIs(s: Text, u: unit, i: nat)
    requires 0 < i <= |s| && s[i - 1] == u && u !in s[i..]
    ensures AfterLast(s, u) == i
  {
    if i < |s| {
      var init := s[..|s| - 1];
      assert s[|s| - 1] in s[i..];
      assert s[i..] == init[i..] + [s[|s| - 1]];
      AfterLastIs(init, u, i);
    }
  }

  /** The digits after the last dash name the discriminator. */
  lemma MarkerReadBack(x: Text, a: nat, y: Text, b: nat)
    requires x + Marker(a) == y + Marker(b)
    ensures a == b
  {
    var s := x + Marker(a);
    assert s[|x| + 1..] == Digits(a);
    AfterLastIs(s, DASH, |x| + 1);
    assert s == y + Marker(b) && s[|y| + 1..] == Digits(b);
    AfterLastIs(s, DASH, |y| + 1);
    DigitsInjective(a, b);
  }

  /** The base beside a shortened extension is smaller than the code point that had to go. */
  lemma ShortenedLeavesLittle(path: Text, discriminator: nat, budget: int, n: nat)
    requires Utf8Size(Marker(discriminator)) <= budget
    requires var extension := CollisionExtension(path, discriminator, budget);
      |extension| < n <= |Extension(path)| && Aligned(Extension(path), n)
    ensures var extension := CollisionExtension(path, discriminator, budget);
      var base := CollisionBase(path, Left(Marker(discriminator), extension, budget));
      |base| <= 3 && (base != [] && |base| == 3 ==> High(Extension(path)[|extension|]))
  {
    hide Truncated, Digits, CompleteBaseName, Extension, Utf8Size, CollisionBase, CollisionExtension, Marker;
    var marker := Marker(discriminator);
    var whole := Extension(path);
    var extension := CollisionExtension(path, discriminator, budget);
    var base := CollisionBase(path, Left(marker, extension, budget));
    CollisionParts(path, discriminator, budget);
    SizeCountsUnits(base);
    var e := |extension|;
    var k := if Pair(whole, e) then e + 2 else e + 1;
    assert Aligned(whole, k);
    assert whole[..k] == extension + whole[e..k];
    SizeOfConcat(extension, whole[e..k]);
    PointSize(whole[e..k]);
  }

  /** The size of one code point. */
  lemma PointSize(s: Text)
    requires |s| == 1 || (|s| == 2 && Pair(s, 0))
    ensures Utf8Size(s) <= 4 && (Utf8Size(s) == 4 ==> High(s[0]))
    ensures |s| == 1 ==> Utf8Size(s) <= 3
  {
    if |s| == 1 { assert s[1..] == []; } else { assert s[2..] == []; }
  }

  predicate Repeats(s: Text, period: nat, k: nat) {
    0 < period <= k < |s| && s[k] == s[k - period]
  }

  /** A text that repeats an ASCII beginning is ASCII. */
  lemma {:induction false} PeriodicAscii(s: Text, start: nat, period: nat, i: nat)
    requires period <= start && i < |s|
    requires forall k | 0 <= k < start && k < |s| :: s[k] < 0x80
    requires forall k | start <= k < |s| :: Repeats(s, period, k)
    ensures s[i] < 0x80
    decreases i
  {
    if i >= start {
      assert Repeats(s, period, i);
      PeriodicAscii(s, start, period, i - period);
    }
  }

  /** Two markers that both fit: a shorter extension for the second cannot make up for its other marker. */
  lemma UnequalExtensions(path: Text, a: nat, b: nat, budget: int)
    requires Utf8Size(Marker(a)) <= budget && Utf8Size(Marker(b)) <= budget
    requires |CollisionExtension(path, a, budget)| > |CollisionExtension(path, b, budget)|
    ensures Collision(path, a, budget) != Collision(path, b, budget)
  {
    hide Truncated, Digits, CompleteBaseName, Extension, Utf8Size, Marker;
    var ea, eb := CollisionExtension(path, a, budget), CollisionExtension(path, b, budget);
    var ma, mb := Marker(a), Marker(b);
    var ba := CollisionBase(path, Left(ma, ea, budget));
    var bb := CollisionBase(path, Left(mb, eb, budget));
    CollisionParts(path, a, budget);
    CollisionParts(path, b, budget);
    MarkerSize(a);
    MarkerSize(b);
    ShortenedLeavesLittle(path, b, budget, |ea|);
    if ba + ma + ea == bb + mb + eb {
      ReadBothWays(ba, ma, ea, bb, mb, eb);
      assert false;
    }
  }

  /**
   When a name reads both ways, the dot of the longer extension falls into the other base, which has then
   three units; the name repeats its ASCII beginning, so it is ASCII where the extensions part.
   */
  lemma ReadBothWays(ba: Text, ma: Text, ea: Text, bb: Text, mb: Text, eb: Text)
    requires ba + ma + ea == bb + mb + eb && |ea| > |eb| && eb <= ea && ea[0] == DOT
    requires |ma| >= 2 && |mb| >= 2 && DOT !in mb
    requires forall u | u in ma :: u < 0x80
    requires forall u | u in mb :: u < 0x80
    requires |bb| <= 3
    ensures |bb| == 3 && ea[|eb|] < 0x80
  {
    var n := ba + ma + ea;
    var p := |ba| + |ma|;
    assert n[p] == DOT;
    assert forall i | |bb| <= i < |bb| + |mb| :: n[i] == mb[i - |bb|];
    assert |n| == |bb| + |mb| + |eb| && |n| == p + |ea|;
    assert p < |bb| + |mb|;
    assert p < |bb|;
    assert |ba| == 0 && |ma| == 2 && |bb| == 3;
    assert forall i | 0 <= i < 2 :: n[i] == ma[i];
    var start, period := 3 + |mb|, |mb| + 1;
    forall k | 0 <= k < start ensures n[k] < 0x80 {
      if k >= 3 {
        assert n[k] == mb[k - 3] && n[k] in mb;
      } else if k < 2 {
        assert n[k] in ma;
      }
    }
    forall k | start <= k < |n| ensures Repeats(n, period, k) {
      assert n[k] == eb[k - start] == ea[k - start] == n[2 + k - start];
    }
    PeriodicAscii(n, start, period, 2 + |eb|);
    assert n[2 + |eb|] == ea[|eb|];
  }

  /** Different discriminators always give different names, however much the extension is shortened. */
  lemma CollisionNamesDiffer(path: Text, a: nat, b: nat, budget: int)
    requires a != b
    ensures Collision(path, a, budget) != Collision(path, b, budget)
  {
    hide Truncated, Digits, CompleteBaseName, Extension, Utf8Size, CollisionExtension;
    CollisionNameFits(path, a, budget);
    CollisionNameFits(path, b, budget);
    var ma, mb := Marker(a), Marker(b);
    var ea, eb := CollisionExtension(path, a, budget), CollisionExtension(path, b, budget);
    if Utf8Size(ma) > budget || Utf8Size(mb) > budget {
      if [] + ma == [] + mb { MarkerReadBack([], a, [], b); }
    } else if |ea| > |eb| {
      UnequalExtensions(path, a, b, budget);
    } else if |eb| > |ea| {
      UnequalExtensions(path, b, a, budget);
    } else if Collision(path, a, budget) == Collision(path, b, budget) {
      CollisionParts(path, a, budget);
      CollisionParts(path, b, budget);
      var ba := CollisionBase(path, Left(ma, ea, budget));
      var bb := CollisionBase(path, Left(mb, eb, budget));
      assert ba + ma == (ba + ma + ea)[..|ba + ma + ea| - |ea|];
      assert bb + mb == (bb + mb + eb)[..|bb + mb + eb| - |eb|];
      MarkerReadBack(ba, a, bb, b);
    }
  }
}
