/**
 What generated names are made of, unit by unit: code points and their sizes, decimal numbers, the parts of
 a path, and from them the two kinds of names exactly.
 */
module FileNamingParts {
  import opened FileNaming

  // ---------------------------------------------------------------- code points

  /** The bytes of one code point; a surrogate outside a pair is a single question mark. */
  lemma CodePointSizes(u: unit, v: unit)
    ensures Utf8Size([u]) == if u < 0x80 || 0xD800 <= u < 0xE000 then 1 else if u < 0x800 then 2 else 3
    ensures 0xD800 <= u < 0xDC00 && 0xDC00 <= v < 0xE000 ==> Utf8Size([u, v]) == 4
    ensures !(0xD800 <= u < 0xDC00 && 0xDC00 <= v < 0xE000) ==> Utf8Size([u, v]) == Utf8Size([u]) + Utf8Size([v])
  {
    assert [u, v][1..] == [v] && [u, v][2..] == [];
    assert [u][1..] == [] && [v][1..] == [];
  }

  /** Sizes add up wherever a text is not cut inside a pair. */
  lemma SizesAdd(a: Text, b: Text)
    requires a == [] || b == [] || !(0xD800 <= a[|a| - 1] < 0xDC00 && 0xDC00 <= b[0] < 0xE000)
    ensures Utf8Size(a + b) == Utf8Size(a) + Utf8Size(b)
  {
    SizeOfConcat(a, b);
  }

  /** Chopping takes the last pair or else the last unit. */
  lemma ChopExactly(s: Text)
    ensures var n := |s|;
      Chop(s) == if n == 0 then []
                 else if n >= 2 && 0xD800 <= s[n - 2] < 0xDC00 && 0xDC00 <= s[n - 1] < 0xE000 then s[..n - 2]
                 else s[..n - 1]
  {
  }

  // ---------------------------------------------------------------- decimal numbers

  function Read(digits: Text): int {
    if digits == [] then 0 else 10 * Read(digits[..|digits| - 1]) + digits[|digits| - 1] - 0x30
  }

  /** Decimal digits, the most significant first and without a leading zero. */
  lemma {:induction false} DigitsExactly(n: nat)
    ensures Read(Digits(n)) == n && (n > 0 ==> Digits(n)[0] != 0x30) && (n == 0 ==> Digits(n) == [0x30])
    ensures forall u | u in Digits(n) :: 0x30 <= u <= 0x39
  {
    if n >= 10 {
      DigitsExactly(n / 10);
      assert Digits(n)[..|Digits(n)| - 1] == Digits(n / 10);
    } else {
      assert [0x30 + n][..0] == [];
    }
  }

  lemma MarkerExactly(n: nat)
    ensures var m := Marker(n);
      m != [] && m[0] == 0x2D && m[1..] == Digits(n) && Utf8Size(m) == |m|
  {
    MarkerSize(n);
  }

  // ---------------------------------------------------------------- the parts of a path

  lemma {:induction false} FirstOfIs(s: Text, u: unit, i: nat)
    requires i <= |s| && (i < |s| ==> s[i] == u) && u !in s[..i]
    ensures FirstOf(s, u) == i
  {
    if i > 0 {
      assert s[0] in s[..i];
      assert s[1..][..i - 1] == s[..i][1..];
      FirstOfIs(s[1..], u, i - 1);
    }
  }

  lemma NeverIsZero(s: Text, u: unit)
    requires u !in s
    ensures AfterLast(s, u) == 0 && FirstOf(s, u) == |s|
  {
    hide AfterLast, FirstOf;
  }

  lemma AfterLastOf(a: Text, u: unit, b: Text)
    requires u !in b
    ensures AfterLast(a + [u] + b, u) == |a| + 1
  {
    assert (a + [u] + b)[|a| + 1..] == b;
    AfterLastIs(a + [u] + b, u, |a| + 1);
  }

  lemma FirstOfThe(a: Text, u: unit, b: Text)
    requires u !in a
    ensures FirstOf(a + [u] + b, u) == |a|
  {
    assert (a + [u] + b)[..|a|] == a;
    FirstOfIs(a + [u] + b, u, |a|);
  }

  /** The name is what follows the last slash. */
  lemma FileNameExactly(directory: Text, name: Text)
    requires 0x2F !in name
    ensures FileName(name) == name && FileName(directory + [0x2F] + name) == name
  {
    NeverIsZero(name, SLASH);
    AfterLastOf(directory, SLASH, name);
    assert (directory + [SLASH] + name)[|directory| + 1..] == name;
  }

  /** The base goes up to the last dot of the name; a name without a dot is all base. */
  lemma BaseExactly(path: Text, base: Text, rest: Text)
    requires 0x2E !in rest
    ensures FileName(path) == base + [0x2E] + rest ==> CompleteBaseName(path) == base
    ensures FileName(path) == rest ==> CompleteBaseName(path) == rest
  {
    NeverIsZero(rest, DOT);
    AfterLastOf(base, DOT, rest);
    assert (base + [DOT] + rest)[..|base|] == base;
  }

  /** The extension begins with the first dot of the name, unless nothing follows it. */
  lemma ExtensionExactly(path: Text, front: Text, suffix: Text)
    requires 0x2E !in front
    ensures FileName(path) == front + [0x2E] + suffix ==>
      Extension(path) == if suffix == [] then [] else [0x2E] + suffix
    ensures FileName(path) == front ==> Extension(path) == []
  {
    NeverIsZero(front, DOT);
    FirstOfThe(front, DOT, suffix);
    assert (front + [DOT] + suffix)[|front| + 1..] == suffix;
  }

  // ---------------------------------------------------------------- the names

  /** The longest beginning of whole code points that fits the budget has `n` units. */
  ghost predicate Longest(s: Text, n: nat, budget: int) {
    && n <= |s| && Aligned(s, n) && (n > 0 ==> Utf8Size(s[..n]) <= budget)
    && forall m | n < m <= |s| && Aligned(s, m) :: Utf8Size(s[..m]) > budget
  }

  lemma LongestIs(s: Text, n: nat, budget: int)
    requires Longest(s, n, budget)
    ensures n <= |s| && Truncated(s, budget) == s[..n] && (n == 0 <==> Truncated(s, budget) == [])
  {
    hide Truncated;
    TruncatedIsLongest(s, budget);
    var r := Truncated(s, budget);
    assert r == s[..|r|];
    assert Utf8Size([]) == 0;
    SizeCountsUnits(s[..n]);
  }

  /** As much of the word "file" as fits. */
  function FileWord(budget: nat): Text {
    [0x66, 0x69, 0x6C, 0x65][..if budget < 4 then budget else 4]
  }

  lemma FileFitting(budget: int)
    requires budget > 0
    ensures Truncated(FILE, budget) == FileWord(budget)
  {
    var n := if budget < 4 then budget else 4;
    forall m | 0 <= m <= 4 ensures Utf8Size(FILE[..m]) == m {
      AsciiSize(FILE[..m]);
    }
    LongestIs(FILE, n, budget);
  }

  /**
   A name that does not fit keeps its extension if the extension leaves room for a byte. Beside it comes as
   much of the base as fits, and the word "file", as much of it as fits, when that is nothing.
   */
  lemma GeneratedExactly(path: Text, budget: int, n: nat)
    requires budget > 0 && Utf8Size(path) > budget
    requires Longest(CompleteBaseName(path), n,
      budget - (if Utf8Size(Extension(path)) < budget then Utf8Size(Extension(path)) else 0))
    ensures
      var extension := if Utf8Size(Extension(path)) < budget then Extension(path) else [];
      var left := budget - Utf8Size(extension);
      left > 0
      && Generated(path, budget) ==
           (if n > 0 then CompleteBaseName(path)[..n]
            else FileWord(left))
           + extension
  {
    hide Truncated, CompleteBaseName, Extension, Longest;
    assert Utf8Size([]) == 0;
    var extension := KeptExtension(path, budget);
    var left := budget - Utf8Size(extension);
    LongestIs(CompleteBaseName(path), n, left);
    FileFitting(left);
  }

  /** A name that fits is left alone, and no name fits into nothing. */
  lemma GeneratedKeeps(path: Text, budget: int)
    ensures budget > 0 && Utf8Size(path) <= budget ==> Generated(path, budget) == path
    ensures budget <= 0 ==> Generated(path, budget) == []
  {
    hide Utf8Size;
  }

  /**
   A collision name is as much of the base as fits, a dash, the discriminator in decimal, and as much of the
   extension as fits beside the mark. When there is room and no base fits, "file" stands for it.
   */
  lemma CollisionExactly(path: Text, discriminator: nat, budget: int, n: nat, k: nat)
    requires Longest(Extension(path), k, budget - |Digits(discriminator)| - 1)
    requires var left := budget - |Digits(discriminator)| - 1 - Utf8Size(Extension(path)[..k]);
      Longest(CompleteBaseName(path), n, if left > 0 then left else 0)
    ensures
      var left := budget - |Digits(discriminator)| - 1 - Utf8Size(Extension(path)[..k]);
      Collision(path, discriminator, budget) ==
        (if n > 0 then CompleteBaseName(path)[..n]
         else if left > 0 then FileWord(left)
         else [])
        + [0x2D] + Digits(discriminator) + Extension(path)[..k]
  {
    hide Truncated, CompleteBaseName, Extension, Longest, Digits;
    MarkerSize(discriminator);
    var size := Utf8Size(Marker(discriminator));
    LongestIs(Extension(path), k, budget - size);
    var left := budget - size - Utf8Size(Extension(path)[..k]);
    LongestIs(CompleteBaseName(path), n, Max(0, left));
    if left > 0 { FileFitting(left); }
    var base := CollisionBase(path, Max(0, left));
    assert base + Marker(discriminator) == base + [DASH] + Digits(discriminator);
  }

  /** There is always such a longest beginning, so the two statements above cover every name. */
  lemma LongestExists(s: Text, budget: int)
    ensures exists n :: Longest(s, n, budget)
  {
    hide Truncated;
    TruncatedIsLongest(s, budget);
    var r := Truncated(s, budget);
    assert r == s[..|r|];
    assert Longest(s, |r|, budget);
  }
}
