/** Exactly when a cleaned component still has a dot at an end, and when cleaning it again changes it. */
module SaveNamingDots {
  import opened FileNaming
  import opened SaveNaming

  /** The text once dashes and single spaces stand for what a name may not contain. */
  function Plain(value: Text): Text {
    Simplified(Dashed(Trimmed(value)))
  }

  /** The number of leading dots. */
  function Dots(s: Text): (j: nat)
    ensures j <= |s| && (j < |s| ==> s[j] != DOT) && forall i | 0 <= i < j :: s[i] == DOT
  {
    if s == [] || s[0] != DOT then 0 else 1 + Dots(s[1..])
  }

  /** Behind the leading dots comes a space and then another dot. */
  predicate DotBehindSpace(s: Text) {
    var j := Dots(s);
    j > 0 && j + 1 < |s| && s[j] == SPACE && s[j + 1] == DOT
  }

  /** How many units remain when the text is cut to size without splitting a surrogate pair. */
  function Cut(s: Text): (n: nat)
    ensures n <= |s| && n <= 80 && (s != [] ==> n > 0)
  {
    if |s| <= 80 then |s| else if Pair(s, 79) then 79 else 80
  }

  /** The cut leaves a dot at the end, or a dot and a space. */
  predicate DotAtCut(s: Text) {
    |s| > 80 && var n := Cut(s); s[n - 1] == DOT || (s[n - 1] == SPACE && s[n - 2] == DOT)
  }

  /** Nothing but dots and white space that is no control character. */
  predicate Blank(s: Text) {
    forall i | 0 <= i < |s| :: !Invalid(s[i]) && (s[i] == DOT || Space(s[i]))
  }

  /** White space is single spaces, but for the ends. */
  predicate Single(s: Text) {
    forall i | 0 <= i < |s| && Space(s[i]) :: s[i] == SPACE && (i > 0 ==> !Space(s[i - 1]))
  }

  predicate Spaced(s: Text) {
    Single(s) && (s != [] ==> !Space(s[0]) && !Space(s[|s| - 1]))
  }

  predicate Neat(s: Text) {
    s != [] && Clean(s) && Spaced(s) && s[0] != DOT && s[|s| - 1] != DOT
  }

  /** The first unit that is kept, behind a space. */
  function From(s: Text): nat {
    if s != [] && s[0] == SPACE then 1 else 0
  }

  /** The end of what is kept, before a space at the cut. */
  function To(s: Text): (b: nat)
    ensures b <= Cut(s)
  {
    var n := Cut(s);
    if n > 0 && s[n - 1] == SPACE then n - 1 else n
  }

  // ---------------------------------------------------------------- each step exactly

  lemma {:induction false} CollapsedSpaced(s: Text)
    ensures var c := Collapsed(s); Single(c) && (c != [] ==> !Space(c[0]))
  {
    if s != [] { CollapsedSpaced(s[..|s| - 1]); }
  }

  lemma PlainSpaced(value: Text)
    ensures Spaced(Plain(value)) && Clean(Plain(value))
  {
    hide Dashed, Collapsed, Trimmed, Invalid, Space;
    DashedClean(Trimmed(value));
    CollapsedClean(Dashed(Trimmed(value)));
    CollapsedSpaced(Dashed(Trimmed(value)));
  }

  /** `k` is the text without the `j` units in front and the dots and spaces at the end. */
  predicate Stripped(s: Text, j: nat, k: Text) {
    && j + |k| <= |s| && k == s[j..j + |k|]
    && (k != [] ==> k[|k| - 1] != DOT && k[|k| - 1] != SPACE)
    && forall i | j + |k| <= i < |s| :: s[i] == DOT || s[i] == SPACE
  }

  lemma StrippedFront(s: Text, j: nat, k: Text)
    requires s != [] && s[0] == DOT && Stripped(s[1..], j, k)
    ensures Stripped(s, j + 1, k)
  {
    assert s[j + 1..j + 1 + |k|] == s[1..][j..j + |k|];
    assert forall i | 0 < i < |s| :: s[i] == s[1..][i - 1];
  }

  lemma StrippedBack(s: Text, k: Text)
    requires s != [] && (s[|s| - 1] == DOT || s[|s| - 1] == SPACE) && Stripped(s[..|s| - 1], 0, k)
    ensures Stripped(s, 0, k)
  {
    assert s[..|k|] == s[..|s| - 1][..|k|];
  }

  lemma UndottedSteps(s: Text)
    ensures s != [] && s[0] == DOT ==> Undotted(s) == Undotted(s[1..]) && Dots(s) == 1 + Dots(s[1..])
    ensures s != [] && s[0] != DOT && (s[|s| - 1] == DOT || s[|s| - 1] == SPACE) ==>
      Undotted(s) == Undotted(s[..|s| - 1]) && Dots(s) == 0 == Dots(s[..|s| - 1])
    ensures s == [] || (s[0] != DOT && s[|s| - 1] != DOT && s[|s| - 1] != SPACE) ==> Undotted(s) == s && Dots(s) == 0
  {
  }

  /** The leading dots go, and at the end the dots and spaces. */
  lemma {:induction false} UndottedIs(s: Text)
    ensures Stripped(s, Dots(s), Undotted(s))
    decreases |s|
  {
    UndottedSteps(s);
    hide Undotted, Dots;
    if s != [] && s[0] == DOT {
      UndottedIs(s[1..]);
      StrippedFront(s, Dots(s[1..]), Undotted(s[1..]));
    } else if s != [] && (s[|s| - 1] == DOT || s[|s| - 1] == SPACE) {
      UndottedIs(s[..|s| - 1]);
      StrippedBack(s, Undotted(s[..|s| - 1]));
    }
  }

  lemma {:induction false} ShortenedIs(s: Text)
    ensures Shortened(s) == s[..Cut(s)]
    decreases |s|
  {
    if |s| > MAXIMUM {
      var chopped := Chop(s);
      ShortenedIs(chopped);
      assert Cut(chopped) == Cut(s);
    }
  }

  lemma TrimmedIs(s: Text, a: nat, b: nat)
    requires a < b <= |s| && !Space(s[a]) && !Space(s[b - 1])
    requires forall i | 0 <= i < a || b <= i < |s| :: Space(s[i])
    ensures Trimmed(s) == s[a..b]
  {
    hide Space;
    assert Leading(s) == a;
    var rest := s[a..];
    assert rest[b - a - 1] == s[b - 1];
    assert forall i | b - a <= i < |rest| :: rest[i] == s[a + i];
    assert |TrimEnd(rest)| == b - a;
  }

  lemma TrimmedShorter(s: Text)
    ensures |Trimmed(s)| <= |s|
    ensures Trimmed(s) != [] ==> !Space(Trimmed(s)[0]) && !Space(Trimmed(s)[|Trimmed(s)| - 1])
    ensures Trimmed(Trimmed(s)) == Trimmed(s)
  {
    hide Space;
    if Trimmed(s) != [] { NothingToTrim(Trimmed(s)); }
  }

  // ---------------------------------------------------------------- when the fallback is used

  lemma {:induction false} DashedBlank(s: Text)
    ensures Blank(Dashed(s)) <==> Blank(s)
  {
    if s != [] {
      var init, u := s[..|s| - 1], s[|s| - 1];
      DashedBlank(init);
      assert s == init + [u];
      BlankAppend(init, u);
      BlankAppend(Dashed(init), u);
      BlankAppend(Dashed(init), DASH);
      if Invalid(u) { assert Dashed(s)[|Dashed(s)| - 1] == DASH; }
    }
  }

  lemma BlankAppend(s: Text, u: unit)
    ensures Blank(s + [u]) <==> Blank(s) && !Invalid(u) && (u == DOT || Space(u))
  {
    hide Invalid, Space;
    var r := s + [u];
    assert r[|s|] == u;
    if Blank(r) {
      forall i | 0 <= i < |s| ensures !Invalid(s[i]) && (s[i] == DOT || Space(s[i])) { assert r[i] == s[i]; }
    }
  }

  lemma {:induction false} CollapsedBlank(s: Text)
    requires Clean(s)
    ensures Blank(Collapsed(s)) <==> Blank(s)
  {
    if s != [] {
      var init, u := s[..|s| - 1], s[|s| - 1];
      CollapsedBlank(init);
      assert s == init + [u];
      BlankAppend(init, u);
      BlankAppend(Collapsed(init), u);
      BlankAppend(Collapsed(init), SPACE);
    }
  }

  lemma EndTrimmedBlank(s: Text)
    requires Clean(s)
    ensures Blank(TrimEnd(s)) <==> Blank(s)
  {
    hide Invalid, Space;
  }

  lemma UndottedBlank(s: Text)
    requires Clean(s) && Single(s)
    ensures Undotted(s) == [] <==> Blank(s)
  {
    hide Space;
    UndottedIs(s);
    var j, k := Dots(s), Undotted(s);
    if k != [] { assert k[|k| - 1] == s[j + |k| - 1]; }
    else { assert Space(SPACE) by { SpaceIsSpace(); } }
  }

  lemma SpaceIsSpace()
    ensures Space(SPACE) && !Space(DOT)
  {
  }

  /** The fallback replaces a text of dots and white space only. */
  lemma FallsBackExactly(value: Text)
    ensures Undotted(Plain(value)) == [] <==> Blank(Trimmed(value))
  {
    hide Dashed, Collapsed, Trimmed, Invalid, Space, Blank;
    var dashed := Dashed(Trimmed(value));
    DashedClean(Trimmed(value));
    CollapsedClean(dashed);
    DashedBlank(Trimmed(value));
    CollapsedBlank(dashed);
    EndTrimmedBlank(Collapsed(dashed));
    PlainSpaced(value);
    UndottedBlank(Plain(value));
  }

  // ---------------------------------------------------------------- dots at the ends

  lemma KeptRange(kept: Text)
    requires kept != [] && Single(kept) && kept[|kept| - 1] != SPACE
    ensures From(kept) < To(kept) && !Space(kept[From(kept)]) && !Space(kept[To(kept) - 1])
  {
    hide Space, Single, Pair;
    SpaceIsSpace();
    SingleAt(kept, 0);
    SingleAt(kept, Cut(kept) - 1);
    if |kept| > 1 { SingleAt(kept, 1); }
  }

  /** Of the kept text at most a leading space is lost, and what the cut takes. */
  lemma KeptIs(kept: Text)
    requires kept != [] && Single(kept) && kept[|kept| - 1] != SPACE
    ensures From(kept) < To(kept) && Trimmed(Shortened(kept)) == kept[From(kept)..To(kept)]
  {
    hide Space, Single, Trimmed, Shortened, Cut;
    KeptRange(kept);
    SpaceIsSpace();
    ShortenedIs(kept);
    TrimmedIs(kept[..Cut(kept)], From(kept), To(kept));
    SliceOfPrefix(kept, Cut(kept), From(kept), To(kept));
  }

  lemma SliceOfPrefix(s: Text, n: nat, a: nat, b: nat)
    requires a <= b <= n <= |s|
    ensures s[..n][a..b] == s[a..b]
  {
  }

  lemma SingleAt(s: Text, i: nat)
    requires Single(s) && i < |s|
    ensures Space(s[i]) ==> s[i] == SPACE && (i > 0 ==> !Space(s[i - 1]))
  {
  }

  /** A stretch of the kept text is clean and spaced if its ends are no spaces. */
  lemma StretchSpaced(s: Text, a: nat, b: nat)
    requires Clean(s) && Single(s) && a < b <= |s| && !Space(s[a]) && !Space(s[b - 1])
    ensures Clean(s[a..b]) && Spaced(s[a..b])
  {
    hide Invalid, Space;
    var r := s[a..b];
    forall i | 0 <= i < |r| && Space(r[i]) ensures r[i] == SPACE && (i > 0 ==> !Space(r[i - 1])) {
      SingleAt(s, a + i);
    }
  }

  lemma UndottedSpaced(s: Text)
    requires Spaced(s) && Clean(s)
    ensures var kept := Undotted(s); Single(kept) && Clean(kept)
  {
    hide Undotted, Space, Invalid;
    UndottedIs(s);
    var j, kept := Dots(s), Undotted(s);
    forall i | 0 <= i < |kept| ensures kept[i] == s[j + i] {}
    forall i | 0 <= i < |kept| && Space(kept[i]) ensures kept[i] == SPACE && (i > 0 ==> !Space(kept[i - 1])) {
      SingleAt(s, j + i);
    }
  }

  lemma KeptEnd(kept: Text)
    requires From(kept) < To(kept) && kept[|kept| - 1] != SPACE && kept[|kept| - 1] != DOT
    ensures kept[To(kept) - 1] == DOT <==> DotAtCut(kept)
  {
    hide Pair;
  }

  lemma KeptEnds(value: Text, fallback: Text)
    requires Undotted(Plain(value)) != []
    ensures var s := Plain(value);
      var r := Sanitized(value, fallback);
      && r != [] && Clean(r) && Spaced(r) && |r| <= MAXIMUM
      && (r[0] == DOT <==> DotBehindSpace(s))
      && (r[|r| - 1] == DOT <==> DotAtCut(Undotted(s)))
  {
    hide Plain, Dashed, Simplified, Trimmed, Invalid, Space, Single, Shortened, Undotted, Spaced, Clean, Cut, From, To,
      DotBehindSpace, DotAtCut;
    var s := Plain(value);
    var kept := Undotted(s);
    PlainSpaced(value);
    UndottedIs(s);
    UndottedSpaced(s);
    KeptIs(kept);
    KeptRange(kept);
    StretchSpaced(kept, From(kept), To(kept));
    KeptEnd(kept);
    SanitizedIs(value, fallback);
    KeptStart(s);
  }

  lemma KeptStart(s: Text)
    requires Spaced(s) && From(Undotted(s)) < |Undotted(s)|
    ensures Undotted(s)[From(Undotted(s))] == DOT <==> DotBehindSpace(s)
  {
    hide Undotted, Space, Single;
    UndottedIs(s);
    SpaceIsSpace();
    var j, kept := Dots(s), Undotted(s);
    assert kept[0] == s[j];
    if |kept| > 1 { assert kept[1] == s[j + 1]; }
  }

  /** A text without a word in it gives the fallback; of any other this says which dots stay at the ends. */
  lemma DotsLeft(value: Text, fallback: Text)
    ensures var r := Sanitized(value, fallback);
      if Blank(Trimmed(value)) then r == Trimmed(Shortened(fallback))
      else
        && r != []
        && (r[0] == DOT <==> DotBehindSpace(Plain(value)))
        && (r[|r| - 1] == DOT <==> DotAtCut(Undotted(Plain(value))))
  {
    hide Trimmed, Shortened, Undotted, Blank, DotBehindSpace, DotAtCut, Dashed, Simplified;
    FallsBackExactly(value);
    if Undotted(Plain(value)) != [] { KeptEnds(value, fallback); }
  }

  // ---------------------------------------------------------------- cleaning again

  lemma AgainIs(r: Text, fallback: Text)
    requires r != [] && Clean(r) && Spaced(r) && |r| <= MAXIMUM
    ensures Sanitized(r, fallback) == r <==> Neat(r) || (Blank(r) && Trimmed(Shortened(fallback)) == r)
  {
    hide Dashed, Simplified, Trimmed, Invalid, Space, Blank, Shortened;
    Unchanged(r);
    UndottedBlank(r);
    NothingToTrim(r);
    SpaceIsSpace();
    var kept := Undotted(r);
    if Neat(r) {
      ShortenedIs(r);
      assert r[..|r|] == r;
      assert kept == r;
    } else if kept != [] {
      UndottedIs(r);
      if r[0] != DOT { UndottedIs(r[..|r| - 1]); }
      ShortenedFits(kept);
      TrimmedShorter(Shortened(kept));
    }
  }

  /**
   Cleaning again changes nothing exactly when the first cleaning left no dot at an end, or left what the
   fallback gives as well. A text without a word gives the fallback, which has to be neat or without a word.
   */
  lemma CleaningAgain(value: Text, fallback: Text)
    ensures var r := Sanitized(value, fallback);
      var given := Trimmed(Shortened(fallback));
      Sanitized(r, fallback) == r <==>
        if Blank(Trimmed(value)) then Blank(given) || Neat(given)
        else
          || (!DotBehindSpace(Plain(value)) && !DotAtCut(Undotted(Plain(value))))
          || (Blank(given) && given == Trimmed(Shortened(Undotted(Plain(value)))))
  {
    hide Trimmed, Shortened, Undotted, Blank, Clean, Spaced, Plain, DotBehindSpace, DotAtCut;
    var r := Sanitized(value, fallback);
    FallsBackExactly(value);
    if Undotted(Plain(value)) == [] {
      FallbackAgain(value, fallback);
    } else {
      KeptEnds(value, fallback);
      AgainIs(r, fallback);
      SanitizedIs(value, fallback);
    }
  }

  /** With a neat fallback, as every caller has, only a dot left at an end makes a second cleaning differ. */
  lemma CleaningAgainWithNeatFallback(value: Text, fallback: Text)
    requires Neat(Trimmed(Shortened(fallback)))
    ensures Sanitized(Sanitized(value, fallback), fallback) == Sanitized(value, fallback) <==>
      || Blank(Trimmed(value))
      || (!DotBehindSpace(Plain(value)) && !DotAtCut(Undotted(Plain(value))))
  {
    hide Trimmed, Shortened, Undotted, Clean, Single, Plain, DotBehindSpace, DotAtCut, Sanitized;
    CleaningAgain(value, fallback);
  }

  lemma SanitizedIs(value: Text, fallback: Text)
    ensures Sanitized(value, fallback) ==
      Trimmed(Shortened(if Undotted(Plain(value)) == [] then fallback else Undotted(Plain(value))))
  {
  }

  lemma FallbackAgain(value: Text, fallback: Text)
    requires Undotted(Plain(value)) == []
    ensures var r := Sanitized(value, fallback);
      r == Trimmed(Shortened(fallback)) && (Sanitized(r, fallback) == r <==> Blank(r) || Neat(r))
  {
    hide Trimmed, Shortened, Undotted, Blank, Clean, Spaced, Plain;
    SanitizedIs(value, fallback);
    var r := Sanitized(value, fallback);
    SanitizedIs(r, fallback);
    ShortenedFits(fallback);
    TrimmedShorter(Shortened(fallback));
    FallsBackExactly(r);
    if !Blank(r) {
      KeptEnds(r, fallback);
      if Sanitized(r, fallback) == r || Neat(r) { AgainIs(r, fallback); }
    }
  }
}
