/** The cleaning of a sender or subject before it becomes part of a file name. */
module SaveNaming {
  import opened FileNaming

  const SPACE: unit := 0x20
  const MAXIMUM := 80

  /** Reserved in file names, or a control character. */
  predicate Invalid(u: unit) {
    u < 0x20 || u == 0x7F || u in {0x3C, 0x3E, 0x3A, 0x22, 0x2F, 0x5C, 0x7C, 0x3F, 0x2A}
  }

  /** White space within one code unit. */
  predicate Space(u: unit) {
    0x09 <= u <= 0x0D || u in {0x20, 0x85, 0xA0, 0x1680, 0x2028, 0x2029, 0x202F, 0x205F, 0x3000}
    || 0x2000 <= u <= 0x200A
  }

  // ---------------------------------------------------------------- the specification

  function TrimEnd(s: Text): (r: Text)
    ensures r <= s && (r != [] ==> !Space(r[|r| - 1])) && forall i | |r| <= i < |s| :: Space(s[i])
  {
    if s != [] && Space(s[|s| - 1]) then TrimEnd(s[..|s| - 1]) else s
  }

  /** The number of leading spaces. */
  function Leading(s: Text): (k: nat)
    ensures k <= |s| && (k < |s| ==> !Space(s[k])) && forall i | 0 <= i < k :: Space(s[i])
  {
    if s == [] || !Space(s[0]) then 0 else 1 + Leading(s[1..])
  }

  function Trimmed(s: Text): Text {
    TrimEnd(s[Leading(s)..])
  }

  /** Runs of invalid characters become one dash. */
  function Dashed(s: Text): Text {
    if s == [] then []
    else
      var before, u := Dashed(s[..|s| - 1]), s[|s| - 1];
      if !Invalid(u) then before + [u]
      else if before == [] || before[|before| - 1] != DASH then before + [DASH]
      else before
  }

  /** Runs of white space become one space, and none is left at the front. */
  function Collapsed(s: Text): Text {
    if s == [] then []
    else
      var before, u := Collapsed(s[..|s| - 1]), s[|s| - 1];
      if !Space(u) then before + [u]
      else if before == [] || before[|before| - 1] == SPACE then before
      else before + [SPACE]
  }

  function Simplified(s: Text): Text {
    TrimEnd(Collapsed(s))
  }

  /** Dots are dropped from the front, then dots and spaces from the end, as long as there are any. */
  function Undotted(s: Text): Text
    decreases |s|
  {
    if s != [] && s[0] == DOT then Undotted(s[1..])
    else if s != [] && (s[|s| - 1] == DOT || s[|s| - 1] == SPACE) then Undotted(s[..|s| - 1])
    else s
  }

  function Shortened(s: Text): Text
    decreases |s|
  {
    if |s| > MAXIMUM then Shortened(Chop(s)) else s
  }

  function Sanitized(value: Text, fallback: Text): Text {
    var kept := Undotted(Simplified(Dashed(Trimmed(value))));
    Trimmed(Shortened(if kept == [] then fallback else kept))
  }

  // ---------------------------------------------------------------- the algorithm

  method SanitizeMailSaveComponent(value: Text, fallback: Text) returns (r: Text)
    ensures r == Sanitized(value, fallback)
  {
    hide Trimmed, Simplified, Invalid;
    var trimmed := Trimmed(value);
    var sanitized: Text := [];
    for i := 0 to |trimmed|
      invariant sanitized == Dashed(trimmed[..i])
    {
      assert trimmed[..i + 1][..i] == trimmed[..i];
      if Invalid(trimmed[i]) {
        if sanitized == [] || sanitized[|sanitized| - 1] != DASH { sanitized := sanitized + [DASH]; }
        continue;
      }
      sanitized := sanitized + [trimmed[i]];
    }
    assert trimmed[..|trimmed|] == trimmed;
    sanitized := Simplified(sanitized);
    ghost var simplified := sanitized;
    while sanitized != [] && (sanitized[0] == DOT || sanitized[|sanitized| - 1] in {DOT, SPACE})
      invariant Undotted(sanitized) == Undotted(simplified)
      decreases |sanitized|
    {
      if sanitized[0] == DOT { sanitized := sanitized[1..]; } else { sanitized := sanitized[..|sanitized| - 1]; }
    }
    if sanitized == [] { sanitized := fallback; }
    ghost var long := sanitized;
    while |sanitized| > MAXIMUM
      invariant Shortened(sanitized) == Shortened(long)
      decreases |sanitized|
    {
      sanitized := ChopLastUnicodeCodePoint(sanitized);
    }
    return Trimmed(sanitized);
  }

  // ---------------------------------------------------------------- what it guarantees

  predicate Clean(s: Text) {
    forall i | 0 <= i < |s| :: !Invalid(s[i])
  }

  lemma {:induction false} DashedClean(s: Text)
    ensures Clean(Dashed(s))
  {
    if s != [] { DashedClean(s[..|s| - 1]); }
  }

  lemma {:induction false} CollapsedClean(s: Text)
    requires Clean(s)
    ensures Clean(Collapsed(s))
  {
    if s != [] { CollapsedClean(s[..|s| - 1]); }
  }

  lemma {:induction false} UndottedClean(s: Text)
    requires Clean(s)
    ensures Clean(Undotted(s))
    decreases |s|
  {
    if s != [] && s[0] == DOT { UndottedClean(s[1..]); }
    else if s != [] && (s[|s| - 1] == DOT || s[|s| - 1] == SPACE) { UndottedClean(s[..|s| - 1]); }
  }

  lemma {:induction false} ShortenedFits(s: Text)
    ensures |Shortened(s)| <= MAXIMUM && Shortened(s) <= s
    ensures WellFormed(s) ==> WellFormed(Shortened(s))
    decreases |s|
  {
    if |s| > MAXIMUM {
      ChopSize(s);
      if WellFormed(s) {
        SliceWellFormed(s, 0, |Chop(s)|);
        assert s[0..|Chop(s)|] == Chop(s);
      }
      ShortenedFits(Chop(s));
    }
  }

  /** The beginning of a well-formed text: only a final high surrogate may lack its partner. */
  predicate Begun(s: Text) {
    (forall i | 0 <= i < |s| - 1 && High(s[i]) :: Low(s[i + 1]))
    && (forall i | 0 <= i < |s| && Low(s[i]) :: Pair(s, i - 1))
  }

  predicate EndsHigh(s: Text) {
    s != [] && High(s[|s| - 1])
  }

  lemma BegunPrefix(s: Text)
    requires Begun(s) && s != []
    ensures var init := s[..|s| - 1]; Begun(init) && (EndsHigh(init) <==> Low(s[|s| - 1]))
  {
    var init := s[..|s| - 1];
    forall i | 0 <= i < |init| && Low(init[i]) ensures Pair(init, i - 1) { assert Pair(s, i - 1); }
    if Low(s[|s| - 1]) { assert Pair(s, |s| - 2); }
  }

  lemma BegunAppend(s: Text, u: unit)
    requires Begun(s) && (EndsHigh(s) <==> Low(u))
    ensures Begun(s + [u]) && (EndsHigh(s + [u]) <==> High(u))
  {
    var r := s + [u];
    forall i | 0 <= i < |r| && Low(r[i]) ensures Pair(r, i - 1) {
      if i < |s| { assert Pair(s, i - 1); }
    }
  }

  lemma {:induction false} DashedBegun(s: Text)
    requires Begun(s)
    ensures Begun(Dashed(s)) && (EndsHigh(Dashed(s)) <==> EndsHigh(s))
  {
    hide Begun;
    if s == [] {
      NothingBegun();
    } else {
      var init, u := s[..|s| - 1], s[|s| - 1];
      BegunPrefix(s);
      DashedBegun(init);
      if !Invalid(u) { BegunAppend(Dashed(init), u); } else if !Low(u) { BegunAppend(Dashed(init), DASH); }
    }
  }

  lemma {:induction false} CollapsedBegun(s: Text)
    requires Begun(s)
    ensures Begun(Collapsed(s)) && (EndsHigh(Collapsed(s)) <==> EndsHigh(s))
  {
    hide Begun;
    if s == [] {
      NothingBegun();
    } else {
      var init, u := s[..|s| - 1], s[|s| - 1];
      BegunPrefix(s);
      CollapsedBegun(init);
      if !Space(u) { BegunAppend(Collapsed(init), u); } else if !Low(u) { BegunAppend(Collapsed(init), SPACE); }
    }
  }

  lemma NothingBegun()
    ensures Begun([]) && !EndsHigh([])
  {
  }

  lemma WellFormedIsBegun(s: Text)
    ensures WellFormed(s) <==> Begun(s) && !EndsHigh(s)
  {
    if Begun(s) && !EndsHigh(s) {
      forall i | 0 <= i < |s| && High(s[i]) ensures Pair(s, i) {
        assert i < |s| - 1;
      }
    }
    if WellFormed(s) {
      forall i | 0 <= i < |s| - 1 && High(s[i]) ensures Low(s[i + 1]) { assert Pair(s, i); }
      assert forall i | 0 <= i < |s| && High(s[i]) :: i + 1 < |s|;
    }
  }

  lemma TrimmedWellFormed(s: Text)
    requires WellFormed(s)
    ensures WellFormed(Trimmed(s)) && WellFormed(TrimEnd(s))
  {
    var k := Leading(s);
    SliceWellFormed(s, k, |s|);
    var rest := s[k..];
    assert s[k..|s|] == rest;
    EndTrimmed(rest);
    EndTrimmed(s);
  }

  lemma EndTrimmed(s: Text)
    requires WellFormed(s)
    ensures WellFormed(TrimEnd(s))
  {
    var r := TrimEnd(s);
    assert Aligned(s, |r|);
    SliceWellFormed(s, 0, |r|);
    assert s[0..|r|] == r;
  }

  lemma {:induction false} UndottedWellFormed(s: Text)
    requires WellFormed(s)
    ensures WellFormed(Undotted(s))
    decreases |s|
  {
    if s != [] && s[0] == DOT {
      SliceWellFormed(s, 1, |s|);
      assert s[1..|s|] == s[1..];
      UndottedWellFormed(s[1..]);
    } else if s != [] && (s[|s| - 1] == DOT || s[|s| - 1] == SPACE) {
      SliceWellFormed(s, 0, |s| - 1);
      assert s[0..|s| - 1] == s[..|s| - 1];
      UndottedWellFormed(s[..|s| - 1]);
    }
  }

  /**
   With a clean fallback the result is clean, has at most 80 units and no white space at its ends; from
   well-formed text it creates no lone surrogate.
   */
  lemma SanitizedIsClean(value: Text, fallback: Text)
    requires Clean(fallback)
    ensures var r := Sanitized(value, fallback);
      && Clean(r) && |r| <= 80
      && (r != [] ==> !Space(r[0]) && !Space(r[|r| - 1]))
      && (WellFormed(value) && WellFormed(fallback) ==> WellFormed(r))
  {
    hide Dashed, Collapsed, Undotted, Shortened, WellFormed, Invalid, Space;
    var trimmed := Trimmed(value);
    DashedClean(trimmed);
    CollapsedClean(Dashed(trimmed));
    var simplified := Simplified(Dashed(trimmed));
    UndottedClean(simplified);
    var kept := Undotted(simplified);
    var named := if kept == [] then fallback else kept;
    ShortenedFits(named);
    if WellFormed(value) && WellFormed(fallback) {
      TrimmedWellFormed(value);
      WellFormedIsBegun(trimmed);
      DashedBegun(trimmed);
      CollapsedBegun(Dashed(trimmed));
      WellFormedIsBegun(Collapsed(Dashed(trimmed)));
      TrimmedWellFormed(Collapsed(Dashed(trimmed)));
      UndottedWellFormed(simplified);
      TrimmedWellFormed(Shortened(named));
    }
  }

  /** Clean text is left alone. */
  lemma {:induction false} DashedKeeps(s: Text)
    requires Clean(s)
    ensures Dashed(s) == s
  {
    if s != [] {
      DashedKeeps(s[..|s| - 1]);
      assert s == s[..|s| - 1] + [s[|s| - 1]];
    }
  }

  /** So is text whose white space is single and inside. */
  lemma {:induction false} CollapsedKeeps(s: Text)
    requires s != [] ==> !Space(s[0])
    requires forall i | 0 <= i < |s| && Space(s[i]) :: s[i] == SPACE && (i > 0 ==> !Space(s[i - 1]))
    ensures Collapsed(s) == s
  {
    if s != [] {
      CollapsedKeeps(s[..|s| - 1]);
      assert s == s[..|s| - 1] + [s[|s| - 1]];
    }
  }

  lemma NothingToTrim(s: Text)
    requires s != [] && !Space(s[0]) && !Space(s[|s| - 1])
    ensures Trimmed(s) == s && TrimEnd(s) == s
  {
    assert s[0..] == s;
  }

  lemma Unchanged(s: Text)
    requires s != [] && !Space(s[0]) && !Space(s[|s| - 1]) && Clean(s)
    requires forall i | 0 <= i < |s| && Space(s[i]) :: s[i] == SPACE && (i > 0 ==> !Space(s[i - 1]))
    ensures Simplified(Dashed(Trimmed(s))) == s
  {
    hide Invalid, Space;
    NothingToTrim(s);
    DashedKeeps(s);
    CollapsedKeeps(s);
  }

  /** A leading dot may survive, behind a space that goes last; cleaning again then removes it. */
  lemma LeadingDotSurvives(fallback: Text)
    ensures Sanitized([0x2E, 0x20, 0x2E, 0x78], fallback) == [0x2E, 0x78]
    ensures Sanitized([0x2E, 0x78], fallback) == [0x78]
  {
    hide Dashed, Collapsed, Simplified, Trimmed;
    Unchanged([DOT, SPACE, DOT, 0x78]);
    Unchanged([DOT, 0x78]);
    var s: Text := [DOT, SPACE, DOT, 0x78];
    var t: Text := [DOT, 0x78];
    var u: Text := [SPACE, DOT, 0x78];
    var x: Text := [0x78];
    assert s[1..] == u && t[1..] == x;
    assert Undotted(u) == u && Undotted(x) == x;
    assert Undotted(s) == u && Undotted(t) == x;
    assert Shortened(u) == u && Shortened(x) == x;
    SpaceTrimmed();
    NothingToTrim(x);
  }

  lemma SpaceTrimmed()
    ensures Trimmed([SPACE, DOT, 0x78]) == [DOT, 0x78]
  {
    var s: Text := [SPACE, DOT, 0x78];
    assert s[1..][0] == DOT;
    assert Leading(s[1..]) == 0;
    assert s[1..] == [DOT, 0x78];
  }
}
