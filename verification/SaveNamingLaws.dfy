/** Which texts cleaning treats alike, which it leaves alone, and what it never lets through. */
module SaveNamingLaws {
  import opened FileNaming
  import opened SaveNaming
  import opened SaveNamingDots

  /** No unit of the result is a control character or reserved, and none at an end is white space. */
  lemma NothingReserved(value: Text, fallback: Text)
    requires forall u | u in fallback ::
      u >= 0x20 && u != 0x7F && u !in {0x22, 0x2A, 0x2F, 0x3A, 0x3C, 0x3E, 0x3F, 0x5C, 0x7C}
    ensures var r := Sanitized(value, fallback);
      && (forall u | u in r ::
            u >= 0x20 && u != 0x7F && u !in {0x22, 0x2A, 0x2F, 0x3A, 0x3C, 0x3E, 0x3F, 0x5C, 0x7C})
      && (forall i | 0 <= i < |r| && (i == 0 || i == |r| - 1) ::
            r[i] !in {0x20, 0x85, 0xA0, 0x1680, 0x2028, 0x2029, 0x202F, 0x205F, 0x3000}
            && !(0x09 <= r[i] <= 0x0D) && !(0x2000 <= r[i] <= 0x200A))
  {
    hide Sanitized;
    forall i | 0 <= i < |fallback| ensures !Invalid(fallback[i]) { assert fallback[i] in fallback; }
    SanitizedIsClean(value, fallback);
  }

  /**
   A text of at most 80 units is left alone if it has no reserved or control character, no white space but
   single spaces between other units, and no dot at an end.
   */
  lemma NeatIsKept(s: Text, fallback: Text)
    requires 0 < |s| <= 80 && s[0] != 0x2E && s[|s| - 1] != 0x2E && s[0] != 0x20 && s[|s| - 1] != 0x20
    requires forall u | u in s ::
      u >= 0x20 && u != 0x7F && u !in {0x22, 0x2A, 0x2F, 0x3A, 0x3C, 0x3E, 0x3F, 0x5C, 0x7C}
    requires forall u | u in s ::
      u !in {0x85, 0xA0, 0x1680, 0x2028, 0x2029, 0x202F, 0x205F, 0x3000} && !(0x2000 <= u <= 0x200A)
    requires forall i | 0 < i < |s| :: s[i] == 0x20 ==> s[i - 1] != 0x20
    ensures Sanitized(s, fallback) == s
  {
    hide Sanitized, Trimmed, Shortened, Blank;
    forall i | 0 <= i < |s| ensures !Invalid(s[i]) && (Space(s[i]) ==> s[i] == SPACE) { assert s[i] in s; }
    forall i | 0 <= i < |s| && Space(s[i]) ensures s[i] == SPACE && (i > 0 ==> !Space(s[i - 1])) {
      if i > 0 { assert s[i - 1] != SPACE; }
    }
    assert Neat(s);
    AgainIs(s, fallback);
  }

  // ---------------------------------------------------------------- outer white space

  lemma SpacesTrimmed(s: Text)
    requires forall i | 0 <= i < |s| :: Space(s[i])
    ensures Trimmed(s) == []
  {
    hide Space;
  }

  lemma TrimmedBounds(s: Text) returns (a: nat, b: nat)
    requires exists i | 0 <= i < |s| :: !Space(s[i])
    ensures a < b <= |s| && !Space(s[a]) && !Space(s[b - 1])
    ensures forall i | 0 <= i < a || b <= i < |s| :: Space(s[i])
  {
    hide Space;
    a := Leading(s);
    var rest := s[a..];
    var kept := TrimEnd(rest);
    b := a + |kept|;
    assert rest != [] && !Space(rest[0]);
    assert kept != [];
    forall i | b <= i < |s| ensures Space(s[i]) { assert rest[i - a] == s[i]; }
  }

  lemma TrimmedAround(lead: Text, s: Text, tail: Text)
    requires forall u | u in lead || u in tail :: Space(u)
    ensures Trimmed(lead + s + tail) == Trimmed(s)
  {
    hide Space, Trimmed;
    var all := lead + s + tail;
    forall i | 0 <= i < |lead| || |lead| + |s| <= i < |all| ensures Space(all[i]) {
      assert if i < |lead| then all[i] == lead[i] else all[i] == tail[i - |lead| - |s|];
    }
    assert forall i | 0 <= i < |s| :: all[|lead| + i] == s[i];
    if exists i | 0 <= i < |s| :: !Space(s[i]) {
      var a, b := TrimmedBounds(s);
      TrimmedIs(s, a, b);
      forall i | 0 <= i < |lead| + a || |lead| + b <= i < |all| ensures Space(all[i]) {
        if |lead| <= i < |lead| + |s| { assert all[i] == s[i - |lead|]; }
      }
      TrimmedIs(all, |lead| + a, |lead| + b);
      assert all[|lead| + a..|lead| + b] == s[a..b];
    } else {
      SpacesTrimmed(s);
      forall i | 0 <= i < |all| ensures Space(all[i]) {
        if |lead| <= i < |lead| + |s| { assert all[i] == s[i - |lead|]; }
      }
      SpacesTrimmed(all);
    }
  }

  /** White space around a text makes no difference, not even a control character that would be a dash inside. */
  lemma OuterSpaceIgnored(lead: Text, s: Text, tail: Text, fallback: Text)
    requires forall u | u in lead || u in tail :: Space(u)
    ensures Sanitized(lead + s + tail, fallback) == Sanitized(s, fallback)
  {
    hide Trimmed;
    TrimmedAround(lead, s, tail);
  }

  // ---------------------------------------------------------------- runs

  lemma DashedMore(s: Text, u: unit)
    ensures Dashed(s + [u]) ==
      if !Invalid(u) then Dashed(s) + [u]
      else if Dashed(s) == [] || Dashed(s)[|Dashed(s)| - 1] != 0x2D then Dashed(s) + [0x2D] else Dashed(s)
  {
    hide Invalid;
    var t := s + [u];
    assert t[..|t| - 1] == s && t[|t| - 1] == u;
  }

  /** What follows depends on what has been written so far only. */
  lemma {:induction false} DashedAfter(p: Text, q: Text, y: Text)
    requires Dashed(p) == Dashed(q)
    ensures Dashed(p + y) == Dashed(q + y)
  {
    hide Dashed, Invalid;
    if y == [] {
      assert p + y == p && q + y == q;
    } else {
      var init, u := y[..|y| - 1], y[|y| - 1];
      DashedAfter(p, q, init);
      DashedMore(p + init, u);
      DashedMore(q + init, u);
      assert p + y == p + init + [u] && q + y == q + init + [u];
    }
  }

  lemma {:induction false} DashedRun(x: Text, run: Text)
    requires run != [] && forall u | u in run :: Invalid(u)
    ensures Dashed(x + run) ==
      if Dashed(x) != [] && Dashed(x)[|Dashed(x)| - 1] == 0x2D then Dashed(x) else Dashed(x) + [0x2D]
  {
    hide Dashed, Invalid;
    var init, u := run[..|run| - 1], run[|run| - 1];
    assert u in run && forall v | v in init :: v in run;
    if init != [] { DashedRun(x, init); } else { assert x + init == x; }
    DashedMore(x + init, u);
    assert x + run == x + init + [u];
  }

  lemma {:induction false} CleanAppended(x: Text, t: Text)
    requires Clean(t)
    ensures Dashed(x + t) == Dashed(x) + t
  {
    hide Dashed, Invalid;
    if t == [] {
      assert x + t == x;
    } else {
      var init, u := t[..|t| - 1], t[|t| - 1];
      CleanAppended(x, init);
      DashedMore(x + init, u);
      assert x + t == x + init + [u] && init + [u] == t;
    }
  }

  lemma DashIsClean()
    ensures Clean([0x2D]) && Clean([0x20])
  {
  }

  lemma NothingAround(x: Text, m: Text, y: Text)
    requires x != [] && y != [] && !Space(x[0]) && !Space(y[|y| - 1])
    ensures Trimmed(x + m + y) == x + m + y
  {
    hide Space;
    NothingToTrim(x + m + y);
  }

  /** A run of reserved and control characters within a text counts for one dash. */
  lemma RunBecomesDash(x: Text, run: Text, y: Text, fallback: Text)
    requires x != [] && y != [] && !Space(x[0]) && !Space(y[|y| - 1])
    requires run != [] && forall u | u in run :: Invalid(u)
    requires !Invalid(x[|x| - 1]) && x[|x| - 1] != 0x2D
    ensures Sanitized(x + run + y, fallback) == Sanitized(x + [0x2D] + y, fallback)
  {
    hide Dashed, Invalid, Space, Trimmed, Simplified, Undotted, Shortened;
    NothingAround(x, run, y);
    NothingAround(x, [0x2D], y);
    assert x == x[..|x| - 1] + [x[|x| - 1]];
    DashedMore(x[..|x| - 1], x[|x| - 1]);
    DashedRun(x, run);
    DashIsClean();
    CleanAppended(x, [0x2D]);
    DashedAfter(x + run, x + [0x2D], y);
  }

  // ---------------------------------------------------------------- white space inside

  lemma CollapsedMore(s: Text, u: unit)
    ensures Collapsed(s + [u]) ==
      if !Space(u) then Collapsed(s) + [u]
      else if Collapsed(s) == [] || Collapsed(s)[|Collapsed(s)| - 1] == 0x20 then Collapsed(s)
      else Collapsed(s) + [0x20]
  {
    hide Space;
    var t := s + [u];
    assert t[..|t| - 1] == s && t[|t| - 1] == u;
  }

  lemma {:induction false} CollapsedAfter(p: Text, q: Text, y: Text)
    requires Collapsed(p) == Collapsed(q)
    ensures Collapsed(p + y) == Collapsed(q + y)
  {
    hide Collapsed, Space;
    if y == [] {
      assert p + y == p && q + y == q;
    } else {
      var init, u := y[..|y| - 1], y[|y| - 1];
      CollapsedAfter(p, q, init);
      CollapsedMore(p + init, u);
      CollapsedMore(q + init, u);
      assert p + y == p + init + [u] && q + y == q + init + [u];
    }
  }

  lemma {:induction false} CollapsedRun(x: Text, run: Text)
    requires run != [] && forall u | u in run :: Space(u)
    ensures Collapsed(x + run) ==
      if Collapsed(x) == [] || Collapsed(x)[|Collapsed(x)| - 1] == 0x20 then Collapsed(x) else Collapsed(x) + [0x20]
  {
    hide Collapsed, Space;
    var init, u := run[..|run| - 1], run[|run| - 1];
    assert u in run && forall v | v in init :: v in run;
    if init != [] { CollapsedRun(x, init); } else { assert x + init == x; }
    CollapsedMore(x + init, u);
    assert x + run == x + init + [u];
  }

  /** After a unit other than a dash, dashing starts afresh. */
  lemma {:induction false} DashedSplit(p: Text, y: Text)
    requires Dashed(p) != [] && Dashed(p)[|Dashed(p)| - 1] != 0x2D
    ensures Dashed(p + y) == Dashed(p) + Dashed(y)
  {
    hide Dashed, Invalid;
    if y == [] {
      assert p + y == p;
      DashedOfNothing();
    } else {
      var init, u := y[..|y| - 1], y[|y| - 1];
      DashedSplit(p, init);
      DashedMore(p + init, u);
      DashedMore(init, u);
      assert p + y == p + init + [u] && init + [u] == y;
      JoinedEnd(Dashed(p), Dashed(init));
    }
  }

  lemma JoinedEnd(a: Text, b: Text)
    requires a != []
    ensures a + b != [] && (a + b)[|a + b| - 1] == if b == [] then a[|a| - 1] else b[|b| - 1]
    ensures forall u: unit :: a + b + [u] == a + (b + [u])
  {
  }

  lemma DashedOfNothing()
    ensures Dashed([]) == []
  {
  }

  lemma DashedSpaces(x: Text, run: Text, y: Text)
    requires run != [] && Clean(run) && run[|run| - 1] != 0x2D
    ensures Dashed(x + run + y) == Dashed(x) + run + Dashed(y)
  {
    hide Dashed, Invalid;
    CleanAppended(x, run);
    DashedSplit(x + run, y);
  }

  lemma SpaceIsNoDash(run: Text)
    requires forall u | u in run :: Space(u)
    ensures forall i | 0 <= i < |run| :: run[i] != 0x2D
    ensures Space(0x20)
  {
    forall i | 0 <= i < |run| ensures run[i] != 0x2D { assert run[i] in run; }
  }

  /** A run of white space within a text counts for one space. */
  lemma RunBecomesSpace(x: Text, run: Text, y: Text, fallback: Text)
    requires x != [] && y != [] && !Space(x[0]) && !Space(y[|y| - 1])
    requires run != [] && forall u | u in run :: Space(u) && !Invalid(u)
    ensures Sanitized(x + run + y, fallback) == Sanitized(x + [0x20] + y, fallback)
  {
    hide Dashed, Collapsed, Invalid, Space, Trimmed, Undotted, Shortened;
    NothingAround(x, run, y);
    NothingAround(x, [0x20], y);
    assert Clean(run) by { assert forall i | 0 <= i < |run| :: run[i] in run; }
    DashIsClean();
    SpaceIsNoDash(run);
    DashedSpaces(x, run, y);
    DashedSpaces(x, [0x20], y);
    CollapsedRun(Dashed(x), run);
    CollapsedRun(Dashed(x), [0x20]);
    CollapsedAfter(Dashed(x) + run, Dashed(x) + [0x20], Dashed(y));
  }
}
