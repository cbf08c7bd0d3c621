/** The wire format byte by byte: what is written, and exactly what is accepted. */
module CodecWire {
  import Codec
  import opened Words
  import opened Wrappers
  import opened CodecTypes
  import opened CodecSpec
  import opened CodecRoundTrip
  import opened CodecTheorems

  // ---------------------------------------------------------------- words

  lemma WordRead(s: seq<byte>)
    ensures ReadWord(s, 1) == if |s| < 1 then Err(StreamFailure) else Ok(s[0], s[1..])
    ensures ReadWord(s, 2) == if |s| < 2 then Err(StreamFailure) else Ok(U16(s), s[2..])
    ensures ReadWord(s, 4) == if |s| < 4 then Err(StreamFailure) else Ok(U32(s), s[4..])
    ensures ReadWord(s, 8) == if |s| < 8 then Err(StreamFailure) else Ok(U64(s), s[8..])
  {
    Weighed(s);
    if |s| >= 1 { assert s[..1] == [s[0]] && [s[0]][..0] == []; }
  }

  lemma WordWritten(n: nat, width: nat, s: seq<byte>)
    requires n < Pow256(width) && |s| == width
    ensures s == Word(n, width) <==> FromBigEndian(s) == n
  {
    WordRoundTrip(n, width);
    BytesRoundTrip(s);
  }

  lemma LengthWritten(n: nat, s: seq<byte>)
    requires n <= NULL_LENGTH && |s| >= 4
    ensures s[..4] == Length(n) <==> U32(s) == n
  {
    Pow256Values();
    Weighed(s);
    WordWritten(n, 4, s[..4]);
  }

  // ---------------------------------------------------------------- leaves, as they are read

  /** A length of four bytes and the data; a null text is empty. */
  lemma TextAccepted(s: seq<byte>)
    ensures Parse(Text, s) ==
      if |s| < 4 then Err(StreamFailure)
      else if U32(s) == 0xFFFF_FFFF then Ok(VBytes([]), s[4..])
      else if |s| - 4 < U32(s) then Err(StreamFailure)
      else if U32(s) > 64 * 1024 * 1024 then Err(ByteArrayLimit)
      else Ok(VBytes(s[4..4 + U32(s)]), s[4 + U32(s)..])
  {
    hide ReadWord;
    WordRead(s);
    if |s| >= 4 && |s| - 4 >= U32(s) {
      assert s[4..][..U32(s)] == s[4..4 + U32(s)] && s[4..][U32(s)..] == s[4 + U32(s)..];
    }
  }

  lemma ByteArrayAccepted(s: seq<byte>)
    ensures Parse(ByteArray, s) ==
      if |s| < 4 then Err(StreamFailure)
      else if U32(s) == 0xFFFF_FFFF then Ok(VNull, s[4..])
      else if |s| - 4 < U32(s) then Err(StreamFailure)
      else if U32(s) > 64 * 1024 * 1024 then Err(ByteArrayLimit)
      else Ok(VBytes(s[4..4 + U32(s)]), s[4 + U32(s)..])
  {
    hide ReadWord;
    WordRead(s);
    if |s| >= 4 && |s| - 4 >= U32(s) {
      assert s[4..][..U32(s)] == s[4..4 + U32(s)] && s[4..][U32(s)..] == s[4 + U32(s)..];
    }
  }

  /** One byte, 0 or 1. */
  lemma BoolAccepted(s: seq<byte>)
    ensures Parse(Bool, s) ==
      if |s| < 1 then Err(StreamFailure) else if s[0] > 1 then Err(BooleanValue) else Ok(VBool(s[0] == 1), s[1..])
  {
    hide ReadWord;
    WordRead(s);
  }

  /** Half of the range of a signed integer. */
  function Half(bits: nat): (half: int)
    requires bits in {8, 16, 32, 64}
    ensures half == SignedLimit(bits)
  {
    if bits == 8 then 128 else if bits == 16 then 32768 else if bits == 32 then 2147483648 else 9223372036854775808
  }

  /** Eight bytes in two's complement, whatever the type, checked against its range. */
  lemma SignedAccepted(bits: nat, s: seq<byte>)
    requires bits in {8, 16, 32, 64}
    ensures Parse(Signed(bits), s) ==
      if |s| < 8 then Err(StreamFailure)
      else
        var n := if s[0] >= 128 then U64(s) - 18446744073709551616 else U64(s);
        if -Half(bits) <= n < Half(bits) then Ok(VInt(n), s[8..]) else Err(IntegerRange)
  {
    hide ReadWord, Half, SignedLimit, U64;
    WordRead(s);
    if |s| >= 8 { SignBit(s); }
  }

  lemma SignBit(s: seq<byte>)
    requires |s| >= 8
    ensures U64(s) >= 9223372036854775808 <==> s[0] >= 128
  {
  }

  lemma UnsignedAccepted(bits: nat, s: seq<byte>)
    requires bits in {8, 16, 32, 64}
    ensures Parse(Unsigned(bits), s) ==
      if |s| < 8 then Err(StreamFailure)
      else if U64(s) < 2 * Half(bits) then Ok(VInt(U64(s)), s[8..]) else Err(IntegerRange)
  {
    hide ReadWord, Half, SignedLimit, U64;
    WordRead(s);
  }

  // ---------------------------------------------------------------- leaves, as they are written

  lemma TextWritten(data: seq<byte>, bytes: seq<byte>)
    ensures Writes(Text, VBytes(data), bytes) <==> Writes(ByteArray, VBytes(data), bytes)
    ensures Writes(Text, VBytes(data), bytes) <==>
      |data| <= 64 * 1024 * 1024 && |bytes| >= 4 && U32(bytes) == |data| && bytes[4..] == data
  {
    hide Length;
    if |data| <= 64 * 1024 * 1024 && |bytes| >= 4 {
      LengthWritten(|data|, bytes);
      assert bytes == bytes[..4] + bytes[4..];
      assert Blob(data)[..4] == Length(|data|) && Blob(data)[4..] == data;
    }
  }

  /** A null array is the length 0xFFFFFFFF, a boolean one byte, and nothing is written for no value. */
  lemma FlagsWritten(bytes: seq<byte>)
    ensures Writes(ByteArray, VNull, bytes) <==> bytes == [255, 255, 255, 255]
    ensures Writes(Bool, VBool(true), bytes) <==> bytes == [1]
    ensures Writes(Bool, VBool(false), bytes) <==> bytes == [0]
    ensures Writes(Monostate, VUnit, bytes) <==> bytes == []
  {
    hide Length;
    var absent: seq<byte> := [255, 255, 255, 255];
    LengthWritten(NULL_LENGTH, absent);
    assert absent[..4] == absent;
  }

  lemma IntegerBytes(n: int, bytes: seq<byte>)
    requires -9223372036854775808 <= n < 18446744073709551616 && |bytes| == 8
    ensures bytes == Integer(n) <==> U64(bytes) == if n < 0 then n + 18446744073709551616 else n
  {
    hide U64;
    Pow256Values();
    Weighed(bytes);
    assert bytes[..8] == bytes;
    WordWritten(if n < 0 then n + 18446744073709551616 else n, 8, bytes);
  }

  lemma SignedBytes(bits: nat, n: int, bytes: seq<byte>)
    requires bits in {8, 16, 32, 64}
    ensures Writes(Signed(bits), VInt(n), bytes) <==>
      -SignedLimit(bits) <= n < SignedLimit(bits) && -9223372036854775808 <= n < 18446744073709551616
      && bytes == Integer(n)
  {
    InRange(bits);
    hide Integer, SignedLimit, Writes, Encodes;
    WritesTyped(Signed(bits), VInt(n), bytes);
    if HasType(Signed(bits), VInt(n)) { LeafWrites(Signed(bits), VInt(n), bytes); }
  }

  lemma LeafWrites(t: Ty, v: Val, bytes: seq<byte>)
    requires Leaf(t) && WellFormed(t) && HasType(t, v) && WithinLimits(t, v)
    ensures Writes(t, v, bytes) <==> bytes == LeafBytes(t, v)
  {
    hide WellFormed, HasType, WithinLimits, LeafBytes;
  }

  lemma WritesTyped(t: Ty, v: Val, bytes: seq<byte>)
    ensures Writes(t, v, bytes) ==> WellFormed(t) && HasType(t, v) && WithinLimits(t, v)
  {
    hide WellFormed, HasType, WithinLimits, Encodes;
  }

  lemma SignedWritten(bits: nat, n: int, bytes: seq<byte>)
    requires bits in {8, 16, 32, 64}
    ensures Writes(Signed(bits), VInt(n), bytes) <==>
      && -Half(bits) <= n < Half(bits) && |bytes| == 8
      && U64(bytes) == if n < 0 then n + 18446744073709551616 else n
  {
    InRange(bits);
    SignedBytes(bits, n, bytes);
    hide U64, Integer, Half, SignedLimit, Writes;
    if |bytes| == 8 && -9223372036854775808 <= n < 18446744073709551616 { IntegerBytes(n, bytes); }
  }

  lemma UnsignedWritten(bits: nat, n: int, bytes: seq<byte>)
    requires bits in {8, 16, 32, 64}
    ensures Writes(Unsigned(bits), VInt(n), bytes) <==> 0 <= n < 2 * Half(bits) && |bytes| == 8 && U64(bytes) == n
  {
    InRange(bits);
    UnsignedBytes(bits, n, bytes);
    hide U64, Integer, Half, SignedLimit, Writes;
    if |bytes| == 8 && 0 <= n < 18446744073709551616 { IntegerBytes(n, bytes); }
  }

  lemma UnsignedBytes(bits: nat, n: int, bytes: seq<byte>)
    requires bits in {8, 16, 32, 64}
    ensures Writes(Unsigned(bits), VInt(n), bytes) <==>
      0 <= n < 2 * SignedLimit(bits) && -9223372036854775808 <= n < 18446744073709551616 && bytes == Integer(n)
  {
    InRange(bits);
    hide Integer, SignedLimit, Writes, Encodes;
    WritesTyped(Unsigned(bits), VInt(n), bytes);
    if HasType(Unsigned(bits), VInt(n)) { LeafWrites(Unsigned(bits), VInt(n), bytes); }
  }

  lemma InRange(bits: nat)
    requires bits in {8, 16, 32, 64}
    ensures 0 < Half(bits) <= 9223372036854775808
  {
  }

  // ---------------------------------------------------------------- optional values and variants

  /** Any byte but 0 announces a value. */
  lemma OptionalAccepted(item: Ty, s: seq<byte>)
    ensures Parse(Optional(item), s) ==
      if |s| < 1 then Err(StreamFailure)
      else if s[0] == 0 then Ok(VNone, s[1..])
      else match Parse(item, s[1..])
           case Err(e) => Err(e)
           case Ok(v, rest) => Ok(VSome(v), rest)
  {
    hide ReadWord;
    WordRead(s);
  }

  /** It is written as 1. */
  lemma OptionalWritten(item: Ty, v: Val, bytes: seq<byte>)
    ensures Writes(Optional(item), VNone, bytes) <==> WellFormed(item) && bytes == [0]
    ensures Writes(Optional(item), VSome(v), bytes) <==>
      |bytes| > 0 && bytes[0] == 1 && Writes(item, v, bytes[1..])
  {
  }

  lemma VariantAccepted(alternatives: seq<Ty>, s: seq<byte>)
    ensures Parse(Variant(alternatives), s) ==
      if |s| < 4 then Err(StreamFailure)
      else if U32(s) >= |alternatives| then Err(VariantIndex)
      else match Parse(alternatives[U32(s)], s[4..])
           case Err(e) => Err(e)
           case Ok(v, rest) => Ok(VCase(U32(s), v), rest)
  {
    hide ReadWord;
    WordRead(s);
  }

  lemma VariantWritten(alternatives: seq<Ty>, i: nat, v: Val, bytes: seq<byte>)
    requires WellFormed(Variant(alternatives)) && i < |alternatives|
    ensures Writes(Variant(alternatives), VCase(i, v), bytes) <==>
      |bytes| >= 4 && U32(bytes) == i && Writes(alternatives[i], v, bytes[4..])
  {
    hide Length;
    if |bytes| >= 4 { LengthWritten(i, bytes); }
  }

  // ---------------------------------------------------------------- collections

  /** The items found in `s` one after the other, from element `i` on, up to `rest`. */
  ghost predicate ItemTrail(t: Ty, i: nat, items: seq<Val>, s: seq<byte>, rest: seq<byte>)
    requires t.Vector? || t.Array? || (t.Tuple? && i + |items| <= |t.items|)
    decreases |items|
  {
    if items == [] then s == rest
    else
      var r := Parse(At(t, i), s);
      r.Ok? && r.value == items[0] && ItemTrail(t, i + 1, items[1..], r.rest, rest)
  }

  lemma {:induction false} ItemsAccepted(t: Ty, n: nat, s: seq<byte>, before: seq<Val>, all: seq<Val>, rest: seq<byte>)
    requires t.Vector? || t.Array? || (t.Tuple? && |before| + n <= |t.items|)
    ensures ParseItems(t, n, s, before) == Ok(all, rest) <==>
      |all| == |before| + n && before <= all && ItemTrail(t, |before|, all[|before|..], s, rest)
    decreases n
  {
    hide Parse;
    if n == 0 {
      if before <= all && |all| == |before| { assert all == before; }
    } else {
      var r := Parse(At(t, |before|), s);
      if r.Ok? {
        var longer := before + [r.value];
        ItemsAccepted(t, n - 1, r.rest, longer, all, rest);
        if |all| == |before| + n {
          assert all[|before|..][1..] == all[|longer|..];
          assert longer <= all <==> before <= all && all[|before|] == r.value by {
            if before <= all && all[|before|] == r.value { assert longer == all[..|longer|]; }
            if longer <= all { assert all[..|longer|] == longer && before == longer[..|before|]; }
          }
        }
      }
    }
  }

  /** A vector is a count of at most 1,000,000 and as many items; arrays and tuples are their items only. */
  lemma VectorAccepted(item: Ty, s: seq<byte>, v: Val, rest: seq<byte>)
    ensures Parse(Vector(item), s) == Ok(v, rest) <==>
      && v.VList? && |s| >= 4 && U32(s) == |v.items| <= 1_000_000
      && ItemTrail(Vector(item), 0, v.items, s[4..], rest)
    ensures |s| >= 4 && U32(s) > 1_000_000 ==> Parse(Vector(item), s) == Err(ItemLimit)
  {
    hide ReadWord, ParseItems, ItemTrail;
    WordRead(s);
    if v.VList? && |s| >= 4 {
      ItemsAccepted(Vector(item), U32(s), s[4..], [], v.items, rest);
      assert v.items[0..] == v.items;
    }
  }

  lemma FixedAccepted(t: Ty, s: seq<byte>, v: Val, rest: seq<byte>)
    requires t.Array? || t.Tuple?
    ensures Parse(t, s) == Ok(v, rest) <==>
      && v.VList? && |v.items| == (if t.Tuple? then |t.items| else t.size) && ItemTrail(t, 0, v.items, s, rest)
  {
    hide ParseItems, ItemTrail;
    if v.VList? {
      ItemsAccepted(t, if t.Tuple? then |t.items| else t.size, s, [], v.items, rest);
      assert v.items[0..] == v.items;
    }
  }

  /** The pairs found in `s` one after the other, up to `rest`; in a set they have keys only. */
  ghost predicate PairTrail(t: Ty, pairs: seq<(Val, Val)>, s: seq<byte>, rest: seq<byte>)
    requires t.Map? || t.Set?
    decreases |pairs|
  {
    if pairs == [] then s == rest
    else
      var key := Parse(t.key, s);
      key.Ok? && key.value == pairs[0].0
      && if t.Set? then pairs[0].1 == VUnit && PairTrail(t, pairs[1..], key.rest, rest)
         else
           var item := Parse(t.item, key.rest);
           item.Ok? && item.value == pairs[0].1 && PairTrail(t, pairs[1..], item.rest, rest)
  }

  lemma PairRead(t: Ty, s: seq<byte>, pairs: seq<(Val, Val)>, rest: seq<byte>)
    requires (t.Map? || t.Set?) && pairs != []
    ensures PairTrail(t, pairs, s, rest) <==>
      var r := ParseEntry(t, s); r.Ok? && r.value == pairs[0] && PairTrail(t, pairs[1..], r.rest, rest)
  {
    hide Parse;
  }

  /** The value of the first pair with the key. */
  function FirstValue(pairs: seq<(Val, Val)>, k: Val): (v: Option<Val>)
    ensures v.None? <==> forall i | 0 <= i < |pairs| :: pairs[i].0 != k
    ensures v.Some? ==>
      exists i :: 0 <= i < |pairs| && pairs[i] == (k, v.value) && forall j | 0 <= j < i :: pairs[j].0 != k
  {
    if pairs == [] then None
    else if pairs[0].0 == k then Some(pairs[0].1)
    else
      var v := FirstValue(pairs[1..], k);
      assert v.Some? ==>
        exists i :: 0 <= i < |pairs| && pairs[i] == (k, v.value) && forall j | 0 <= j < i :: pairs[j].0 != k
      by {
        if v.Some? {
          var i :| 0 <= i < |pairs[1..]| && pairs[1..][i] == (k, v.value)
            && forall j | 0 <= j < i :: pairs[1..][j].0 != k;
          assert pairs[i + 1] == (k, v.value) && forall j | 0 < j < i + 1 :: pairs[j] == pairs[1..][j - 1];
        }
      }
      assert v.None? ==> forall i | 0 < i < |pairs| :: pairs[i] == pairs[1..][i - 1];
      v
  }

  function Looked(m: map<Val, Val>, k: Val): Option<Val> {
    if k in m then Some(m[k]) else None
  }

  /** What `m` holds for the key: what `before` held, or else the first pair with it. */
  predicate KeptFor(before: map<Val, Val>, pairs: seq<(Val, Val)>, m: map<Val, Val>, k: Val) {
    Looked(m, k) == if k in before then Some(before[k]) else FirstValue(pairs, k)
  }

  ghost predicate FirstKept(before: map<Val, Val>, pairs: seq<(Val, Val)>, m: map<Val, Val>) {
    forall k :: KeptFor(before, pairs, m, k)
  }

  lemma FirstKeptStep(before: map<Val, Val>, k: Val, item: Val, pairs: seq<(Val, Val)>, m: map<Val, Val>)
    requires FirstKept(Emplace(before, k, item), pairs, m)
    ensures FirstKept(before, [(k, item)] + pairs, m)
  {
    var all := [(k, item)] + pairs;
    assert all[1..] == pairs;
    forall x ensures KeptFor(before, all, m, x) { assert KeptFor(Emplace(before, k, item), pairs, m, x); }
  }

  lemma FirstKeptOnce(before: map<Val, Val>, pairs: seq<(Val, Val)>, m: map<Val, Val>, n: map<Val, Val>)
    requires FirstKept(before, pairs, m) && FirstKept(before, pairs, n)
    ensures m == n
  {
    hide FirstValue;
    forall k ensures Looked(m, k) == Looked(n, k) {
      assert KeptFor(before, pairs, m, k) && KeptFor(before, pairs, n, k);
    }
    assert forall k | k in m :: Looked(m, k) == Looked(n, k);
    assert forall k | k in n :: Looked(m, k) == Looked(n, k);
  }

  lemma {:induction false} EntriesRead(t: Ty, n: nat, s: seq<byte>, before: map<Val, Val>)
    returns (pairs: seq<(Val, Val)>)
    requires (t.Map? || t.Set?) && ParseEntries(t, n, s, before).Ok?
    ensures var r := ParseEntries(t, n, s, before);
      |pairs| == n && PairTrail(t, pairs, s, r.rest) && FirstKept(before, pairs, r.value)
    decreases n
  {
    hide ParseEntry, PairTrail, FirstKept, Emplace;
    if n == 0 {
      pairs := [];
      NoPairs(t, s, before);
    } else {
      var (k, item) := ParseEntry(t, s).value;
      var rest := ParseEntry(t, s).rest;
      var more := EntriesRead(t, n - 1, rest, Emplace(before, k, item));
      pairs := [(k, item)] + more;
      assert pairs[1..] == more;
      var r := ParseEntries(t, n, s, before);
      PairRead(t, s, pairs, r.rest);
      FirstKeptStep(before, k, item, more, r.value);
    }
  }

  lemma NoPairs(t: Ty, s: seq<byte>, before: map<Val, Val>)
    requires t.Map? || t.Set?
    ensures PairTrail(t, [], s, s) && FirstKept(before, [], before)
  {
  }

  lemma {:induction false} PairsAccepted(t: Ty, pairs: seq<(Val, Val)>, s: seq<byte>, rest: seq<byte>,
                                         before: map<Val, Val>)
    requires (t.Map? || t.Set?) && PairTrail(t, pairs, s, rest)
    ensures var r := ParseEntries(t, |pairs|, s, before); r.Ok? && r.rest == rest
    decreases |pairs|
  {
    hide ParseEntry, Emplace;
    if pairs != [] {
      PairRead(t, s, pairs, rest);
      var (k, item) := pairs[0];
      PairsAccepted(t, pairs[1..], ParseEntry(t, s).rest, rest, Emplace(before, k, item));
    }
  }

  lemma {:induction false} TrailsAgree(t: Ty, a: seq<(Val, Val)>, b: seq<(Val, Val)>, s: seq<byte>,
                                       x: seq<byte>, y: seq<byte>)
    requires (t.Map? || t.Set?) && |a| == |b| && PairTrail(t, a, s, x) && PairTrail(t, b, s, y)
    ensures a == b && x == y
    decreases |a|
  {
    hide ParseEntry;
    if a != [] {
      PairRead(t, s, a, x);
      PairRead(t, s, b, y);
      TrailsAgree(t, a[1..], b[1..], ParseEntry(t, s).rest, x, y);
      assert a == [a[0]] + a[1..] && b == [b[0]] + b[1..];
    }
  }

  /**
   A map is a count of at most 1,000,000 and as many pairs, of which the first with a key is kept. In a set
   the pairs have keys only.
   */
  lemma MapAccepted(t: Ty, s: seq<byte>, v: Val, rest: seq<byte>)
    requires t.Map? || t.Set?
    ensures Parse(t, s) == Ok(v, rest) <==>
      && v.VMap? && |s| >= 4 && U32(s) <= 1_000_000
      && exists pairs :: |pairs| == U32(s) && PairTrail(t, pairs, s[4..], rest) && FirstKept(map[], pairs, v.entries)
    ensures |s| >= 4 && U32(s) > 1_000_000 ==> Parse(t, s) == Err(ItemLimit)
  {
    hide ReadWord, ParseEntries, PairTrail, FirstKept;
    WordRead(s);
    if |s| >= 4 && U32(s) <= 1_000_000 {
      if Parse(t, s) == Ok(v, rest) {
        var pairs := EntriesRead(t, U32(s), s[4..], map[]);
        assert |pairs| == U32(s) && PairTrail(t, pairs, s[4..], rest) && FirstKept(map[], pairs, v.entries);
      }
      if v.VMap? && exists pairs ::
        |pairs| == U32(s) && PairTrail(t, pairs, s[4..], rest) && FirstKept(map[], pairs, v.entries)
      {
        var pairs :| |pairs| == U32(s) && PairTrail(t, pairs, s[4..], rest) && FirstKept(map[], pairs, v.entries);
        PairsAccepted(t, pairs, s[4..], rest, map[]);
        var others := EntriesRead(t, U32(s), s[4..], map[]);
        TrailsAgree(t, pairs, others, s[4..], rest, rest);
        FirstKeptOnce(map[], pairs, v.entries, ParseEntries(t, U32(s), s[4..], map[]).value);
      }
    }
  }

  // ---------------------------------------------------------------- aggregates, as they are written

  lemma {:induction false} TrailAppended(t: Ty, order: seq<nat>, last: nat, values: seq<Val>, s: seq<byte>,
                                         middle: seq<byte>, rest: seq<byte>)
    requires t.Aggregate? && |values| == |t.fields| && FieldOrder(order + [last], |t.fields|)
    requires FieldOrder(order, |t.fields|) && FieldTrail(t, order, values, s, middle)
    requires FieldOrder([last], |t.fields|) && FieldTrail(t, [last], values, middle, rest)
    ensures FieldTrail(t, order + [last], values, s, rest)
    decreases |order|
  {
    hide Parse, ReadBlob;
    if order == [] {
      assert order + [last] == [last];
    } else {
      var read := Parse(t.fields[order[0]].ty, ReadBlob(s).rest);
      assert (order + [last])[1..] == order[1..] + [last];
      TrailAppended(t, order[1..], last, values, read.rest, middle, rest);
    }
  }

  lemma {:induction false} WrittenTrail(t: Ty, v: Val, order: seq<nat>, bytes: seq<byte>, rest: seq<byte>)
    requires t.Aggregate? && WellFormed(t) && HasType(t, v) && WithinLimits(t, v)
    requires FieldOrder(order, |t.fields|) && EncodesFields(t, v, order, bytes)
    ensures |v.values| == |t.fields| && FieldTrail(t, order, v.values, bytes + rest, rest)
    decreases |order|
  {
    hide Parse, Encodes, EncodesFields, HasType, WithinLimits, WellFormed;
    FieldFacts(t, v);
    if order == [] {
      NoFields(t, v, bytes);
      assert bytes + rest == rest;
    } else {
      var front, last := order[..|order| - 1], order[|order| - 1];
      var cut, mid := LastField(t, v, order, bytes);
      assert bytes[cut..] == bytes[cut..mid] + bytes[mid..];
      WrittenTrail(t, v, front, bytes[..cut], bytes[cut..] + rest);
      SplitPrefix(bytes, cut, rest);
      assert bytes[cut..] + rest == Blob(t.fields[last].name) + (bytes[mid..] + rest);
      ReadBlobBack(t.fields[last].name, bytes[mid..] + rest);
      ParseEncoded(t.fields[last].ty, v.values[last], bytes[mid..], rest);
      LastTrail(t, last, v.values, bytes[cut..] + rest, bytes[mid..] + rest, rest);
      assert order == front + [last];
      TrailAppended(t, front, last, v.values, bytes + rest, bytes[cut..] + rest, rest);
    }
  }

  lemma LastTrail(t: Ty, last: nat, values: seq<Val>, s: seq<byte>, middle: seq<byte>, rest: seq<byte>)
    requires t.Aggregate? && |values| == |t.fields| && last < |t.fields| && FieldOrder([last], |t.fields|)
    requires ReadBlob(s) == Ok(Some(t.fields[last].name), middle)
    requires Parse(t.fields[last].ty, middle) == Ok(values[last], rest)
    ensures FieldTrail(t, [last], values, s, rest)
  {
    hide Parse, ReadBlob;
    assert [last][1..] == [];
  }

  /** Schema 1 in two bytes, the number of fields in four, and then names and values in declaration order. */
  lemma AggregateWritten(t: Ty, v: Val, bytes: seq<byte>)
    requires t.Aggregate? && Writes(t, v, bytes)
    ensures |bytes| >= 6 && bytes[0] == 0 && bytes[1] == 1 && U32(bytes[2..]) == |t.fields| == |v.values|
    ensures FieldTrail(t, Ascending(|t.fields|), v.values, bytes[6..], [])
  {
    hide Parse, HasType, WithinLimits, EncodesFields, Length, FieldTrail;
    FieldFacts(t, v);
    FieldCountFits(t, v);
    HeaderBytes(t.fields, bytes);
    WrittenTrail(t, v, Ascending(|t.fields|), bytes[6..], []);
    assert bytes[6..] + [] == bytes[6..];
  }

  lemma HeaderBytes(fields: seq<Field>, bytes: seq<byte>)
    requires |fields| <= NULL_LENGTH && |bytes| >= 6 && bytes[..6] == AggregateHeader(fields)
    ensures bytes[0] == 0 && bytes[1] == 1 && U32(bytes[2..]) == |fields|
  {
    hide Length;
    Pow256Values();
    LengthWritten(|fields|, bytes[2..]);
    assert bytes[2..][..4] == bytes[..6][2..] == Length(|fields|);
    assert bytes[..2] == bytes[..6][..2] == Word(1, 2);
    WordWritten(1, 2, bytes[..2]);
    Weighed(bytes);
  }

  /** A payload in full: the text "A" as the only value. */
  lemma TextInFull(bytes: seq<byte>)
    ensures Writes(Tuple([Text]), VList([VBytes([0x41])]), bytes) <==> bytes == [0, 0, 0, 1, 0x41]
    ensures Decoded(Tuple([Text]), [0, 0, 0, 1, 0x41]) == Success(VList([VBytes([0x41])]))
  {
    hide Parse, Writes;
    var s: seq<byte> := [0, 0, 0, 1, 0x41];
    var data: seq<byte> := [0x41];
    assert s[4..] == data && s[4..5] == data && s[5..] == [];
    TextWritten(data, s);
    TextWritten(data, bytes);
    assert Writes(Text, VBytes(data), bytes) <==> bytes == s by {
      if |bytes| >= 4 && U32(bytes) == 1 && bytes[4..] == data {
        assert bytes == bytes[..4] + data && bytes[..4] == [0, 0, 0, 1];
      }
    }
    OneWritten(Text, VBytes(data), bytes);
    TextAccepted(s);
    OneAccepted(Text, VBytes(data), s);
  }

  lemma OneWritten(item: Ty, v: Val, bytes: seq<byte>)
    requires WellFormed(item)
    ensures Writes(Tuple([item]), VList([v]), bytes) <==> Writes(item, v, bytes)
  {
    var t := Tuple([item]);
    assert [v][..0] == [] && bytes[0..] == bytes && bytes[..0] == [];
    assert At(t, 0) == item;
    hide Encodes, HasType, WithinLimits;
    OneItem(item, v);
    if Writes(t, VList([v]), bytes) {
      ListWritten(t, [v], bytes);
      var cut :| 0 <= cut <= |bytes|
        && EncodesItems(t, [v][..0], bytes[..cut]) && Encodes(At(t, 0), [v][0], bytes[cut..]);
    }
    if Writes(item, v, bytes) {
      assert EncodesItems(t, [v][..0], bytes[..0]) && Encodes(At(t, 0), [v][0], bytes[0..]);
      ListWritten(t, [v], bytes);
    }
  }

  lemma OneItem(item: Ty, v: Val)
    ensures HasType(Tuple([item]), VList([v])) <==> HasType(item, v)
    ensures HasType(item, v) ==> (WithinLimits(Tuple([item]), VList([v])) <==> WithinLimits(item, v))
    ensures WellFormed(Tuple([item])) <==> WellFormed(item)
    ensures HasItemTypes(Tuple([item]), [v]) <==> HasType(item, v)
    ensures HasType(item, v) ==> (ItemsWithinLimits(Tuple([item]), [v]) <==> WithinLimits(item, v))
  {
    var t := Tuple([item]);
    assert At(t, 0) == item && t.items[0] == item;
    assert HasItemTypes(t, [v]) <==> HasType(At(t, 0), [v][0]);
  }

  lemma ListWritten(t: Ty, items: seq<Val>, bytes: seq<byte>)
    requires t.Tuple? && WellFormed(t) && HasType(t, VList(items)) && WithinLimits(t, VList(items))
    ensures HasItemTypes(t, items) && ItemsWithinLimits(t, items)
    ensures Encodes(t, VList(items), bytes) <==> EncodesItems(t, items, bytes)
  {
  }

  lemma OneAccepted(item: Ty, v: Val, s: seq<byte>)
    requires Parse(item, s) == Ok(v, [])
    ensures Parse(Tuple([item]), s) == Ok(VList([v]), [])
  {
    hide Parse;
    FixedAccepted(Tuple([item]), s, VList([v]), []);
    assert [v][1..] == [];
  }

  // ---------------------------------------------------------------- whole payloads

  /** At most 64 MiB, and nothing after the value. */
  lemma PayloadAccepted(t: Ty, payload: seq<byte>)
    ensures Decoded(t, payload) ==
      if |payload| > 64 * 1024 * 1024 then Failure(PayloadLimit)
      else match Parse(t, payload)
           case Err(e) => Failure(e)
           case Ok(v, rest) => if rest != [] then Failure(TrailingData) else Success(v)
  {
    hide Parse;
  }

  lemma {:induction false} ItemsShifted(first: Ty, ts: seq<Ty>, x: Val, n: nat, s: seq<byte>, items: seq<Val>)
    requires |items| + n <= |ts|
    ensures ParseItems(Tuple([first] + ts), n, s, [x] + items) ==
      match ParseItems(Tuple(ts), n, s, items)
      case Err(e) => Err(e)
      case Ok(all, rest) => Ok([x] + all, rest)
    decreases n
  {
    hide Parse;
    if n > 0 {
      assert At(Tuple([first] + ts), |items| + 1) == At(Tuple(ts), |items|);
      var r := Parse(At(Tuple(ts), |items|), s);
      if r.Ok? {
        ItemsShifted(first, ts, x, n - 1, r.rest, items + [r.value]);
        assert [x] + items + [r.value] == [x] + (items + [r.value]);
      }
    }
  }

  lemma TupleIs(ts: seq<Ty>, s: seq<byte>)
    ensures Parse(Tuple(ts), s) == AsList(ParseItems(Tuple(ts), |ts|, s, []))
  {
    hide ParseItems;
  }

  lemma FirstItemRead(first: Ty, ts: seq<Ty>, s: seq<byte>)
    ensures Parse(Tuple([first] + ts), s) ==
      match Parse(first, s)
      case Err(e) => Err(e)
      case Ok(x, rest) =>
        match ParseItems(Tuple(ts), |ts|, rest, [])
        case Err(e) => Err(e)
        case Ok(all, end) => Ok(VList([x] + all), end)
  {
    TupleIs([first] + ts, s);
    hide Parse;
    var r := Parse(first, s);
    assert At(Tuple([first] + ts), 0) == first;
    if r.Ok? {
      ItemsShifted(first, ts, r.value, |ts|, r.rest, []);
      assert [] + [r.value] == [r.value] + [];
    }
  }

  /**
   A versioned payload is the version in eight bytes and then the values; another version is told from a
   damaged payload, and reported only when everything has been read.
   */
  lemma VersionedAccepted(version: nat, ts: seq<Ty>, payload: seq<byte>)
    ensures Codec.DecodedVersioned(version, ts, payload) ==
      if |payload| > 64 * 1024 * 1024 then Failure(PayloadLimit)
      else if |payload| < 8 then Failure(StreamFailure)
      else if U64(payload) >= 0x1_0000 then Failure(IntegerRange)
      else match Parse(Tuple(ts), payload[8..])
           case Err(e) => Failure(e)
           case Ok(v, rest) =>
             if rest != [] then Failure(TrailingData)
             else if U64(payload) == version && v.VList? then Success(v.items) else Failure(ActionSchema)
  {
    hide Parse, ParseItems, U64;
    FirstItemRead(Unsigned(16), ts, payload);
    UnsignedAccepted(16, payload);
    if |payload| >= 8 { TupleIs(ts, payload[8..]); }
  }
}
