/** The promises of the codec, over the whole type universe and every payload. */
module CodecTheorems {
  import opened Words
  import opened Wrappers
  import opened CodecTypes
  import opened CodecSpec
  import opened CodecRoundTrip
  import opened CodecCanonical
  import opened CodecReading

  // ---------------------------------------------------------------- round trip

  /** Whatever order the writer visits entries in, what it wrote decodes to the value. */
  lemma RoundTrip(t: Ty, v: Val, payload: seq<byte>)
    requires Writes(t, v, payload)
    ensures |payload| == Size(t, v)
    ensures Decoded(t, payload) == if Size(t, v) <= MAX_PAYLOAD then Success(v) else Failure(PayloadLimit)
  {
    hide Writes, Parse, Size;
    EncodedSize(t, v, payload);
    ParseEncoded(t, v, payload, []);
    assert payload + [] == payload;
  }

  /** Two values that share an encoding are equal. */
  lemma EncodingInjective(t: Ty, v: Val, w: Val, payload: seq<byte>)
    requires Writes(t, v, payload) && Writes(t, w, payload)
    ensures v == w
  {
    hide Writes, Parse;
    ParseEncoded(t, v, payload, []);
    ParseEncoded(t, w, payload, []);
  }

  /**
   Any payload that decodes, however it was produced, has encodings of the decoded value; every one
   of them is at most as long and decodes to the same value.
   */
  lemma CanonicalReencoding(t: Ty, payload: seq<byte>) returns (canonical: seq<byte>)
    requires WellFormed(t) && Decoded(t, payload).Success?
    ensures
      var v := Decoded(t, payload).value;
      Writes(t, v, canonical)
      && forall bytes | Writes(t, v, bytes) ::
           |bytes| <= |payload| && Decoded(t, bytes) == Success(v)
  {
    hide HasType, WithinLimits, WellFormed, Writes, Parse, Size;
    var v := Decoded(t, payload).value;
    ParseSound(t, payload);
    canonical := Encodable(t, v);
    forall bytes | Writes(t, v, bytes)
      ensures |bytes| <= |payload| && Decoded(t, bytes) == Success(v)
    {
      RoundTrip(t, v, bytes);
    }
  }

  // ---------------------------------------------------------------- failure discipline

  /** Reading looks only at the bytes it consumes. */
  lemma {:induction false} ParseExtends(t: Ty, s: seq<byte>, suffix: seq<byte>)
    ensures Parse(t, s).Ok? ==> Parse(t, s + suffix) == Ok(Parse(t, s).value, Parse(t, s).rest + suffix)
    decreases t
  {
    match t
    case Optional(_) => ParseOptionalExtends(t, s, suffix);
    case Variant(_) => ParseVariantExtends(t, s, suffix);
    case Vector(_) => ParseListExtends(t, s, suffix);
    case Array(_, _) => ParseListExtends(t, s, suffix);
    case Tuple(_) => ParseListExtends(t, s, suffix);
    case Map(_, _) => ParseMapExtends(t, s, suffix);
    case Set(_) => ParseMapExtends(t, s, suffix);
    case Aggregate(_) => ParseAggregateExtends(t, s, suffix);
    case _ => ParseLeafExtends(t, s, suffix);
  }

  lemma ReadWordExtends(s: seq<byte>, width: nat, suffix: seq<byte>)
    ensures var r := ReadWord(s, width); r.Ok? ==> ReadWord(s + suffix, width) == Ok(r.value, r.rest + suffix)
  {
    if |s| >= width {
      assert (s + suffix)[..width] == s[..width];
      assert (s + suffix)[width..] == s[width..] + suffix;
    }
  }

  lemma ReadBlobExtends(s: seq<byte>, suffix: seq<byte>)
    ensures var r := ReadBlob(s); r.Ok? ==> ReadBlob(s + suffix) == Ok(r.value, r.rest + suffix)
  {
    ReadWordExtends(s, 4, suffix);
    match ReadWord(s, 4)
    case Err(_) =>
    case Ok(n, rest) =>
      if n <= |rest| {
        assert (rest + suffix)[..n] == rest[..n];
        assert (rest + suffix)[n..] == rest[n..] + suffix;
      }
  }

  lemma ParseLeafExtends(t: Ty, s: seq<byte>, suffix: seq<byte>)
    requires Leaf(t)
    ensures Parse(t, s).Ok? ==> Parse(t, s + suffix) == Ok(Parse(t, s).value, Parse(t, s).rest + suffix)
  {
    ReadBlobExtends(s, suffix);
    ReadWordExtends(s, 1, suffix);
    ReadWordExtends(s, 8, suffix);
  }

  lemma {:induction false} ParseOptionalExtends(t: Ty, s: seq<byte>, suffix: seq<byte>)
    requires t.Optional?
    ensures Parse(t, s).Ok? ==> Parse(t, s + suffix) == Ok(Parse(t, s).value, Parse(t, s).rest + suffix)
    decreases t, 1
  {
    ReadWordExtends(s, 1, suffix);
    match ReadWord(s, 1)
    case Err(_) =>
    case Ok(_, rest) => ParseExtends(t.item, rest, suffix);
  }

  lemma {:induction false} ParseVariantExtends(t: Ty, s: seq<byte>, suffix: seq<byte>)
    requires t.Variant?
    ensures Parse(t, s).Ok? ==> Parse(t, s + suffix) == Ok(Parse(t, s).value, Parse(t, s).rest + suffix)
    decreases t, 1
  {
    ReadWordExtends(s, 4, suffix);
    match ReadWord(s, 4)
    case Err(_) =>
    case Ok(index, rest) => if index < |t.alternatives| { ParseExtends(t.alternatives[index], rest, suffix); }
  }

  lemma {:induction false} ParseListExtends(t: Ty, s: seq<byte>, suffix: seq<byte>)
    requires t.Vector? || t.Array? || t.Tuple?
    ensures Parse(t, s).Ok? ==> Parse(t, s + suffix) == Ok(Parse(t, s).value, Parse(t, s).rest + suffix)
    decreases t, 1
  {
    hide ParseItems;
    ReadWordExtends(s, 4, suffix);
    if t.Vector? {
      match ReadCount(s)
      case Err(_) =>
      case Ok(n, rest) => ParseItemsExtends(t, n, rest, [], suffix);
    } else {
      ParseItemsExtends(t, if t.Tuple? then |t.items| else t.size, s, [], suffix);
    }
  }

  lemma {:induction false} ParseItemsExtends(t: Ty, n: nat, s: seq<byte>, items: seq<Val>, suffix: seq<byte>)
    requires t.Vector? || t.Array? || (t.Tuple? && |items| + n <= |t.items|)
    ensures
      var r := ParseItems(t, n, s, items);
      r.Ok? ==> ParseItems(t, n, s + suffix, items) == Ok(r.value, r.rest + suffix)
    decreases t, 0, n
  {
    hide Parse;
    if n > 0 {
      ParseExtends(At(t, |items|), s, suffix);
      match Parse(At(t, |items|), s)
      case Err(_) =>
      case Ok(v, rest) => ParseItemsExtends(t, n - 1, rest, items + [v], suffix);
    }
  }

  lemma {:induction false} ParseMapExtends(t: Ty, s: seq<byte>, suffix: seq<byte>)
    requires t.Map? || t.Set?
    ensures Parse(t, s).Ok? ==> Parse(t, s + suffix) == Ok(Parse(t, s).value, Parse(t, s).rest + suffix)
    decreases t, 1
  {
    hide ParseEntries;
    ReadWordExtends(s, 4, suffix);
    match ReadCount(s)
    case Err(_) =>
    case Ok(n, rest) => ParseEntriesExtends(t, n, rest, map[], suffix);
  }

  lemma {:induction false} ParseEntryExtends(t: Ty, s: seq<byte>, suffix: seq<byte>)
    requires t.Map? || t.Set?
    ensures var r := ParseEntry(t, s); r.Ok? ==> ParseEntry(t, s + suffix) == Ok(r.value, r.rest + suffix)
    decreases t, 0, 0
  {
    hide Parse;
    ParseExtends(t.key, s, suffix);
    match Parse(t.key, s)
    case Err(_) =>
    case Ok(_, rest) => if t.Map? { ParseExtends(t.item, rest, suffix); }
  }

  lemma {:induction false} ParseEntriesExtends(t: Ty, n: nat, s: seq<byte>, entries: map<Val, Val>, suffix: seq<byte>)
    requires t.Map? || t.Set?
    ensures
      var r := ParseEntries(t, n, s, entries);
      r.Ok? ==> ParseEntries(t, n, s + suffix, entries) == Ok(r.value, r.rest + suffix)
    decreases t, 0, n + 1
  {
    hide ParseEntry;
    if n > 0 {
      ParseEntryExtends(t, s, suffix);
      match ParseEntry(t, s)
      case Err(_) =>
      case Ok((k, item), rest) => ParseEntriesExtends(t, n - 1, rest, Emplace(entries, k, item), suffix);
    }
  }

  lemma {:induction false} ParseAggregateExtends(t: Ty, s: seq<byte>, suffix: seq<byte>)
    requires t.Aggregate?
    ensures Parse(t, s).Ok? ==> Parse(t, s + suffix) == Ok(Parse(t, s).value, Parse(t, s).rest + suffix)
    decreases t, 1
  {
    hide ParseFields;
    ReadWordExtends(s, 2, suffix);
    match ReadWord(s, 2)
    case Err(_) =>
    case Ok(_, rest) =>
      ReadWordExtends(rest, 4, suffix);
      match ReadCount(rest)
      case Err(_) =>
      case Ok(n, rest') => if n == |t.fields| { ParseFieldsExtends(t, n, rest', Unseen(n), suffix); }
  }

  lemma {:induction false} ParseFieldExtends(t: Ty, s: seq<byte>, seen: seq<Option<Val>>, suffix: seq<byte>)
    requires t.Aggregate? && |seen| == |t.fields|
    ensures
      var r := ParseField(t, s, seen);
      r.Ok? ==> ParseField(t, s + suffix, seen) == Ok(r.value, r.rest + suffix)
    decreases t, 0, 0
  {
    hide Parse;
    ReadBlobExtends(s, suffix);
    match ReadBlob(s)
    case Err(_) =>
    case Ok(data, rest) =>
      match FindField(t.fields, data.GetOr([]))
      case None =>
      case Some(i) => ParseExtends(t.fields[i].ty, rest, suffix);
  }

  lemma {:induction false} ParseFieldsExtends(t: Ty, n: nat, s: seq<byte>, seen: seq<Option<Val>>, suffix: seq<byte>)
    requires t.Aggregate? && |seen| == |t.fields|
    ensures
      var r := ParseFields(t, n, s, seen);
      r.Ok? ==> ParseFields(t, n, s + suffix, seen) == Ok(r.value, r.rest + suffix)
    decreases t, 0, n + 1
  {
    hide ParseField;
    if n > 0 {
      ParseFieldExtends(t, s, seen, suffix);
      match ParseField(t, s, seen)
      case Err(_) =>
      case Ok((i, v), rest) => ParseFieldsExtends(t, n - 1, rest, seen[i := Some(v)], suffix);
    }
  }

  /** A payload that decodes does so to its last byte: with anything after it, it is rejected. */
  lemma TrailingDataRejected(t: Ty, payload: seq<byte>, suffix: seq<byte>)
    requires Decoded(t, payload).Success? && suffix != []
    ensures Decoded(t, payload + suffix)
         == Failure(if |payload| + |suffix| > MAX_PAYLOAD then PayloadLimit else TrailingData)
  {
    hide Parse;
    ParseExtends(t, payload, suffix);
  }

  // ---------------------------------------------------------------- aggregates

  /** The name-value pairs found in `s`, in the order `order`, up to `rest`. */
  ghost predicate FieldTrail(t: Ty, order: seq<nat>, values: seq<Val>, s: seq<byte>, rest: seq<byte>)
    requires t.Aggregate? && |values| == |t.fields| && FieldOrder(order, |t.fields|)
    decreases |order|
  {
    if order == [] then s == rest
    else
      var i := order[0];
      var name := ReadBlob(s);
      name.Ok? && name.value.GetOr([]) == t.fields[i].name
      && var value := Parse(t.fields[i].ty, name.rest);
         value.Ok? && value.value == values[i] && FieldTrail(t, order[1..], values, value.rest, rest)
  }

  ghost predicate AllUnseen(order: seq<nat>, seen: seq<Option<Val>>)
    requires FieldOrder(order, |seen|)
  {
    forall k | 0 <= k < |order| :: seen[order[k]].None?
  }

  lemma FieldRead(t: Ty, s: seq<byte>, seen: seq<Option<Val>>)
    requires t.Aggregate? && |seen| == |t.fields| && ParseField(t, s, seen).Ok?
    ensures
      var (i, v) := ParseField(t, s, seen).value;
      var name := ReadBlob(s);
      name.Ok? && name.value.GetOr([]) == t.fields[i].name
      && Parse(t.fields[i].ty, name.rest) == Ok(v, ParseField(t, s, seen).rest)
  {
    hide Parse, ReadBlob;
  }

  lemma {:induction false} FieldsRead(t: Ty, n: nat, s: seq<byte>, seen: seq<Option<Val>>) returns (order: seq<nat>)
    requires t.Aggregate? && |seen| == |t.fields| && ParseFields(t, n, s, seen).Ok?
    ensures |order| == n && FieldOrder(order, |t.fields|) && AllUnseen(order, seen)
    ensures
      var r := ParseFields(t, n, s, seen);
      r.value.VRecord? && |r.value.values| == |t.fields|
      && (forall i | 0 <= i < |seen| :: seen[i].Some? ==> seen[i].value == r.value.values[i])
      && FieldTrail(t, order, r.value.values, s, r.rest)
    decreases n
  {
    hide Parse, ParseField;
    if n == 0 {
      order := [];
    } else {
      FieldRead(t, s, seen);
      var (i, v) := ParseField(t, s, seen).value;
      var rest := ParseField(t, s, seen).rest;
      var seen' := seen[i := Some(v)];
      var tail := FieldsRead(t, n - 1, rest, seen');
      order := [i] + tail;
      assert order[1..] == tail;
      forall k | 0 <= k < |tail| ensures tail[k] != i && seen[tail[k]].None? {
        assert seen'[tail[k]].None?;
      }
    }
  }

  lemma {:induction false} TrailReads(t: Ty, order: seq<nat>, values: seq<Val>, s: seq<byte>, rest: seq<byte>,
                                       seen: seq<Option<Val>>)
    requires t.Aggregate? && |values| == |t.fields| == |seen|
    requires forall i, j | 0 <= i < j < |t.fields| :: t.fields[i].name != t.fields[j].name
    requires FieldOrder(order, |t.fields|) && AllUnseen(order, seen) && Missing(seen) == |order|
    requires forall i | 0 <= i < |seen| :: seen[i].Some? ==> seen[i].value == values[i]
    requires FieldTrail(t, order, values, s, rest)
    ensures ParseFields(t, |order|, s, seen) == Ok(VRecord(values), rest)
    decreases |order|
  {
    hide Parse, FindField;
    if order == [] {
      assert Values(seen) == values;
    } else {
      var i := order[0];
      NameFound(t.fields, i);
      var read := Parse(t.fields[i].ty, ReadBlob(s).rest);
      var seen' := seen[i := Some(values[i])];
      MissingOneLess(seen, i, values[i]);
      forall k | 0 <= k < |order[1..]| ensures seen'[order[1..][k]].None? {
        assert order[1..][k] == order[k + 1] && order[k + 1] != i;
      }
      TrailReads(t, order[1..], values, read.rest, rest, seen');
      assert ParseField(t, s, seen) == Ok((i, values[i]), read.rest);
      FieldStep(t, |order| - 1, s, seen, i, values[i], read.rest);
    }
  }

  /** The header of an aggregate with the right schema and the right number of fields. */
  ghost predicate HeaderAccepted(t: Ty, s: seq<byte>)
    requires t.Aggregate?
  {
    |s| >= 6 && FromBigEndian(s[..2]) == 1 && FromBigEndian(s[2..6]) == |t.fields| <= MAX_ITEMS
  }

  /**
   An aggregate is accepted exactly when its fields, in some order, are each present once. So an
   unknown name, a repeated name, a missing field or a wrong count is rejected, and every permutation
   of the fields decodes to the same record.
   */
  lemma AggregateAcceptance(t: Ty, s: seq<byte>, v: Val, rest: seq<byte>)
    requires t.Aggregate? && WellFormed(t)
    ensures Parse(t, s) == Ok(v, rest) <==>
      v.VRecord? && |v.values| == |t.fields| && HeaderAccepted(t, s)
      && exists order | FieldOrder(order, |t.fields|) ::
           |order| == |t.fields| && FieldTrail(t, order, v.values, s[6..], rest)
  {
    hide *;
    var n := |t.fields|;
    HeaderRead(t, s);
    if HeaderAccepted(t, s) {
      if Parse(t, s) == Ok(v, rest) {
        var order := FieldsRead(t, n, s[6..], Unseen(n));
        assert FieldOrder(order, n) && |order| == n && FieldTrail(t, order, v.values, s[6..], rest);
      }
      if v.VRecord? && |v.values| == n
        && exists order | FieldOrder(order, n) :: |order| == n && FieldTrail(t, order, v.values, s[6..], rest)
      {
        var order :| FieldOrder(order, n) && |order| == n && FieldTrail(t, order, v.values, s[6..], rest);
        TrailAccepted(t, order, v.values, s[6..], rest);
      }
    }
  }

  lemma TrailAccepted(t: Ty, order: seq<nat>, values: seq<Val>, s: seq<byte>, rest: seq<byte>)
    requires t.Aggregate? && WellFormed(t) && |values| == |t.fields| == |order|
    requires FieldOrder(order, |t.fields|) && FieldTrail(t, order, values, s, rest)
    ensures ParseFields(t, |t.fields|, s, Unseen(|t.fields|)) == Ok(VRecord(values), rest)
  {
    FieldTypesFormed(t);
    hide WellFormed, FieldTrail, ParseFields, Missing;
    MissingAll(|t.fields|);
    TrailReads(t, order, values, s, rest, Unseen(|t.fields|));
  }

  lemma HeaderRead(t: Ty, s: seq<byte>)
    requires t.Aggregate?
    ensures HeaderAccepted(t, s) ==> |s| >= 6
    ensures HeaderAccepted(t, s) ==> Parse(t, s) == ParseFields(t, |t.fields|, s[6..], Unseen(|t.fields|))
    ensures !HeaderAccepted(t, s) ==> Parse(t, s).Err?
  {
    if |s| >= 6 {
      assert s[2..][..4] == s[2..6] && s[2..][4..] == s[6..];
    }
    hide ParseFields;
  }

  /** The pigeonhole: the check for a missing field can never fire, at any depth. */
  lemma {:induction false} NeverMissing(t: Ty, s: seq<byte>)
    ensures Parse(t, s) != Err(FieldMissing)
    decreases t
  {
    match t
    case Optional(item) => if |s| >= 1 { NeverMissing(item, s[1..]); }
    case Variant(alternatives) =>
      if |s| >= 4 && FromBigEndian(s[..4]) < |alternatives| {
        NeverMissing(alternatives[FromBigEndian(s[..4])], s[4..]);
      }
    case Vector(_) => if |s| >= 4 { NeverMissingItems(t, FromBigEndian(s[..4]), s[4..], []); }
    case Array(_, size) => NeverMissingItems(t, size, s, []);
    case Tuple(items) => NeverMissingItems(t, |items|, s, []);
    case Map(_, _) => if |s| >= 4 { NeverMissingEntries(t, FromBigEndian(s[..4]), s[4..], map[]); }
    case Set(_) => if |s| >= 4 { NeverMissingEntries(t, FromBigEndian(s[..4]), s[4..], map[]); }
    case Aggregate(fields) => NeverMissingRecord(t, s);
    case _ =>
  }

  lemma {:induction false} NeverMissingItems(t: Ty, n: nat, s: seq<byte>, items: seq<Val>)
    requires t.Vector? || t.Array? || (t.Tuple? && |items| + n <= |t.items|)
    ensures ParseItems(t, n, s, items) != Err(FieldMissing)
    decreases t, 0, n
  {
    hide Parse;
    if n > 0 {
      NeverMissing(At(t, |items|), s);
      match Parse(At(t, |items|), s)
      case Err(_) =>
      case Ok(v, rest) => NeverMissingItems(t, n - 1, rest, items + [v]);
    }
  }

  lemma {:induction false} NeverMissingEntries(t: Ty, n: nat, s: seq<byte>, entries: map<Val, Val>)
    requires t.Map? || t.Set?
    ensures ParseEntries(t, n, s, entries) != Err(FieldMissing)
    decreases t, 0, n
  {
    hide Parse;
    if n > 0 {
      NeverMissing(t.key, s);
      match Parse(t.key, s)
      case Err(_) =>
      case Ok(_, rest) =>
        if t.Map? { NeverMissing(t.item, rest); }
        match ParseEntry(t, s)
        case Err(_) =>
        case Ok((k, item), rest') => NeverMissingEntries(t, n - 1, rest', Emplace(entries, k, item));
    }
  }

  lemma {:induction false} NeverMissingRecord(t: Ty, s: seq<byte>)
    requires t.Aggregate?
    ensures Parse(t, s) != Err(FieldMissing)
    decreases t, 1
  {
    MissingAll(|t.fields|);
    if |s| >= 6 {
      assert s[2..][..4] == s[2..6] && s[2..][4..] == s[6..];
      NeverMissingFields(t, |t.fields|, s[6..], Unseen(|t.fields|));
    }
    hide ParseFields;
  }

  lemma {:induction false} NeverMissingFields(t: Ty, n: nat, s: seq<byte>, seen: seq<Option<Val>>)
    requires t.Aggregate? && |seen| == |t.fields| && Missing(seen) == n
    ensures ParseFields(t, n, s, seen) != Err(FieldMissing)
    decreases t, 0, n
  {
    hide Parse, FindField;
    if n > 0 {
      match ReadBlob(s)
      case Err(_) =>
      case Ok(data, rest) =>
        match FindField(t.fields, data.GetOr([]))
        case None =>
        case Some(i) =>
          NeverMissing(t.fields[i].ty, rest);
          match ParseField(t, s, seen)
          case Err(_) =>
          case Ok((j, v), rest') =>
            MissingOneLess(seen, j, v);
            NeverMissingFields(t, n - 1, rest', seen[j := Some(v)]);
    }
  }
}
