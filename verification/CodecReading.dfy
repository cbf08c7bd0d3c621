/** What every successful read establishes, on any payload whatever. */
module CodecReading {
  import opened Words
  import opened Wrappers
  import opened CodecTypes
  import opened CodecSpec
  import opened CodecRoundTrip
  import opened CodecCanonical

  // ---------------------------------------------------------------- typed, bounded, not shorter

  /** A value read from `s` is well typed and within limits, and takes no more bytes than it was read from. */
  ghost predicate Sound(t: Ty, s: seq<byte>, v: Val, rest: seq<byte>) {
    HasType(t, v) && WithinLimits(t, v) && |rest| + Size(t, v) <= |s|
  }

  lemma BlobSound(s: seq<byte>)
    ensures ReadBlob(s).Ok? ==>
      |ReadBlob(s).rest| + 4 + |ReadBlob(s).value.GetOr([])| <= |s|
      && |ReadBlob(s).value.GetOr([])| <= MAX_PAYLOAD
  {
  }

  lemma {:induction false} ParseSound(t: Ty, s: seq<byte>)
    requires WellFormed(t)
    ensures Parse(t, s).Ok? ==> Sound(t, s, Parse(t, s).value, Parse(t, s).rest)
    decreases t
  {
    hide Sound, Parse, WellFormed;
    match t
    case Optional(_) => ParseOptionalSound(t, s);
    case Variant(_) => ParseVariantSound(t, s);
    case Vector(_) => ParseListSound(t, s);
    case Array(_, _) => ParseListSound(t, s);
    case Tuple(_) => ParseListSound(t, s);
    case Map(_, _) => ParseMapSound(t, s);
    case Set(_) => ParseMapSound(t, s);
    case Aggregate(_) => ParseAggregateSound(t, s);
    case _ => ParseLeafSound(t, s);
  }

  lemma ParseLeafSound(t: Ty, s: seq<byte>)
    requires Leaf(t)
    requires WellFormed(t)
    ensures Parse(t, s).Ok? ==> Sound(t, s, Parse(t, s).value, Parse(t, s).rest)
  {
    hide ReadBlob, FromBigEndian;
    BlobSound(s);
  }

  lemma {:induction false} ParseOptionalSound(t: Ty, s: seq<byte>)
    requires t.Optional? && WellFormed(t)
    ensures Parse(t, s).Ok? ==> Sound(t, s, Parse(t, s).value, Parse(t, s).rest)
    decreases t, 1
  {
    match ReadWord(s, 1)
    case Err(_) =>
    case Ok(flag, rest) => ParseSound(t.item, rest);
  }

  lemma {:induction false} ParseVariantSound(t: Ty, s: seq<byte>)
    requires t.Variant? && WellFormed(t)
    ensures Parse(t, s).Ok? ==> Sound(t, s, Parse(t, s).value, Parse(t, s).rest)
    decreases t, 1
  {
    match ReadWord(s, 4)
    case Err(_) =>
    case Ok(index, rest) => if index < |t.alternatives| { ParseSound(t.alternatives[index], rest); }
  }

  lemma {:induction false} ParseListSound(t: Ty, s: seq<byte>)
    requires (t.Vector? || t.Array? || t.Tuple?) && WellFormed(t)
    ensures Parse(t, s).Ok? ==> Sound(t, s, Parse(t, s).value, Parse(t, s).rest)
    decreases t, 1
  {
    hide ParseItems, SizeItems, ItemsWithinLimits, HasItemTypes;
    NoItems(t);
    if t.Vector? {
      match ReadCount(s)
      case Err(_) =>
      case Ok(n, rest) => ParseItemsSound(t, n, rest, []);
    } else {
      ParseItemsSound(t, if t.Tuple? then |t.items| else t.size, s, []);
    }
  }

  lemma NoItems(t: Ty)
    requires t.Vector? || t.Array? || t.Tuple?
    ensures HasItemTypes(t, []) && ItemsWithinLimits(t, []) && SizeItems(t, []) == 0
  {
  }

  lemma {:induction false} ParseItemsSound(t: Ty, n: nat, s: seq<byte>, items: seq<Val>)
    requires t.Vector? || t.Array? || (t.Tuple? && |items| + n <= |t.items|)
    requires WellFormed(t) && HasItemTypes(t, items) && ItemsWithinLimits(t, items)
    ensures
      var r := ParseItems(t, n, s, items);
      r.Ok? ==>
        |r.value| == |items| + n && HasItemTypes(t, r.value) && ItemsWithinLimits(t, r.value)
        && |r.rest| + SizeItems(t, r.value) <= |s| + SizeItems(t, items)
    decreases t, 0, n
  {
    hide Parse, HasType, WithinLimits, WellFormed, Size;
    if n > 0 {
      var item := At(t, |items|);
      ParseSound(item, s);
      match Parse(item, s)
      case Err(_) =>
      case Ok(v, rest) =>
        var longer := items + [v];
        assert longer[..|items|] == items;
        ParseItemsSound(t, n - 1, rest, longer);
    }
  }

  lemma {:induction false} ParseMapSound(t: Ty, s: seq<byte>)
    requires (t.Map? || t.Set?) && WellFormed(t)
    ensures Parse(t, s).Ok? ==> Sound(t, s, Parse(t, s).value, Parse(t, s).rest)
    decreases t, 1
  {
    hide ParseEntries, SizeEntries, HasEntryType, EntryWithinLimits;
    match ReadCount(s)
    case Err(_) =>
    case Ok(n, rest) =>
      assert SizeEntries(t, map[]) == 0 by { SizeNone(t); }
      ParseEntriesSound(t, n, rest, map[]);
  }

  lemma SizeNone(t: Ty)
    requires t.Map? || t.Set?
    ensures SizeEntries(t, map[]) == 0
  {
    hide HasEntryType;
  }

  lemma {:induction false} ParseEntrySound(t: Ty, s: seq<byte>)
    requires (t.Map? || t.Set?) && WellFormed(t)
    ensures
      var r := ParseEntry(t, s);
      r.Ok? ==>
        HasEntryType(t, r.value.0, r.value.1) && EntryWithinLimits(t, r.value.0, r.value.1)
        && |r.rest| + SizeEntry(t, r.value.0, r.value.1) <= |s|
    decreases t, 0, 0
  {
    hide Parse, HasType, WithinLimits, Size;
    ParseSound(t.key, s);
    match Parse(t.key, s)
    case Err(_) =>
    case Ok(_, rest) => if t.Map? { ParseSound(t.item, rest); }
  }

  lemma {:induction false} ParseEntriesSound(t: Ty, n: nat, s: seq<byte>, entries: map<Val, Val>)
    requires (t.Map? || t.Set?) && WellFormed(t) && EntriesOk(t, entries)
    ensures
      var r := ParseEntries(t, n, s, entries);
      r.Ok? ==>
        |r.value| <= |entries| + n && EntriesOk(t, r.value)
        && |r.rest| + SizeEntries(t, r.value) <= |s| + SizeEntries(t, entries)
    decreases t, 0, n + 1
  {
    hide ParseEntry, HasEntryType, EntryWithinLimits, EntriesOk, WellFormed, SizeEntry, SizeEntries, Emplace;
    if n > 0 {
      ParseEntrySound(t, s);
      match ParseEntry(t, s)
      case Err(_) =>
      case Ok((k, item), rest) =>
        EmplaceSound(t, entries, k, item);
        ParseEntriesSound(t, n - 1, rest, Emplace(entries, k, item));
    }
  }

  lemma EmplaceSound(t: Ty, entries: map<Val, Val>, k: Val, item: Val)
    requires (t.Map? || t.Set?) && EntriesOk(t, entries)
    requires HasEntryType(t, k, item) && EntryWithinLimits(t, k, item)
    ensures
      var more := Emplace(entries, k, item);
      && |more| <= |entries| + 1 && EntriesOk(t, more)
      && SizeEntries(t, more) <= SizeEntries(t, entries) + SizeEntry(t, k, item)
  {
    hide HasEntryType, EntryWithinLimits, SizeEntry, SizeEntries;
    var more := Emplace(entries, k, item);
    if k !in entries {
      SizeWithout(t, more, k);
      assert more - {k} == entries;
      assert |more| == |entries| + 1 by { assert more.Keys == entries.Keys + {k}; }
    }
  }

  lemma {:induction false} ParseAggregateSound(t: Ty, s: seq<byte>)
    requires t.Aggregate? && WellFormed(t)
    ensures Parse(t, s).Ok? ==> Sound(t, s, Parse(t, s).value, Parse(t, s).rest)
    decreases t, 1
  {
    hide ParseFields, SizeFields;
    match ReadWord(s, 2)
    case Err(_) =>
    case Ok(schema, rest) =>
      match ReadCount(rest)
      case Err(_) =>
      case Ok(n, rest') =>
        if n == |t.fields| {
          SizeUnseen(t, n);
          ParseFieldsSound(t, n, rest', Unseen(n));
        }
  }

  /** The fields read so far are typed and within limits. */
  ghost predicate SeenSound(t: Ty, seen: seq<Option<Val>>)
    requires t.Aggregate?
  {
    |seen| == |t.fields| && SeenTyped(t, seen)
    && forall i | 0 <= i < |seen| :: seen[i].Some? ==>
         |t.fields[i].name| <= MAX_PAYLOAD && WithinLimits(t.fields[i].ty, seen[i].value)
  }

  lemma {:induction false} ParseFieldSound(t: Ty, s: seq<byte>, seen: seq<Option<Val>>)
    requires t.Aggregate? && WellFormed(t) && SeenSound(t, seen)
    ensures
      var r := ParseField(t, s, seen);
      r.Ok? ==>
        SeenSound(t, seen[r.value.0 := Some(r.value.1)])
        && |r.rest| + SizeFields(t, seen[r.value.0 := Some(r.value.1)]) <= |s| + SizeFields(t, seen)
    decreases t, 0, 0
  {
    FieldTypesFormed(t);
    hide Parse, HasType, WithinLimits, WellFormed, Size, SizeFields, FindField, ReadBlob;
    BlobSound(s);
    match ReadBlob(s)
    case Err(_) =>
    case Ok(data, rest) =>
      match FindField(t.fields, data.GetOr([]))
      case None =>
      case Some(i) =>
        ParseSound(t.fields[i].ty, rest);
        match Parse(t.fields[i].ty, rest)
        case Err(_) =>
        case Ok(v, _) =>
          if seen[i].None? {
            SizeOneMore(t, seen, i, v);
            SeenOneMore(t, seen, i, v);
          }
  }

  lemma SeenOneMore(t: Ty, seen: seq<Option<Val>>, i: nat, v: Val)
    requires t.Aggregate? && SeenSound(t, seen) && i < |t.fields| && |t.fields[i].name| <= MAX_PAYLOAD
    requires HasType(t.fields[i].ty, v) && WithinLimits(t.fields[i].ty, v)
    ensures SeenSound(t, seen[i := Some(v)])
  {
    hide HasType, WithinLimits;
  }

  lemma FieldTypesFormed(t: Ty)
    requires t.Aggregate? && WellFormed(t)
    ensures forall i | 0 <= i < |t.fields| :: WellFormed(t.fields[i].ty)
    ensures forall i, j | 0 <= i < j < |t.fields| :: t.fields[i].name != t.fields[j].name
  {
  }

  lemma {:induction false} ParseFieldsSound(t: Ty, n: nat, s: seq<byte>, seen: seq<Option<Val>>)
    requires t.Aggregate? && WellFormed(t) && SeenSound(t, seen)
    ensures
      var r := ParseFields(t, n, s, seen);
      r.Ok? ==>
        r.value.VRecord? && SeenSound(t, Seen(r.value.values))
        && |r.rest| + SizeFields(t, Seen(r.value.values)) <= |s| + SizeFields(t, seen)
    decreases t, 0, n + 1
  {
    hide Parse, ParseField, HasType, WithinLimits, WellFormed, Size, SizeFields;
    if n == 0 {
      if AllSeen(seen) { assert Seen(Values(seen)) == seen; }
    } else {
      ParseFieldSound(t, s, seen);
      match ParseField(t, s, seen)
      case Err(_) =>
      case Ok((i, v), rest) => ParseFieldsSound(t, n - 1, rest, seen[i := Some(v)]);
    }
  }
}
