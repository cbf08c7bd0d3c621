/** Every encoding of a value reads back as that value, whatever follows it. */
module CodecRoundTrip {
  import opened Words
  import opened Wrappers
  import opened CodecTypes
  import opened CodecSpec

  lemma ReadWordBack(n: nat, width: nat, rest: seq<byte>)
    requires n < Pow256(width)
    ensures ReadWord(Word(n, width) + rest, width) == Ok(n, rest)
  {
    WordRoundTrip(n, width);
    assert (Word(n, width) + rest)[..width] == Word(n, width);
    assert (Word(n, width) + rest)[width..] == rest;
  }

  lemma ReadLengthBack(n: nat, rest: seq<byte>)
    requires n <= NULL_LENGTH
    ensures ReadWord(Length(n) + rest, 4) == Ok(n, rest)
  {
    Pow256Values();
    ReadWordBack(n, 4, rest);
  }

  lemma ReadBlobBack(data: seq<byte>, rest: seq<byte>)
    requires |data| <= MAX_PAYLOAD
    ensures ReadBlob(Blob(data) + rest) == Ok(Some(data), rest)
  {
    ReadLengthBack(|data|, data + rest);
    assert Blob(data) + rest == Length(|data|) + (data + rest);
    assert (data + rest)[..|data|] == data && (data + rest)[|data|..] == rest;
  }

  lemma ReadNullBack(rest: seq<byte>)
    ensures ReadBlob(Length(NULL_LENGTH) + rest) == Ok(None, rest)
  {
    hide ReadWord, Length;
    ReadLengthBack(NULL_LENGTH, rest);
  }

  lemma ReadIntegerBack(n: int, rest: seq<byte>)
    requires -0x8000_0000_0000_0000 <= n < 0x1_0000_0000_0000_0000
    ensures ReadWord(Integer(n) + rest, 8).Ok? && ReadWord(Integer(n) + rest, 8).rest == rest
    ensures n < 0x8000_0000_0000_0000 ==> FromTwosComplement(ReadWord(Integer(n) + rest, 8).value) == n
    ensures n >= 0 ==> ReadWord(Integer(n) + rest, 8).value == n
  {
    Pow256Values();
    ReadWordBack(if n < 0 then n + 0x1_0000_0000_0000_0000 else n, 8, rest);
  }

  lemma SplitPrefix(bytes: seq<byte>, n: nat, rest: seq<byte>)
    requires n <= |bytes|
    ensures bytes + rest == bytes[..n] + (bytes[n..] + rest)
  {
  }

  /** The self-delimiting property: no encoding needs to know where it ends. */
  lemma {:induction false} ParseEncoded(t: Ty, v: Val, bytes: seq<byte>, rest: seq<byte>)
    requires Writes(t, v, bytes)
    ensures Parse(t, bytes + rest) == Ok(v, rest)
    decreases t
  {
    hide WellFormed, HasType, WithinLimits, Encodes, Parse;
    match t
    case Optional(_) => ParseEncodedOptional(t, v, bytes, rest);
    case Variant(_) => ParseEncodedVariant(t, v, bytes, rest);
    case Vector(_) => ParseEncodedList(t, v, bytes, rest);
    case Array(_, _) => ParseEncodedList(t, v, bytes, rest);
    case Tuple(_) => ParseEncodedList(t, v, bytes, rest);
    case Map(_, _) => ParseEncodedMap(t, v, bytes, rest);
    case Set(_) => ParseEncodedMap(t, v, bytes, rest);
    case Aggregate(_) => ParseEncodedAggregate(t, v, bytes, rest);
    case _ => ParseEncodedLeaf(t, v, bytes, rest);
  }

  lemma FlagByte(flag: byte, rest: seq<byte>)
    ensures ReadWord([flag] + rest, 1) == Ok(flag, rest)
  {
    Pow256Values();
    assert Word(flag, 1) == [flag] by { assert BigEndian(flag / 256, 0) == []; }
    ReadWordBack(flag, 1, rest);
  }

  lemma ParseEncodedLeaf(t: Ty, v: Val, bytes: seq<byte>, rest: seq<byte>)
    requires Leaf(t) && Writes(t, v, bytes)
    ensures Parse(t, bytes + rest) == Ok(v, rest)
  {
    hide ReadBlob, ReadWord, Blob, Word, Length;
    match t
    case Monostate => assert bytes + rest == rest;
    case Text => ReadBlobBack(v.data, rest);
    case ByteArray =>
      if v == VNull { ReadNullBack(rest); } else { ReadBlobBack(v.data, rest); }
    case Bool => FlagByte(if v.truth then 1 else 0, rest);
    case Signed(_) => ReadIntegerBack(v.number, rest);
    case Unsigned(_) => ReadIntegerBack(v.number, rest);
  }

  lemma {:induction false} ParseEncodedOptional(t: Ty, v: Val, bytes: seq<byte>, rest: seq<byte>)
    requires t.Optional?
    requires WellFormed(t) && HasType(t, v) && WithinLimits(t, v) && Encodes(t, v, bytes)
    ensures Parse(t, bytes + rest) == Ok(v, rest)
    decreases t, 0
  {
    FlagByte(bytes[0], bytes[1..] + rest);
    SplitPrefix(bytes, 1, rest);
    assert bytes[..1] == [bytes[0]];
    if v.VSome? { ParseEncoded(t.item, v.some, bytes[1..], rest); }
  }

  lemma {:induction false} ParseEncodedVariant(t: Ty, v: Val, bytes: seq<byte>, rest: seq<byte>)
    requires t.Variant?
    requires WellFormed(t) && HasType(t, v) && WithinLimits(t, v) && Encodes(t, v, bytes)
    ensures Parse(t, bytes + rest) == Ok(v, rest)
    decreases t, 0
  {
    ReadLengthBack(v.index, bytes[4..] + rest);
    SplitPrefix(bytes, 4, rest);
    ParseEncoded(t.alternatives[v.index], v.chosen, bytes[4..], rest);
  }

  lemma {:induction false} ParseEncodedList(t: Ty, v: Val, bytes: seq<byte>, rest: seq<byte>)
    requires t.Vector? || t.Array? || t.Tuple?
    requires WellFormed(t) && HasType(t, v) && WithinLimits(t, v) && Encodes(t, v, bytes)
    ensures Parse(t, bytes + rest) == Ok(v, rest)
    decreases t, 1
  {
    hide ParseItems, EncodesItems, HasItemTypes, ItemsWithinLimits;
    if t.Vector? {
      ReadLengthBack(|v.items|, bytes[4..] + rest);
      SplitPrefix(bytes, 4, rest);
      ParseEncodedItems(t, v.items, bytes[4..], 0, rest);
      NoMoreItems(t, v.items, rest);
    } else {
      ParseEncodedItems(t, v.items, bytes, 0, rest);
      NoMoreItems(t, v.items, rest);
    }
  }

  lemma NoMoreItems(t: Ty, items: seq<Val>, rest: seq<byte>)
    requires t.Vector? || t.Array? || (t.Tuple? && |items| <= |t.items|)
    ensures ParseItems(t, 0, rest, items) == Ok(items, rest)
  {
  }

  lemma MapFacts(t: Ty, v: Val, bytes: seq<byte>)
    requires t.Map? || t.Set?
    requires WellFormed(t) && HasType(t, v) && WithinLimits(t, v) && Encodes(t, v, bytes)
    ensures v.VMap? && |v.entries| <= MAX_ITEMS < NULL_LENGTH && EntriesOk(t, v.entries)
    ensures |bytes| >= 4 && bytes[..4] == Length(|v.entries|) && EncodesEntries(t, v.entries, bytes[4..])
  {
  }

  lemma MapRead(t: Ty, s: seq<byte>, entries: map<Val, Val>, body: seq<byte>, rest: seq<byte>)
    requires t.Map? || t.Set?
    requires |entries| <= MAX_ITEMS && ReadWord(s, 4) == Ok(|entries|, body)
    requires ParseEntries(t, |entries| + 0, body, map[]) == ParseEntries(t, 0, rest, entries)
    ensures Parse(t, s) == Ok(VMap(entries), rest)
  {
    hide ReadWord;
  }

  lemma {:induction false} ParseEncodedMap(t: Ty, v: Val, bytes: seq<byte>, rest: seq<byte>)
    requires t.Map? || t.Set?
    requires WellFormed(t) && HasType(t, v) && WithinLimits(t, v) && Encodes(t, v, bytes)
    ensures Parse(t, bytes + rest) == Ok(v, rest)
    decreases t, 1
  {
    hide *;
    MapFacts(t, v, bytes);
    ReadLengthBack(|v.entries|, bytes[4..] + rest);
    SplitPrefix(bytes, 4, rest);
    ParseEncodedEntries(t, v.entries, bytes[4..], 0, rest);
    MapRead(t, bytes + rest, v.entries, bytes[4..] + rest, rest);
  }

  lemma {:induction false} ParseEncodedAggregate(t: Ty, v: Val, bytes: seq<byte>, rest: seq<byte>)
    requires t.Aggregate?
    requires WellFormed(t) && HasType(t, v) && WithinLimits(t, v) && Encodes(t, v, bytes)
    ensures Parse(t, bytes + rest) == Ok(v, rest)
    decreases t, 1
  {
    ReadAggregateOrdered(t, v, Ascending(|t.fields|), bytes, rest);
  }

  /** The fields of a record may arrive in any order: every permutation reads back as the record. */
  lemma {:induction false} ReadAggregateOrdered(t: Ty, v: Val, order: seq<nat>, bytes: seq<byte>, rest: seq<byte>)
    requires t.Aggregate? && WellFormed(t) && HasType(t, v) && WithinLimits(t, v)
    requires FieldOrder(order, |t.fields|) && |order| == |t.fields|
    requires |bytes| >= 6 && bytes[..6] == AggregateHeader(t.fields)
    requires EncodesFields(t, v, order, bytes[6..])
    ensures Parse(t, bytes + rest) == Ok(v, rest)
    decreases t, 0, |order| + 2
  {
    hide *;
    FieldFacts(t, v);
    FieldCountFits(t, v);
    var body := bytes[6..];
    SplitPrefix(bytes, 6, rest);
    AggregateHeaderBack(t, body + rest);
    ParseEncodedFields(t, v, order, body, 0, rest);
    AllFilled(v.values, order);
    AllFieldsRead(t, v, rest);
    assert |order| + 0 == |t.fields|;
  }

  lemma FieldCountFits(t: Ty, v: Val)
    requires t.Aggregate? && HasType(t, v) && WithinLimits(t, v)
    ensures |t.fields| <= MAX_ITEMS
  {
  }

  lemma AllFieldsRead(t: Ty, v: Val, rest: seq<byte>)
    requires t.Aggregate? && v.VRecord? && |v.values| == |t.fields|
    ensures ParseFields(t, 0, rest, Seen(v.values)) == Ok(v, rest)
  {
    assert Values(Seen(v.values)) == v.values;
  }

  lemma AggregateHeaderBack(t: Ty, s: seq<byte>)
    requires t.Aggregate? && |t.fields| <= MAX_ITEMS
    ensures Parse(t, AggregateHeader(t.fields) + s) == ParseFields(t, |t.fields|, s, Unseen(|t.fields|))
  {
    hide ParseFields, ReadWord, Word, Length;
    HeaderParts(t.fields, s);
    ReadLengthBack(|t.fields|, s);
  }

  lemma HeaderParts(fields: seq<Field>, s: seq<byte>)
    requires |fields| <= MAX_ITEMS
    ensures ReadWord(AggregateHeader(fields) + s, 2) == Ok(1, Length(|fields|) + s)
  {
    hide ReadWord, Length;
    Pow256Values();
    ReadWordBack(1, 2, Length(|fields|) + s);
    assert AggregateHeader(fields) + s == Word(1, 2) + (Length(|fields|) + s);
  }

  lemma {:induction false} ParseEncodedItems(t: Ty, items: seq<Val>, bytes: seq<byte>, more: nat, rest: seq<byte>)
    requires t.Vector? || t.Array? || (t.Tuple? && |items| + more <= |t.items|)
    requires WellFormed(t) && HasItemTypes(t, items) && ItemsWithinLimits(t, items)
    requires EncodesItems(t, items, bytes)
    ensures ParseItems(t, |items| + more, bytes + rest, []) == ParseItems(t, more, rest, items)
    decreases t, 0, |items|
  {
    hide Parse, Encodes, HasType, WithinLimits, WellFormed;
    if items == [] {
      assert bytes + rest == rest;
    } else {
      var last := |items| - 1;
      var cut :| 0 <= cut <= |bytes|
        && EncodesItems(t, items[..last], bytes[..cut]) && Encodes(At(t, last), items[last], bytes[cut..]);
      SplitPrefix(bytes, cut, rest);
      ParseEncodedItems(t, items[..last], bytes[..cut], more + 1, bytes[cut..] + rest);
      ParseEncoded(At(t, last), items[last], bytes[cut..], rest);
      assert items[..last] + [items[last]] == items;
    }
  }

  lemma EntryCut(t: Ty, key: Val, item: Val, bytes: seq<byte>) returns (cut: nat)
    requires t.Map? || t.Set?
    requires WellFormed(t) && HasEntryType(t, key, item) && EntryWithinLimits(t, key, item)
    requires EncodesEntry(t, key, item, bytes)
    ensures EncodesEntryAt(t, key, item, bytes, cut)
  {
    hide EncodesEntryAt, HasEntryType, EntryWithinLimits, WellFormed;
    cut :| EncodesEntryAt(t, key, item, bytes, cut);
  }

  lemma EntryParts(t: Ty, key: Val, item: Val, bytes: seq<byte>, cut: nat)
    requires t.Map? || t.Set?
    requires WellFormed(t) && HasEntryType(t, key, item) && EntryWithinLimits(t, key, item)
    requires EncodesEntryAt(t, key, item, bytes, cut)
    ensures cut <= |bytes| && Writes(t.key, key, bytes[..cut])
    ensures if t.Map? then Writes(t.item, item, bytes[cut..]) else cut == |bytes| && item == VUnit
  {
    EntryTypes(t);
    hide Encodes, HasType, WithinLimits, WellFormed;
  }

  lemma EntryTypes(t: Ty)
    requires (t.Map? || t.Set?) && WellFormed(t)
    ensures WellFormed(t.key) && (t.Map? ==> WellFormed(t.item))
  {
  }

  lemma {:induction false} ParseEncodedEntry(t: Ty, key: Val, item: Val, bytes: seq<byte>, rest: seq<byte>)
    requires t.Map? || t.Set?
    requires WellFormed(t) && HasEntryType(t, key, item) && EntryWithinLimits(t, key, item)
    requires EncodesEntry(t, key, item, bytes)
    ensures ParseEntry(t, bytes + rest) == Ok((key, item), rest)
    decreases t, 0, 0
  {
    hide Parse, Writes, EncodesEntry, EncodesEntryAt, HasEntryType, EntryWithinLimits, WellFormed;
    var cut := EntryCut(t, key, item, bytes);
    EntryParts(t, key, item, bytes, cut);
    SplitPrefix(bytes, cut, rest);
    ParseEncoded(t.key, key, bytes[..cut], bytes[cut..] + rest);
    if t.Map? { ParseEncoded(t.item, item, bytes[cut..], rest); }
  }

  lemma EmplaceBack(entries: map<Val, Val>, k: Val)
    requires k in entries
    ensures Emplace(entries - {k}, k, entries[k]) == entries
  {
  }

  lemma NoEntries(t: Ty, bytes: seq<byte>)
    requires t.Map? || t.Set?
    requires WellFormed(t) && EncodesEntries(t, map[], bytes)
    ensures bytes == []
  {
    hide WellFormed;
  }

  lemma LastEntry(t: Ty, entries: map<Val, Val>, bytes: seq<byte>) returns (k: Val, cut: nat)
    requires t.Map? || t.Set?
    requires WellFormed(t) && EntriesOk(t, entries) && EncodesEntries(t, entries, bytes)
    requires entries != map[]
    ensures k in entries && cut <= |bytes|
    ensures |entries - {k}| == |entries| - 1
    ensures EntriesOk(t, entries - {k})
    ensures HasEntryType(t, k, entries[k]) && EntryWithinLimits(t, k, entries[k])
    ensures EncodesEntries(t, entries - {k}, bytes[..cut]) && EncodesEntry(t, k, entries[k], bytes[cut..])
  {
    hide Encodes, EncodesEntry, HasType, HasEntryType, EntryWithinLimits, WellFormed;
    k, cut :| k in entries && 0 <= cut <= |bytes|
      && EncodesEntries(t, entries - {k}, bytes[..cut]) && EncodesEntry(t, k, entries[k], bytes[cut..]);
    assert (entries - {k}).Keys == entries.Keys - {k};
  }

  lemma EntryStep(t: Ty, n: nat, s: seq<byte>, entries: map<Val, Val>, k: Val, item: Val, rest: seq<byte>)
    requires t.Map? || t.Set?
    requires ParseEntry(t, s) == Ok((k, item), rest)
    ensures ParseEntries(t, n + 1, s, entries) == ParseEntries(t, n, rest, Emplace(entries, k, item))
  {
    hide ParseEntry, Emplace;
  }

  lemma {:induction false} ParseEncodedEntries(t: Ty, entries: map<Val, Val>, bytes: seq<byte>, more: nat,
                                                rest: seq<byte>)
    requires t.Map? || t.Set?
    requires WellFormed(t) && EntriesOk(t, entries) && EncodesEntries(t, entries, bytes)
    ensures ParseEntries(t, |entries| + more, bytes + rest, map[]) == ParseEntries(t, more, rest, entries)
    decreases t, 0, |entries| + 1
  {
    hide *;
    if entries == map[] {
      NoEntries(t, bytes);
      assert bytes + rest == rest;
    } else {
      var k, cut := LastEntry(t, entries, bytes);
      SplitPrefix(bytes, cut, rest);
      ParseEncodedEntries(t, entries - {k}, bytes[..cut], more + 1, bytes[cut..] + rest);
      ParseEncodedEntry(t, k, entries[k], bytes[cut..], rest);
      EntryStep(t, more, bytes[cut..] + rest, entries - {k}, k, entries[k], rest);
      EmplaceBack(entries, k);
    }
  }

  /** The number of fields not read yet. */
  function Missing(seen: seq<Option<Val>>): (n: nat)
    ensures n == 0 ==> AllSeen(seen)
    ensures n <= |seen|
  {
    if seen == [] then 0
    else Missing(seen[..|seen| - 1]) + if seen[|seen| - 1].None? then 1 else 0
  }

  lemma {:induction false} MissingAll(n: nat)
    ensures Missing(Unseen(n)) == n
  {
    if n > 0 {
      MissingAll(n - 1);
      assert Unseen(n)[..n - 1] == Unseen(n - 1);
    }
  }

  lemma {:induction false} MissingOneLess(seen: seq<Option<Val>>, i: nat, v: Val)
    requires i < |seen| && seen[i].None?
    ensures Missing(seen[i := Some(v)]) == Missing(seen) - 1
  {
    var last := |seen| - 1;
    if i < last {
      MissingOneLess(seen[..last], i, v);
      assert seen[i := Some(v)][..last] == seen[..last][i := Some(v)];
    } else {
      assert seen[i := Some(v)][..last] == seen[..last];
    }
  }

  /** Pigeonhole: as many distinct indices as there are fields leave none out. */
  lemma {:induction false} MissingFilled(values: seq<Val>, order: seq<nat>)
    requires FieldOrder(order, |values|)
    ensures Missing(Filled(values, order)) == |values| - |order|
  {
    if order == [] {
      MissingAll(|values|);
      assert Filled(values, order) == Unseen(|values|);
    } else {
      hide Filled, FieldOrder, Missing;
      FilledOneMore(values, order);
      var front, last := order[..|order| - 1], order[|order| - 1];
      MissingFilled(values, front);
      MissingOneLess(Filled(values, front), last, values[last]);
    }
  }

  lemma FilledOneMore(values: seq<Val>, order: seq<nat>)
    requires FieldOrder(order, |values|) && order != []
    ensures
      var front, last := order[..|order| - 1], order[|order| - 1];
      last < |values| && FieldOrder(front, |values|) && Filled(values, front)[last].None?
      && Filled(values, order) == Filled(values, front)[last := Some(values[last])]
  {
    var front, last := order[..|order| - 1], order[|order| - 1];
    assert order == front + [last];
    assert Filled(values, front)[last := Some(values[last])] == Filled(values, order);
  }

  lemma AllFilled(values: seq<Val>, order: seq<nat>)
    requires FieldOrder(order, |values|) && |order| == |values|
    ensures Filled(values, order) == Seen(values)
  {
    MissingFilled(values, order);
  }

  lemma FieldFacts(t: Ty, v: Val)
    requires t.Aggregate? && WellFormed(t) && HasType(t, v)
    ensures v.VRecord? && |v.values| == |t.fields|
    ensures forall i | 0 <= i < |t.fields| ::
      WellFormed(t.fields[i].ty) && HasType(t.fields[i].ty, v.values[i])
    ensures WithinLimits(t, v) ==> forall i | 0 <= i < |t.fields| ::
      |t.fields[i].name| <= MAX_PAYLOAD && WithinLimits(t.fields[i].ty, v.values[i])
    ensures forall i, j | 0 <= i < j < |t.fields| :: t.fields[i].name != t.fields[j].name
  {
  }

  /** The fields named in `order` have been read, the others have not. */
  ghost function Filled(values: seq<Val>, order: seq<nat>): (seen: seq<Option<Val>>)
    requires FieldOrder(order, |values|)
    ensures |seen| == |values|
    ensures forall i | 0 <= i < |values| :: seen[i] == if i in order then Some(values[i]) else None
  {
    seq(|values|, i requires 0 <= i < |values| => if i in order then Some(values[i]) else None)
  }

  lemma NoFields(t: Ty, v: Val, bytes: seq<byte>)
    requires t.Aggregate? && WellFormed(t) && HasType(t, v) && WithinLimits(t, v)
    requires EncodesFields(t, v, [], bytes)
    ensures bytes == []
  {
    hide WellFormed, HasType, WithinLimits;
  }

  lemma LastField(t: Ty, v: Val, order: seq<nat>, bytes: seq<byte>) returns (cut: nat, mid: nat)
    requires t.Aggregate? && WellFormed(t) && HasType(t, v) && WithinLimits(t, v)
    requires FieldOrder(order, |t.fields|) && EncodesFields(t, v, order, bytes) && order != []
    ensures cut <= mid <= |bytes|
    ensures FieldOrder(order[..|order| - 1], |t.fields|)
    ensures EncodesFields(t, v, order[..|order| - 1], bytes[..cut])
    ensures
      var field := t.fields[order[|order| - 1]];
      |field.name| <= MAX_PAYLOAD && bytes[cut..mid] == Blob(field.name)
      && HasType(field.ty, v.values[order[|order| - 1]]) && WithinLimits(field.ty, v.values[order[|order| - 1]])
      && Encodes(field.ty, v.values[order[|order| - 1]], bytes[mid..])
  {
    FieldFacts(t, v);
    hide Encodes, HasType, WithinLimits, WellFormed;
    var last := order[|order| - 1];
    var field := t.fields[last];
    cut, mid :| 0 <= cut <= mid <= |bytes|
      && EncodesFields(t, v, order[..|order| - 1], bytes[..cut]) && bytes[cut..mid] == Blob(field.name)
      && Encodes(field.ty, v.values[last], bytes[mid..]);
  }

  lemma FieldStep(t: Ty, n: nat, s: seq<byte>, seen: seq<Option<Val>>, i: nat, v: Val, rest: seq<byte>)
    requires t.Aggregate? && |seen| == |t.fields| && i < |seen|
    requires ParseField(t, s, seen) == Ok((i, v), rest)
    ensures ParseFields(t, n + 1, s, seen) == ParseFields(t, n, rest, seen[i := Some(v)])
  {
    hide ParseField;
  }

  lemma NameFound(fields: seq<Field>, i: nat)
    requires i < |fields|
    requires forall i, j | 0 <= i < j < |fields| :: fields[i].name != fields[j].name
    ensures FindField(fields, fields[i].name) == Some(i)
  {
    hide FindField;
    var found := FindField(fields, fields[i].name);
    assert found.Some?;
    assert fields[found.value].name == fields[i].name;
  }

  lemma {:induction false} ParseEncodedField(t: Ty, i: nat, v: Val, nameAndValue: seq<byte>, mid: nat,
                                              seen: seq<Option<Val>>, rest: seq<byte>)
    requires t.Aggregate? && WellFormed(t) && i < |t.fields| == |seen| && seen[i].None?
    requires |t.fields[i].name| <= MAX_PAYLOAD && mid <= |nameAndValue|
    requires HasType(t.fields[i].ty, v) && WithinLimits(t.fields[i].ty, v)
    requires nameAndValue[..mid] == Blob(t.fields[i].name) && Encodes(t.fields[i].ty, v, nameAndValue[mid..])
    ensures ParseField(t, nameAndValue + rest, seen) == Ok((i, v), rest)
    decreases t, 0, 0
  {
    NameFound(t.fields, i);
    hide Parse, Encodes, HasType, WithinLimits, FindField;
    SplitPrefix(nameAndValue, mid, rest);
    ReadBlobBack(t.fields[i].name, nameAndValue[mid..] + rest);
    ParseEncoded(t.fields[i].ty, v, nameAndValue[mid..], rest);
  }

  lemma {:induction false} ParseEncodedFields(t: Ty, v: Val, order: seq<nat>, bytes: seq<byte>, more: nat,
                                               rest: seq<byte>)
    requires t.Aggregate? && WellFormed(t) && HasType(t, v) && WithinLimits(t, v)
    requires FieldOrder(order, |t.fields|) && EncodesFields(t, v, order, bytes)
    ensures |v.values| == |t.fields|
    ensures ParseFields(t, |order| + more, bytes + rest, Unseen(|t.fields|))
         == ParseFields(t, more, rest, Filled(v.values, order))
    decreases t, 0, |order| + 1
  {
    hide Parse, ParseField, ParseFields, Encodes, EncodesFields, HasType, WithinLimits, WellFormed;
    FieldFacts(t, v);
    if order == [] {
      NoFields(t, v, bytes);
      assert bytes + rest == rest;
      assert Filled(v.values, order) == Unseen(|t.fields|);
    } else {
      var front, last := order[..|order| - 1], order[|order| - 1];
      var cut, mid := LastField(t, v, order, bytes);
      SplitPrefix(bytes, cut, rest);
      var tail := bytes[cut..];
      ParseEncodedFields(t, v, front, bytes[..cut], more + 1, tail + rest);
      assert tail[..mid - cut] == bytes[cut..mid] && tail[mid - cut..] == bytes[mid..];
      assert order == front + [last];
      var seen := Filled(v.values, front);
      ParseEncodedField(t, last, v.values[last], tail, mid - cut, seen, rest);
      FieldStep(t, more, tail + rest, seen, last, v.values[last], rest);
      assert seen[last := Some(v.values[last])] == Filled(v.values, order);
    }
  }
}
