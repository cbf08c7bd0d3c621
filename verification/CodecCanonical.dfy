/**
 What reading a payload establishes, and how long encodings are: any payload that decodes has a
 canonical re-encoding that exists, is no longer, and decodes to the same value.
 */
module CodecCanonical {
  import opened Words
  import opened Wrappers
  import opened CodecTypes
  import opened CodecSpec
  import opened CodecRoundTrip

  // ---------------------------------------------------------------- sizes are exact

  /** The length of an encoding does not depend on the order the entries were written in. */
  lemma {:induction false} EncodedSize(t: Ty, v: Val, bytes: seq<byte>)
    requires Writes(t, v, bytes)
    ensures |bytes| == Size(t, v)
    decreases t
  {
    hide EncodesItems, EncodesEntries, EncodesFields, SizeItems, SizeEntries, SizeFields, HasItemTypes,
      ItemsWithinLimits, LeafBytes, Length, AggregateHeader;
    match t
    case Optional(item) => if v.VSome? { EncodedSize(item, v.some, bytes[1..]); }
    case Variant(alternatives) => EncodedSize(alternatives[v.index], v.chosen, bytes[4..]);
    case Vector(_) => EncodedItemsSize(t, v.items, bytes[4..]);
    case Array(_, _) => EncodedItemsSize(t, v.items, bytes);
    case Tuple(_) => EncodedItemsSize(t, v.items, bytes);
    case Map(_, _) => EncodedEntriesSize(t, v.entries, bytes[4..]);
    case Set(_) => EncodedEntriesSize(t, v.entries, bytes[4..]);
    case Aggregate(fields) =>
      EncodedFieldsSize(t, v, Ascending(|fields|), bytes[6..]);
      AllFilled(v.values, Ascending(|fields|));
    case _ => LeafSize(t, v);
  }

  lemma LeafSize(t: Ty, v: Val)
    requires Leaf(t) && WellFormed(t) && HasType(t, v) && WithinLimits(t, v)
    ensures |LeafBytes(t, v)| == Size(t, v)
  {
  }

  lemma {:induction false} EncodedItemsSize(t: Ty, items: seq<Val>, bytes: seq<byte>)
    requires t.Vector? || t.Array? || (t.Tuple? && |items| <= |t.items|)
    requires WellFormed(t) && HasItemTypes(t, items) && ItemsWithinLimits(t, items)
    requires EncodesItems(t, items, bytes)
    ensures |bytes| == SizeItems(t, items)
    decreases t, 0, |items|
  {
    hide Encodes, HasType, WithinLimits, WellFormed, Size;
    if items != [] {
      var last := |items| - 1;
      var cut :| 0 <= cut <= |bytes|
        && EncodesItems(t, items[..last], bytes[..cut]) && Encodes(At(t, last), items[last], bytes[cut..]);
      EncodedItemsSize(t, items[..last], bytes[..cut]);
      EncodedSize(At(t, last), items[last], bytes[cut..]);
    }
  }

  lemma {:induction false} EncodedEntrySize(t: Ty, key: Val, item: Val, bytes: seq<byte>)
    requires t.Map? || t.Set?
    requires WellFormed(t) && HasEntryType(t, key, item) && EntryWithinLimits(t, key, item)
    requires EncodesEntry(t, key, item, bytes)
    ensures |bytes| == SizeEntry(t, key, item)
    decreases t, 0, 0
  {
    hide Writes, EncodesEntry, EncodesEntryAt, HasEntryType, EntryWithinLimits, WellFormed, SizeEntry, Size;
    var cut := EntryCut(t, key, item, bytes);
    EntryParts(t, key, item, bytes, cut);
    EncodedSize(t.key, key, bytes[..cut]);
    if t.Map? { EncodedSize(t.item, item, bytes[cut..]); }
    EntrySize(t, key, item);
  }

  lemma EntrySize(t: Ty, key: Val, item: Val)
    requires t.Map? || t.Set?
    requires HasEntryType(t, key, item)
    ensures HasType(t.key, key) && (t.Map? ==> HasType(t.item, item))
    ensures SizeEntry(t, key, item) == Size(t.key, key) + if t.Map? then Size(t.item, item) else 0
  {
    hide HasType, Size;
  }

  lemma {:induction false} EncodedEntriesSize(t: Ty, entries: map<Val, Val>, bytes: seq<byte>)
    requires t.Map? || t.Set?
    requires WellFormed(t) && EntriesOk(t, entries) && EncodesEntries(t, entries, bytes)
    ensures |bytes| == SizeEntries(t, entries)
    decreases t, 0, |entries| + 1
  {
    hide Encodes, EncodesEntry, EncodesEntries, HasType, HasEntryType, EntryWithinLimits, WellFormed, Size, SizeEntry;
    if entries == map[] {
      NoEntries(t, bytes);
    } else {
      var k, cut := LastEntry(t, entries, bytes);
      EncodedEntriesSize(t, entries - {k}, bytes[..cut]);
      EncodedEntrySize(t, k, entries[k], bytes[cut..]);
      SizeWithout(t, entries, k);
    }
  }

  lemma SizeChoice(t: Ty, entries: map<Val, Val>) returns (c: Val)
    requires t.Map? || t.Set?
    requires forall k | k in entries :: HasEntryType(t, k, entries[k])
    requires entries != map[]
    ensures c in entries
    ensures SizeEntries(t, entries) == SizeEntry(t, c, entries[c]) + SizeEntries(t, entries - {c})
  {
    hide HasEntryType, SizeEntry;
    c :| c in entries && SizeEntries(t, entries) == SizeEntry(t, c, entries[c]) + SizeEntries(t, entries - {c});
  }

  lemma OneFewer(entries: map<Val, Val>, k: Val)
    requires k in entries
    ensures |entries - {k}| == |entries| - 1
  {
    assert (entries - {k}).Keys == entries.Keys - {k};
  }

  /** The sum over the entries may be taken in any order. */
  lemma {:induction false} SizeWithout(t: Ty, entries: map<Val, Val>, k: Val)
    requires t.Map? || t.Set?
    requires forall k' | k' in entries :: HasEntryType(t, k', entries[k'])
    requires k in entries
    ensures SizeEntries(t, entries) == SizeEntry(t, k, entries[k]) + SizeEntries(t, entries - {k})
    decreases |entries|
  {
    hide HasEntryType, SizeEntry, SizeEntries;
    var c := SizeChoice(t, entries);
    if c != k {
      OneFewer(entries, c);
      OneFewer(entries, k);
      SizeWithout(t, entries - {c}, k);
      SizeWithout(t, entries - {k}, c);
      assert entries - {c} - {k} == entries - {k} - {c};
    }
  }

  lemma {:induction false} EncodedFieldsSize(t: Ty, v: Val, order: seq<nat>, bytes: seq<byte>)
    requires t.Aggregate? && WellFormed(t) && HasType(t, v) && WithinLimits(t, v)
    requires FieldOrder(order, |t.fields|) && EncodesFields(t, v, order, bytes)
    ensures |v.values| == |t.fields| && SeenTyped(t, Filled(v.values, order))
    ensures |bytes| == SizeFields(t, Filled(v.values, order))
    decreases t, 0, |order|
  {
    hide Encodes, EncodesFields, HasType, WithinLimits, WellFormed, Size, SizeFields;
    FieldFacts(t, v);
    if order == [] {
      NoFields(t, v, bytes);
      assert Filled(v.values, order) == Unseen(|t.fields|);
      SizeUnseen(t, |t.fields|);
    } else {
      var front, last := order[..|order| - 1], order[|order| - 1];
      var cut, mid := LastField(t, v, order, bytes);
      EncodedFieldsSize(t, v, front, bytes[..cut]);
      EncodedSize(t.fields[last].ty, v.values[last], bytes[mid..]);
      assert order == front + [last];
      var seen := Filled(v.values, front);
      SizeOneMore(t, seen, last, v.values[last]);
      assert seen[last := Some(v.values[last])] == Filled(v.values, order);
      assert |bytes| == cut + |bytes[cut..mid]| + |bytes[mid..]|;
    }
  }

  lemma {:induction false} SizeUnseen(t: Ty, n: nat)
    requires t.Aggregate? && n <= |t.fields|
    ensures SizeFields(t, Unseen(n)) == 0
  {
    hide HasType, Size;
    if n > 0 {
      SizeUnseen(t, n - 1);
      assert Unseen(n)[..n - 1] == Unseen(n - 1);
    }
  }

  lemma {:induction false} SizeOneMore(t: Ty, seen: seq<Option<Val>>, i: nat, v: Val)
    requires t.Aggregate? && SeenTyped(t, seen)
    requires i < |seen| && seen[i].None? && HasType(t.fields[i].ty, v)
    ensures SizeFields(t, seen[i := Some(v)])
         == SizeFields(t, seen) + 4 + |t.fields[i].name| + Size(t.fields[i].ty, v)
  {
    hide HasType, Size;
    var last := |seen| - 1;
    if i < last {
      SizeOneMore(t, seen[..last], i, v);
      assert seen[i := Some(v)][..last] == seen[..last][i := Some(v)];
    } else {
      assert seen[i := Some(v)][..last] == seen[..last];
    }
  }

  // ---------------------------------------------------------------- every value has an encoding

  lemma {:induction false} Encodable(t: Ty, v: Val) returns (bytes: seq<byte>)
    requires WellFormed(t) && HasType(t, v) && WithinLimits(t, v)
    ensures Writes(t, v, bytes)
    decreases t
  {
    hide EncodesItems, EncodesEntries, EncodesFields, HasItemTypes, ItemsWithinLimits;
    match t
    case Optional(item) =>
      if v == VNone { bytes := [0]; }
      else { var b := Encodable(item, v.some); bytes := [1] + b; assert bytes[1..] == b; }
    case Variant(alternatives) =>
      var b := Encodable(alternatives[v.index], v.chosen);
      bytes := Length(v.index) + b;
      assert bytes[..4] == Length(v.index) && bytes[4..] == b;
    case Vector(_) =>
      var b := EncodableItems(t, v.items);
      bytes := Length(|v.items|) + b;
      assert bytes[..4] == Length(|v.items|) && bytes[4..] == b;
    case Array(_, _) => bytes := EncodableItems(t, v.items);
    case Tuple(_) => bytes := EncodableItems(t, v.items);
    case Map(_, _) =>
      var b := EncodableEntries(t, v.entries);
      bytes := Length(|v.entries|) + b;
      assert bytes[..4] == Length(|v.entries|) && bytes[4..] == b;
    case Set(_) =>
      var b := EncodableEntries(t, v.entries);
      bytes := Length(|v.entries|) + b;
      assert bytes[..4] == Length(|v.entries|) && bytes[4..] == b;
    case Aggregate(fields) =>
      var b := EncodableFields(t, v, Ascending(|fields|));
      bytes := AggregateHeader(fields) + b;
      assert bytes[..6] == AggregateHeader(fields) && bytes[6..] == b;
    case _ => bytes := LeafBytes(t, v);
  }

  lemma {:induction false} EncodableItems(t: Ty, items: seq<Val>) returns (bytes: seq<byte>)
    requires t.Vector? || t.Array? || (t.Tuple? && |items| <= |t.items|)
    requires WellFormed(t) && HasItemTypes(t, items) && ItemsWithinLimits(t, items)
    ensures EncodesItems(t, items, bytes)
    decreases t, 0, |items|
  {
    hide Encodes, HasType, WithinLimits, WellFormed;
    if items == [] {
      bytes := [];
    } else {
      var last := |items| - 1;
      var a := EncodableItems(t, items[..last]);
      var b := Encodable(At(t, last), items[last]);
      bytes := a + b;
      assert bytes[..|a|] == a && bytes[|a|..] == b;
    }
  }

  lemma {:induction false} EncodableEntries(t: Ty, entries: map<Val, Val>) returns (bytes: seq<byte>)
    requires t.Map? || t.Set?
    requires WellFormed(t) && EntriesOk(t, entries)
    ensures EncodesEntries(t, entries, bytes)
    decreases t, 0, |entries| + 1
  {
    hide Encodes, EncodesEntry, HasType, HasEntryType, EntryWithinLimits, WellFormed;
    if entries == map[] {
      bytes := [];
    } else {
      var k :| k in entries;
      assert |entries - {k}| < |entries| by { assert (entries - {k}).Keys == entries.Keys - {k}; }
      var a := EncodableEntries(t, entries - {k});
      var b := EncodableEntry(t, k, entries[k]);
      bytes := a + b;
      assert bytes[..|a|] == a && bytes[|a|..] == b;
    }
  }

  lemma {:induction false} EncodableEntry(t: Ty, key: Val, item: Val) returns (bytes: seq<byte>)
    requires t.Map? || t.Set?
    requires WellFormed(t) && HasEntryType(t, key, item) && EntryWithinLimits(t, key, item)
    ensures EncodesEntry(t, key, item, bytes)
    decreases t, 0, 0
  {
    hide Encodes, HasType, WithinLimits;
    var a := Encodable(t.key, key);
    var b := [];
    if t.Map? { b := Encodable(t.item, item); }
    bytes := a + b;
    EntryJoined(t, key, item, a, b);
  }

  lemma {:induction false} EncodableFields(t: Ty, v: Val, order: seq<nat>) returns (bytes: seq<byte>)
    requires t.Aggregate? && WellFormed(t) && HasType(t, v) && WithinLimits(t, v)
    requires FieldOrder(order, |t.fields|)
    ensures EncodesFields(t, v, order, bytes)
    decreases t, 0, |order|
  {
    hide Encodes, HasType, WithinLimits, WellFormed;
    FieldFacts(t, v);
    if order == [] {
      bytes := [];
    } else {
      var last := order[|order| - 1];
      var a := EncodableFields(t, v, order[..|order| - 1]);
      var name := Blob(t.fields[last].name);
      var b := Encodable(t.fields[last].ty, v.values[last]);
      bytes := a + name + b;
      assert bytes[..|a|] == a && bytes[|a|..|a| + |name|] == name && bytes[|a| + |name|..] == b;
    }
  }
}
