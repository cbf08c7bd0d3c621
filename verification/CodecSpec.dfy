/**
 The codec as mathematics: what bytes a value may be written as (`Encodes`), what value some bytes
 are read as (`Parse`), and how many bytes a value takes (`Size`).

 `Encodes` is a relation because the iteration order of an unordered container is not a function of
 its content: every order of the entries is an encoding.
 */
module CodecSpec {
  import opened Words
  import opened Wrappers
  import opened CodecTypes

  // ---------------------------------------------------------------- writing

  function Word(n: nat, width: nat): (s: seq<byte>)
    requires n < Pow256(width)
    ensures |s| == width
  {
    BigEndian(n, width)
  }

  function Length(n: nat): (s: seq<byte>)
    requires n <= NULL_LENGTH
    ensures |s| == 4
  {
    Pow256Values();
    Word(n, 4)
  }

  function Blob(data: seq<byte>): (s: seq<byte>)
    requires |data| <= NULL_LENGTH
    ensures |s| == 4 + |data|
  {
    Length(|data|) + data
  }

  /** A 64-bit integer in two's complement. */
  function Integer(n: int): (s: seq<byte>)
    requires -0x8000_0000_0000_0000 <= n < 0x1_0000_0000_0000_0000
    ensures |s| == 8
  {
    Pow256Values();
    Word(if n < 0 then n + 0x1_0000_0000_0000_0000 else n, 8)
  }

  function AggregateHeader(fields: seq<Field>): (s: seq<byte>)
    requires |fields| <= NULL_LENGTH
    ensures |s| == 6
  {
    Pow256Values();
    Word(1, 2) + Length(|fields|)
  }

  /** `bytes` is one of the byte strings the writer may produce for `v`. */
  ghost predicate Encodes(t: Ty, v: Val, bytes: seq<byte>)
    requires WellFormed(t) && HasType(t, v) && WithinLimits(t, v)
    decreases t
  {
    match t
    case Optional(item) =>
      if v == VNone then bytes == [0]
      else |bytes| > 0 && bytes[0] == 1 && Encodes(item, v.some, bytes[1..])
    case Variant(alternatives) =>
      |bytes| >= 4 && bytes[..4] == Length(v.index)
      && Encodes(alternatives[v.index], v.chosen, bytes[4..])
    case Vector(_) =>
      |bytes| >= 4 && bytes[..4] == Length(|v.items|) && EncodesItems(t, v.items, bytes[4..])
    case Array(_, _) => EncodesItems(t, v.items, bytes)
    case Tuple(_) => EncodesItems(t, v.items, bytes)
    case Map(_, _) =>
      |bytes| >= 4 && bytes[..4] == Length(|v.entries|) && EncodesEntries(t, v.entries, bytes[4..])
    case Set(_) =>
      |bytes| >= 4 && bytes[..4] == Length(|v.entries|) && EncodesEntries(t, v.entries, bytes[4..])
    case Aggregate(fields) =>
      |bytes| >= 6 && bytes[..6] == AggregateHeader(fields)
      && EncodesFields(t, v, Ascending(|fields|), bytes[6..])
    case _ => bytes == LeafBytes(t, v)
  }

  predicate Leaf(t: Ty) {
    t in {Monostate, Text, ByteArray, Bool} || t.Signed? || t.Unsigned?
  }

  function LeafBytes(t: Ty, v: Val): (bytes: seq<byte>)
    requires Leaf(t) && WellFormed(t) && HasType(t, v) && WithinLimits(t, v)
  {
    match t
    case Monostate => []
    case Text => Blob(v.data)
    case ByteArray => if v == VNull then Length(NULL_LENGTH) else Blob(v.data)
    case Bool => [if v.truth then 1 else 0]
    case Signed(_) => Integer(v.number)
    case Unsigned(_) => Integer(v.number)
  }

  /** The value is one the writer accepts, and `bytes` is what it may produce for it. */
  ghost predicate Writes(t: Ty, v: Val, bytes: seq<byte>) {
    WellFormed(t) && HasType(t, v) && WithinLimits(t, v) && Encodes(t, v, bytes)
  }

  ghost predicate EncodesItems(t: Ty, items: seq<Val>, bytes: seq<byte>)
    requires t.Vector? || t.Array? || (t.Tuple? && |items| <= |t.items|)
    requires WellFormed(t) && HasItemTypes(t, items) && ItemsWithinLimits(t, items)
    decreases t, 0, |items|
  {
    if items == [] then bytes == []
    else
      var last := |items| - 1;
      exists cut | 0 <= cut <= |bytes| ::
        EncodesItems(t, items[..last], bytes[..cut]) && Encodes(At(t, last), items[last], bytes[cut..])
  }

  ghost predicate EncodesEntry(t: Ty, key: Val, item: Val, bytes: seq<byte>)
    requires t.Map? || t.Set?
    requires WellFormed(t) && HasEntryType(t, key, item) && EntryWithinLimits(t, key, item)
    decreases t, 0, 1
  {
    exists cut :: EncodesEntryAt(t, key, item, bytes, cut)
  }

  lemma EntryJoined(t: Ty, key: Val, item: Val, a: seq<byte>, b: seq<byte>)
    requires t.Map? || t.Set?
    requires WellFormed(t) && HasEntryType(t, key, item) && EntryWithinLimits(t, key, item)
    requires Writes(t.key, key, a) && if t.Map? then Writes(t.item, item, b) else b == []
    ensures EncodesEntry(t, key, item, a + b)
  {
    hide Encodes, HasType, WithinLimits;
    assert (a + b)[..|a|] == a && (a + b)[|a|..] == b;
    assert EncodesEntryAt(t, key, item, a + b, |a|);
  }

  /** The key up to the cut, and the item, if there is one, after it. */
  ghost predicate EncodesEntryAt(t: Ty, key: Val, item: Val, bytes: seq<byte>, cut: nat)
    requires t.Map? || t.Set?
    requires WellFormed(t) && HasEntryType(t, key, item) && EntryWithinLimits(t, key, item)
    decreases t, 0, 0
  {
    cut <= |bytes| && Encodes(t.key, key, bytes[..cut])
    && if t.Map? then Encodes(t.item, item, bytes[cut..]) else bytes[cut..] == []
  }

  ghost predicate EntriesOk(t: Ty, entries: map<Val, Val>)
    requires t.Map? || t.Set?
  {
    forall k | k in entries ::
      HasEntryType(t, k, entries[k]) && EntryWithinLimits(t, k, entries[k])
  }

  /** The entries, in some order. */
  ghost predicate EncodesEntries(t: Ty, entries: map<Val, Val>, bytes: seq<byte>)
    requires t.Map? || t.Set?
    requires WellFormed(t) && EntriesOk(t, entries)
    decreases t, 0, |entries| + 2
  {
    if entries == map[] then bytes == []
    else
      exists k, cut | k in entries && 0 <= cut <= |bytes| ::
        EncodesEntries(t, entries - {k}, bytes[..cut])
        && EncodesEntry(t, k, entries[k], bytes[cut..])
  }

  function Ascending(n: nat): (order: seq<nat>)
    ensures |order| == n && forall i | 0 <= i < n :: order[i] == i
  {
    seq(n, i => i)
  }

  /** Distinct field indices: the order in which some of the fields are written. */
  predicate FieldOrder(order: seq<nat>, count: nat) {
    (forall i | 0 <= i < |order| :: order[i] < count)
    && forall i, j | 0 <= i < j < |order| :: order[i] != order[j]
  }

  /** The name-value pairs of the record, in the given order. */
  ghost predicate EncodesFields(t: Ty, v: Val, order: seq<nat>, bytes: seq<byte>)
    requires t.Aggregate? && WellFormed(t) && HasType(t, v) && WithinLimits(t, v)
    requires FieldOrder(order, |t.fields|)
    decreases t, 0, |order|
  {
    if order == [] then bytes == []
    else
      var last := order[|order| - 1];
      var field := t.fields[last];
      exists cut, mid | 0 <= cut <= mid <= |bytes| ::
        EncodesFields(t, v, order[..|order| - 1], bytes[..cut])
        && bytes[cut..mid] == Blob(field.name)
        && Encodes(field.ty, v.values[last], bytes[mid..])
  }

  // ---------------------------------------------------------------- reading

  datatype Parsed<+T> = Ok(value: T, rest: seq<byte>) | Err(error: CodecError)

  function ReadWord(s: seq<byte>, width: nat): (r: Parsed<nat>) {
    if |s| < width then Err(StreamFailure) else Ok(FromBigEndian(s[..width]), s[width..])
  }

  function ReadBlob(s: seq<byte>): (r: Parsed<Option<seq<byte>>>) {
    match ReadWord(s, 4)
    case Err(e) => Err(e)
    case Ok(n, rest) =>
      if n == NULL_LENGTH then Ok(None, rest)
      else if |rest| < n then Err(StreamFailure)
      else if n > MAX_PAYLOAD then Err(ByteArrayLimit)
      else Ok(Some(rest[..n]), rest[n..])
  }

  function ReadCount(s: seq<byte>): (r: Parsed<nat>) {
    match ReadWord(s, 4)
    case Err(e) => Err(e)
    case Ok(n, rest) => if n > MAX_ITEMS then Err(ItemLimit) else Ok(n, rest)
  }

  function FromTwosComplement(n: nat): (i: int) {
    if n >= 0x8000_0000_0000_0000 then n - 0x1_0000_0000_0000_0000 else n
  }

  function FindField(fields: seq<Field>, name: seq<byte>): (index: Option<nat>)
    ensures index.Some? ==> index.value < |fields| && fields[index.value].name == name
    ensures index.None? ==> forall i | 0 <= i < |fields| :: fields[i].name != name
  {
    if fields == [] then None
    else if fields[0].name == name then Some(0)
    else
      match FindField(fields[1..], name)
      case None => None
      case Some(i) => Some(i + 1)
  }

  function Parse(t: Ty, s: seq<byte>): (r: Parsed<Val>)
    decreases t
  {
    match t
    case Monostate => Ok(VUnit, s)
    case Text =>
      (match ReadBlob(s)
       case Err(e) => Err(e)
       case Ok(data, rest) => Ok(VBytes(data.GetOr([])), rest))
    case ByteArray =>
      (match ReadBlob(s)
       case Err(e) => Err(e)
       case Ok(data, rest) => Ok(if data.None? then VNull else VBytes(data.value), rest))
    case Optional(item) =>
      (match ReadWord(s, 1)
       case Err(e) => Err(e)
       case Ok(flag, rest) =>
         if flag == 0 then Ok(VNone, rest)
         else match Parse(item, rest)
              case Err(e) => Err(e)
              case Ok(v, rest') => Ok(VSome(v), rest'))
    case Variant(alternatives) =>
      (match ReadWord(s, 4)
       case Err(e) => Err(e)
       case Ok(index, rest) =>
         if index >= |alternatives| then Err(VariantIndex)
         else match Parse(alternatives[index], rest)
              case Err(e) => Err(e)
              case Ok(v, rest') => Ok(VCase(index, v), rest'))
    case Vector(_) =>
      (match ReadCount(s)
       case Err(e) => Err(e)
       case Ok(n, rest) => AsList(ParseItems(t, n, rest, [])))
    case Array(_, size) => AsList(ParseItems(t, size, s, []))
    case Tuple(items) => AsList(ParseItems(t, |items|, s, []))
    case Map(_, _) =>
      (match ReadCount(s)
       case Err(e) => Err(e)
       case Ok(n, rest) => AsMap(ParseEntries(t, n, rest, map[])))
    case Set(_) =>
      (match ReadCount(s)
       case Err(e) => Err(e)
       case Ok(n, rest) => AsMap(ParseEntries(t, n, rest, map[])))
    case Bool =>
      (match ReadWord(s, 1)
       case Err(e) => Err(e)
       case Ok(n, rest) => if n > 1 then Err(BooleanValue) else Ok(VBool(n != 0), rest))
    case Signed(bits) =>
      (match ReadWord(s, 8)
       case Err(e) => Err(e)
       case Ok(n, rest) =>
         var i := FromTwosComplement(n);
         if -SignedLimit(bits) <= i < SignedLimit(bits) then Ok(VInt(i), rest) else Err(IntegerRange))
    case Unsigned(bits) =>
      (match ReadWord(s, 8)
       case Err(e) => Err(e)
       case Ok(n, rest) => if n < UnsignedLimit(bits) then Ok(VInt(n), rest) else Err(IntegerRange))
    case Aggregate(fields) =>
      (match ReadWord(s, 2)
       case Err(e) => Err(e)
       case Ok(schema, rest) =>
         if schema != 1 then Err(AggregateSchema)
         else match ReadCount(rest)
              case Err(e) => Err(e)
              case Ok(n, rest') =>
                if n != |fields| then Err(FieldCount)
                else ParseFields(t, n, rest', Unseen(n)))
  }

  function AsList(r: Parsed<seq<Val>>): (p: Parsed<Val>) {
    match r case Err(e) => Err(e) case Ok(items, rest) => Ok(VList(items), rest)
  }

  function AsMap(r: Parsed<map<Val, Val>>): (p: Parsed<Val>) {
    match r case Err(e) => Err(e) case Ok(entries, rest) => Ok(VMap(entries), rest)
  }

  /** Reads `n` more items after the items already read. */
  function ParseItems(t: Ty, n: nat, s: seq<byte>, items: seq<Val>): (r: Parsed<seq<Val>>)
    requires t.Vector? || t.Array? || (t.Tuple? && |items| + n <= |t.items|)
    decreases t, 0, n
  {
    if n == 0 then Ok(items, s)
    else match Parse(At(t, |items|), s)
         case Err(e) => Err(e)
         case Ok(v, rest) => ParseItems(t, n - 1, rest, items + [v])
  }

  /** `emplace`: an entry already present is kept. */
  function Emplace(entries: map<Val, Val>, key: Val, item: Val): (r: map<Val, Val>) {
    if key in entries then entries else entries[key := item]
  }

  function ParseEntry(t: Ty, s: seq<byte>): (r: Parsed<(Val, Val)>)
    requires t.Map? || t.Set?
    decreases t, 0, 0
  {
    match Parse(t.key, s)
    case Err(e) => Err(e)
    case Ok(key, rest) =>
      if t.Set? then Ok((key, VUnit), rest)
      else match Parse(t.item, rest)
           case Err(e) => Err(e)
           case Ok(item, rest') => Ok((key, item), rest')
  }

  function ParseEntries(t: Ty, n: nat, s: seq<byte>, entries: map<Val, Val>): (r: Parsed<map<Val, Val>>)
    requires t.Map? || t.Set?
    decreases t, 0, n + 1
  {
    if n == 0 then Ok(entries, s)
    else match ParseEntry(t, s)
         case Err(e) => Err(e)
         case Ok((key, item), rest) => ParseEntries(t, n - 1, rest, Emplace(entries, key, item))
  }

  function Unseen(n: nat): (seen: seq<Option<Val>>)
    ensures |seen| == n && forall i | 0 <= i < n :: seen[i] == None
  {
    seq(n, _ => None)
  }

  predicate AllSeen(seen: seq<Option<Val>>) {
    forall i | 0 <= i < |seen| :: seen[i].Some?
  }

  function Values(seen: seq<Option<Val>>): (values: seq<Val>)
    requires AllSeen(seen)
    ensures |values| == |seen| && forall i | 0 <= i < |seen| :: seen[i] == Some(values[i])
  {
    seq(|seen|, i requires 0 <= i < |seen| => seen[i].value)
  }

  /** Reads one name-value pair: the index of the field and its value. */
  function ParseField(t: Ty, s: seq<byte>, seen: seq<Option<Val>>): (r: Parsed<(nat, Val)>)
    requires t.Aggregate? && |seen| == |t.fields|
    ensures r.Ok? ==> r.value.0 < |t.fields| && seen[r.value.0].None?
    decreases t, 0, 0
  {
    match ReadBlob(s)
    case Err(e) => Err(e)
    case Ok(data, rest) =>
      match FindField(t.fields, data.GetOr([]))
      case None => Err(FieldUnknown)
      case Some(i) =>
        if seen[i].Some? then Err(FieldDuplicated)
        else match Parse(t.fields[i].ty, rest)
             case Err(e) => Err(e)
             case Ok(v, rest') => Ok((i, v), rest')
  }

  function ParseFields(t: Ty, n: nat, s: seq<byte>, seen: seq<Option<Val>>): (r: Parsed<Val>)
    requires t.Aggregate? && |seen| == |t.fields|
    decreases t, 0, n + 1
  {
    if n == 0 then if AllSeen(seen) then Ok(VRecord(Values(seen)), s) else Err(FieldMissing)
    else match ParseField(t, s, seen)
         case Err(e) => Err(e)
         case Ok((i, v), rest) => ParseFields(t, n - 1, rest, seen[i := Some(v)])
  }

  // ---------------------------------------------------------------- whole payloads

  datatype Outcome<+T> = Success(value: T) | Failure(error: CodecError)

  /** Reading a whole payload: bounded, and with nothing after the value. */
  function Decoded(t: Ty, payload: seq<byte>): (r: Outcome<Val>) {
    if |payload| > MAX_PAYLOAD then Failure(PayloadLimit)
    else match Parse(t, payload)
         case Err(e) => Failure(e)
         case Ok(v, rest) => if rest == [] then Success(v) else Failure(TrailingData)
  }

  // ---------------------------------------------------------------- sizes

  ghost function Size(t: Ty, v: Val): (n: nat)
    requires HasType(t, v)
    decreases t
  {
    match t
    case Monostate => 0
    case Text => 4 + |v.data|
    case ByteArray => if v == VNull then 4 else 4 + |v.data|
    case Optional(item) => if v == VNone then 1 else 1 + Size(item, v.some)
    case Variant(alternatives) => 4 + Size(alternatives[v.index], v.chosen)
    case Vector(_) => 4 + SizeItems(t, v.items)
    case Array(_, _) => SizeItems(t, v.items)
    case Tuple(_) => SizeItems(t, v.items)
    case Map(_, _) => 4 + SizeEntries(t, v.entries)
    case Set(_) => 4 + SizeEntries(t, v.entries)
    case Bool => 1
    case Signed(_) => 8
    case Unsigned(_) => 8
    case Aggregate(fields) => 6 + SizeFields(t, Seen(v.values))
  }

  ghost function SizeItems(t: Ty, items: seq<Val>): (n: nat)
    requires t.Vector? || t.Array? || (t.Tuple? && |items| <= |t.items|)
    requires HasItemTypes(t, items)
    decreases t, 0, |items|
  {
    if items == [] then 0
    else
      var last := |items| - 1;
      SizeItems(t, items[..last]) + Size(At(t, last), items[last])
  }

  ghost function SizeEntry(t: Ty, key: Val, item: Val): (n: nat)
    requires t.Map? || t.Set?
    requires HasEntryType(t, key, item)
    decreases t, 0, 0
  {
    Size(t.key, key) + if t.Map? then Size(t.item, item) else 0
  }

  ghost function SizeEntries(t: Ty, entries: map<Val, Val>): (n: nat)
    requires t.Map? || t.Set?
    requires forall k | k in entries :: HasEntryType(t, k, entries[k])
    decreases t, 0, |entries| + 1
  {
    if entries == map[] then 0
    else
      var k :| k in entries;
      SizeEntry(t, k, entries[k]) + SizeEntries(t, entries - {k})
  }

  function Seen(values: seq<Val>): (seen: seq<Option<Val>>)
    ensures |seen| == |values| && forall i | 0 <= i < |values| :: seen[i] == Some(values[i])
  {
    seq(|values|, i requires 0 <= i < |values| => Some(values[i]))
  }

  ghost predicate SeenTyped(t: Ty, seen: seq<Option<Val>>)
    requires t.Aggregate?
  {
    |seen| <= |t.fields|
    && forall i | 0 <= i < |seen| :: seen[i].Some? ==> HasType(t.fields[i].ty, seen[i].value)
  }

  /** The bytes of the fields read so far. */
  ghost function SizeFields(t: Ty, seen: seq<Option<Val>>): (n: nat)
    requires t.Aggregate? && SeenTyped(t, seen)
    decreases t, 0, |seen|
  {
    if seen == [] then 0
    else
      var last := |seen| - 1;
      SizeFields(t, seen[..last])
      + match seen[last]
        case None => 0
        case Some(v) => 4 + |t.fields[last].name| + Size(t.fields[last].ty, v)
  }
}
