/**
 The universe of types the remote codec can carry, and their values.

 A `std::pair` is a two-element tuple. A duration, a time point and an enumeration are written as
 the number underneath, so the descriptor of that number describes them.
 */
module CodecTypes {
  import opened Words
  import opened Wrappers

  const MAX_PAYLOAD: nat := 64 * 1024 * 1024
  const MAX_ITEMS: nat := 1_000_000
  const NULL_LENGTH: nat := 0xFFFF_FFFF

  datatype Field = Field(name: seq<byte>, ty: Ty)

  datatype Ty =
    | Monostate
    | Text                       // std::string
    | ByteArray                  // QByteArray, which may be null
    | Optional(item: Ty)
    | Variant(alternatives: seq<Ty>)
    | Vector(item: Ty)
    | Array(item: Ty, size: nat)
    | Tuple(items: seq<Ty>)
    | Map(key: Ty, item: Ty)
    | Set(key: Ty)
    | Bool
    | Signed(bits: nat)
    | Unsigned(bits: nat)
    | Aggregate(fields: seq<Field>)

  datatype Val =
    | VUnit
    | VNull
    | VBytes(data: seq<byte>)
    | VNone
    | VSome(some: Val)
    | VCase(index: nat, chosen: Val)
    | VList(items: seq<Val>)
    | VMap(entries: map<Val, Val>)   // a set maps each of its members to VUnit
    | VBool(truth: bool)
    | VInt(number: int)
    | VRecord(values: seq<Val>)

  /** One more than the largest magnitude of a signed integer, and of an unsigned one. */
  function SignedLimit(bits: nat): (n: int) {
    if bits == 8 then 0x80 else if bits == 16 then 0x8000
    else if bits == 32 then 0x8000_0000 else 0x8000_0000_0000_0000
  }

  function UnsignedLimit(bits: nat): (n: int) { 2 * SignedLimit(bits) }

  /** The element type at an index of a vector, an array or a tuple. */
  function At(t: Ty, index: nat): (item: Ty)
    requires t.Vector? || t.Array? || (t.Tuple? && index < |t.items|)
    ensures item < t
    ensures WellFormed(t) ==> WellFormed(item)
  {
    if t.Tuple? then t.items[index] else t.item
  }

  /** No null byte array can occur: a key type, since Qt calls a null and an empty array equal. */
  predicate NullFree(t: Ty) {
    match t
    case ByteArray => false
    case Optional(item) => NullFree(item)
    case Variant(alternatives) => forall i | 0 <= i < |alternatives| :: NullFree(alternatives[i])
    case Vector(item) => NullFree(item)
    case Array(item, _) => NullFree(item)
    case Tuple(items) => forall i | 0 <= i < |items| :: NullFree(items[i])
    case Map(key, item) => NullFree(key) && NullFree(item)
    case Set(key) => NullFree(key)
    case Aggregate(fields) => forall i | 0 <= i < |fields| :: NullFree(fields[i].ty)
    case _ => true
  }

  /** What the C++ type system guarantees of a type the codec is instantiated with. */
  predicate WellFormed(t: Ty) {
    match t
    case Optional(item) => WellFormed(item)
    case Variant(alternatives) =>
      |alternatives| <= NULL_LENGTH
      && forall i | 0 <= i < |alternatives| :: WellFormed(alternatives[i])
    case Vector(item) => WellFormed(item)
    case Array(item, _) => WellFormed(item)
    case Tuple(items) => forall i | 0 <= i < |items| :: WellFormed(items[i])
    case Map(key, item) => NullFree(key) && WellFormed(key) && WellFormed(item)
    case Set(key) => NullFree(key) && WellFormed(key)
    case Signed(bits) => bits in {8, 16, 32, 64}
    case Unsigned(bits) => bits in {8, 16, 32, 64}
    case Aggregate(fields) =>
      (forall i, j | 0 <= i < j < |fields| :: fields[i].name != fields[j].name)
      && forall i | 0 <= i < |fields| :: WellFormed(fields[i].ty)
    case _ => true
  }

  predicate HasType(t: Ty, v: Val)
    decreases t
  {
    match t
    case Monostate => v == VUnit
    case Text => v.VBytes?
    case ByteArray => v.VBytes? || v == VNull
    case Optional(item) => v == VNone || (v.VSome? && HasType(item, v.some))
    case Variant(alternatives) =>
      v.VCase? && v.index < |alternatives| && HasType(alternatives[v.index], v.chosen)
    case Vector(_) => v.VList? && HasItemTypes(t, v.items)
    case Array(_, size) => v.VList? && |v.items| == size && HasItemTypes(t, v.items)
    case Tuple(items) => v.VList? && |v.items| == |items| && HasItemTypes(t, v.items)
    case Map(_, _) => v.VMap? && forall k | k in v.entries :: HasEntryType(t, k, v.entries[k])
    case Set(_) => v.VMap? && forall k | k in v.entries :: HasEntryType(t, k, v.entries[k])
    case Bool => v.VBool?
    case Signed(bits) => v.VInt? && -SignedLimit(bits) <= v.number < SignedLimit(bits)
    case Unsigned(bits) => v.VInt? && 0 <= v.number < UnsignedLimit(bits)
    case Aggregate(fields) =>
      v.VRecord? && |v.values| == |fields|
      && forall i | 0 <= i < |fields| :: HasType(fields[i].ty, v.values[i])
  }

  predicate HasItemTypes(t: Ty, items: seq<Val>)
    requires t.Vector? || t.Array? || (t.Tuple? && |items| <= |t.items|)
    decreases t, 0
  {
    forall i | 0 <= i < |items| :: HasType(At(t, i), items[i])
  }

  predicate HasEntryType(t: Ty, key: Val, item: Val)
    requires t.Map? || t.Set?
    decreases t, 0
  {
    HasType(t.key, key) && if t.Map? then HasType(t.item, item) else item == VUnit
  }

  /** Every collection and every byte string is within the limits the writer checks. */
  predicate WithinLimits(t: Ty, v: Val)
    requires HasType(t, v)
    decreases t
  {
    match t
    case Text => |v.data| <= MAX_PAYLOAD
    case ByteArray => v == VNull || |v.data| <= MAX_PAYLOAD
    case Optional(item) => v == VNone || WithinLimits(item, v.some)
    case Variant(alternatives) => WithinLimits(alternatives[v.index], v.chosen)
    case Vector(_) => |v.items| <= MAX_ITEMS && ItemsWithinLimits(t, v.items)
    case Array(_, _) => ItemsWithinLimits(t, v.items)
    case Tuple(_) => ItemsWithinLimits(t, v.items)
    case Map(_, _) =>
      |v.entries| <= MAX_ITEMS && forall k | k in v.entries :: EntryWithinLimits(t, k, v.entries[k])
    case Set(_) =>
      |v.entries| <= MAX_ITEMS && forall k | k in v.entries :: EntryWithinLimits(t, k, v.entries[k])
    case Aggregate(fields) =>
      |fields| <= MAX_ITEMS
      && forall i | 0 <= i < |fields| ::
           |fields[i].name| <= MAX_PAYLOAD && WithinLimits(fields[i].ty, v.values[i])
    case _ => true
  }

  predicate ItemsWithinLimits(t: Ty, items: seq<Val>)
    requires t.Vector? || t.Array? || (t.Tuple? && |items| <= |t.items|)
    requires HasItemTypes(t, items)
    decreases t, 0
  {
    forall i | 0 <= i < |items| :: WithinLimits(At(t, i), items[i])
  }

  predicate EntryWithinLimits(t: Ty, key: Val, item: Val)
    requires t.Map? || t.Set?
    requires HasEntryType(t, key, item)
    decreases t, 0
  {
    WithinLimits(t.key, key) && (t.Map? ==> WithinLimits(t.item, item))
  }

  datatype CodecError =
    | PayloadLimit
    | ByteArrayLimit
    | ItemLimit
    | StreamFailure
    | TrailingData
    | VariantIndex
    | AggregateSchema
    | FieldCount
    | FieldUnknown
    | FieldDuplicated
    | FieldMissing
    | BooleanValue
    | IntegerRange
    | ActionSchema
}
