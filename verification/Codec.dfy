/** The writer and the reader: objects with a stream position and a first error, proved against the specification. */
module Codec {
  import opened Words
  import opened Wrappers
  import opened CodecTypes
  import opened CodecSpec
  import opened CodecRoundTrip
  import opened CodecCanonical
  import opened CodecReading
  import opened CodecTheorems

  // ---------------------------------------------------------------- writing

  class Writer {
    var payload: seq<byte>
    var error: Option<CodecError>

    constructor ()
      ensures payload == [] && error == None
    {
      payload, error := [], None;
    }

    /** The first error is kept. */
    method Fail(e: CodecError) returns (ok: bool)
      modifies this`error
      ensures !ok && error == if old(error).Some? then old(error) else Some(e)
    {
      if error.None? { error := Some(e); }
      ok := false;
    }

    /** Streams bytes; writing to memory never fails the stream itself. */
    method QtValue(bytes: seq<byte>) returns (ok: bool)
      modifies this`payload
      ensures payload == old(payload) + bytes && ok == error.None?
    {
      payload := payload + bytes;
      ok := error.None?;
    }

    method RawBytes(data: seq<byte>) returns (ok: bool)
      modifies this
      ensures ok == (old(error).None? && |data| <= MAX_PAYLOAD)
      ensures error == if old(error).None? && |data| > MAX_PAYLOAD then Some(PayloadLimit) else old(error)
      ensures payload == old(payload) + if |data| <= MAX_PAYLOAD then Blob(data) else []
    {
      if |data| > MAX_PAYLOAD {
        ok := Fail(PayloadLimit);
      } else {
        ok := QtValue(Blob(data));
      }
    }

    method Count(n: nat) returns (ok: bool)
      modifies this
      ensures ok == (old(error).None? && n <= MAX_ITEMS)
      ensures error == if old(error).None? && n > MAX_ITEMS then Some(ItemLimit) else old(error)
      ensures payload == old(payload) + if n <= MAX_ITEMS then Length(n) else []
    {
      if n > MAX_ITEMS {
        ok := Fail(ItemLimit);
      } else {
        ok := QtValue(Length(n));
      }
    }

    /** What every write does: it appends, keeps the first error, and without one it fails exactly on a limit. */
    twostate predicate Discipline(ok: bool, within: bool)
      reads this
    {
      old(payload) <= payload
      && (old(error).Some? ==> error == old(error))
      && (ok ==> error == old(error))
      && (!ok ==> error.Some?)
      && (old(error).None? ==> (ok <==> within) && (error.Some? ==> error.value in {PayloadLimit, ItemLimit}))
    }

    method Write(t: Ty, v: Val) returns (ok: bool)
      requires WellFormed(t) && HasType(t, v)
      modifies this
      ensures Discipline(ok, WithinLimits(t, v))
      ensures ok && old(error).None? ==> Encodes(t, v, payload[|old(payload)|..])
      decreases t
    {
      hide Encodes, HasType, WithinLimits, WellFormed;
      match t
      case Optional(_) => ok := WriteOptional(t, v);
      case Variant(_) => ok := WriteVariant(t, v);
      case Vector(_) => ok := WriteList(t, v);
      case Array(_, _) => ok := WriteList(t, v);
      case Tuple(_) => ok := WriteList(t, v);
      case Map(_, _) => ok := WriteMap(t, v);
      case Set(_) => ok := WriteMap(t, v);
      case Aggregate(_) => ok := WriteAggregate(t, v);
      case _ => ok := WriteLeaf(t, v);
    }

    method WriteLeaf(t: Ty, v: Val) returns (ok: bool)
      requires Leaf(t)
      requires WellFormed(t) && HasType(t, v)
      modifies this
      ensures Discipline(ok, WithinLimits(t, v))
      ensures ok && old(error).None? ==> Encodes(t, v, payload[|old(payload)|..])
    {
      match t
      case Monostate => ok := true; assert payload[|old(payload)|..] == [];
      case Text => ok := RawBytes(v.data);
      case ByteArray =>
        if v == VNull { ok := QtValue(Length(NULL_LENGTH)); } else { ok := RawBytes(v.data); }
      case Bool => ok := QtValue([if v.truth then 1 else 0]);
      case Signed(_) => ok := QtValue(Integer(v.number));
      case Unsigned(_) => ok := QtValue(Integer(v.number));
    }

    method WriteOptional(t: Ty, v: Val) returns (ok: bool)
      requires t.Optional? && WellFormed(t) && HasType(t, v)
      modifies this
      ensures Discipline(ok, WithinLimits(t, v))
      ensures ok && old(error).None? ==> Encodes(t, v, payload[|old(payload)|..])
      decreases t, 0
    {
      ghost var start := payload;
      ok := QtValue([if v == VNone then 0 else 1]);
      if ok && v != VNone {
        ok := Write(t.item, v.some);
        assert payload[|start|..][1..] == payload[|start| + 1..];
      }
    }

    method WriteVariant(t: Ty, v: Val) returns (ok: bool)
      requires t.Variant? && WellFormed(t) && HasType(t, v)
      modifies this
      ensures Discipline(ok, WithinLimits(t, v))
      ensures ok && old(error).None? ==> Encodes(t, v, payload[|old(payload)|..])
      decreases t, 0
    {
      ghost var start := payload;
      ok := QtValue(Length(v.index));
      if !ok { return; }
      ok := Write(t.alternatives[v.index], v.chosen);
      assert payload[|start|..][4..] == payload[|start| + 4..];
      assert payload[|start|..][..4] == Length(v.index);
    }

    method WriteList(t: Ty, v: Val) returns (ok: bool)
      requires (t.Vector? || t.Array? || t.Tuple?) && WellFormed(t) && HasType(t, v)
      modifies this
      ensures Discipline(ok, WithinLimits(t, v))
      ensures ok && old(error).None? ==> Encodes(t, v, payload[|old(payload)|..])
      decreases t, 1
    {
      hide EncodesItems, HasItemTypes, ItemsWithinLimits;
      ghost var start := payload;
      if t.Vector? {
        ok := Count(|v.items|);
        if !ok { return; }
        ok := WriteItems(t, v.items);
        assert payload[|start|..][4..] == payload[|start| + 4..];
        assert payload[|start|..][..4] == Length(|v.items|);
      } else {
        ok := WriteItems(t, v.items);
      }
    }

    method WriteItems(t: Ty, items: seq<Val>) returns (ok: bool)
      requires t.Vector? || t.Array? || (t.Tuple? && |items| == |t.items|)
      requires WellFormed(t) && HasItemTypes(t, items)
      modifies this
      ensures Discipline(ok, ItemsWithinLimits(t, items))
      ensures ok && old(error).None? ==> EncodesItems(t, items, payload[|old(payload)|..])
      decreases t, 0
    {
      hide Encodes, EncodesItems, HasType, WithinLimits, WellFormed;
      ghost var start, done := payload, [];
      ItemsBegin(t, items);
      for i := 0 to |items|
        invariant payload == start + done || error.Some?
        invariant start <= payload && error == old(error)
        invariant error.None? ==> ItemsWithinLimits(t, items[..i]) && EncodesItems(t, items[..i], done)
      {
        ghost var before := payload;
        ok := Write(At(t, i), items[i]);
        if !ok { return false; }
        if error.None? {
          ItemsAppend(t, items, i, done, payload[|before|..]);
          done := done + payload[|before|..];
        }
      }
      assert items[..|items|] == items;
      assert error.None? ==> payload[|start|..] == done;
      ok := true;
    }

    method WriteMap(t: Ty, v: Val) returns (ok: bool)
      requires (t.Map? || t.Set?) && WellFormed(t) && HasType(t, v)
      modifies this
      ensures Discipline(ok, WithinLimits(t, v))
      ensures ok && old(error).None? ==> Encodes(t, v, payload[|old(payload)|..])
      decreases t, 1
    {
      hide EncodesEntries, HasEntryType, EntryWithinLimits;
      ghost var start := payload;
      ok := Count(|v.entries|);
      if !ok { return; }
      ok := WriteEntries(t, v.entries);
      assert payload[|start|..][4..] == payload[|start| + 4..];
      assert payload[|start|..][..4] == Length(|v.entries|);
    }

    method WriteEntry(t: Ty, key: Val, item: Val) returns (ok: bool)
      requires (t.Map? || t.Set?) && WellFormed(t) && HasEntryType(t, key, item)
      modifies this
      ensures Discipline(ok, EntryWithinLimits(t, key, item))
      ensures ok && old(error).None? ==> EncodesEntry(t, key, item, payload[|old(payload)|..])
      decreases t, 0, 0
    {
      hide Encodes, EncodesEntry, HasType, WithinLimits;
      ghost var start := payload;
      ok := Write(t.key, key);
      ghost var middle := payload;
      if ok && t.Map? { ok := Write(t.item, item); }
      if ok && error.None? {
        EntryJoined(t, key, item, middle[|start|..], payload[|middle|..]);
        assert payload[|start|..] == middle[|start|..] + payload[|middle|..];
      }
    }

    /** Visits the entries in an arbitrary order, as the containers do. */
    method WriteEntries(t: Ty, entries: map<Val, Val>) returns (ok: bool)
      requires (t.Map? || t.Set?) && WellFormed(t)
      requires forall k | k in entries :: HasEntryType(t, k, entries[k])
      modifies this
      ensures Discipline(ok, forall k | k in entries :: EntryWithinLimits(t, k, entries[k]))
      ensures ok && old(error).None? ==> EncodesEntries(t, entries, payload[|old(payload)|..])
      decreases t, 0, |entries| + 1
    {
      hide EncodesEntry, EncodesEntries, HasEntryType, EntryWithinLimits, EntriesOk, Visited, WellFormed;
      ghost var start, done := payload, [];
      var left := entries.Keys;
      EntriesBegin(t, entries);
      while left != {}
        invariant left <= entries.Keys
        invariant payload == start + done || error.Some?
        invariant start <= payload && error == old(error)
        invariant error.None? ==> Visited(t, entries, left, done)
        decreases |left|
      {
        var k :| k in left;
        ghost var before := payload;
        ok := WriteEntry(t, k, entries[k]);
        if !ok { return false; }
        if error.None? {
          EntriesAppend(t, entries, left, k, done, payload[|before|..]);
          done := done + payload[|before|..];
        }
        left := left - {k};
      }
      if error.None? {
        EntriesEnd(t, entries, done);
        assert payload[|start|..] == done;
      }
      ok := true;
    }

    method WriteAggregate(t: Ty, v: Val) returns (ok: bool)
      requires t.Aggregate? && WellFormed(t) && HasType(t, v)
      modifies this
      ensures Discipline(ok, WithinLimits(t, v))
      ensures ok && old(error).None? ==> Encodes(t, v, payload[|old(payload)|..])
      decreases t, 1
    {
      hide EncodesFields, HasType, WithinLimits, WellFormed;
      Pow256Values();
      ghost var start := payload;
      WithinFields(t, v);
      ok := QtValue(Word(1, 2));
      if !ok { return; }
      ok := Count(|t.fields|);
      if !ok { return; }
      assert payload == start + AggregateHeader(t.fields);
      ok := WriteFields(t, v);
      assert payload[|start|..][6..] == payload[|start| + 6..];
      assert payload[|start|..][..6] == AggregateHeader(t.fields);
    }

    /** Each name and then its value, in the order of the declaration. */
    method WriteFields(t: Ty, v: Val) returns (ok: bool)
      requires t.Aggregate? && WellFormed(t) && HasType(t, v) && |t.fields| <= MAX_ITEMS
      modifies this
      ensures Discipline(ok, WithinLimits(t, v))
      ensures ok && old(error).None? ==> EncodesFields(t, v, Ascending(|t.fields|), payload[|old(payload)|..])
      decreases t, 0
    {
      hide Encodes, EncodesFields, HasType, WithinLimits, WellFormed, Pieces;
      FieldFacts(t, v);
      WithinFields(t, v);
      ghost var start, done := payload, [];
      PiecesBegin(t, v);
      for i := 0 to |t.fields|
        invariant payload == start + done || error.Some?
        invariant start <= payload && error == old(error)
        invariant error.None? ==> FieldsWithin(t, v, i) && Pieces(t, v, i, done)
      {
        ok := RawBytes(t.fields[i].name);
        if !ok { return false; }
        ghost var middle := payload;
        ok := Write(t.fields[i].ty, v.values[i]);
        if !ok { return false; }
        if error.None? {
          PieceMore(t, v, i, done, payload[|middle|..]);
          done := done + Blob(t.fields[i].name) + payload[|middle|..];
        }
      }
      if error.None? {
        PiecesAreFields(t, v, |t.fields|, done);
        assert payload[|start|..] == done;
      }
      ok := true;
    }

    method Finish() returns (r: Outcome<seq<byte>>)
      ensures r == if error.Some? then Failure(error.value)
                   else if |payload| > MAX_PAYLOAD then Failure(PayloadLimit) else Success(payload)
    {
      if error.Some? { return Failure(error.value); }
      if |payload| > MAX_PAYLOAD { return Failure(PayloadLimit); }
      return Success(payload);
    }
  }

  // ---------------------------------------------------------------- reading

  class Reader {
    const payload: seq<byte>
    var position: nat
    var streamOk: bool
    var error: Option<CodecError>

    ghost predicate Valid()
      reads this
    {
      position <= |payload| && (!streamOk ==> error.Some?)
    }

    ghost function Rest(): (s: seq<byte>)
      requires position <= |payload|
      reads this
    {
      payload[position..]
    }

    /** A payload over the limit is an error before anything is read. */
    constructor (payload: seq<byte>)
      ensures Valid() && this.payload == payload && Rest() == payload
      ensures error == if |payload| > MAX_PAYLOAD then Some(PayloadLimit) else None
    {
      this.payload := payload;
      position, streamOk := 0, true;
      error := if |payload| > MAX_PAYLOAD then Some(PayloadLimit) else None;
    }

    method Fail(e: CodecError) returns (ok: bool)
      requires position <= |payload| && (!streamOk ==> error.Some?)
      modifies this`error
      ensures Valid() && !ok && error == if old(error).Some? then old(error) else Some(e)
    {
      if error.None? { error := Some(e); }
      ok := false;
    }

    /** What a read owes to its caller: the first error is kept, and without one it does what the specification says. */
    twostate predicate Reads<T>(ok: bool, new value: T, new spec: Parsed<T>)
      reads this
    {
      Valid() && position >= old(position)
      && (old(error).Some? ==> error == old(error))
      && (!ok ==> error.Some?)
      && (old(error).None? ==>
            match spec
            case Ok(v, rest) => ok && error.None? && value == v && Rest() == rest
            case Err(e) => !ok && error == Some(e))
    }

    /** Streams a big-endian word; past the end the stream fails. */
    method QtWord(width: nat) returns (ok: bool, n: nat)
      requires Valid()
      modifies this
      ensures Reads(ok, n, ReadWord(old(Rest()), width))
    {
      if |payload| - position < width {
        streamOk, n := false, 0;
        position := |payload|;
        error := if error.None? then Some(StreamFailure) else error;
        return false, 0;
      }
      n := FromBigEndian(payload[position..][..width]);
      position := position + width;
      ok := error.None?;
    }

    method RawBytes() returns (ok: bool, data: Option<seq<byte>>)
      requires Valid()
      modifies this
      ensures Reads(ok, data, ReadBlob(old(Rest())))
    {
      var length;
      ok, length := QtWord(4);
      if !ok { return false, None; }
      if length == NULL_LENGTH { return error.None?, None; }
      if |payload| - position < length {
        streamOk := false;
        position := |payload|;
        error := if error.None? then Some(StreamFailure) else error;
        return false, None;
      }
      data := Some(payload[position..][..length]);
      position := position + length;
      if error.Some? { return false, data; }
      if length > MAX_PAYLOAD { ok := Fail(ByteArrayLimit); return; }
      ok := true;
    }

    method Count() returns (ok: bool, n: nat)
      requires Valid()
      modifies this
      ensures Reads(ok, n, ReadCount(old(Rest())))
    {
      ok, n := QtWord(4);
      if ok && n > MAX_ITEMS { ok := Fail(ItemLimit); }
    }

    method Read(t: Ty) returns (ok: bool, v: Val)
      requires Valid()
      modifies this
      ensures Reads(ok, v, Parse(t, old(Rest())))
      decreases t
    {
      match t
      case Monostate => ok, v := true, VUnit;
      case Optional(_) => ok, v := ReadOptional(t);
      case Variant(_) => ok, v := ReadVariant(t);
      case Vector(_) => ok, v := ReadList(t);
      case Array(_, _) => ok, v := ReadList(t);
      case Tuple(_) => ok, v := ReadList(t);
      case Map(_, _) => ok, v := ReadMap(t);
      case Set(_) => ok, v := ReadMap(t);
      case Aggregate(_) => ok, v := ReadAggregate(t);
      case _ => ok, v := ReadLeaf(t);
    }

    method ReadLeaf(t: Ty) returns (ok: bool, v: Val)
      requires t in {Text, ByteArray, Bool} || t.Signed? || t.Unsigned?
      requires Valid()
      modifies this
      ensures Reads(ok, v, Parse(t, old(Rest())))
    {
      v := VUnit;
      if t == Text || t == ByteArray {
        var data;
        ok, data := RawBytes();
        v := if data.Some? then VBytes(data.value) else if t == Text then VBytes([]) else VNull;
      } else if t == Bool {
        var n;
        ok, n := QtWord(1);
        if !ok || n > 1 { ok := Fail(BooleanValue); return; }
        v := VBool(n != 0);
      } else {
        ok, v := ReadInteger(t);
      }
    }

    method ReadInteger(t: Ty) returns (ok: bool, v: Val)
      requires t.Signed? || t.Unsigned?
      requires Valid()
      modifies this
      ensures Reads(ok, v, Parse(t, old(Rest())))
    {
      hide ReadWord;
      v := VUnit;
      var n;
      ok, n := QtWord(8);
      if !ok { return; }
      var i := if t.Signed? then FromTwosComplement(n) else n;
      if t.Signed? && !(-SignedLimit(t.bits) <= i < SignedLimit(t.bits)) { ok := Fail(IntegerRange); return; }
      if t.Unsigned? && i >= UnsignedLimit(t.bits) { ok := Fail(IntegerRange); return; }
      v := VInt(i);
    }

    method ReadOptional(t: Ty) returns (ok: bool, v: Val)
      requires t.Optional? && Valid()
      modifies this
      ensures Reads(ok, v, Parse(t, old(Rest())))
      decreases t, 0
    {
      var flag;
      v := VNone;
      ok, flag := QtWord(1);
      if !ok || flag == 0 { return; }
      var item;
      ok, item := Read(t.item);
      if ok { v := VSome(item); }
    }

    method ReadVariant(t: Ty) returns (ok: bool, v: Val)
      requires t.Variant? && Valid()
      modifies this
      ensures Reads(ok, v, Parse(t, old(Rest())))
      decreases t, 0
    {
      var index;
      v := VUnit;
      ok, index := QtWord(4);
      if !ok { return; }
      if index >= |t.alternatives| { ok := Fail(VariantIndex); return; }
      var item;
      ok, item := Read(t.alternatives[index]);
      if ok { v := VCase(index, item); }
    }

    method ReadList(t: Ty) returns (ok: bool, v: Val)
      requires (t.Vector? || t.Array? || t.Tuple?) && Valid()
      modifies this
      ensures Reads(ok, v, Parse(t, old(Rest())))
      decreases t, 1
    {
      hide ParseItems;
      var n := if t.Tuple? then |t.items| else if t.Array? then t.size else 0;
      v := VUnit;
      if t.Vector? {
        ok, n := Count();
        if !ok { return; }
      }
      var items;
      ok, items := ReadItems(t, n);
      v := VList(items);
    }

    method ReadItems(t: Ty, n: nat) returns (ok: bool, items: seq<Val>)
      requires t.Vector? || t.Array? || (t.Tuple? && n <= |t.items|)
      requires Valid()
      modifies this
      ensures Reads(ok, items, ParseItems(t, n, old(Rest()), []))
      decreases t, 0
    {
      hide Parse;
      items := [];
      for i := 0 to n
        invariant Valid() && |items| == i && position >= old(position)
        invariant old(error).Some? ==> error == old(error)
        invariant old(error).None? ==>
          error.None? && ParseItems(t, n, old(Rest()), []) == ParseItems(t, n - i, Rest(), items)
      {
        var item;
        ok, item := Read(At(t, i));
        if !ok { return; }
        items := items + [item];
      }
      ok := true;
    }

    method ReadMap(t: Ty) returns (ok: bool, v: Val)
      requires (t.Map? || t.Set?) && Valid()
      modifies this
      ensures Reads(ok, v, Parse(t, old(Rest())))
      decreases t, 1
    {
      hide ParseEntries;
      var n;
      v := VUnit;
      ok, n := Count();
      if !ok { return; }
      var entries;
      ok, entries := ReadEntries(t, n);
      v := VMap(entries);
    }

    method ReadEntry(t: Ty) returns (ok: bool, entry: (Val, Val))
      requires (t.Map? || t.Set?) && Valid()
      modifies this
      ensures Reads(ok, entry, ParseEntry(t, old(Rest())))
      decreases t, 0, 0
    {
      hide Parse;
      var key, item := VUnit, VUnit;
      ok, key := Read(t.key);
      if ok && t.Map? { ok, item := Read(t.item); }
      entry := (key, item);
    }

    method ReadEntries(t: Ty, n: nat) returns (ok: bool, entries: map<Val, Val>)
      requires (t.Map? || t.Set?) && Valid()
      modifies this
      ensures Reads(ok, entries, ParseEntries(t, n, old(Rest()), map[]))
      decreases t, 0, 1
    {
      hide Parse, ParseEntry;
      entries := map[];
      for i := 0 to n
        invariant Valid() && position >= old(position)
        invariant old(error).Some? ==> error == old(error)
        invariant old(error).None? ==>
          error.None? && ParseEntries(t, n, old(Rest()), map[]) == ParseEntries(t, n - i, Rest(), entries)
      {
        var entry;
        ok, entry := ReadEntry(t);
        if !ok { return; }
        entries := Emplace(entries, entry.0, entry.1);
      }
      ok := true;
    }

    method ReadAggregate(t: Ty) returns (ok: bool, v: Val)
      requires t.Aggregate? && Valid()
      modifies this
      ensures Reads(ok, v, Parse(t, old(Rest())))
      decreases t, 1
    {
      hide ParseFields;
      var schema, n;
      v := VUnit;
      ok, schema := QtWord(2);
      if !ok || schema != 1 { ok := Fail(AggregateSchema); return; }
      ok, n := Count();
      if !ok || n != |t.fields| { ok := Fail(FieldCount); return; }
      ok, v := ReadFields(t, n);
    }

    method ReadField(t: Ty, seen: seq<Option<Val>>) returns (ok: bool, field: (nat, Val))
      requires t.Aggregate? && |seen| == |t.fields| && Valid()
      modifies this
      ensures Reads(ok, field, ParseField(t, old(Rest()), seen))
      ensures ok ==> field.0 < |seen| && seen[field.0].None?
      decreases t, 0, 0
    {
      hide Parse, FindField;
      var name, v;
      field := (0, VUnit);
      ok, name := RawBytes();
      if !ok { return; }
      var index := FindField(t.fields, name.GetOr([]));
      if index.None? { ok := Fail(FieldUnknown); return; }
      if seen[index.value].Some? { ok := Fail(FieldDuplicated); return; }
      ok, v := Read(t.fields[index.value].ty);
      field := (index.value, v);
    }

    method ReadFields(t: Ty, n: nat) returns (ok: bool, v: Val)
      requires t.Aggregate? && Valid()
      modifies this
      ensures Reads(ok, v, ParseFields(t, n, old(Rest()), Unseen(|t.fields|)))
      decreases t, 0, 1
    {
      hide Parse, ParseField;
      v := VUnit;
      var seen := Unseen(|t.fields|);
      for i := 0 to n
        invariant Valid() && position >= old(position) && |seen| == |t.fields|
        invariant old(error).Some? ==> error == old(error)
        invariant old(error).None? ==>
          error.None? && ParseFields(t, n, old(Rest()), Unseen(|t.fields|)) == ParseFields(t, n - i, Rest(), seen)
      {
        var field;
        ok, field := ReadField(t, seen);
        if !ok { return; }
        seen := seen[field.0 := Some(field.1)];
      }
      if !AllSeen(seen) { ok := Fail(FieldMissing); return; }
      ok, v := true, VRecord(Values(seen));
    }

    /** Nothing may follow the value. */
    method Finish() returns (failure: Option<CodecError>)
      requires Valid()
      ensures failure == if error.Some? then error else if Rest() != [] then Some(TrailingData) else None
    {
      if error.Some? { return error; }
      if position < |payload| { return Some(TrailingData); }
      return None;
    }
  }

  // ---------------------------------------------------------------- whole payloads

  /** Encoding succeeds exactly within the limits on items, byte strings and the whole payload. */
  method Encode(ts: seq<Ty>, vs: seq<Val>) returns (r: Outcome<seq<byte>>)
    requires WellFormed(Tuple(ts)) && HasType(Tuple(ts), VList(vs))
    ensures r.Success? <==> WithinLimits(Tuple(ts), VList(vs)) && Size(Tuple(ts), VList(vs)) <= MAX_PAYLOAD
    ensures r.Success? ==> Encodes(Tuple(ts), VList(vs), r.value) && |r.value| <= MAX_PAYLOAD
    ensures r.Failure? ==> r.error in {PayloadLimit, ItemLimit}
    ensures r.Failure? && WithinLimits(Tuple(ts), VList(vs)) ==> r.error == PayloadLimit
  {
    hide Encodes, HasType, WithinLimits, WellFormed, Size;
    var writer := new Writer();
    var ok := writer.Write(Tuple(ts), VList(vs));
    assert writer.payload[0..] == writer.payload;
    if ok { EncodedSize(Tuple(ts), VList(vs), writer.payload); }
    r := writer.Finish();
  }

  method Decode(ts: seq<Ty>, payload: seq<byte>) returns (r: Outcome<Val>)
    ensures r == Decoded(Tuple(ts), payload)
  {
    hide Parse;
    var reader := new Reader(payload);
    var ok, v := reader.Read(Tuple(ts));
    var failure := reader.Finish();
    if failure.Some? { return Failure(failure.value); }
    return Success(v);
  }

  /** The payload carries the version first; only the same version is accepted. */
  function DecodedVersioned(version: nat, ts: seq<Ty>, payload: seq<byte>): (r: Outcome<seq<Val>>) {
    match Decoded(Tuple([Unsigned(16)] + ts), payload)
    case Failure(e) => Failure(e)
    case Success(v) =>
      if v.VList? && |v.items| > 0 && v.items[0] == VInt(version) then Success(v.items[1..])
      else Failure(ActionSchema)
  }

  method EncodeVersioned(version: nat, ts: seq<Ty>, vs: seq<Val>) returns (r: Outcome<seq<byte>>)
    requires version < 0x1_0000
    requires WellFormed(Tuple([Unsigned(16)] + ts)) && HasType(Tuple([Unsigned(16)] + ts), VList([VInt(version)] + vs))
    ensures r.Success? ==>
      WithinLimits(Tuple([Unsigned(16)] + ts), VList([VInt(version)] + vs))
      && Encodes(Tuple([Unsigned(16)] + ts), VList([VInt(version)] + vs), r.value)
    ensures r.Success? ==>
      forall other: nat ::
        DecodedVersioned(other, ts, r.value) == if other == version then Success(vs) else Failure(ActionSchema)
  {
    hide Encodes, HasType, WithinLimits, WellFormed, Size, Parse;
    r := Encode([Unsigned(16)] + ts, [VInt(version)] + vs);
    if r.Success? { VersionChecked(version, ts, vs, r.value); }
  }

  /** What one version encodes, that version decodes and every other version refuses. */
  lemma VersionChecked(version: nat, ts: seq<Ty>, vs: seq<Val>, payload: seq<byte>)
    requires WellFormed(Tuple([Unsigned(16)] + ts)) && HasType(Tuple([Unsigned(16)] + ts), VList([VInt(version)] + vs))
    requires WithinLimits(Tuple([Unsigned(16)] + ts), VList([VInt(version)] + vs))
    requires Encodes(Tuple([Unsigned(16)] + ts), VList([VInt(version)] + vs), payload) && |payload| <= MAX_PAYLOAD
    ensures forall other: nat ::
      DecodedVersioned(other, ts, payload) == if other == version then Success(vs) else Failure(ActionSchema)
  {
    hide Encodes, HasType, WithinLimits, WellFormed, Size, Parse;
    RoundTrip(Tuple([Unsigned(16)] + ts), VList([VInt(version)] + vs), payload);
    assert ([VInt(version)] + vs)[1..] == vs;
  }

  method DecodeVersioned(version: nat, ts: seq<Ty>, payload: seq<byte>) returns (r: Outcome<seq<Val>>)
    requires version < 0x1_0000 && WellFormed(Tuple([Unsigned(16)] + ts))
    ensures r == DecodedVersioned(version, ts, payload)
    ensures r.Success? ==> HasType(Tuple([Unsigned(16)] + ts), VList([VInt(version)] + r.value))
  {
    hide HasType, WithinLimits, WellFormed, Size, Parse;
    var decoded := Decode([Unsigned(16)] + ts, payload);
    if decoded.Failure? { return Failure(decoded.error); }
    ParseSound(Tuple([Unsigned(16)] + ts), payload);
    var v := decoded.value;
    if !(v.VList? && |v.items| > 0 && v.items[0] == VInt(version)) { return Failure(ActionSchema); }
    assert v.items == [VInt(version)] + v.items[1..];
    return Success(v.items[1..]);
  }

  // ---------------------------------------------------------------- loop steps of the writer

  lemma WithinFields(t: Ty, v: Val)
    requires t.Aggregate? && WellFormed(t) && HasType(t, v)
    ensures v.VRecord? && |v.values| == |t.fields|
    ensures forall i | 0 <= i < |t.fields| :: HasType(t.fields[i].ty, v.values[i])
    ensures WithinLimits(t, v) <==> |t.fields| <= MAX_ITEMS && forall i | 0 <= i < |t.fields| ::
      |t.fields[i].name| <= MAX_PAYLOAD && WithinLimits(t.fields[i].ty, v.values[i])
  {
  }

  lemma ItemsBegin(t: Ty, items: seq<Val>)
    requires t.Vector? || t.Array? || (t.Tuple? && |items| <= |t.items|)
    requires WellFormed(t)
    ensures ItemsWithinLimits(t, items[..0]) && EncodesItems(t, items[..0], [])
  {
  }

  lemma ItemsAppend(t: Ty, items: seq<Val>, i: nat, front: seq<byte>, last: seq<byte>)
    requires t.Vector? || t.Array? || (t.Tuple? && |items| <= |t.items|)
    requires WellFormed(t) && HasItemTypes(t, items) && i < |items|
    requires ItemsWithinLimits(t, items[..i]) && WithinLimits(At(t, i), items[i])
    requires EncodesItems(t, items[..i], front) && Encodes(At(t, i), items[i], last)
    ensures ItemsWithinLimits(t, items[..i + 1]) && EncodesItems(t, items[..i + 1], front + last)
  {
    hide Encodes, HasType, WithinLimits, WellFormed;
    var bytes := front + last;
    assert items[..i + 1][..i] == items[..i];
    assert bytes[..|front|] == front && bytes[|front|..] == last;
  }

  /** All but the entries in `left` have been written. */
  ghost predicate Visited(t: Ty, entries: map<Val, Val>, left: set<Val>, bytes: seq<byte>)
    requires (t.Map? || t.Set?) && WellFormed(t)
  {
    EntriesOk(t, entries - left) && EncodesEntries(t, entries - left, bytes)
  }

  lemma EntriesEnd(t: Ty, entries: map<Val, Val>, bytes: seq<byte>)
    requires (t.Map? || t.Set?) && WellFormed(t) && Visited(t, entries, {}, bytes)
    ensures forall k | k in entries :: HasEntryType(t, k, entries[k]) && EntryWithinLimits(t, k, entries[k])
    ensures EncodesEntries(t, entries, bytes)
  {
    hide HasEntryType, EntryWithinLimits, EncodesEntries, WellFormed;
    assert entries - {} == entries;
  }

  lemma EntriesBegin(t: Ty, entries: map<Val, Val>)
    requires (t.Map? || t.Set?) && WellFormed(t)
    ensures Visited(t, entries, entries.Keys, [])
  {
    assert entries - entries.Keys == map[];
  }

  lemma EntriesAppend(t: Ty, entries: map<Val, Val>, left: set<Val>, k: Val, front: seq<byte>, last: seq<byte>)
    requires (t.Map? || t.Set?) && WellFormed(t) && left <= entries.Keys && k in left
    requires HasEntryType(t, k, entries[k]) && EntryWithinLimits(t, k, entries[k])
    requires Visited(t, entries, left, front) && EncodesEntry(t, k, entries[k], last)
    ensures Visited(t, entries, left - {k}, front + last)
  {
    hide Encodes, EncodesEntry, HasType, HasEntryType, EntryWithinLimits, WellFormed;
    var bytes, more := front + last, entries - (left - {k});
    assert more - {k} == entries - left;
    forall k' | k' in more ensures HasEntryType(t, k', more[k']) && EntryWithinLimits(t, k', more[k']) {
      assert k' != k ==> k' in entries - left && (entries - left)[k'] == more[k'];
    }
    assert k in more && more[k] == entries[k];
    assert bytes[..|front|] == front && bytes[|front|..] == last;
  }

  ghost predicate FieldsWithin(t: Ty, v: Val, n: nat)
    requires t.Aggregate? && WellFormed(t) && HasType(t, v) && n <= |t.fields|
  {
    forall j | 0 <= j < n :: |t.fields[j].name| <= MAX_PAYLOAD && WithinLimits(t.fields[j].ty, v.values[j])
  }

  /** The first `n` fields, written one after the other. */
  ghost predicate Pieces(t: Ty, v: Val, n: nat, bytes: seq<byte>)
    requires t.Aggregate? && WellFormed(t) && HasType(t, v) && n <= |t.fields|
    requires FieldsWithin(t, v, n)
  {
    if n == 0 then bytes == []
    else exists cut, mid | 0 <= cut <= mid <= |bytes| ::
      Pieces(t, v, n - 1, bytes[..cut]) && bytes[cut..mid] == Blob(t.fields[n - 1].name)
      && Encodes(t.fields[n - 1].ty, v.values[n - 1], bytes[mid..])
  }

  lemma PiecesBegin(t: Ty, v: Val)
    requires t.Aggregate? && WellFormed(t) && HasType(t, v)
    ensures FieldsWithin(t, v, 0) && Pieces(t, v, 0, [])
  {
  }

  lemma PieceMore(t: Ty, v: Val, n: nat, front: seq<byte>, last: seq<byte>)
    requires t.Aggregate? && WellFormed(t) && HasType(t, v) && n < |t.fields|
    requires FieldsWithin(t, v, n) && |t.fields[n].name| <= MAX_PAYLOAD && WithinLimits(t.fields[n].ty, v.values[n])
    requires Pieces(t, v, n, front) && WellFormed(t.fields[n].ty) && HasType(t.fields[n].ty, v.values[n])
    requires Encodes(t.fields[n].ty, v.values[n], last)
    ensures FieldsWithin(t, v, n + 1) && Pieces(t, v, n + 1, front + Blob(t.fields[n].name) + last)
  {
    hide Encodes, HasType, WithinLimits, WellFormed;
    var name := Blob(t.fields[n].name);
    var bytes := front + name + last;
    assert bytes[..|front|] == front && bytes[|front|..|front| + |name|] == name;
    assert bytes[|front| + |name|..] == last;
  }

  lemma {:induction false} PiecesAreFields(t: Ty, v: Val, n: nat, bytes: seq<byte>)
    requires t.Aggregate? && WellFormed(t) && HasType(t, v) && WithinLimits(t, v) && n <= |t.fields|
    requires FieldsWithin(t, v, n)
    requires Pieces(t, v, n, bytes)
    ensures EncodesFields(t, v, Ascending(n), bytes)
  {
    hide Encodes, HasType, WithinLimits, WellFormed;
    FieldFacts(t, v);
    if n > 0 {
      var cut, mid :| 0 <= cut <= mid <= |bytes|
        && Pieces(t, v, n - 1, bytes[..cut]) && bytes[cut..mid] == Blob(t.fields[n - 1].name)
        && Encodes(t.fields[n - 1].ty, v.values[n - 1], bytes[mid..]);
      PiecesAreFields(t, v, n - 1, bytes[..cut]);
      assert Ascending(n)[..n - 1] == Ascending(n - 1);
    }
  }
}
