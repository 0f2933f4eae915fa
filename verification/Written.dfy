/** What DatumWriter writes is a well-formed encoding, so skipping it stops at its end. */
module Written {
  import opened Basics
  import opened Varint
  import opened Schemas
  import opened Encoding
  import opened Decoding
  import opened Grammar

  lemma BytesRoundTrip(data: seq<byte>, suffix: seq<byte>)
    ensures ReadBytes(WriteBytes(data) + suffix) == Success((data, suffix))
    ensures ScanBytes(WriteBytes(data) + suffix) == Some(suffix)
  {
    assert WriteBytes(data) + suffix == Long(|data|) + (data + suffix);
    LongRoundTrip(|data|, data + suffix);
    TakeExact(data, suffix);
  }

  lemma TextRoundTrip(p: Platform, s: string, suffix: seq<byte>)
    requires Sound(p)
    ensures ReadText(p, WriteBytes(p.encodeText(s)) + suffix) == Success((s, suffix))
    ensures ScanText(p, WriteBytes(p.encodeText(s)) + suffix) == Some(suffix)
  {
    BytesRoundTrip(p.encodeText(s), suffix);
  }

  lemma PrimitiveRoundTrip(p: Platform, prim: Primitive, d: Datum, suffix: seq<byte>)
    requires Sound(p) && ValidPrimitive(prim, d)
    ensures ReadPrimitive(p, prim, WritePrimitive(p, prim, d) + suffix) == Success((NormPrimitive(p, prim, d), suffix))
    ensures ScanPrimitive(p, prim, WritePrimitive(p, prim, d) + suffix) == Some(suffix)
  {
    match prim
    case PNull => assert [] + suffix == suffix;
    case PBoolean => TakeExact(WritePrimitive(p, prim, d), suffix);
    case PString => TextRoundTrip(p, d.s, suffix);
    case PBytes => BytesRoundTrip(d.data, suffix);
    case PInt => LongRoundTrip(d.n, suffix);
    case PLong => LongRoundTrip(d.n, suffix);
    case PFloat => TakeExact(p.packFloat(d), suffix);
    case PDouble => TakeExact(p.packDouble(d), suffix);
  }

  lemma HeadRoundTrip(n: nat, suffix: seq<byte>)
    ensures ReadHead(Long(n) + suffix) == Success((Head(n, None), suffix))
  {
    LongRoundTrip(n, suffix);
  }

  /** Every datum is written as a well-formed encoding of its schema, whatever follows it. */
  lemma {:induction false} ScanWrite(p: Platform, defs: Defs, s: Schema, d: Datum, suffix: seq<byte>)
    requires Sound(p) && Guarded(defs) && Validate(defs, s, d)
    ensures Scan(p, defs, s, Write(p, defs, s, d) + suffix) == Some(suffix)
    decreases d != Null, d, 1, s
  {
    hide Guarded, Sound, IsSuffix, ScanBlock, WriteBlock, ScanPrimitive, WritePrimitive;
    match s
    case Prim(prim) => PrimitiveRoundTrip(p, prim, d, suffix);
    case Array(items) =>
      ItemsAreValid(p, defs, items, d);
      ScanWriteBlock(p, false, defs, items, d, suffix);
    case Map(values) =>
      ItemsAreValid(p, defs, values, d);
      ScanWriteBlock(p, true, defs, values, d, suffix);
    case Union(_) => ScanWriteUnion(p, defs, s, d, suffix);
    case Named(_) => ScanWriteNamed(p, defs, s, d, suffix);
  }

  lemma {:induction false} ScanWriteUnion(p: Platform, defs: Defs, s: Schema, d: Datum, suffix: seq<byte>)
    requires Sound(p) && Guarded(defs) && s.Union? && Validate(defs, s, d)
    ensures Scan(p, defs, s, Write(p, defs, s, d) + suffix) == Some(suffix)
    decreases d != Null, d, 1, s, 0
  {
    hide Guarded, Sound, IsSuffix, Long, ReadLong;
    var i := LastValid(defs, s.branches, d);
    var tail := Write(p, defs, s.branches[i], d) + suffix;
    assert Write(p, defs, s, d) + suffix == Long(i) + tail;
    LongRoundTrip(i, tail);
    ScanWrite(p, defs, s.branches[i], d, suffix);
  }

  lemma {:induction false} ScanWriteNamed(p: Platform, defs: Defs, s: Schema, d: Datum, suffix: seq<byte>)
    requires Sound(p) && Guarded(defs) && s.Named? && Validate(defs, s, d)
    ensures Scan(p, defs, s, Write(p, defs, s, d) + suffix) == Some(suffix)
    decreases d != Null, d, 1, s, 0
  {
    hide Guarded, Sound, IsSuffix, ScanFields, WriteFields, Long, ReadLong;
    match defs[s.fullname]
    case Fixed(size) => TakeExact(d.data, suffix);
    case Enum(symbols) => LongRoundTrip(IndexOf(symbols, d.s), suffix);
    case Record(_, _) => ScanWriteFields(p, defs, s.fullname, d, 0, suffix);
  }

  lemma {:induction false} ScanWriteBlock(p: Platform, keyed: bool, defs: Defs, s: Schema, d: Datum, suffix: seq<byte>)
    requires Sound(p) && Guarded(defs) && keyed == d.Dict? && ValidEntries(p, defs, s, d)
    ensures ScanBlock(p, keyed, defs, s, WriteBlock(p, defs, s, d) + suffix) == Some(suffix)
    decreases true, d, 0, Count(p, d) + 1
  {
    hide Guarded, Sound, IsSuffix, Count, KeyAt, ItemAt, WriteItems, ReadHead, ScanItems, Long, Validate;
    var n := Count(p, d);
    HeadRoundTrip(0, suffix);
    if n > 0 {
      var tail := WriteItems(p, defs, s, d, 0) + suffix;
      assert WriteBlock(p, defs, s, d) + suffix == Long(n) + tail;
      HeadRoundTrip(n, tail);
      ScanWriteItems(p, keyed, defs, s, d, 0, suffix);
    }
  }

  /** The key of an entry and what follows it. */
  lemma KeyRoundTrip(p: Platform, keyed: bool, key: string, suffix: seq<byte>)
    requires Sound(p) && (keyed || key == "")
    ensures ScanKey(p, keyed, WriteKey(p, keyed, key) + suffix) == Some(suffix)
    ensures ReadKey(p, keyed, WriteKey(p, keyed, key) + suffix) == Success((key, suffix))
  {
    if keyed {
      TextRoundTrip(p, key, suffix);
    } else {
      assert [] + suffix == suffix;
    }
  }

  /** Entry i and the rest of its block. */
  lemma SplitItems(p: Platform, defs: Defs, s: Schema, d: Datum, i: nat, suffix: seq<byte>) returns (tail: seq<byte>)
    requires Sound(p) && ValidEntries(p, defs, s, d) && i < Count(p, d)
    ensures tail == WriteItems(p, defs, s, d, i + 1) + suffix
    ensures var (key, value) := (KeyAt(p, d, i), ItemAt(p, d, i));
      WriteItems(p, defs, s, d, i) + suffix == WriteKey(p, d.Dict?, key) + (Write(p, defs, s, value) + tail)
  {
    hide Sound, Count, KeyAt, ItemAt, Write, WriteKey;
    tail := WriteItems(p, defs, s, d, i + 1) + suffix;
  }

  lemma ScanNoItems(p: Platform, keyed: bool, defs: Defs, s: Schema, suffix: seq<byte>)
    requires Guarded(defs)
    ensures ScanItems(p, keyed, defs, s, 0, None, Long(0) + suffix) == Some(suffix)
  {
    hide Guarded, ReadHead;
    HeadRoundTrip(0, suffix);
  }

  /** An entry that is well formed is passed over. */
  lemma ScanOneItem(p: Platform, keyed: bool, defs: Defs, s: Schema, n: nat, key: string, data: seq<byte>,
                    tail: seq<byte>)
    requires Sound(p) && Guarded(defs) && (keyed || key == "") && n > 0
    requires Scan(p, defs, s, data + tail) == Some(tail)
    ensures ScanItems(p, keyed, defs, s, n, None, WriteKey(p, keyed, key) + (data + tail))
      == ScanItems(p, keyed, defs, s, n - 1, None, tail)
  {
    hide Guarded, Sound, IsSuffix, Scan, ScanKey, ScanBlock, WriteKey;
    KeyRoundTrip(p, keyed, key, data + tail);
  }

  lemma {:induction false} ScanWriteItems(p: Platform, keyed: bool, defs: Defs, s: Schema, d: Datum, i: nat,
                                          suffix: seq<byte>)
    requires Sound(p) && Guarded(defs) && keyed == d.Dict? && ValidEntries(p, defs, s, d) && i <= Count(p, d)
    ensures ScanItems(p, keyed, defs, s, Count(p, d) - i, None, WriteItems(p, defs, s, d, i) + suffix) == Some(suffix)
    decreases true, d, 0, Count(p, d) - i
  {
    hide Guarded, Sound, Scan, ScanItems, Write, Validate, Count, KeyAt, ItemAt, WriteKey, Long;
    if i == Count(p, d) {
      ScanNoItems(p, keyed, defs, s, suffix);
    } else {
      hide WriteItems;
      var (key, value) := (KeyAt(p, d, i), ItemAt(p, d, i));
      var tail := SplitItems(p, defs, s, d, i, suffix);
      ScanWrite(p, defs, s, value, tail);
      ScanOneItem(p, keyed, defs, s, Count(p, d) - i, key, Write(p, defs, s, value), tail);
      ScanWriteItems(p, keyed, defs, s, d, i + 1, suffix);
    }
  }

  lemma {:induction false} ScanWriteFields(p: Platform, defs: Defs, n: string, d: Datum, i: nat, suffix: seq<byte>)
    requires Sound(p) && Guarded(defs) && n in defs && defs[n].Record? && Validate(defs, Named(n), d)
    requires i <= |defs[n].fields|
    ensures ScanFields(p, defs, n, i, WriteFields(p, defs, n, d, i) + suffix) == Some(suffix)
    decreases true, d, 0, |defs[n].fields| - i
  {
    hide Guarded, Sound, IsSuffix, Scan, Write;
    var fields := defs[n].fields;
    if i == |fields| {
      assert [] + suffix == suffix;
    } else {
      var tail := WriteFields(p, defs, n, d, i + 1) + suffix;
      var head := Write(p, defs, fields[i].ftype, Get(d.entries, fields[i].name));
      assert WriteFields(p, defs, n, d, i) + suffix == head + tail;
      ScanWrite(p, defs, fields[i].ftype, Get(d.entries, fields[i].name), tail);
      ScanWriteFields(p, defs, n, d, i + 1, suffix);
    }
  }

  /** skip_data passes over exactly what write_data wrote. */
  lemma SkipWrite(p: Platform, defs: Defs, s: Schema, d: Datum, suffix: seq<byte>)
    requires Sound(p) && Guarded(defs) && Validate(defs, s, d)
    ensures Skip(defs, s, Write(p, defs, s, d) + suffix) == Success(suffix)
  {
    ScanWrite(p, defs, s, d, suffix);
    SkipFollowsScan(p, defs, s, Write(p, defs, s, d) + suffix);
  }
}
