/** Validation and encoding of data (avro/devices/avro/io.py: validate, DatumWriter). */
module Encoding {
  import opened Basics
  import opened Varint
  import opened Schemas

  /** What the library takes from Python itself: text and number conversions, and dict order. */
  datatype Platform = Platform(
    encodeText: string -> seq<byte>,            // s.encode("utf-8")
    decodeText: seq<byte> -> Option<string>,    // unicode(bytes, "utf-8")
    floatPacks: Datum -> bool,                  // whether struct '!f' takes the number
    packFloat: Datum -> seq<byte>,              // struct '!f', bytes reversed
    unpackFloat: seq<byte> -> int,
    doublePacks: Datum -> bool,                 // whether struct '!d' takes the number
    packDouble: Datum -> seq<byte>,             // struct '!d', bytes reversed
    unpackDouble: seq<byte> -> int,
    keys: map<string, Datum> -> seq<string>,    // the order of dict.items()
    toBool: Json -> bool,                       // bool(x)
    toInt: Json -> Option<int>,                 // int(x), long(x)
    toFloat: Json -> Option<int>,               // float(x)
    stackDepth: nat)                            // frames left to recursive calls

  ghost predicate Enumerates(keys: seq<string>, m: map<string, Datum>) {
    Distinct(keys) && forall k :: k in keys <==> k in m
  }

  /** Text survives encoding, floats have their width, and items() lists each key once. */
  ghost predicate Sound(p: Platform) {
    && (forall s :: p.decodeText(p.encodeText(s)) == Some(s))
    && (forall d :: |p.packFloat(d)| == 4)
    && (forall d :: |p.packDouble(d)| == 8)
    && (forall m :: Enumerates(p.keys(m), m))
  }

  predicate ValidPrimitive(prim: Primitive, d: Datum) {
    match prim
    case PNull => d.Null?
    case PBoolean => d.Bool?
    case PString => d.Text?
    case PBytes => d.Bytes?
    case PInt => d.Int? && INT_MIN <= d.n <= INT_MAX
    case PLong => d.Int? && LONG_MIN <= d.n <= LONG_MAX
    case PFloat => d.Int? || d.Float?
    case PDouble => d.Int? || d.Float?
  }

  /** `validate(schema, datum)` */
  predicate Validate(defs: Defs, s: Schema, d: Datum)
    decreases d != Null, d, s
  {
    match s
    case Prim(prim) => ValidPrimitive(prim, d)
    case Array(items) => d.List? && forall i :: 0 <= i < |d.items| ==> Validate(defs, items, d.items[i])
    case Map(values) => d.Dict? && forall k :: k in d.entries ==> Validate(defs, values, d.entries[k])
    case Union(bs) => exists i :: 0 <= i < |bs| && Validate(defs, bs[i], d)
    case Named(n) =>
      n in defs &&
      match defs[n]
      case Fixed(size) => d.Bytes? && |d.data| == size
      case Enum(symbols) => d.Text? && d.s in symbols
      case Record(_, fields) =>
        d.Dict? && forall i :: 0 <= i < |fields| ==> Validate(defs, fields[i].ftype, Get(d.entries, fields[i].name))
  }

  /** The writer's branch of a union: its loop runs on past a match, so the last valid one. */
  function LastValid(defs: Defs, bs: seq<Schema>, d: Datum): (i: int)
    ensures -1 <= i < |bs|
    ensures i >= 0 ==> Validate(defs, bs[i], d)
    ensures forall j :: i < j < |bs| ==> !Validate(defs, bs[j], d)
  {
    if bs == [] then -1
    else if Validate(defs, bs[|bs| - 1], d) then |bs| - 1
    else LastValid(defs, bs[..|bs| - 1], d)
  }

  /** The number of items of a list or entries of a dict. */
  function Count(p: Platform, d: Datum): (n: nat)
    requires d.List? || d.Dict?
  {
    if d.List? then |d.items| else |p.keys(d.entries)|
  }

  /** Item i of a list, or the value of entry i of a dict in the order the entries are written. */
  function ItemAt(p: Platform, d: Datum, i: nat): (item: Datum)
    requires Sound(p) && (d.List? || d.Dict?) && i < Count(p, d)
    ensures item < d
  {
    if d.List? then d.items[i]
    else
      assert Enumerates(p.keys(d.entries), d.entries);
      d.entries[p.keys(d.entries)[i]]
  }

  function KeyAt(p: Platform, d: Datum, i: nat): (key: string)
    requires (d.List? || d.Dict?) && i < Count(p, d)
    ensures d.List? ==> key == ""
  {
    if d.List? then "" else p.keys(d.entries)[i]
  }

  predicate ValidEntries(p: Platform, defs: Defs, s: Schema, d: Datum)
    requires Sound(p)
  {
    (d.List? || d.Dict?) && forall i :: 0 <= i < Count(p, d) ==> Validate(defs, s, ItemAt(p, d, i))
  }

  lemma ItemsAreValid(p: Platform, defs: Defs, s: Schema, d: Datum)
    requires Sound(p) && (Validate(defs, Array(s), d) || Validate(defs, Map(s), d))
    ensures ValidEntries(p, defs, s, d)
  {
    if d.Dict? {
      assert Enumerates(p.keys(d.entries), d.entries);
    }
  }

  function WriteBytes(data: seq<byte>): seq<byte> {
    Long(|data|) + data
  }

  /** Only the entries of a map have a key. */
  function WriteKey(p: Platform, keyed: bool, key: string): seq<byte> {
    if keyed then WriteBytes(p.encodeText(key)) else []
  }

  function WritePrimitive(p: Platform, prim: Primitive, d: Datum): seq<byte>
    requires ValidPrimitive(prim, d)
  {
    match prim
    case PNull => []
    case PBoolean => [if d.b then 1 else 0]
    case PString => WriteBytes(p.encodeText(d.s))
    case PBytes => WriteBytes(d.data)
    case PInt => Long(d.n)
    case PLong => Long(d.n)
    case PFloat => p.packFloat(d)
    case PDouble => p.packDouble(d)
  }

  /** `write_data(schema, datum)` on data whose numbers all pack. */
  function Write(p: Platform, defs: Defs, s: Schema, d: Datum): seq<byte>
    requires Sound(p) && Validate(defs, s, d)
    decreases d != Null, d, 1, s
  {
    match s
    case Prim(prim) => WritePrimitive(p, prim, d)
    case Array(items) => WriteBlock(p, defs, items, d)
    case Map(values) => WriteBlock(p, defs, values, d)
    case Union(bs) =>
      var i := LastValid(defs, bs, d);
      Long(i) + Write(p, defs, bs[i], d)
    case Named(n) =>
      match defs[n]
      case Fixed(_) => d.data
      case Enum(symbols) => Long(IndexOf(symbols, d.s))
      case Record(_, _) => WriteFields(p, defs, n, d, 0)
  }

  /** The blocks write_array and write_map produce: one for all entries, if any, and the end mark. */
  function WriteBlock(p: Platform, defs: Defs, s: Schema, d: Datum): seq<byte>
    requires Sound(p) && ValidEntries(p, defs, s, d)
    decreases true, d, 0, Count(p, d) + 1
  {
    if Count(p, d) > 0 then Long(Count(p, d)) + WriteItems(p, defs, s, d, 0) else Long(0)
  }

  /** Entries i, i+1, ... of the block, each map value after its key, and the closing zero count. */
  function WriteItems(p: Platform, defs: Defs, s: Schema, d: Datum, i: nat): seq<byte>
    requires Sound(p) && ValidEntries(p, defs, s, d) && i <= Count(p, d)
    decreases true, d, 0, Count(p, d) - i
  {
    if i == Count(p, d) then Long(0)
    else
      WriteKey(p, d.Dict?, KeyAt(p, d, i)) + (Write(p, defs, s, ItemAt(p, d, i)) + WriteItems(p, defs, s, d, i + 1))
  }

  function WriteFields(p: Platform, defs: Defs, n: string, d: Datum, i: nat): seq<byte>
    requires Sound(p) && n in defs && defs[n].Record? && Validate(defs, Named(n), d)
    requires i <= |defs[n].fields|
    decreases true, d, 0, |defs[n].fields| - i
  {
    var fields := defs[n].fields;
    if i == |fields| then []
    else
      Write(p, defs, fields[i].ftype, Get(d.entries, fields[i].name)) + WriteFields(p, defs, n, d, i + 1)
  }

  /**
   * The datum a reader with the same schema gets back: a record keeps exactly its declared
   * fields, a missing one becoming null, and numbers under float and double are rounded.
   */
  function Norm(p: Platform, defs: Defs, s: Schema, d: Datum): Datum
    requires Validate(defs, s, d)
    decreases d != Null, d, s
  {
    match s
    case Prim(prim) => NormPrimitive(p, prim, d)
    case Array(items) => List(seq(|d.items|, i requires 0 <= i < |d.items| => Norm(p, defs, items, d.items[i])))
    case Map(values) => Dict(map k | k in d.entries :: Norm(p, defs, values, d.entries[k]))
    case Union(bs) => Norm(p, defs, bs[LastValid(defs, bs, d)], d)
    case Named(n) =>
      match defs[n]
      case Fixed(_) => d
      case Enum(_) => d
      case Record(_, fields) =>
        Dict(map name | name in FieldNames(fields) ::
          Norm(p, defs, FindField(fields, name).value.ftype, Get(d.entries, name)))
  }

  function NormPrimitive(p: Platform, prim: Primitive, d: Datum): Datum
    requires ValidPrimitive(prim, d)
  {
    match prim
    case PFloat => Float(p.unpackFloat(p.packFloat(d)))
    case PDouble => Float(p.unpackDouble(p.packDouble(d)))
    case _ => d
  }

  /** On a cycle of records that hold each other directly, nothing is valid, so nothing can be written. */
  lemma {:induction false} UnguardedIsEmpty(defs: Defs, cycle: set<string>, n: string, d: Datum)
    requires n in cycle
    requires forall m :: m in cycle ==>
      m in defs && defs[m].Record? && exists f :: f in defs[m].fields && f.ftype.Named? && f.ftype.fullname in cycle
    ensures !Validate(defs, Named(n), d)
    decreases d != Null, d
  {
    var f :| f in defs[n].fields && f.ftype.Named? && f.ftype.fullname in cycle;
    RecordIsDict(defs, n, f, d);
    if d.Dict? {
      var v := Get(d.entries, f.name);
      RecordIsDict(defs, f.ftype.fullname, defs[f.ftype.fullname].fields[0], v);
      if v != Null {
        hide Validate;
        UnguardedIsEmpty(defs, cycle, f.ftype.fullname, v);
      }
    }
  }

  lemma RecordIsDict(defs: Defs, n: string, f: Field, d: Datum)
    requires n in defs && defs[n].Record? && f in defs[n].fields
    ensures Validate(defs, Named(n), d) ==> d.Dict? && Validate(defs, f.ftype, Get(d.entries, f.name))
  {
  }
}
