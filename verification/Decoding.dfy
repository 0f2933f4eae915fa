/** Reading with schema resolution, and skipping (avro/devices/avro/io.py: DatumReader). */
module Decoding {
  import opened Basics
  import opened Varint
  import opened Schemas
  import opened Encoding

  /** `match_schemas(writers_schema, readers_schema)` */
  predicate Match(dw: Defs, w: Schema, dr: Defs, r: Schema) {
    var wt, rt := TypeOf(dw, w), TypeOf(dr, r);
    if w.Union? || r.Union? then true
    else if w.Prim? && w == r then true
    else if w.Named? && r.Named? && wt == rt then
      match wt
      case TRecord(KRequest) => true
      case TRecord(_) => w.fullname == r.fullname
      case TEnum => w.fullname == r.fullname
      case TFixed => w.fullname == r.fullname && dw[w.fullname].size == dr[r.fullname].size
      case _ => false
    else if w.Map? && r.Map? then TypeOf(dw, w.values) == TypeOf(dr, r.values)
    else if w.Array? && r.Array? then TypeOf(dw, w.items) == TypeOf(dr, r.items)
    else w.Prim? && r.Prim? && Promotes(w.prim, r.prim)
  }

  lemma MatchShape(dw: Defs, w: Schema, dr: Defs, r: Schema)
    requires Match(dw, w, dr, r) && !w.Union? && !r.Union?
    ensures w.Prim? <==> r.Prim?
    ensures w.Array? <==> r.Array?
    ensures w.Map? <==> r.Map?
    ensures w.Named? <==> r.Named?
    ensures w.Named? ==> w.fullname in dw && r.fullname in dr && TypeOf(dw, w) == TypeOf(dr, r)
  {
  }

  predicate Promotes(w: Primitive, r: Primitive) {
    match w
    case PInt => r == PLong || r == PFloat || r == PDouble
    case PLong => r == PFloat || r == PDouble
    case PFloat => r == PDouble
    case _ => false
  }

  /** The reader's branch of a union for data of another type: the first one that matches. */
  function FirstMatch(dw: Defs, w: Schema, dr: Defs, bs: seq<Schema>): (i: nat)
    ensures i <= |bs|
    ensures i < |bs| ==> Match(dw, w, dr, bs[i])
    ensures forall j :: 0 <= j < i ==> !Match(dw, w, dr, bs[j])
  {
    if bs == [] || Match(dw, w, dr, bs[0]) then 0 else 1 + FirstMatch(dw, w, dr, bs[1..])
  }

  function ReadBytes(bs: seq<byte>): (r: Parsed<seq<byte>>)
    ensures r.Success? ==> |r.value.1| < |bs|
  {
    var (n, rest) :- ReadLong(bs);
    Success(Take(n, rest))
  }

  function ReadText(p: Platform, bs: seq<byte>): (r: Parsed<string>)
    ensures r.Success? ==> |r.value.1| < |bs|
  {
    var (data, rest) :- ReadBytes(bs);
    match p.decodeText(data)
    case Some(s) => Success((s, rest))
    case None => Failure(BadText)
  }

  /** n calls of `ord(self.read(1))` */
  function ReadExactly(n: nat, bs: seq<byte>): (r: Parsed<seq<byte>>)
    ensures r.Success? ==> |r.value.1| <= |bs| && |r.value.0| == n
  {
    if n > |bs| then Failure(EndOfInput) else Success(Take(n, bs))
  }

  function ReadPrimitive(p: Platform, prim: Primitive, bs: seq<byte>): (r: Parsed<Datum>)
    ensures r.Success? ==> |r.value.1| <= |bs|
  {
    match prim
    case PNull => Success((Null, bs))
    case PBoolean =>
      var (b, rest) :- ReadExactly(1, bs);
      Success((Bool(b[0] == 1), rest))
    case PString =>
      var (s, rest) :- ReadText(p, bs);
      Success((Text(s), rest))
    case PBytes =>
      var (data, rest) :- ReadBytes(bs);
      Success((Bytes(data), rest))
    case PInt =>
      var (n, rest) :- ReadLong(bs);
      Success((Int(n), rest))
    case PLong =>
      var (n, rest) :- ReadLong(bs);
      Success((Int(n), rest))
    case PFloat =>
      var (b, rest) :- ReadExactly(4, bs);
      Success((Float(p.unpackFloat(b)), rest))
    case PDouble =>
      var (b, rest) :- ReadExactly(8, bs);
      Success((Float(p.unpackDouble(b)), rest))
  }

  /** `read_enum` */
  function ReadSymbol(written: seq<string>, wanted: seq<string>, bs: seq<byte>): (r: Parsed<Datum>)
    ensures r.Success? ==> |r.value.1| < |bs|
  {
    var (i, rest) :- ReadLong(bs);
    if i >= |written| then Failure(SchemaResolution)
    else
      var symbol :- At(written, i);
      if symbol !in wanted then Failure(SchemaResolution) else Success((Text(symbol), rest))
  }

  /** The branch of the writer's union that the data names. */
  function ReadBranch(branches: seq<Schema>, bs: seq<byte>): (r: Parsed<Schema>)
    ensures r.Success? ==> |r.value.1| < |bs| && r.value.0 in branches
  {
    var (i, rest) :- ReadLong(bs);
    if i >= |branches| then Failure(SchemaResolution)
    else
      var branch :- At(branches, i);
      Success((branch, rest))
  }

  /** What opens a block: its count, zero after the last block, and the size if the count was negative. */
  datatype Head = Head(count: nat, size: Option<int>)

  function ReadHead(bs: seq<byte>): (r: Parsed<Head>)
    ensures r.Success? ==> |r.value.1| < |bs| && r.value.1 == bs[|bs| - |r.value.1|..]
    ensures r.Success? && r.value.0.count == 0 ==> r.value.0.size.None?
  {
    var (count, rest) :- ReadLong(bs);
    if count >= 0 then Success((Head(count, None), rest))
    else
      var (size, rest') :- ReadLong(rest);
      Success((Head(-count, Some(size)), rest'))
  }

  /** `read_data(writers_schema, readers_schema, decoder)` */
  function Read(p: Platform, dw: Defs, w: Schema, dr: Defs, r: Schema, bs: seq<byte>): (res: Parsed<Datum>)
    requires Guarded(dw)
    ensures res.Success? ==> |res.value.1| <= |bs|
    decreases |bs|, Height(dw, w), 1, r
  {
    if !Match(dw, w, dr, r) then Failure(SchemaResolution)
    else if !w.Union? && r.Union? then
      var i := FirstMatch(dw, w, dr, r.branches);
      if i == |r.branches| then Failure(SchemaResolution) else Read(p, dw, w, dr, r.branches[i], bs)
    else
      match w
      case Prim(prim) => ReadPrimitive(p, prim, bs)
      case Array(items) =>
        var (es, rest) :- ReadBlock(p, false, dw, items, dr, r.items, bs, []);
        Success((List(Values(es)), rest))
      case Map(values) =>
        var (es, rest) :- ReadBlock(p, true, dw, values, dr, r.values, bs, []);
        Success((Dict(ToMap(es)), rest))
      case Union(branches) =>
        var (branch, rest) :- ReadBranch(branches, bs);
        Read(p, dw, branch, dr, r, rest)
      case Named(n) =>
        if n !in dw then Failure(UnknownType)
        else match dw[n]
          case Fixed(size) => var (data, rest) := Take(size, bs); Success((Bytes(data), rest))
          case Enum(symbols) => ReadSymbol(symbols, dr[r.fullname].symbols, bs)
          case Record(_, fields) =>
            var rfields := dr[r.fullname].fields;
            var (m, rest) :- ReadFields(p, dw, n, dr, rfields, 0, bs, map[]);
            var m' :- FillDefaults(p, dr, fields, rfields, 0, m);
            Success((Dict(m'), rest))
  }

  /** The key of an item: only map entries have one. */
  function ReadKey(p: Platform, keyed: bool, bs: seq<byte>): (res: Parsed<string>)
    ensures res.Success? ==> |res.value.1| <= |bs|
  {
    if keyed then ReadText(p, bs) else Success(("", bs))
  }

  /** One item: a value, after its key in a map. */
  function ReadItem(p: Platform, keyed: bool, dw: Defs, w: Schema, dr: Defs, r: Schema, bs: seq<byte>)
    : (res: Parsed<(string, Datum)>)
    requires Guarded(dw)
    ensures res.Success? ==> |res.value.1| <= |bs|
    decreases |bs|, Height(dw, w), 2
  {
    var (key, rest) :- ReadKey(p, keyed, bs);
    var (d, rest') :- Read(p, dw, w, dr, r, rest);
    Success(((key, d), rest'))
  }

  /** The rest of an array or map when n items of the current block are still to come. */
  function ReadItems(p: Platform, keyed: bool, dw: Defs, w: Schema, dr: Defs, r: Schema, n: nat, bs: seq<byte>,
                     acc: seq<(string, Datum)>): (res: Parsed<seq<(string, Datum)>>)
    requires Guarded(dw)
    ensures res.Success? ==> |res.value.1| <= |bs|
    decreases |bs|, if n == 0 then 0 else Height(dw, w) + 1, 1, n
  {
    if n == 0 then ReadBlock(p, keyed, dw, w, dr, r, bs, acc)
    else
      var (item, rest) :- ReadItem(p, keyed, dw, w, dr, r, bs);
      ReadItems(p, keyed, dw, w, dr, r, n - 1, rest, acc + [item])
  }

  /** The blocks of an array or map from the next block on. */
  function ReadBlock(p: Platform, keyed: bool, dw: Defs, w: Schema, dr: Defs, r: Schema, bs: seq<byte>,
                     acc: seq<(string, Datum)>): (res: Parsed<seq<(string, Datum)>>)
    requires Guarded(dw)
    ensures res.Success? ==> |res.value.1| <= |bs|
    decreases |bs|, 0, 0, 0
  {
    var (head, rest) :- ReadHead(bs);
    if head.count == 0 then Success((acc, rest)) else ReadItems(p, keyed, dw, w, dr, r, head.count, rest, acc)
  }

  /** Fields i, i+1, ... of the writer's record: the reader keeps the ones it also declares. */
  function ReadFields(p: Platform, dw: Defs, n: string, dr: Defs, rfields: seq<Field>, i: nat, bs: seq<byte>,
                      acc: map<string, Datum>): (res: Parsed<map<string, Datum>>)
    requires Guarded(dw) && n in dw && dw[n].Record? && i <= |dw[n].fields|
    ensures res.Success? ==> |res.value.1| <= |bs|
    decreases |bs|, Height(dw, Named(n)), 0, |dw[n].fields| - i
  {
    var fields := dw[n].fields;
    if i == |fields| then Success((acc, bs))
    else
      match FindField(rfields, fields[i].name)
      case Some(rf) =>
        var (d, rest) :- Read(p, dw, fields[i].ftype, dr, rf.ftype, bs);
        ReadFields(p, dw, n, dr, rfields, i + 1, rest, acc[fields[i].name := d])
      case None =>
        var rest :- Skip(dw, fields[i].ftype, bs);
        ReadFields(p, dw, n, dr, rfields, i + 1, rest, acc)
  }

  function Values(es: seq<(string, Datum)>): seq<Datum> {
    seq(|es|, i requires 0 <= i < |es| => es[i].1)
  }

  /** The dict that results from storing the entries one after another. */
  function ToMap(es: seq<(string, Datum)>): (m: map<string, Datum>) {
    if es == [] then map[] else ToMap(es[..|es| - 1])[es[|es| - 1].0 := es[|es| - 1].1]
  }

  /** The value of a field that only the reader declares. */
  function Default(p: Platform, dr: Defs, f: Field): Result<Datum> {
    match f.default
    case None => Failure(SchemaResolution)
    case Some(json) => ReadDefault(p, dr, f.ftype, json, p.stackDepth)
  }

  /** The second half of `read_record`: reader's fields i, i+1, ... that the writer does not declare. */
  function FillDefaults(p: Platform, dr: Defs, wfields: seq<Field>, rfields: seq<Field>, i: nat,
                        acc: map<string, Datum>): Result<map<string, Datum>>
    requires i <= |rfields|
    decreases |rfields| - i
  {
    if i == |rfields| then Success(acc)
    else if FindField(wfields, rfields[i].name).Some? then FillDefaults(p, dr, wfields, rfields, i + 1, acc)
    else
      var d :- Default(p, dr, FindField(rfields, rfields[i].name).value);
      FillDefaults(p, dr, wfields, rfields, i + 1, acc[rfields[i].name := d])
  }

  /** A JSON value taken over as it is. */
  function FromJson(j: Json): Datum {
    match j
    case JNull => Null
    case JBool(b) => Bool(b)
    case JInt(n) => Int(n)
    case JFloat(bits) => Float(bits)
    case JStr(s) => Text(s)
    case JArr(items) => List(seq(|items|, i requires 0 <= i < |items| => FromJson(items[i])))
    case JObj(members) => Dict(map k | k in members :: FromJson(members[k]))
  }

  /** `_read_default_value(field_schema, default_value)` with the given number of stack frames left. */
  function ReadDefault(p: Platform, defs: Defs, s: Schema, j: Json, depth: nat): Result<Datum>
    decreases depth, 1
  {
    if depth == 0 then Failure(RecursionLimit)
    else match s
      case Prim(PNull) => Success(Null)
      case Prim(PBoolean) => Success(Bool(p.toBool(j)))
      case Prim(PInt) => ToNumber(p.toInt(j), n => Int(n))
      case Prim(PLong) => ToNumber(p.toInt(j), n => Int(n))
      case Prim(PFloat) => ToNumber(p.toFloat(j), n => Float(n))
      case Prim(PDouble) => ToNumber(p.toFloat(j), n => Float(n))
      case Prim(_) => Success(FromJson(j))
      case Array(items) =>
        if !j.JArr? then Failure(BadDefault)
        else
          var ds :- ReadDefaultItems(p, defs, items, j.items, depth - 1);
          Success(List(ds))
      case Map(values) =>
        if !j.JObj? then Failure(BadDefault)
        else
          var m :- ReadDefaultEntries(p, defs, values, j.members, depth - 1);
          Success(Dict(m))
      case Union(bs) =>
        if bs == [] then Failure(IndexError) else ReadDefault(p, defs, bs[0], j, depth - 1)
      case Named(n) =>
        if n !in defs then Failure(UnknownType)
        else match defs[n]
          case Record(KRecord, fields) =>
            if !j.JObj? then Failure(BadDefault)
            else
              var m :- ReadDefaultFields(p, defs, fields, j.members, depth - 1, map[]);
              Success(Dict(m))
          case Record(_, _) => Failure(UnknownType)
          case _ => Success(FromJson(j))
  }

  function ToNumber(n: Option<int>, number: int -> Datum): Result<Datum> {
    match n
    case Some(x) => Success(number(x))
    case None => Failure(BadDefault)
  }

  /** Of several exceptions, which one is raised depends on the order of the entries; here it is always BadDefault. */
  function ReadDefaultEntries(p: Platform, defs: Defs, s: Schema, members: map<string, Json>, depth: nat)
      : Result<map<string, Datum>>
    decreases depth, 2
  {
    if forall k :: k in members ==> ReadDefault(p, defs, s, members[k], depth).Success? then
      Success(map k | k in members :: ReadDefault(p, defs, s, members[k], depth).value)
    else Failure(BadDefault)
  }

  function ReadDefaultItems(p: Platform, defs: Defs, s: Schema, js: seq<Json>, depth: nat): Result<seq<Datum>>
    decreases depth, 2, js
  {
    if js == [] then Success([])
    else
      var d :- ReadDefault(p, defs, s, js[0], depth);
      var ds :- ReadDefaultItems(p, defs, s, js[1..], depth);
      Success([d] + ds)
  }

  function ReadDefaultFields(p: Platform, defs: Defs, fields: seq<Field>, members: map<string, Json>, depth: nat,
                             acc: map<string, Datum>): Result<map<string, Datum>>
    decreases depth, 2, fields
  {
    if fields == [] then Success(acc)
    else
      var f := fields[0];
      var given := if f.name in members then members[f.name] else JNull;
      var j := if !given.JNull? then given else if f.default.Some? then f.default.value else JNull;
      var d :- ReadDefault(p, defs, f.ftype, j, depth);
      ReadDefaultFields(p, defs, fields[1..], members, depth, acc[f.name := d])
  }

  /** `skip_data(writers_schema, decoder)` */
  function Skip(dw: Defs, w: Schema, bs: seq<byte>): (res: Result<seq<byte>>)
    requires Guarded(dw)
    ensures res.Success? ==> |res.value| <= |bs|
    decreases |bs|, Height(dw, w), 1
  {
    match w
    case Prim(prim) => SkipPrimitive(prim, bs)
    case Array(items) => SkipBlock(false, dw, items, bs)
    case Map(values) => SkipBlock(true, dw, values, bs)
    case Union(branches) =>
      var (branch, rest) :- ReadBranch(branches, bs);
      Skip(dw, branch, rest)
    case Named(n) =>
      if n !in dw then Failure(UnknownType)
      else match dw[n]
        case Fixed(size) => Drop(size, bs)
        case Enum(_) => SkipLong(bs)
        case Record(_, _) => SkipFields(dw, n, 0, bs)
  }

  function SkipLong(bs: seq<byte>): (res: Result<seq<byte>>)
    ensures res.Success? ==> |res.value| < |bs|
  {
    var (_, rest) :- ReadDigits(bs);
    Success(rest)
  }

  function SkipBytes(bs: seq<byte>): (res: Result<seq<byte>>)
    ensures res.Success? ==> |res.value| < |bs|
  {
    var (n, rest) :- ReadLong(bs);
    Drop(n, rest)
  }

  function SkipPrimitive(prim: Primitive, bs: seq<byte>): (res: Result<seq<byte>>)
    ensures res.Success? ==> |res.value| <= |bs|
  {
    match prim
    case PNull => Success(bs)
    case PBoolean => Drop(1, bs)
    case PString => SkipBytes(bs)
    case PBytes => SkipBytes(bs)
    case PInt => SkipLong(bs)
    case PLong => SkipLong(bs)
    case PFloat => Drop(4, bs)
    case PDouble => Drop(8, bs)
  }

  function SkipKey(keyed: bool, bs: seq<byte>): (res: Result<seq<byte>>)
    ensures res.Success? ==> |res.value| <= |bs|
  {
    if keyed then SkipBytes(bs) else Success(bs)
  }

  function SkipItem(keyed: bool, dw: Defs, w: Schema, bs: seq<byte>): (res: Result<seq<byte>>)
    requires Guarded(dw)
    ensures res.Success? ==> |res.value| <= |bs|
    decreases |bs|, Height(dw, w), 2
  {
    var rest :- SkipKey(keyed, bs);
    Skip(dw, w, rest)
  }

  /** The rest of an array or map when n items of the current block are still to come. */
  function SkipItems(keyed: bool, dw: Defs, w: Schema, n: nat, bs: seq<byte>): (res: Result<seq<byte>>)
    requires Guarded(dw)
    ensures res.Success? ==> |res.value| <= |bs|
    decreases |bs|, if n == 0 then 0 else Height(dw, w) + 1, 1, n
  {
    if n == 0 then SkipBlock(keyed, dw, w, bs)
    else
      var rest :- SkipItem(keyed, dw, w, bs);
      SkipItems(keyed, dw, w, n - 1, rest)
  }

  /** The blocks from the next one on; a block that declares its size is jumped over. */
  function SkipBlock(keyed: bool, dw: Defs, w: Schema, bs: seq<byte>): (res: Result<seq<byte>>)
    requires Guarded(dw)
    ensures res.Success? ==> |res.value| <= |bs|
    decreases |bs|, 0, 0, 0
  {
    var (head, rest) :- ReadHead(bs);
    if head.count == 0 then Success(rest)
    else if head.size.None? then SkipItems(keyed, dw, w, head.count, rest)
    else if head.size.value == |rest| - |bs| then Failure(EndlessSkip)
    else
      var rest' :- Drop(head.size.value, rest);
      SkipBlock(keyed, dw, w, rest')
  }

  function SkipFields(dw: Defs, n: string, i: nat, bs: seq<byte>): (res: Result<seq<byte>>)
    requires Guarded(dw) && n in dw && dw[n].Record? && i <= |dw[n].fields|
    ensures res.Success? ==> |res.value| <= |bs|
    decreases |bs|, Height(dw, Named(n)), 0, |dw[n].fields| - i
  {
    if i == |dw[n].fields| then Success(bs)
    else
      var rest :- Skip(dw, dw[n].fields[i].ftype, bs);
      SkipFields(dw, n, i + 1, rest)
  }
}
