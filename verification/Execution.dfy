/**
 * Reading and skipping as movements of a cursor (avro/devices/avro/io.py: DatumReader and
 * BinaryDecoder.skip). A negative size moves the cursor back, so a run need not end. Every
 * function here takes the number of steps it may make and fails with OutOfSteps when they are used up:
 * the program ends where some number of steps is enough, and runs for ever where none is.
 */
module Execution {
  import opened Basics
  import opened Varint
  import opened Schemas
  import opened Encoding
  import opened Decoding

  /** A seek to before the start of a file raises an exception; a StringIO goes to its start. */
  datatype Stream = Stream(data: seq<byte>, inMemory: bool)

  function Tail(st: Stream, pos: nat): (bs: seq<byte>)
    requires pos <= |st.data|
    ensures |bs| == |st.data| - pos
  {
    st.data[pos..]
  }

  /** `seek(tell() + n)` */
  function Seek(st: Stream, pos: nat, n: int): (res: Result<nat>)
    ensures res.Success? ==> res.value <= |st.data|
  {
    if pos + n < 0 then if st.inMemory then Success(0) else Failure(NegativeSeek)
    else Success(if pos + n > |st.data| then |st.data| else pos + n)
  }

  /** Where a parse that never moves back leaves the cursor. */
  function After<T>(st: Stream, r: Parsed<T>): (res: Result<(T, nat)>)
    requires r.Success? ==> |r.value.1| <= |st.data|
    ensures res.Success? ==> res.value.1 <= |st.data|
  {
    match r
    case Failure(e) => Failure(e)
    case Success((v, rest)) => Success((v, |st.data| - |rest|))
  }

  /** `read_data(writers_schema, readers_schema, decoder)` in k steps */
  function ReadAt(p: Platform, dw: Defs, w: Schema, dr: Defs, r: Schema, st: Stream, pos: nat, k: nat)
    : (res: Result<(Datum, nat)>)
    requires pos <= |st.data|
    ensures res.Success? ==> res.value.1 <= |st.data|
    decreases k
  {
    if k == 0 then Failure(OutOfSteps)
    else if !Match(dw, w, dr, r) then Failure(SchemaResolution)
    else if !w.Union? && r.Union? then
      var i := FirstMatch(dw, w, dr, r.branches);
      if i == |r.branches| then Failure(SchemaResolution) else ReadAt(p, dw, w, dr, r.branches[i], st, pos, k - 1)
    else
      match w
      case Prim(prim) => After(st, ReadPrimitive(p, prim, Tail(st, pos)))
      case Array(items) =>
        var (es, pos') :- ReadBlockAt(p, false, dw, items, dr, r.items, st, pos, [], k - 1);
        Success((List(Values(es)), pos'))
      case Map(values) =>
        var (es, pos') :- ReadBlockAt(p, true, dw, values, dr, r.values, st, pos, [], k - 1);
        Success((Dict(ToMap(es)), pos'))
      case Union(branches) =>
        var (branch, pos') :- After(st, ReadBranch(branches, Tail(st, pos)));
        ReadAt(p, dw, branch, dr, r, st, pos', k - 1)
      case Named(n) =>
        if n !in dw then Failure(UnknownType)
        else match dw[n]
          case Fixed(size) =>
            var (data, rest) := Take(size, Tail(st, pos));
            Success((Bytes(data), |st.data| - |rest|))
          case Enum(symbols) => After(st, ReadSymbol(symbols, dr[r.fullname].symbols, Tail(st, pos)))
          case Record(_, fields) =>
            var rfields := dr[r.fullname].fields;
            var (m, pos') :- ReadFieldsAt(p, dw, n, dr, rfields, 0, st, pos, map[], k - 1);
            var m' :- FillDefaults(p, dr, fields, rfields, 0, m);
            Success((Dict(m'), pos'))
  }

  /** The rest of an array or map when n items of the current block are still to come. */
  function ReadItemsAt(p: Platform, keyed: bool, dw: Defs, w: Schema, dr: Defs, r: Schema, n: nat, st: Stream, pos: nat,
                       acc: seq<(string, Datum)>, k: nat): (res: Result<(seq<(string, Datum)>, nat)>)
    requires pos <= |st.data|
    ensures res.Success? ==> res.value.1 <= |st.data|
    decreases k
  {
    if k == 0 then Failure(OutOfSteps)
    else if n == 0 then ReadBlockAt(p, keyed, dw, w, dr, r, st, pos, acc, k - 1)
    else
      var (key, pos') :- After(st, ReadKey(p, keyed, Tail(st, pos)));
      var (d, pos'') :- ReadAt(p, dw, w, dr, r, st, pos', k - 1);
      ReadItemsAt(p, keyed, dw, w, dr, r, n - 1, st, pos'', acc + [(key, d)], k - 1)
  }

  /** The blocks of an array or map from the next block on. */
  function ReadBlockAt(p: Platform, keyed: bool, dw: Defs, w: Schema, dr: Defs, r: Schema, st: Stream, pos: nat,
                       acc: seq<(string, Datum)>, k: nat): (res: Result<(seq<(string, Datum)>, nat)>)
    requires pos <= |st.data|
    ensures res.Success? ==> res.value.1 <= |st.data|
    decreases k
  {
    if k == 0 then Failure(OutOfSteps)
    else
      var (head, pos') :- After(st, ReadHead(Tail(st, pos)));
      if head.count == 0 then Success((acc, pos'))
      else ReadItemsAt(p, keyed, dw, w, dr, r, head.count, st, pos', acc, k - 1)
  }

  /** Fields i, i+1, ... of the writer's record. */
  function ReadFieldsAt(p: Platform, dw: Defs, n: string, dr: Defs, rfields: seq<Field>, i: nat, st: Stream, pos: nat,
                        acc: map<string, Datum>, k: nat): (res: Result<(map<string, Datum>, nat)>)
    requires n in dw && dw[n].Record? && i <= |dw[n].fields| && pos <= |st.data|
    ensures res.Success? ==> res.value.1 <= |st.data|
    decreases k
  {
    var fields := dw[n].fields;
    if k == 0 then Failure(OutOfSteps)
    else if i == |fields| then Success((acc, pos))
    else
      match FindField(rfields, fields[i].name)
      case Some(rf) =>
        var (d, pos') :- ReadAt(p, dw, fields[i].ftype, dr, rf.ftype, st, pos, k - 1);
        ReadFieldsAt(p, dw, n, dr, rfields, i + 1, st, pos', acc[fields[i].name := d], k - 1)
      case None =>
        var pos' :- SkipAt(dw, fields[i].ftype, st, pos, k - 1);
        ReadFieldsAt(p, dw, n, dr, rfields, i + 1, st, pos', acc, k - 1)
  }

  // Skipping

  function SkipLongAt(st: Stream, pos: nat): (res: Result<nat>)
    requires pos <= |st.data|
    ensures res.Success? ==> res.value <= |st.data|
  {
    var rest :- SkipLong(Tail(st, pos));
    Success(|st.data| - |rest|)
  }

  /** `skip_bytes`: a length, and a move by that length. */
  function SkipBytesAt(st: Stream, pos: nat): (res: Result<nat>)
    requires pos <= |st.data|
    ensures res.Success? ==> res.value <= |st.data|
  {
    var (n, pos') :- After(st, ReadLong(Tail(st, pos)));
    Seek(st, pos', n)
  }

  function SkipPrimitiveAt(prim: Primitive, st: Stream, pos: nat): (res: Result<nat>)
    requires pos <= |st.data|
    ensures res.Success? ==> res.value <= |st.data|
  {
    match prim
    case PNull => Success(pos)
    case PBoolean => Seek(st, pos, 1)
    case PString => SkipBytesAt(st, pos)
    case PBytes => SkipBytesAt(st, pos)
    case PInt => SkipLongAt(st, pos)
    case PLong => SkipLongAt(st, pos)
    case PFloat => Seek(st, pos, 4)
    case PDouble => Seek(st, pos, 8)
  }

  /** `skip_data(writers_schema, decoder)` in k steps */
  function SkipAt(dw: Defs, w: Schema, st: Stream, pos: nat, k: nat): (res: Result<nat>)
    requires pos <= |st.data|
    ensures res.Success? ==> res.value <= |st.data|
    decreases k
  {
    if k == 0 then Failure(OutOfSteps)
    else
      match w
      case Prim(prim) => SkipPrimitiveAt(prim, st, pos)
      case Array(items) => SkipBlockAt(false, dw, items, st, pos, k - 1)
      case Map(values) => SkipBlockAt(true, dw, values, st, pos, k - 1)
      case Union(branches) =>
        var (branch, pos') :- After(st, ReadBranch(branches, Tail(st, pos)));
        SkipAt(dw, branch, st, pos', k - 1)
      case Named(n) =>
        if n !in dw then Failure(UnknownType)
        else match dw[n]
          case Fixed(size) => Seek(st, pos, size)
          case Enum(_) => SkipLongAt(st, pos)
          case Record(_, _) => SkipFieldsAt(dw, n, 0, st, pos, k - 1)
  }

  function SkipKeyAt(keyed: bool, st: Stream, pos: nat): (res: Result<nat>)
    requires pos <= |st.data|
    ensures res.Success? ==> res.value <= |st.data|
  {
    if keyed then SkipBytesAt(st, pos) else Success(pos)
  }

  function SkipItemsAt(keyed: bool, dw: Defs, w: Schema, n: nat, st: Stream, pos: nat, k: nat): (res: Result<nat>)
    requires pos <= |st.data|
    ensures res.Success? ==> res.value <= |st.data|
    decreases k
  {
    if k == 0 then Failure(OutOfSteps)
    else if n == 0 then SkipBlockAt(keyed, dw, w, st, pos, k - 1)
    else
      var pos' :- SkipKeyAt(keyed, st, pos);
      var pos'' :- SkipAt(dw, w, st, pos', k - 1);
      SkipItemsAt(keyed, dw, w, n - 1, st, pos'', k - 1)
  }

  /** The blocks from the next one on; a block that declares its size is jumped over, forwards or backwards. */
  function SkipBlockAt(keyed: bool, dw: Defs, w: Schema, st: Stream, pos: nat, k: nat): (res: Result<nat>)
    requires pos <= |st.data|
    ensures res.Success? ==> res.value <= |st.data|
    decreases k
  {
    if k == 0 then Failure(OutOfSteps)
    else
      var (head, pos') :- After(st, ReadHead(Tail(st, pos)));
      if head.count == 0 then Success(pos')
      else if head.size.None? then SkipItemsAt(keyed, dw, w, head.count, st, pos', k - 1)
      else
        var pos'' :- Seek(st, pos', head.size.value);
        SkipBlockAt(keyed, dw, w, st, pos'', k - 1)
  }

  function SkipFieldsAt(dw: Defs, n: string, i: nat, st: Stream, pos: nat, k: nat): (res: Result<nat>)
    requires n in dw && dw[n].Record? && i <= |dw[n].fields| && pos <= |st.data|
    ensures res.Success? ==> res.value <= |st.data|
    decreases k
  {
    if k == 0 then Failure(OutOfSteps)
    else if i == |dw[n].fields| then Success(pos)
    else
      var pos' :- SkipAt(dw, dw[n].fields[i].ftype, st, pos, k - 1);
      SkipFieldsAt(dw, n, i + 1, st, pos', k - 1)
  }
}
