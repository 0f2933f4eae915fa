/**
 * The binary encodings the Avro specification allows for a schema, as a recogniser that is
 * independent of DatumReader: blocks may carry a negative count, and then the size that follows
 * it must be the number of bytes the items of the block really take.
 */
module Grammar {
  import opened Basics
  import opened Varint
  import opened Schemas
  import opened Encoding
  import opened Decoding

  ghost predicate IsSuffix(rest: seq<byte>, bs: seq<byte>) {
    |rest| <= |bs| && rest == bs[|bs| - |rest|..]
  }

  function ScanExactly(n: int, bs: seq<byte>): (r: Option<seq<byte>>)
    ensures r.Some? ==> IsSuffix(r.value, bs)
  {
    if 0 <= n <= |bs| then Some(bs[n..]) else None
  }

  function ScanBytes(bs: seq<byte>): (r: Option<seq<byte>>)
    ensures r.Some? ==> IsSuffix(r.value, bs) && |r.value| < |bs|
  {
    match ReadLong(bs)
    case Failure(_) => None
    case Success((n, rest)) => ScanExactly(n, rest)
  }

  function ScanText(p: Platform, bs: seq<byte>): (r: Option<seq<byte>>)
    ensures r.Some? ==> IsSuffix(r.value, bs) && |r.value| < |bs|
  {
    if ReadText(p, bs).Success? then ScanBytes(bs) else None
  }

  /** A position in a list of the given length. */
  function ScanIndex(length: nat, bs: seq<byte>): (r: Option<(nat, seq<byte>)>)
    ensures r.Some? ==> IsSuffix(r.value.1, bs) && |r.value.1| < |bs| && r.value.0 < length
  {
    match ReadLong(bs)
    case Failure(_) => None
    case Success((i, rest)) => if 0 <= i < length then Some((i, rest)) else None
  }

  function ScanPrimitive(p: Platform, prim: Primitive, bs: seq<byte>): (r: Option<seq<byte>>)
    ensures r.Some? ==> IsSuffix(r.value, bs)
  {
    match prim
    case PNull => Some(bs)
    case PBoolean => ScanExactly(1, bs)
    case PString => ScanText(p, bs)
    case PBytes => ScanBytes(bs)
    case PInt => ScanLong(bs)
    case PLong => ScanLong(bs)
    case PFloat => ScanExactly(4, bs)
    case PDouble => ScanExactly(8, bs)
  }

  function ScanLong(bs: seq<byte>): (r: Option<seq<byte>>)
    ensures r.Some? ==> IsSuffix(r.value, bs) && |r.value| < |bs|
  {
    match ReadLong(bs)
    case Failure(_) => None
    case Success((_, rest)) => Some(rest)
  }

  /** What follows a well-formed encoding of some datum of schema w at the start of bs. */
  function Scan(p: Platform, dw: Defs, w: Schema, bs: seq<byte>): (r: Option<seq<byte>>)
    requires Guarded(dw)
    ensures r.Some? ==> IsSuffix(r.value, bs)
    decreases |bs|, Height(dw, w), 1
  {
    match w
    case Prim(prim) => ScanPrimitive(p, prim, bs)
    case Array(items) => ScanBlock(p, false, dw, items, bs)
    case Map(values) => ScanBlock(p, true, dw, values, bs)
    case Union(branches) => (
      match ScanIndex(|branches|, bs)
      case None => None
      case Some((i, rest)) => Scan(p, dw, branches[i], rest)
    )
    case Named(n) =>
      if n !in dw then None
      else match dw[n]
        case Fixed(size) => ScanExactly(size, bs)
        case Enum(symbols) => (
          match ScanIndex(|symbols|, bs)
          case None => None
          case Some((_, rest)) => Some(rest)
        )
        case Record(_, _) => ScanFields(p, dw, n, 0, bs)
  }

  function ScanKey(p: Platform, keyed: bool, bs: seq<byte>): (r: Option<seq<byte>>)
    ensures r.Some? ==> IsSuffix(r.value, bs)
  {
    if keyed then ScanText(p, bs) else Some(bs)
  }

  /** One item: a value, after its key in a map. */
  function ScanItem(p: Platform, keyed: bool, dw: Defs, w: Schema, bs: seq<byte>): (r: Option<seq<byte>>)
    requires Guarded(dw)
    ensures r.Some? ==> IsSuffix(r.value, bs)
    decreases |bs|, Height(dw, w), 2
  {
    match ScanKey(p, keyed, bs)
    case None => None
    case Some(rest) => Scan(p, dw, w, rest)
  }

  /**
   * The rest of an array or map with n items of the current block to come; when the block
   * declared its size, `due` is how many bytes those items have to take.
   */
  function ScanItems(p: Platform, keyed: bool, dw: Defs, w: Schema, n: nat, due: Option<int>, bs: seq<byte>)
    : (r: Option<seq<byte>>)
    requires Guarded(dw)
    ensures r.Some? ==> IsSuffix(r.value, bs)
    decreases |bs|, if n == 0 then 0 else Height(dw, w) + 1, 1, n
  {
    if n == 0 then
      if due.Some? && due.value != 0 then None else ScanBlock(p, keyed, dw, w, bs)
    else
      match ScanItem(p, keyed, dw, w, bs)
      case None => None
      case Some(rest) => ScanItems(p, keyed, dw, w, n - 1, Less(due, |bs| - |rest|), rest)
  }

  function Less(due: Option<int>, taken: nat): Option<int> {
    if due.Some? then Some(due.value - taken) else None
  }

  /** A block, or the zero count that ends the array or map, at the start of bs. */
  function ScanBlock(p: Platform, keyed: bool, dw: Defs, w: Schema, bs: seq<byte>): (r: Option<seq<byte>>)
    requires Guarded(dw)
    ensures r.Some? ==> IsSuffix(r.value, bs)
    decreases |bs|, 0, 0, 0
  {
    match ReadHead(bs)
    case Failure(_) => None
    case Success((head, rest)) =>
      if head.count == 0 then Some(rest)
      else if head.size.Some? && head.size.value < 0 then None
      else ScanItems(p, keyed, dw, w, head.count, head.size, rest)
  }

  function ScanFields(p: Platform, dw: Defs, n: string, i: nat, bs: seq<byte>): (r: Option<seq<byte>>)
    requires Guarded(dw) && n in dw && dw[n].Record? && i <= |dw[n].fields|
    ensures r.Some? ==> IsSuffix(r.value, bs)
    decreases |bs|, Height(dw, Named(n)), 0, |dw[n].fields| - i
  {
    if i == |dw[n].fields| then Some(bs)
    else match Scan(p, dw, dw[n].fields[i].ftype, bs)
      case None => None
      case Some(rest) => ScanFields(p, dw, n, i + 1, rest)
  }

  /** A block that declared its size ends just where that size says it does. */
  lemma {:induction false} BlockEnd(p: Platform, keyed: bool, dw: Defs, w: Schema, n: nat, due: int, bs: seq<byte>)
    requires Guarded(dw) && ScanItems(p, keyed, dw, w, n, Some(due), bs).Some?
    ensures 0 <= due <= |bs|
    ensures ScanItems(p, keyed, dw, w, n, Some(due), bs) == ScanBlock(p, keyed, dw, w, bs[due..])
    decreases n
  {
    hide Guarded, ScanItem, ScanBlock;
    if n == 0 {
      assert bs[0..] == bs;
    } else {
      var rest := ScanItem(p, keyed, dw, w, bs).value;
      BlockEnd(p, keyed, dw, w, n - 1, due - (|bs| - |rest|), rest);
      assert rest[due - (|bs| - |rest|)..] == bs[due..];
    }
  }

  lemma BranchFollowsIndex(branches: seq<Schema>, bs: seq<byte>)
    requires ScanIndex(|branches|, bs).Some?
    ensures var (i, rest) := ScanIndex(|branches|, bs).value; ReadBranch(branches, bs) == Success((branches[i], rest))
  {
  }

  lemma SkipPrimitiveFollowsScan(p: Platform, prim: Primitive, bs: seq<byte>)
    requires ScanPrimitive(p, prim, bs).Some?
    ensures SkipPrimitive(prim, bs) == Success(ScanPrimitive(p, prim, bs).value)
  {
  }

  /** skip_data stops exactly where a well-formed encoding ends, also when it jumps over blocks. */
  lemma {:induction false} SkipFollowsScan(p: Platform, dw: Defs, w: Schema, bs: seq<byte>)
    requires Guarded(dw) && Scan(p, dw, w, bs).Some?
    ensures Skip(dw, w, bs) == Success(Scan(p, dw, w, bs).value)
    decreases |bs|, Height(dw, w), 1
  {
    hide Guarded, IsSuffix, ScanBlock, SkipBlock, ScanFields, SkipFields, ScanPrimitive, SkipPrimitive, ReadBranch;
    match w
    case Prim(prim) => SkipPrimitiveFollowsScan(p, prim, bs);
    case Array(items) => SkipBlockFollowsScan(p, false, dw, items, bs);
    case Map(values) => SkipBlockFollowsScan(p, true, dw, values, bs);
    case Union(branches) =>
      BranchFollowsIndex(branches, bs);
      var (i, rest) := ScanIndex(|branches|, bs).value;
      SkipFollowsScan(p, dw, branches[i], rest);
    case Named(n) =>
      if dw[n].Record? {
        SkipFieldsFollowsScan(p, dw, n, 0, bs);
      }
  }

  lemma {:induction false} SkipItemFollowsScan(p: Platform, keyed: bool, dw: Defs, w: Schema, bs: seq<byte>)
    requires Guarded(dw) && ScanItem(p, keyed, dw, w, bs).Some?
    ensures SkipItem(keyed, dw, w, bs) == Success(ScanItem(p, keyed, dw, w, bs).value)
    decreases |bs|, Height(dw, w), 2
  {
    hide Guarded, IsSuffix, Scan, Skip;
    SkipFollowsScan(p, dw, w, ScanKey(p, keyed, bs).value);
  }

  lemma {:induction false} SkipItemsFollowsScan(p: Platform, keyed: bool, dw: Defs, w: Schema, n: nat, bs: seq<byte>)
    requires Guarded(dw) && ScanItems(p, keyed, dw, w, n, None, bs).Some?
    ensures SkipItems(keyed, dw, w, n, bs) == Success(ScanItems(p, keyed, dw, w, n, None, bs).value)
    decreases |bs|, if n == 0 then 0 else Height(dw, w) + 1, 1, n
  {
    hide Guarded, IsSuffix, ScanItem, SkipItem, ScanBlock, SkipBlock;
    if n == 0 {
      SkipBlockFollowsScan(p, keyed, dw, w, bs);
    } else {
      SkipItemFollowsScan(p, keyed, dw, w, bs);
      SkipItemsFollowsScan(p, keyed, dw, w, n - 1, ScanItem(p, keyed, dw, w, bs).value);
    }
  }

  lemma {:induction false} SkipBlockFollowsScan(p: Platform, keyed: bool, dw: Defs, w: Schema, bs: seq<byte>)
    requires Guarded(dw) && ScanBlock(p, keyed, dw, w, bs).Some?
    ensures SkipBlock(keyed, dw, w, bs) == Success(ScanBlock(p, keyed, dw, w, bs).value)
    decreases |bs|, 0, 0, 0
  {
    hide Guarded, IsSuffix, Scan, Skip, ScanItems, SkipItems, ReadHead;
    var (head, rest) := ReadHead(bs).value;
    if head.count > 0 {
      if head.size.None? {
        SkipItemsFollowsScan(p, keyed, dw, w, head.count, rest);
      } else {
        BlockEnd(p, keyed, dw, w, head.count, head.size.value, rest);
        SkipBlockFollowsScan(p, keyed, dw, w, rest[head.size.value..]);
      }
    }
  }

  lemma {:induction false} SkipFieldsFollowsScan(p: Platform, dw: Defs, n: string, i: nat, bs: seq<byte>)
    requires Guarded(dw) && n in dw && dw[n].Record? && i <= |dw[n].fields|
    requires ScanFields(p, dw, n, i, bs).Some?
    ensures SkipFields(dw, n, i, bs) == Success(ScanFields(p, dw, n, i, bs).value)
    decreases |bs|, Height(dw, Named(n)), 0, |dw[n].fields| - i
  {
    hide IsSuffix, Scan, Skip;
    if i < |dw[n].fields| {
      FieldIsLower(dw, n, i);
      SkipFollowsScan(p, dw, dw[n].fields[i].ftype, bs);
      SkipFieldsFollowsScan(p, dw, n, i + 1, Scan(p, dw, dw[n].fields[i].ftype, bs).value);
    }
  }

  /** Whatever the reader's schema, a reader that succeeds consumes the same bytes. */
  lemma {:induction false} ReadFollowsScan(p: Platform, dw: Defs, w: Schema, dr: Defs, r: Schema, bs: seq<byte>)
    requires Guarded(dw) && Scan(p, dw, w, bs).Some? && Read(p, dw, w, dr, r, bs).Success?
    ensures Read(p, dw, w, dr, r, bs).value.1 == Scan(p, dw, w, bs).value
    decreases |bs|, Height(dw, w), 1, r
  {
    hide Guarded, IsSuffix, ScanBlock, ReadBlock, ScanFields, ReadFields, FillDefaults, Match, FirstMatch;
    if !w.Union? && r.Union? {
      ReadFollowsScan(p, dw, w, dr, r.branches[FirstMatch(dw, w, dr, r.branches)], bs);
    } else {
      if !w.Union? {
        MatchShape(dw, w, dr, r);
      }
      match w
      case Prim(_) =>
      case Array(items) => ReadBlockFollowsScan(p, false, dw, items, dr, r.items, bs, []);
      case Map(values) => ReadBlockFollowsScan(p, true, dw, values, dr, r.values, bs, []);
      case Union(branches) =>
        var (i, rest) := ScanIndex(|branches|, bs).value;
        ReadFollowsScan(p, dw, branches[i], dr, r, rest);
      case Named(n) =>
        if dw[n].Record? {
          ReadFieldsFollowsScan(p, dw, n, dr, dr[r.fullname].fields, 0, bs, map[]);
        }
    }
  }

  lemma {:induction false} ReadItemFollowsScan(p: Platform, keyed: bool, dw: Defs, w: Schema, dr: Defs, r: Schema,
                                               bs: seq<byte>)
    requires Guarded(dw) && ScanItem(p, keyed, dw, w, bs).Some? && ReadItem(p, keyed, dw, w, dr, r, bs).Success?
    ensures ReadItem(p, keyed, dw, w, dr, r, bs).value.1 == ScanItem(p, keyed, dw, w, bs).value
    decreases |bs|, Height(dw, w), 2
  {
    hide Guarded, IsSuffix, Scan, Read;
    ReadFollowsScan(p, dw, w, dr, r, ScanKey(p, keyed, bs).value);
  }

  lemma {:induction false} ReadItemsFollowsScan(p: Platform, keyed: bool, dw: Defs, w: Schema, dr: Defs, r: Schema,
                                                n: nat, due: Option<int>, bs: seq<byte>, acc: seq<(string, Datum)>)
    requires Guarded(dw) && ScanItems(p, keyed, dw, w, n, due, bs).Some?
    requires ReadItems(p, keyed, dw, w, dr, r, n, bs, acc).Success?
    ensures ReadItems(p, keyed, dw, w, dr, r, n, bs, acc).value.1 == ScanItems(p, keyed, dw, w, n, due, bs).value
    decreases |bs|, if n == 0 then 0 else Height(dw, w) + 1, 1, n
  {
    hide Guarded, IsSuffix, ScanItem, ReadItem, ScanBlock, ReadBlock;
    if n == 0 {
      ReadBlockFollowsScan(p, keyed, dw, w, dr, r, bs, acc);
    } else {
      ReadItemFollowsScan(p, keyed, dw, w, dr, r, bs);
      var (item, rest) := ReadItem(p, keyed, dw, w, dr, r, bs).value;
      ReadItemsFollowsScan(p, keyed, dw, w, dr, r, n - 1, Less(due, |bs| - |rest|), rest, acc + [item]);
    }
  }

  lemma {:induction false} ReadBlockFollowsScan(p: Platform, keyed: bool, dw: Defs, w: Schema, dr: Defs, r: Schema,
                                                bs: seq<byte>, acc: seq<(string, Datum)>)
    requires Guarded(dw) && ScanBlock(p, keyed, dw, w, bs).Some?
    requires ReadBlock(p, keyed, dw, w, dr, r, bs, acc).Success?
    ensures ReadBlock(p, keyed, dw, w, dr, r, bs, acc).value.1 == ScanBlock(p, keyed, dw, w, bs).value
    decreases |bs|, 0, 0, 0
  {
    hide Guarded, IsSuffix, ScanItems, ReadItems, ReadHead;
    var (head, rest) := ReadHead(bs).value;
    if head.count > 0 {
      ReadItemsFollowsScan(p, keyed, dw, w, dr, r, head.count, head.size, rest, acc);
    }
  }

  lemma {:induction false} ReadFieldsFollowsScan(p: Platform, dw: Defs, n: string, dr: Defs, rfields: seq<Field>,
                                                 i: nat, bs: seq<byte>, acc: map<string, Datum>)
    requires Guarded(dw) && n in dw && dw[n].Record? && i <= |dw[n].fields|
    requires ScanFields(p, dw, n, i, bs).Some? && ReadFields(p, dw, n, dr, rfields, i, bs, acc).Success?
    ensures ReadFields(p, dw, n, dr, rfields, i, bs, acc).value.1 == ScanFields(p, dw, n, i, bs).value
    decreases |bs|, Height(dw, Named(n)), 0, |dw[n].fields| - i
  {
    hide IsSuffix, Scan, Read, Skip;
    var fields := dw[n].fields;
    if i < |fields| {
      FieldIsLower(dw, n, i);
      match FindField(rfields, fields[i].name)
      case Some(rf) =>
        ReadFollowsScan(p, dw, fields[i].ftype, dr, rf.ftype, bs);
        var (d, rest) := Read(p, dw, fields[i].ftype, dr, rf.ftype, bs).value;
        ReadFieldsFollowsScan(p, dw, n, dr, rfields, i + 1, rest, acc[fields[i].name := d]);
      case None =>
        SkipFollowsScan(p, dw, fields[i].ftype, bs);
        ReadFieldsFollowsScan(p, dw, n, dr, rfields, i + 1, Scan(p, dw, fields[i].ftype, bs).value, acc);
    }
  }
}
