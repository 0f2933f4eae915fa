/** Reading and skipping agree on every well-formed encoding, not only on what DatumWriter writes. */
module Agreement {
  import opened Basics
  import opened Varint
  import opened Schemas
  import opened Encoding
  import opened Decoding
  import opened Grammar
  import opened Resolution
  import opened RoundTrip

  lemma ReadPrimitiveCompletes(p: Platform, prim: Primitive, bs: seq<byte>)
    requires ScanPrimitive(p, prim, bs).Some?
    ensures ReadPrimitive(p, prim, bs).Success?
  {
  }

  /** read_data does not fail on a well-formed encoding of its own schema. */
  lemma {:induction false} ReadCompletes(p: Platform, defs: Defs, s: Schema, bs: seq<byte>)
    requires Guarded(defs) && WellFormed(defs) && WellFormedSchema(defs, s) && Scan(p, defs, s, bs).Some?
    ensures Read(p, defs, s, defs, s, bs).Success?
    decreases |bs|, Height(defs, s), 1
  {
    hide Guarded, IsSuffix, Match, FirstMatch, ScanBlock, ReadBlock, ScanFields, ReadFields, FillDefaults, Default,
      ScanPrimitive, ReadPrimitive, ReadBranch, ScanIndex;
    MatchesItself(defs, s);
    match s
    case Prim(prim) => ReadPrimitiveCompletes(p, prim, bs);
    case Array(items) => ReadBlockCompletes(p, false, defs, items, bs, []);
    case Map(values) => ReadBlockCompletes(p, true, defs, values, bs, []);
    case Union(branches) => ReadUnionCompletes(p, defs, branches, bs);
    case Named(n) =>
      match defs[n]
      case Fixed(_) =>
      case Enum(symbols) => ReadSymbolCompletes(symbols, bs);
      case Record(_, fields) =>
        ReadFieldsCompletes(p, defs, n, 0, bs, map[]);
        NoDefaultsNeeded(p, defs, fields, 0, ReadFields(p, defs, n, defs, fields, 0, bs, map[]).value.0);
  }

  lemma ReadSymbolCompletes(symbols: seq<string>, bs: seq<byte>)
    requires ScanIndex(|symbols|, bs).Some?
    ensures ReadSymbol(symbols, symbols, bs).Success?
  {
  }

  lemma {:induction false} ReadUnionCompletes(p: Platform, defs: Defs, branches: seq<Schema>, bs: seq<byte>)
    requires Guarded(defs) && WellFormed(defs) && WellFormedSchema(defs, Union(branches))
    requires ScanIndex(|branches|, bs).Some?
    requires var (i, rest) := ScanIndex(|branches|, bs).value; Scan(p, defs, branches[i], rest).Some?
    ensures Read(p, defs, Union(branches), defs, Union(branches), bs).Success?
    decreases |bs|, 0, 0
  {
    hide Guarded, IsSuffix, FirstMatch, ScanPrimitive, ReadPrimitive, ReadBranch, ScanIndex;
    BranchFollowsIndex(branches, bs);
    var (i, rest) := ScanIndex(|branches|, bs).value;
    var branch := branches[i];
    FirstMatchOfBranch(defs, branches, i);
    var chosen := branches[FirstMatch(defs, branch, defs, branches)];
    assert Match(defs, branch, defs, Union(branches)) && Match(defs, Union(branches), defs, Union(branches));
    hide Match;
    assert Read(p, defs, Union(branches), defs, Union(branches), bs) == Read(p, defs, branch, defs, chosen, rest);
    if branch.Prim? {
      ReadPrimitiveCompletes(p, branch.prim, rest);
    } else {
      ReadCompletes(p, defs, branch, rest);
    }
  }

  lemma {:induction false} ReadBlockCompletes(p: Platform, keyed: bool, defs: Defs, s: Schema, bs: seq<byte>,
                                              acc: seq<(string, Datum)>)
    requires Guarded(defs) && WellFormed(defs) && WellFormedSchema(defs, s) && ScanBlock(p, keyed, defs, s, bs).Some?
    ensures ReadBlock(p, keyed, defs, s, defs, s, bs, acc).Success?
    decreases |bs|, 0, 0, 0
  {
    hide Guarded, IsSuffix, ScanItems, ReadItems, ReadHead;
    var (head, rest) := ReadHead(bs).value;
    if head.count > 0 {
      ReadItemsCompletes(p, keyed, defs, s, head.count, head.size, rest, acc);
    }
  }

  lemma {:induction false} ReadItemsCompletes(p: Platform, keyed: bool, defs: Defs, s: Schema, n: nat, due: Option<int>,
                                              bs: seq<byte>, acc: seq<(string, Datum)>)
    requires Guarded(defs) && WellFormed(defs) && WellFormedSchema(defs, s)
    requires ScanItems(p, keyed, defs, s, n, due, bs).Some?
    ensures ReadItems(p, keyed, defs, s, defs, s, n, bs, acc).Success?
    decreases |bs|, if n == 0 then 0 else Height(defs, s) + 1, 1, n
  {
    hide Guarded, IsSuffix, ScanItem, ReadItem, ScanBlock, ReadBlock;
    if n == 0 {
      ReadBlockCompletes(p, keyed, defs, s, bs, acc);
    } else {
      ReadItemCompletes(p, keyed, defs, s, bs);
      ReadItemFollowsScan(p, keyed, defs, s, defs, s, bs);
      var (item, rest) := ReadItem(p, keyed, defs, s, defs, s, bs).value;
      ReadItemsCompletes(p, keyed, defs, s, n - 1, Less(due, |bs| - |rest|), rest, acc + [item]);
    }
  }

  lemma {:induction false} ReadItemCompletes(p: Platform, keyed: bool, defs: Defs, s: Schema, bs: seq<byte>)
    requires Guarded(defs) && WellFormed(defs) && WellFormedSchema(defs, s) && ScanItem(p, keyed, defs, s, bs).Some?
    ensures ReadItem(p, keyed, defs, s, defs, s, bs).Success?
    decreases |bs|, Height(defs, s), 2
  {
    hide Guarded, IsSuffix, Scan, Read;
    ReadCompletes(p, defs, s, ScanKey(p, keyed, bs).value);
  }

  lemma {:induction false} ReadFieldsCompletes(p: Platform, defs: Defs, n: string, i: nat, bs: seq<byte>,
                                               acc: map<string, Datum>)
    requires Guarded(defs) && WellFormed(defs) && n in defs && defs[n].Record? && i <= |defs[n].fields|
    requires ScanFields(p, defs, n, i, bs).Some?
    ensures ReadFields(p, defs, n, defs, defs[n].fields, i, bs, acc).Success?
    decreases |bs|, Height(defs, Named(n)), 0, |defs[n].fields| - i
  {
    hide IsSuffix, Scan, Read, Skip, FindField, WellFormedSchema;
    var fields := defs[n].fields;
    if i < |fields| {
      var t := fields[i].ftype;
      FieldIsLower(defs, n, i);
      FindDistinct(fields, i);
      ReadCompletes(p, defs, t, bs);
      ReadFollowsScan(p, defs, t, defs, t, bs);
      var (d, rest) := Read(p, defs, t, defs, t, bs).value;
      ReadFieldsCompletes(p, defs, n, i + 1, rest, acc[fields[i].name := d]);
    }
  }

  lemma {:induction false} NoDefaultsNeeded(p: Platform, defs: Defs, fields: seq<Field>, i: nat,
                                            acc: map<string, Datum>)
    requires i <= |fields|
    ensures FillDefaults(p, defs, fields, fields, i, acc) == Success(acc)
    decreases |fields| - i
  {
    if i < |fields| {
      NoDefaultsNeeded(p, defs, fields, i + 1, acc);
    }
  }

  /** On every well-formed encoding both succeed, and leave the cursor at its end. */
  lemma SkipAgreesWithRead(p: Platform, defs: Defs, s: Schema, bs: seq<byte>)
    requires Guarded(defs) && WellFormed(defs) && WellFormedSchema(defs, s) && Scan(p, defs, s, bs).Some?
    ensures
      var rest := Scan(p, defs, s, bs).value;
      && Skip(defs, s, bs) == Success(rest)
      && Read(p, defs, s, defs, s, bs).Success? && Read(p, defs, s, defs, s, bs).value.1 == rest
  {
    SkipFollowsScan(p, defs, s, bs);
    ReadCompletes(p, defs, s, bs);
    ReadFollowsScan(p, defs, s, defs, s, bs);
  }
}
