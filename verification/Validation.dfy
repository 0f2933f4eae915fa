/** What validate accepts, said without it: the ranges of numbers, and every datum a reader returns. */
module Validation {
  import opened Basics
  import opened Varint
  import opened Schemas
  import opened Encoding
  import opened Decoding
  import opened Grammar
  import opened Resolution
  import opened RoundTrip
  import opened Agreement

  const TWO_TO_THE_32 := 0x1_0000_0000
  const TWO_TO_THE_64 := 0x1_0000_0000_0000_0000

  /** The integers of 32 and of 64 bits, and of any other Python value nothing. */
  lemma IntegerRanges(defs: Defs, d: Datum)
    ensures Validate(defs, Prim(PInt), d) <==> d.Int? && ZigZag(d.n) < TWO_TO_THE_32
    ensures Validate(defs, Prim(PLong), d) <==> d.Int? && ZigZag(d.n) < TWO_TO_THE_64
  {
  }

  /** A record is judged by its declared fields alone: a missing one counts as null, others are ignored. */
  lemma DeclaredFieldsDecide(defs: Defs, n: string, a: map<string, Datum>, b: map<string, Datum>)
    requires n in defs && defs[n].Record?
    requires forall i :: 0 <= i < |defs[n].fields| ==> Get(a, defs[n].fields[i].name) == Get(b, defs[n].fields[i].name)
    ensures Validate(defs, Named(n), Dict(a)) <==> Validate(defs, Named(n), Dict(b))
  {
  }

  /** The bits of a number at the start of bs are no more than its type has. */
  predicate RangedPrimitive(prim: Primitive, bs: seq<byte>) {
    match ReadDigits(bs)
    case Failure(_) => true
    case Success((z, _)) => (prim == PInt ==> z < TWO_TO_THE_32) && (prim == PLong ==> z < TWO_TO_THE_64)
  }

  /** The ints and longs in the well-formed encoding at the start of bs lie within their ranges. */
  ghost predicate Ranged(p: Platform, defs: Defs, s: Schema, bs: seq<byte>)
    requires Guarded(defs)
    decreases |bs|, Height(defs, s), 1
  {
    match s
    case Prim(prim) => RangedPrimitive(prim, bs)
    case Array(items) => RangedBlock(p, false, defs, items, bs)
    case Map(values) => RangedBlock(p, true, defs, values, bs)
    case Union(branches) => (
      match ScanIndex(|branches|, bs)
      case None => true
      case Some((i, rest)) => Ranged(p, defs, branches[i], rest)
    )
    case Named(n) => n in defs && defs[n].Record? ==> RangedFields(p, defs, n, 0, bs)
  }

  ghost predicate RangedBlock(p: Platform, keyed: bool, defs: Defs, s: Schema, bs: seq<byte>)
    requires Guarded(defs)
    decreases |bs|, 0, 0, 0
  {
    match ReadHead(bs)
    case Failure(_) => true
    case Success((head, rest)) => head.count > 0 ==> RangedItems(p, keyed, defs, s, head.count, rest)
  }

  ghost predicate RangedItem(p: Platform, keyed: bool, defs: Defs, s: Schema, bs: seq<byte>)
    requires Guarded(defs)
    decreases |bs|, Height(defs, s), 2
  {
    match ScanKey(p, keyed, bs)
    case None => true
    case Some(rest) => Ranged(p, defs, s, rest)
  }

  ghost predicate RangedItems(p: Platform, keyed: bool, defs: Defs, s: Schema, n: nat, bs: seq<byte>)
    requires Guarded(defs)
    decreases |bs|, if n == 0 then 0 else Height(defs, s) + 1, 1, n
  {
    if n == 0 then RangedBlock(p, keyed, defs, s, bs)
    else
      match ScanItem(p, keyed, defs, s, bs)
      case None => true
      case Some(rest) => RangedItem(p, keyed, defs, s, bs) && RangedItems(p, keyed, defs, s, n - 1, rest)
  }

  ghost predicate RangedFields(p: Platform, defs: Defs, n: string, i: nat, bs: seq<byte>)
    requires Guarded(defs) && n in defs && defs[n].Record? && i <= |defs[n].fields|
    decreases |bs|, Height(defs, Named(n)), 0, |defs[n].fields| - i
  {
    i < |defs[n].fields| ==>
      var t := defs[n].fields[i].ftype;
      && Ranged(p, defs, t, bs)
      && match Scan(p, defs, t, bs)
         case None => true
         case Some(rest) => RangedFields(p, defs, n, i + 1, rest)
  }

  ghost predicate AllValid(defs: Defs, s: Schema, es: seq<(string, Datum)>) {
    forall i :: 0 <= i < |es| ==> Validate(defs, s, es[i].1)
  }

  ghost predicate FieldsValid(defs: Defs, fields: seq<Field>, i: nat, m: map<string, Datum>)
    requires i <= |fields|
  {
    forall k :: 0 <= k < i ==> fields[k].name in m && Validate(defs, fields[k].ftype, m[fields[k].name])
  }

  lemma PrimitiveIsValid(p: Platform, defs: Defs, prim: Primitive, bs: seq<byte>)
    requires ScanPrimitive(p, prim, bs).Some? && RangedPrimitive(prim, bs)
    requires ReadPrimitive(p, prim, bs).Success?
    ensures Validate(defs, Prim(prim), ReadPrimitive(p, prim, bs).value.0)
  {
  }

  /** Every datum that reading a well-formed encoding returns is valid, if its numbers are in range. */
  lemma {:induction false} ReadIsAccepted(p: Platform, defs: Defs, s: Schema, bs: seq<byte>)
    requires Guarded(defs) && WellFormed(defs) && WellFormedSchema(defs, s)
    requires Scan(p, defs, s, bs).Some? && Ranged(p, defs, s, bs)
    ensures Read(p, defs, s, defs, s, bs).Success? && Validate(defs, s, Read(p, defs, s, defs, s, bs).value.0)
    decreases |bs|, Height(defs, s), 1
  {
    ReadCompletes(p, defs, s, bs);
    hide Guarded, WellFormed, IsSuffix, Match, FirstMatch, ScanBlock, ReadBlock, RangedBlock, ScanFields, ReadFields,
      RangedFields, FillDefaults, ScanPrimitive, ReadPrimitive, RangedPrimitive, ReadBranch, ScanIndex, Validate;
    MatchesItself(defs, s);
    match s
    case Prim(prim) => PrimitiveIsValid(p, defs, prim, bs);
    case Array(items) =>
      BlockIsAccepted(p, false, defs, items, bs, []);
      ListIsAccepted(defs, items, ReadBlock(p, false, defs, items, defs, items, bs, []).value.0);
    case Map(values) =>
      BlockIsAccepted(p, true, defs, values, bs, []);
      DictIsAccepted(defs, values, ReadBlock(p, true, defs, values, defs, values, bs, []).value.0);
    case Union(branches) => UnionIsAccepted(p, defs, branches, bs);
    case Named(n) => NamedIsAccepted(p, defs, n, bs);
  }

  lemma ListIsAccepted(defs: Defs, s: Schema, es: seq<(string, Datum)>)
    requires AllValid(defs, s, es)
    ensures Validate(defs, Array(s), List(Values(es)))
  {
  }

  lemma {:induction false} DictIsAccepted(defs: Defs, s: Schema, es: seq<(string, Datum)>)
    requires AllValid(defs, s, es)
    ensures Validate(defs, Map(s), Dict(ToMap(es)))
    decreases |es|
  {
    if es != [] {
      DictIsAccepted(defs, s, es[..|es| - 1]);
    }
  }

  lemma {:induction false} UnionIsAccepted(p: Platform, defs: Defs, branches: seq<Schema>, bs: seq<byte>)
    requires Guarded(defs) && WellFormed(defs) && WellFormedSchema(defs, Union(branches))
    requires Scan(p, defs, Union(branches), bs).Some? && Ranged(p, defs, Union(branches), bs)
    requires Read(p, defs, Union(branches), defs, Union(branches), bs).Success?
    ensures Validate(defs, Union(branches), Read(p, defs, Union(branches), defs, Union(branches), bs).value.0)
    decreases |bs|, 0, 0
  {
    UnionParts(p, defs, branches, bs);
    var (i, rest) := ScanIndex(|branches|, bs).value;
    hide Guarded, WellFormed, WellFormedSchema, ScanIndex, Scan, Ranged, Read;
    ReadIsAccepted(p, defs, branches[i], rest);
  }

  /** A union reads its data as their own branch reads them. */
  lemma UnionParts(p: Platform, defs: Defs, branches: seq<Schema>, bs: seq<byte>)
    requires Guarded(defs) && WellFormedSchema(defs, Union(branches))
    requires Scan(p, defs, Union(branches), bs).Some? && Ranged(p, defs, Union(branches), bs)
    ensures ScanIndex(|branches|, bs).Some?
    ensures
      var (i, rest) := ScanIndex(|branches|, bs).value;
      && |rest| < |bs| && WellFormedSchema(defs, branches[i])
      && Scan(p, defs, branches[i], rest).Some? && Ranged(p, defs, branches[i], rest)
      && Read(p, defs, Union(branches), defs, Union(branches), bs) ==
           Read(p, defs, branches[i], defs, branches[i], rest)
  {
    hide Guarded, IsSuffix, ScanPrimitive, ReadPrimitive, RangedPrimitive, ReadBlock, ReadFields;
    BranchFollowsIndex(branches, bs);
    var (i, rest) := ScanIndex(|branches|, bs).value;
    var branch := branches[i];
    FirstMatchOfBranch(defs, branches, i);
    MatchesItself(defs, branch);
    hide FirstMatch, ReadBranch, ScanIndex;
    assert Match(defs, branch, defs, Union(branches)) && Match(defs, Union(branches), defs, Union(branches));
    hide Match;
    var chosen := branches[FirstMatch(defs, branch, defs, branches)];
    assert Read(p, defs, Union(branches), defs, Union(branches), bs) == Read(p, defs, branch, defs, chosen, rest);
  }

  lemma {:induction false} NamedIsAccepted(p: Platform, defs: Defs, n: string, bs: seq<byte>)
    requires Guarded(defs) && WellFormed(defs) && n in defs
    requires Scan(p, defs, Named(n), bs).Some? && Ranged(p, defs, Named(n), bs)
    requires Match(defs, Named(n), defs, Named(n)) && Read(p, defs, Named(n), defs, Named(n), bs).Success?
    ensures Validate(defs, Named(n), Read(p, defs, Named(n), defs, Named(n), bs).value.0)
    decreases |bs|, Height(defs, Named(n)), 0, if defs[n].Record? then |defs[n].fields| + 1 else 0
  {
    hide Guarded, IsSuffix, Match, ScanFields, ReadFields, RangedFields;
    match defs[n]
    case Fixed(_) =>
    case Enum(_) =>
    case Record(_, fields) =>
      ReadFieldsCompletes(p, defs, n, 0, bs, map[]);
      var m := ReadFields(p, defs, n, defs, fields, 0, bs, map[]).value.0;
      NoDefaultsNeeded(p, defs, fields, 0, m);
      hide FillDefaults;
      FieldsAreAccepted(p, defs, n, 0, bs, map[]);
      RecordIsAccepted(defs, n, m);
  }

  lemma RecordIsAccepted(defs: Defs, n: string, m: map<string, Datum>)
    requires n in defs && defs[n].Record? && FieldsValid(defs, defs[n].fields, |defs[n].fields|, m)
    ensures Validate(defs, Named(n), Dict(m))
  {
  }

  lemma {:induction false} FieldsAreAccepted(p: Platform, defs: Defs, n: string, i: nat, bs: seq<byte>,
                                             acc: map<string, Datum>)
    requires Guarded(defs) && WellFormed(defs) && n in defs && defs[n].Record? && i <= |defs[n].fields|
    requires ScanFields(p, defs, n, i, bs).Some? && RangedFields(p, defs, n, i, bs)
    requires FieldsValid(defs, defs[n].fields, i, acc)
    ensures ReadFields(p, defs, n, defs, defs[n].fields, i, bs, acc).Success?
    ensures
      FieldsValid(defs, defs[n].fields, |defs[n].fields|,
        ReadFields(p, defs, n, defs, defs[n].fields, i, bs, acc).value.0)
    decreases |bs|, Height(defs, Named(n)), 0, |defs[n].fields| - i
  {
    hide IsSuffix, Scan, Read, Skip, Ranged, FindField, Validate, WellFormedSchema;
    var fields := defs[n].fields;
    if i < |fields| {
      var t := fields[i].ftype;
      FieldIsLower(defs, n, i);
      hide Guarded, Height;
      FindDistinct(fields, i);
      ReadIsAccepted(p, defs, t, bs);
      ReadFollowsScan(p, defs, t, defs, t, bs);
      var (d, rest) := Read(p, defs, t, defs, t, bs).value;
      FieldsAreAccepted(p, defs, n, i + 1, rest, acc[fields[i].name := d]);
    }
  }

  lemma {:induction false} BlockIsAccepted(p: Platform, keyed: bool, defs: Defs, s: Schema, bs: seq<byte>,
                                           acc: seq<(string, Datum)>)
    requires Guarded(defs) && WellFormed(defs) && WellFormedSchema(defs, s)
    requires ScanBlock(p, keyed, defs, s, bs).Some? && RangedBlock(p, keyed, defs, s, bs) && AllValid(defs, s, acc)
    ensures ReadBlock(p, keyed, defs, s, defs, s, bs, acc).Success?
    ensures AllValid(defs, s, ReadBlock(p, keyed, defs, s, defs, s, bs, acc).value.0)
    decreases |bs|, 0, 0, 0
  {
    hide Guarded, WellFormed, WellFormedSchema, IsSuffix, ScanItems, ReadItems, RangedItems, ReadHead, AllValid;
    var (head, rest) := ReadHead(bs).value;
    if head.count > 0 {
      ItemsAreAccepted(p, keyed, defs, s, head.count, head.size, rest, acc);
    }
  }

  lemma {:induction false} ItemsAreAccepted(p: Platform, keyed: bool, defs: Defs, s: Schema, n: nat, due: Option<int>,
                                            bs: seq<byte>, acc: seq<(string, Datum)>)
    requires Guarded(defs) && WellFormed(defs) && WellFormedSchema(defs, s)
    requires ScanItems(p, keyed, defs, s, n, due, bs).Some? && RangedItems(p, keyed, defs, s, n, bs)
    requires AllValid(defs, s, acc)
    ensures ReadItems(p, keyed, defs, s, defs, s, n, bs, acc).Success?
    ensures AllValid(defs, s, ReadItems(p, keyed, defs, s, defs, s, n, bs, acc).value.0)
    decreases |bs|, if n == 0 then 0 else Height(defs, s) + 1, 1, n
  {
    hide Guarded, WellFormed, WellFormedSchema, IsSuffix, ScanItem, ReadItem, RangedItem, ScanBlock, ReadBlock,
      RangedBlock, Validate;
    if n == 0 {
      BlockIsAccepted(p, keyed, defs, s, bs, acc);
    } else {
      ItemIsAccepted(p, keyed, defs, s, bs);
      ReadItemFollowsScan(p, keyed, defs, s, defs, s, bs);
      var (item, rest) := ReadItem(p, keyed, defs, s, defs, s, bs).value;
      ItemsAreAccepted(p, keyed, defs, s, n - 1, Less(due, |bs| - |rest|), rest, acc + [item]);
    }
  }

  lemma {:induction false} ItemIsAccepted(p: Platform, keyed: bool, defs: Defs, s: Schema, bs: seq<byte>)
    requires Guarded(defs) && WellFormed(defs) && WellFormedSchema(defs, s) && ScanItem(p, keyed, defs, s, bs).Some?
    requires RangedItem(p, keyed, defs, s, bs)
    ensures ReadItem(p, keyed, defs, s, defs, s, bs).Success?
    ensures Validate(defs, s, ReadItem(p, keyed, defs, s, defs, s, bs).value.0.1)
    decreases |bs|, Height(defs, s), 2
  {
    hide Guarded, WellFormed, WellFormedSchema, IsSuffix, Scan, Read, Ranged, Validate;
    ReadIsAccepted(p, defs, s, ScanKey(p, keyed, bs).value);
  }
}
