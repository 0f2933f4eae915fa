/** Data a reader returns belong to the reader's schema. */
module Conformance {
  import opened Basics
  import opened Varint
  import opened Schemas
  import opened Encoding
  import opened Decoding
  import opened Resolution

  /** Validate, or if strict something more: every record has exactly the fields its schema declares. */
  ghost predicate Conforms(strict: bool, defs: Defs, s: Schema, d: Datum)
    decreases d != Null, d, s
  {
    match s
    case Prim(prim) => ValidPrimitive(prim, d)
    case Array(items) => d.List? && forall i :: 0 <= i < |d.items| ==> Conforms(strict, defs, items, d.items[i])
    case Map(values) => d.Dict? && forall k :: k in d.entries ==> Conforms(strict, defs, values, d.entries[k])
    case Union(bs) => exists i :: 0 <= i < |bs| && Conforms(strict, defs, bs[i], d)
    case Named(n) =>
      n in defs &&
      match defs[n]
      case Fixed(size) => d.Bytes? && |d.data| == size
      case Enum(symbols) => d.Text? && d.s in symbols
      case Record(_, fields) =>
        && d.Dict? && (strict ==> d.entries.Keys == FieldNames(fields))
        && forall i :: 0 <= i < |fields| ==> Conforms(strict, defs, fields[i].ftype, Get(d.entries, fields[i].name))
  }

  lemma {:induction false} ConformsIsValid(strict: bool, defs: Defs, s: Schema, d: Datum)
    requires Conforms(strict, defs, s, d)
    ensures Validate(defs, s, d)
    decreases d != Null, d, s
  {
    match s
    case Prim(_) =>
    case Array(items) => forall i | 0 <= i < |d.items| { ConformsIsValid(strict, defs, items, d.items[i]); }
    case Map(values) => forall k | k in d.entries { ConformsIsValid(strict, defs, values, d.entries[k]); }
    case Union(bs) =>
      var i :| 0 <= i < |bs| && Conforms(strict, defs, bs[i], d);
      ConformsIsValid(strict, defs, bs[i], d);
    case Named(n) =>
      if defs[n].Record? {
        var fields := defs[n].fields;
        forall i | 0 <= i < |fields| { ConformsIsValid(strict, defs, fields[i].ftype, Get(d.entries, fields[i].name)); }
      }
  }

  lemma {:induction false} ValidConforms(defs: Defs, s: Schema, d: Datum)
    requires Validate(defs, s, d)
    ensures Conforms(false, defs, s, d)
    decreases d != Null, d, s
  {
    match s
    case Prim(_) =>
    case Array(items) => forall i | 0 <= i < |d.items| { ValidConforms(defs, items, d.items[i]); }
    case Map(values) => forall k | k in d.entries { ValidConforms(defs, values, d.entries[k]); }
    case Union(bs) =>
      var i :| 0 <= i < |bs| && Validate(defs, bs[i], d);
      ValidConforms(defs, bs[i], d);
    case Named(n) =>
      if defs[n].Record? {
        var fields := defs[n].fields;
        forall i | 0 <= i < |fields| { ValidConforms(defs, fields[i].ftype, Get(d.entries, fields[i].name)); }
      }
  }

  /** A field default, where it can be decoded at all, decodes to data of the field's schema. */
  ghost predicate GoodDefaults(strict: bool, p: Platform, defs: Defs) {
    forall n, i :: n in defs && defs[n].Record? && 0 <= i < |defs[n].fields| ==>
      var f := defs[n].fields[i];
      Default(p, defs, f).Success? ==> Conforms(strict, defs, f.ftype, Default(p, defs, f).value)
  }

  lemma PromotionIsValid(w: Primitive, r: Primitive, p: Platform, d: Datum)
    requires (w == r || Promotes(w, r)) && ValidPrimitive(w, d)
    ensures ValidPrimitive(r, NormPrimitive(p, w, d))
  {
  }

  lemma {:induction false} ResolveConforms(strict: bool, p: Platform, dw: Defs, w: Schema, dr: Defs, r: Schema,
                                           d: Datum)
    requires WellFormed(dr) && GoodDefaults(strict, p, dr) && Validate(dw, w, d)
    requires Resolve(p, dw, w, dr, r, d).Some?
    ensures Conforms(strict, dr, r, Resolve(p, dw, w, dr, r, d).value)
    decreases d != Null, d, 1, w, r
  {
    hide GoodDefaults, Default, FirstMatch, WellFormedSchema, ResolveList, ResolveDict, ResolveFields;
    if !w.Union? && r.Union? {
      ResolveConforms(strict, p, dw, w, dr, r.branches[FirstMatch(dw, w, dr, r.branches)], d);
    } else {
      match w
      case Prim(prim) => PromotionIsValid(prim, r.prim, p, d);
      case Array(items) =>
        ListIsResolved(p, dw, items, dr, r.items, d);
        forall i | 0 <= i < |d.items| { ResolveConforms(strict, p, dw, items, dr, r.items, d.items[i]); }
      case Map(values) =>
        DictIsResolved(p, dw, values, dr, r.values, d);
        forall k | k in d.entries { ResolveConforms(strict, p, dw, values, dr, r.values, d.entries[k]); }
      case Union(bs) => ResolveConforms(strict, p, dw, bs[LastValid(dw, bs, d)], dr, r, d);
      case Named(n) =>
        if dw[n].Record? {
          ResolveRecordConforms(strict, p, dw, n, dr, r.fullname, d);
        }
    }
  }

  lemma {:induction false} ResolveRecordConforms(strict: bool, p: Platform, dw: Defs, n: string, dr: Defs, rn: string,
                                                 d: Datum)
    requires WellFormed(dr) && GoodDefaults(strict, p, dr)
    requires n in dw && dw[n].Record? && rn in dr && dr[rn].Record?
    requires Validate(dw, Named(n), d) && Match(dw, Named(n), dr, Named(rn))
    requires Resolve(p, dw, Named(n), dr, Named(rn), d).Some?
    ensures Conforms(strict, dr, Named(rn), Resolve(p, dw, Named(n), dr, Named(rn), d).value)
    decreases true, d, 0
  {
    hide Match, Resolve, Default, FindField, WellFormedSchema, Validate;
    ResolveRecord(p, dw, n, dr, rn, d);
    var wf, rf := dw[n].fields, dr[rn].fields;
    var m := Resolve(p, dw, Named(n), dr, Named(rn), d).value.entries;
    forall i | 0 <= i < |rf| ensures Conforms(strict, dr, rf[i].ftype, Get(m, rf[i].name)) {
      var name := rf[i].name;
      assert rf[i] in rf && name in FieldNames(rf);
      FindDistinct(rf, i);
      if FindField(wf, name).Some? {
        FieldIsValid(dw, n, d, name);
        ResolveConforms(strict, p, dw, FindField(wf, name).value.ftype, dr, rf[i].ftype, Get(d.entries, name));
      }
    }
  }

  lemma FieldIsValid(defs: Defs, n: string, d: Datum, name: string)
    requires n in defs && defs[n].Record? && Validate(defs, Named(n), d) && FindField(defs[n].fields, name).Some?
    ensures d.Dict? && Validate(defs, FindField(defs[n].fields, name).value.ftype, Get(d.entries, name))
  {
    var f := FindField(defs[n].fields, name).value;
    assert f in defs[n].fields;
  }

  /**
   * Whatever a reader returns for written data is valid for its schema, if the defaults are; and
   * its records have exactly the reader's fields, if those of the defaults do.
   */
  lemma ReadConforms(strict: bool, p: Platform, dw: Defs, w: Schema, dr: Defs, r: Schema, d: Datum, suffix: seq<byte>)
    requires Sound(p) && Guarded(dw) && WellFormed(dr) && GoodDefaults(strict, p, dr) && Validate(dw, w, d)
    requires Read(p, dw, w, dr, r, Write(p, dw, w, d) + suffix).Success?
    ensures
      var v := Read(p, dw, w, dr, r, Write(p, dw, w, d) + suffix).value.0;
      Conforms(strict, dr, r, v) && Validate(dr, r, v)
  {
    hide GoodDefaults, Guarded, Sound, WellFormed;
    Fusion(p, dw, w, dr, r, d, suffix);
    ResolveConforms(strict, p, dw, w, dr, r, d);
    ConformsIsValid(strict, dr, r, Resolve(p, dw, w, dr, r, d).value);
  }
  /** A field default, where it can be decoded at all, decodes to valid data. */
  ghost predicate ValidDefaults(p: Platform, defs: Defs) {
    forall n, i :: n in defs && defs[n].Record? && 0 <= i < |defs[n].fields| ==>
      var f := defs[n].fields[i];
      Default(p, defs, f).Success? ==> Validate(defs, f.ftype, Default(p, defs, f).value)
  }

  /** The plain half: what is read is valid, if the defaults only validate. */
  lemma ReadIsValid(p: Platform, dw: Defs, w: Schema, dr: Defs, r: Schema, d: Datum, suffix: seq<byte>)
    requires Sound(p) && Guarded(dw) && WellFormed(dr) && ValidDefaults(p, dr) && Validate(dw, w, d)
    requires Read(p, dw, w, dr, r, Write(p, dw, w, d) + suffix).Success?
    ensures Validate(dr, r, Read(p, dw, w, dr, r, Write(p, dw, w, d) + suffix).value.0)
  {
    hide Guarded, Sound, WellFormed, Default, Validate, Read, Write, Conforms;
    forall n, i | n in dr && dr[n].Record? && 0 <= i < |dr[n].fields|
      ensures
        var f := dr[n].fields[i];
        Default(p, dr, f).Success? ==> Conforms(false, dr, f.ftype, Default(p, dr, f).value)
    {
      var f := dr[n].fields[i];
      if Default(p, dr, f).Success? {
        ValidConforms(dr, f.ftype, Default(p, dr, f).value);
      }
    }
    ReadConforms(false, p, dw, w, dr, r, d, suffix);
  }
}
