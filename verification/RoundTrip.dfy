/** What decoding gives back: the written datum itself, or data of the reader's schema. */
module RoundTrip {
  import opened Basics
  import opened Schemas
  import opened Encoding
  import opened Decoding
  import opened Resolution

  /** In a well-formed union the first branch that matches a branch reads it as that branch does. */
  lemma FirstMatchOfBranch(defs: Defs, bs: seq<Schema>, j: nat)
    requires WellFormedSchema(defs, Union(bs)) && j < |bs|
    ensures var i := FirstMatch(defs, bs[j], defs, bs);
      i < |bs| && (bs[i] == bs[j] || (bs[i].Prim? && bs[j].Prim?))
  {
    MatchesItself(defs, bs[j]);
    var i := FirstMatch(defs, bs[j], defs, bs);
    if i < j {
      MatchShape(defs, bs[j], defs, bs[i]);
      assert !bs[i].Named? ==> TypeOf(defs, bs[i]) != TypeOf(defs, bs[j]);
    }
  }

  lemma MatchesItself(defs: Defs, s: Schema)
    requires WellFormedSchema(defs, s)
    ensures Match(defs, s, defs, s)
  {
  }

  /** A schema resolves against itself, and every datum to its normal form. */
  lemma {:induction false} SelfResolve(p: Platform, defs: Defs, s: Schema, d: Datum)
    requires WellFormed(defs) && WellFormedSchema(defs, s) && Validate(defs, s, d)
    ensures Resolve(p, defs, s, defs, s, d) == Some(Norm(p, defs, s, d))
    decreases d != Null, d, s
  {
    hide Match, FirstMatch, Default, ResolveList, ResolveDict, ResolveFields;
    MatchesItself(defs, s);
    match s
    case Prim(_) =>
    case Array(items) =>
      forall i | 0 <= i < |d.items| { SelfResolve(p, defs, items, d.items[i]); }
      ResolvedList(p, defs, items, defs, items, d, Norm(p, defs, s, d).items);
    case Map(values) =>
      forall k | k in d.entries { SelfResolve(p, defs, values, d.entries[k]); }
      ResolvedDict(p, defs, values, defs, values, d, Norm(p, defs, s, d).entries);
    case Union(bs) =>
      var j := LastValid(defs, bs, d);
      SelfResolve(p, defs, bs[j], d);
      SelfResolveUnion(p, defs, bs, d);
    case Named(n) =>
      match defs[n]
      case Fixed(_) =>
      case Enum(_) =>
      case Record(_, fields) =>
        forall i | 0 <= i < |fields|
          ensures Resolve(p, defs, fields[i].ftype, defs, fields[i].ftype, Get(d.entries, fields[i].name))
            == Some(Norm(p, defs, fields[i].ftype, Get(d.entries, fields[i].name)))
        {
          SelfResolve(p, defs, fields[i].ftype, Get(d.entries, fields[i].name));
        }
        SelfResolveRecord(p, defs, n, d);
  }

  lemma SelfResolveUnion(p: Platform, defs: Defs, bs: seq<Schema>, d: Datum)
    requires WellFormedSchema(defs, Union(bs)) && Validate(defs, Union(bs), d)
    requires var j := LastValid(defs, bs, d); Resolve(p, defs, bs[j], defs, bs[j], d) == Some(Norm(p, defs, bs[j], d))
    ensures Resolve(p, defs, Union(bs), defs, Union(bs), d) == Some(Norm(p, defs, Union(bs), d))
  {
    var j := LastValid(defs, bs, d);
    FirstMatchOfBranch(defs, bs, j);
    var i := FirstMatch(defs, bs[j], defs, bs);
    hide FirstMatch, Default, WellFormedSchema;
    assert Match(defs, bs[j], defs, Union(bs)) && Match(defs, Union(bs), defs, Union(bs));
    hide Match;
    assert Resolve(p, defs, Union(bs), defs, Union(bs), d) == Resolve(p, defs, bs[j], defs, Union(bs), d);
    assert Resolve(p, defs, bs[j], defs, Union(bs), d) == Resolve(p, defs, bs[j], defs, bs[i], d);
  }

  /** The definition of Norm at a record, field by field. */
  lemma NormFields(p: Platform, defs: Defs, n: string, d: Datum)
    requires n in defs && defs[n].Record? && DistinctFields(defs[n].fields) && Validate(defs, Named(n), d)
    ensures
      var (fields, v) := (defs[n].fields, Norm(p, defs, Named(n), d));
      && v.Dict? && v.entries.Keys == FieldNames(fields)
      && forall i :: 0 <= i < |fields| ==>
           && fields[i].name in v.entries
           && v.entries[fields[i].name] == Norm(p, defs, fields[i].ftype, Get(d.entries, fields[i].name))
  {
    hide FindField;
    var fields := defs[n].fields;
    forall i | 0 <= i < |fields|
      ensures fields[i].name in FieldNames(fields) && FindField(fields, fields[i].name) == Some(fields[i])
    {
      assert fields[i] in fields;
      FindDistinct(fields, i);
    }
  }

  lemma SelfResolveRecord(p: Platform, defs: Defs, n: string, d: Datum)
    requires WellFormed(defs) && n in defs && defs[n].Record? && Validate(defs, Named(n), d)
    requires Match(defs, Named(n), defs, Named(n))
    requires var fields := defs[n].fields; forall i :: 0 <= i < |fields| ==>
      Resolve(p, defs, fields[i].ftype, defs, fields[i].ftype, Get(d.entries, fields[i].name))
        == Some(Norm(p, defs, fields[i].ftype, Get(d.entries, fields[i].name)))
    ensures Resolve(p, defs, Named(n), defs, Named(n), d) == Some(Norm(p, defs, Named(n), d))
  {
    hide Match, Default, FindField, Norm, Resolve, WellFormedSchema;
    ResolveRecord(p, defs, n, defs, n, d);
    NormFields(p, defs, n, d);
    var fields := defs[n].fields;
    forall i | 0 <= i < |fields|
      ensures FieldResolves(p, defs, n, defs, fields, d, i) && DefaultFills(p, defs, fields, fields, fields[i].name)
      ensures FindField(fields, fields[i].name) == Some(fields[i])
    {
      FindDistinct(fields, i);
    }
    var m, m' := Resolve(p, defs, Named(n), defs, Named(n), d).value.entries, Norm(p, defs, Named(n), d).entries;
    forall name | name in m ensures m[name] == m'[name] {
      var f :| f in fields && f.name == name;
    }
    assert m == m';
  }

  /** A valid datum written and read with one schema comes back normalised, and the suffix is untouched. */
  lemma DatumRoundTrip(p: Platform, defs: Defs, s: Schema, d: Datum, suffix: seq<byte>)
    requires Sound(p) && WellFormed(defs) && Guarded(defs) && WellFormedSchema(defs, s) && Validate(defs, s, d)
    ensures Read(p, defs, s, defs, s, Write(p, defs, s, d) + suffix) == Success((Norm(p, defs, s, d), suffix))
  {
    hide Sound, WellFormed, Guarded, WellFormedSchema, Validate, Read, Write, Norm, Resolve;
    Fusion(p, defs, s, defs, s, d, suffix);
    SelfResolve(p, defs, s, d);
  }

  /** Nothing is lost in normalising: records name exactly the declared fields, and numbers pack exactly. */
  ghost predicate Exact(p: Platform, defs: Defs, s: Schema, d: Datum)
    requires Validate(defs, s, d)
    decreases d != Null, d, s
  {
    match s
    case Prim(prim) => NormPrimitive(p, prim, d) == d
    case Array(items) => forall i :: 0 <= i < |d.items| ==> Exact(p, defs, items, d.items[i])
    case Map(values) => forall k :: k in d.entries ==> Exact(p, defs, values, d.entries[k])
    case Union(bs) => Exact(p, defs, bs[LastValid(defs, bs, d)], d)
    case Named(n) =>
      match defs[n]
      case Record(_, fields) =>
        && d.entries.Keys == FieldNames(fields)
        && forall i :: 0 <= i < |fields| ==> Exact(p, defs, fields[i].ftype, Get(d.entries, fields[i].name))
      case _ => true
  }

  /** Such data, and only such data, come back unchanged. */
  lemma {:induction false} NormIsIdentity(p: Platform, defs: Defs, s: Schema, d: Datum)
    requires WellFormed(defs) && Validate(defs, s, d)
    ensures Norm(p, defs, s, d) == d <==> Exact(p, defs, s, d)
    decreases d != Null, d, s
  {
    match s
    case Prim(_) =>
    case Array(items) =>
      forall i | 0 <= i < |d.items| { NormIsIdentity(p, defs, items, d.items[i]); }
      var items' := Norm(p, defs, s, d).items;
      if items' == d.items {
        assert forall i :: 0 <= i < |d.items| ==> items'[i] == Norm(p, defs, items, d.items[i]);
      }
    case Map(values) =>
      forall k | k in d.entries { NormIsIdentity(p, defs, values, d.entries[k]); }
      var m := Norm(p, defs, s, d).entries;
      assert m == d.entries <==> forall k :: k in d.entries ==> m[k] == d.entries[k];
    case Union(bs) => NormIsIdentity(p, defs, bs[LastValid(defs, bs, d)], d);
    case Named(n) =>
      match defs[n]
      case Fixed(_) =>
      case Enum(_) =>
      case Record(_, fields) =>
        forall i | 0 <= i < |fields| { NormIsIdentity(p, defs, fields[i].ftype, Get(d.entries, fields[i].name)); }
        NormOfRecord(p, defs, n, d);
  }

  lemma NormOfRecord(p: Platform, defs: Defs, n: string, d: Datum)
    requires WellFormed(defs) && n in defs && defs[n].Record? && Validate(defs, Named(n), d)
    ensures
      var fields := defs[n].fields;
      Norm(p, defs, Named(n), d) == d <==>
        && d.entries.Keys == FieldNames(fields)
        && forall i :: 0 <= i < |fields| ==>
             Norm(p, defs, fields[i].ftype, Get(d.entries, fields[i].name)) == Get(d.entries, fields[i].name)
  {
    hide FindField, WellFormedSchema, Norm;
    NormFields(p, defs, n, d);
    var fields := defs[n].fields;
    var m := Norm(p, defs, Named(n), d).entries;
    if d.entries.Keys == FieldNames(fields) &&
       (forall i :: 0 <= i < |fields| ==>
          Norm(p, defs, fields[i].ftype, Get(d.entries, fields[i].name)) == Get(d.entries, fields[i].name)) {
      forall name | name in m ensures m[name] == d.entries[name] {
        var f :| f in fields && f.name == name;
      }
      assert m == d.entries;
    }
  }
}
