/**
 * Which data can be read as what (avro/devices/avro/io.py: match_schemas; the "Schema Resolution"
 * section of the Avro specification), said of reading itself.
 */
module Promotion {
  import opened Basics
  import opened Varint
  import opened Schemas
  import opened Encoding
  import opened Decoding
  import opened Resolution

  /** A number can be read as any type further to the right. */
  const NUMBERS := [PInt, PLong, PFloat, PDouble]

  predicate Before(w: Primitive, r: Primitive) {
    exists i, j :: 0 <= i < j < |NUMBERS| && NUMBERS[i] == w && NUMBERS[j] == r
  }

  /** Data of one type other than a union read as another: the table of the specification. */
  predicate MayRead(dw: Defs, w: Schema, dr: Defs, r: Schema) {
    match (w, r)
    case (Prim(a), Prim(b)) => a == b || Before(a, b)
    case (Array(a), Array(b)) => TypeOf(dw, a) == TypeOf(dr, b)
    case (Map(a), Map(b)) => TypeOf(dw, a) == TypeOf(dr, b)
    case (Named(m), Named(n)) =>
      m in dw && n in dr && (
        match (dw[m], dr[n])
        case (Fixed(a), Fixed(b)) => m == n && a == b
        case (Enum(_), Enum(_)) => m == n
        case (Record(a, _), Record(b, _)) => a == b && (m == n || a == KRequest)
        case _ => false
      )
    case _ => false
  }

  lemma BeforeTable(w: Primitive, r: Primitive)
    ensures Before(w, r) <==>
      || (w == PInt && (r == PLong || r == PFloat || r == PDouble))
      || (w == PLong && (r == PFloat || r == PDouble))
      || (w == PFloat && r == PDouble)
  {
    assert NUMBERS[0] == PInt && NUMBERS[1] == PLong && NUMBERS[2] == PFloat && NUMBERS[3] == PDouble;
  }

  lemma MatchesIfMayRead(dw: Defs, w: Schema, dr: Defs, r: Schema)
    requires !w.Union? && !r.Union?
    ensures Match(dw, w, dr, r) <==> MayRead(dw, w, dr, r)
  {
    hide Before;
    if w.Prim? && r.Prim? {
      BeforeTable(w.prim, r.prim);
    }
  }

  /** What the table does not allow is refused whatever the data, and what it allows is read by the writer's type. */
  lemma ReadsByTable(p: Platform, dw: Defs, w: Schema, dr: Defs, r: Schema, bs: seq<byte>)
    requires Guarded(dw) && !w.Union? && !r.Union?
    ensures !MayRead(dw, w, dr, r) ==> Read(p, dw, w, dr, r, bs) == Failure(SchemaResolution)
    ensures MayRead(dw, w, dr, r) && w.Prim? ==> Read(p, dw, w, dr, r, bs) == ReadPrimitive(p, w.prim, bs)
    ensures MayRead(dw, w, dr, r) && w.Named? && dw[w.fullname].Fixed? ==>
      Read(p, dw, w, dr, r, bs).Success? && Read(p, dw, w, dr, r, bs).value.0.Bytes?
    ensures MayRead(dw, w, dr, r) && w.Named? && dw[w.fullname].Enum? ==>
      Read(p, dw, w, dr, r, bs) == ReadSymbol(dw[w.fullname].symbols, dr[r.fullname].symbols, bs)
    ensures MayRead(dw, w, dr, r) && w.Named? && dw[w.fullname].Record? && dw[w.fullname].fields == [] ==>
      (Read(p, dw, w, dr, r, bs).Success? <==> FillDefaults(p, dr, [], dr[r.fullname].fields, 0, map[]).Success?)
  {
    MatchesIfMayRead(dw, w, dr, r);
    hide Guarded, Match, MayRead, ReadPrimitive, ReadHead, ReadSymbol, FillDefaults;
  }

  /** With items or values of one type an empty array or map, at the least, can be read. */
  lemma ReadsEmptyCollections(p: Platform, dw: Defs, w: Schema, dr: Defs, r: Schema, suffix: seq<byte>)
    requires Guarded(dw) && MayRead(dw, w, dr, r) && (w.Array? || w.Map?)
    ensures Read(p, dw, w, dr, r, [0] + suffix) == Success((if w.Array? then List([]) else Dict(map[]), suffix))
  {
    MatchesIfMayRead(dw, w, dr, r);
    var bs := [0] + suffix;
    assert bs[1..] == suffix && ReadLong(bs) == Success((0, suffix));
    hide Guarded, Match, MayRead, ReadLong;
    assert Values([]) == [];
  }

  /** A union is read as the first branch the table allows. */
  lemma ReadsAsFirstBranch(p: Platform, dw: Defs, w: Schema, dr: Defs, rs: seq<Schema>, i: nat, bs: seq<byte>)
    requires Guarded(dw) && !w.Union? && (forall j :: 0 <= j < |rs| ==> !rs[j].Union?) && i <= |rs|
    requires forall j :: 0 <= j < i ==> !MayRead(dw, w, dr, rs[j])
    requires i < |rs| ==> MayRead(dw, w, dr, rs[i])
    ensures Read(p, dw, w, dr, Union(rs), bs) ==
      if i == |rs| then Failure(SchemaResolution) else Read(p, dw, w, dr, rs[i], bs)
  {
    forall j | 0 <= j < |rs| ensures Match(dw, w, dr, rs[j]) <==> MayRead(dw, w, dr, rs[j]) {
      MatchesIfMayRead(dw, w, dr, rs[j]);
    }
    assert Match(dw, w, dr, Union(rs));
    hide Guarded, Match, MayRead;
    assert FirstMatch(dw, w, dr, rs) == i;
    hide FirstMatch;
  }

  /**
   * A valid datum of one primitive type is read as another exactly if the types are equal or the
   * second comes later in the chain of numbers. What comes back is the number that was written.
   */
  lemma PrimitivesAreRead(p: Platform, dw: Defs, w: Primitive, dr: Defs, r: Primitive, d: Datum, suffix: seq<byte>)
    requires Sound(p) && Guarded(dw) && Validate(dw, Prim(w), d)
    ensures
      var res := Read(p, dw, Prim(w), dr, Prim(r), Write(p, dw, Prim(w), d) + suffix);
      if w == r || Before(w, r) then
        && res == Success((NormPrimitive(p, w, d), suffix))
        && (w != PFloat && w != PDouble ==> res.value.0 == d)
      else res == Failure(SchemaResolution)
  {
    ReadsByTable(p, dw, Prim(w), dr, Prim(r), Write(p, dw, Prim(w), d) + suffix);
    MatchesIfMayRead(dw, Prim(w), dr, Prim(r));
    hide Sound, Guarded, Read, Write, Match, Before, NormPrimitive;
    Fusion(p, dw, Prim(w), dr, Prim(r), d, suffix);
    NormOfPrimitive(p, w, d);
  }

  lemma NormOfPrimitive(p: Platform, w: Primitive, d: Datum)
    requires ValidPrimitive(w, d)
    ensures w != PFloat && w != PDouble ==> NormPrimitive(p, w, d) == d
  {
  }

  lemma PrimitiveResolves(p: Platform, dw: Defs, w: Primitive, dr: Defs, d: Datum)
    requires Validate(dw, Prim(w), d)
    ensures Resolve(p, dw, Prim(w), dr, Prim(w), d) == Some(Norm(p, dw, Prim(w), d))
  {
    MatchesIfMayRead(dw, Prim(w), dr, Prim(w));
    hide Match;
  }

  lemma PrimitivesResolve(p: Platform, dw: Defs, w: Primitive, dr: Defs, s: Schema, d: Datum)
    requires (s == Array(Prim(w)) || s == Map(Prim(w))) && Validate(dw, s, d)
    ensures Resolve(p, dw, s, dr, s, d) == Some(Norm(p, dw, s, d))
  {
    MatchesIfMayRead(dw, s, dr, s);
    hide Match, NormPrimitive, ResolveList, ResolveDict;
    if s.Array? {
      forall i | 0 <= i < |d.items| {
        PrimitiveResolves(p, dw, w, dr, d.items[i]);
      }
      ResolvedList(p, dw, Prim(w), dr, Prim(w), d, Norm(p, dw, s, d).items);
    } else {
      forall k | k in d.entries {
        PrimitiveResolves(p, dw, w, dr, d.entries[k]);
      }
      ResolvedDict(p, dw, Prim(w), dr, Prim(w), d, Norm(p, dw, s, d).entries);
    }
  }

  /** Arrays and maps of a primitive are read only as such of the same primitive: there is no promotion inside. */
  lemma PrimitiveCollectionsAreRead(p: Platform, dw: Defs, w: Primitive, dr: Defs, r: Primitive, keyed: bool, d: Datum,
                                    suffix: seq<byte>)
    requires Sound(p) && Guarded(dw) && Validate(dw, if keyed then Map(Prim(w)) else Array(Prim(w)), d)
    ensures
      var (s, t) := if keyed then (Map(Prim(w)), Map(Prim(r))) else (Array(Prim(w)), Array(Prim(r)));
      var res := Read(p, dw, s, dr, t, Write(p, dw, s, d) + suffix);
      res == if w == r then Success((Norm(p, dw, s, d), suffix)) else Failure(SchemaResolution)
  {
    var (s, t) := if keyed then (Map(Prim(w)), Map(Prim(r))) else (Array(Prim(w)), Array(Prim(r)));
    hide Sound, Guarded, Read, Write, Norm, Validate, Resolve;
    if w == r {
      PrimitivesResolve(p, dw, w, dr, s, d);
      Fusion(p, dw, s, dr, t, d, suffix);
    } else {
      ReadsByTable(p, dw, s, dr, t, Write(p, dw, s, d) + suffix);
    }
  }

  /** An enum is read as the enum of the same name, wherever that lists the symbol; without it reading fails. */
  lemma SymbolsAreRead(p: Platform, dw: Defs, w: string, dr: Defs, r: string, d: Datum, suffix: seq<byte>)
    requires Sound(p) && Guarded(dw) && w in dw && dw[w].Enum? && r in dr && dr[r].Enum? && Validate(dw, Named(w), d)
    ensures
      Read(p, dw, Named(w), dr, Named(r), Write(p, dw, Named(w), d) + suffix) ==
        if w == r && d.s in dr[r].symbols then Success((d, suffix)) else Failure(SchemaResolution)
  {
    var symbols := dw[w].symbols;
    var i := IndexOf(symbols, d.s);
    ReadsByTable(p, dw, Named(w), dr, Named(r), Long(i) + suffix);
    assert Write(p, dw, Named(w), d) == Long(i);
    LongRoundTrip(i, suffix);
    hide Sound, Guarded, Read, Write, Long, ReadLong, IndexOf;
  }

  /** A fixed is read as the fixed of the same name and size. */
  lemma FixedAreRead(p: Platform, dw: Defs, w: string, dr: Defs, r: string, d: Datum, suffix: seq<byte>)
    requires Sound(p) && Guarded(dw) && w in dw && dw[w].Fixed? && r in dr && dr[r].Fixed? && Validate(dw, Named(w), d)
    ensures
      Read(p, dw, Named(w), dr, Named(r), Write(p, dw, Named(w), d) + suffix) ==
        if w == r && dw[w].size == dr[r].size then Success((d, suffix)) else Failure(SchemaResolution)
  {
    ReadsByTable(p, dw, Named(w), dr, Named(r), Write(p, dw, Named(w), d) + suffix);
    hide Sound, Guarded, Read;
    Fusion(p, dw, Named(w), dr, Named(r), d, suffix);
  }
}
