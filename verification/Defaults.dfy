/** What the default of a field decodes to (avro/devices/avro/io.py: _read_default_value). */
module Defaults {
  import opened Basics
  import opened Schemas
  import opened Encoding
  import opened Decoding
  import opened Conformance
  import opened Resolution

  /** JSON numbers and booleans convert to what they say. */
  ghost predicate SoundNumbers(p: Platform) {
    && (forall b :: p.toBool(JBool(b)) == b)
    && (forall n :: p.toInt(JInt(n)) == Some(n))
    && (forall bits :: p.toFloat(JFloat(bits)) == Some(bits))
  }

  /** The value of a record field in a record default: its entry, or else, also for a null, its own default. */
  function EntryOr(members: map<string, Json>, f: Field): Json {
    if f.name in members && members[f.name] != JNull then members[f.name]
    else if f.default.Some? then f.default.value
    else JNull
  }

  /**
   * The default j stands for the datum d: numbers and booleans are converted, a union is written
   * as its first branch, and fields a record default leaves out have their own defaults.
   */
  ghost predicate Depicts(p: Platform, defs: Defs, s: Schema, j: Json, d: Datum)
    decreases d, s
  {
    match s
    case Prim(prim) => (
      match prim
      case PNull => d == Null
      case PBoolean => d.Bool? && p.toBool(j) == d.b
      case PInt => d.Int? && p.toInt(j) == Some(d.n) && ValidPrimitive(PInt, d)
      case PLong => d.Int? && p.toInt(j) == Some(d.n) && ValidPrimitive(PLong, d)
      case PFloat => d.Float? && p.toFloat(j) == Some(d.bits)
      case PDouble => d.Float? && p.toFloat(j) == Some(d.bits)
      case PString => d.Text? && j == JStr(d.s)
      case PBytes => false
    )
    case Array(items) =>
      && d.List? && j.JArr? && |j.items| == |d.items|
      && forall i :: 0 <= i < |d.items| ==> Depicts(p, defs, items, j.items[i], d.items[i])
    case Map(values) =>
      && d.Dict? && j.JObj? && j.members.Keys == d.entries.Keys
      && forall k :: k in d.entries ==> Depicts(p, defs, values, j.members[k], d.entries[k])
    case Union(bs) => bs != [] && Depicts(p, defs, bs[0], j, d)
    case Named(n) =>
      n in defs &&
      match defs[n]
      case Fixed(_) => false
      case Enum(symbols) => d.Text? && d.s in symbols && j == JStr(d.s)
      case Record(kind, fields) =>
        && kind == KRecord && d.Dict? && j.JObj? && d.entries.Keys == FieldNames(fields)
        && forall i :: 0 <= i < |fields| ==>
             && fields[i].name in d.entries
             && Depicts(p, defs, fields[i].ftype, EntryOr(j.members, fields[i]), d.entries[fields[i].name])
  }

  /** Nulls, booleans, numbers and texts stand for themselves. */
  lemma LiteralsDepict(p: Platform, defs: Defs, b: bool, n: int, bits: int, s: string)
    requires SoundNumbers(p)
    ensures Depicts(p, defs, Prim(PNull), JNull, Null) && Depicts(p, defs, Prim(PBoolean), JBool(b), Bool(b))
    ensures Depicts(p, defs, Prim(PInt), JInt(n), Int(n)) <==> ValidPrimitive(PInt, Int(n))
    ensures Depicts(p, defs, Prim(PLong), JInt(n), Int(n)) <==> ValidPrimitive(PLong, Int(n))
    ensures Depicts(p, defs, Prim(PFloat), JFloat(bits), Float(bits))
    ensures Depicts(p, defs, Prim(PDouble), JFloat(bits), Float(bits))
    ensures Depicts(p, defs, Prim(PString), JStr(s), Text(s))
  {
  }

  /** With so many frames left the default can be decoded. */
  ghost predicate Fits(p: Platform, defs: Defs, s: Schema, j: Json, d: Datum, depth: nat)
    requires Depicts(p, defs, s, j, d)
    decreases d, s
  {
    depth > 0 &&
    match s
    case Prim(_) => true
    case Array(items) =>
      forall i :: 0 <= i < |d.items| ==> Fits(p, defs, items, j.items[i], d.items[i], depth - 1)
    case Map(values) =>
      forall k :: k in d.entries ==> Fits(p, defs, values, j.members[k], d.entries[k], depth - 1)
    case Union(bs) => Fits(p, defs, bs[0], j, d, depth - 1)
    case Named(n) =>
      match defs[n]
      case Record(_, fields) =>
        forall i :: 0 <= i < |fields| ==>
          Fits(p, defs, fields[i].ftype, EntryOr(j.members, fields[i]), d.entries[fields[i].name], depth - 1)
      case _ => true
  }

  /** Decoding gives the value if the stack is deep enough for it, and otherwise fails. */
  ghost predicate Decodes<T>(res: Result<T>, fits: bool, value: T) {
    if fits then res == Success(value) else res.Failure?
  }

  /**
   * A default that depicts a datum is decoded to that datum, exactly if the stack is deep enough;
   * otherwise decoding fails.
   */
  lemma {:induction false} DepictedIsDecoded(p: Platform, defs: Defs, s: Schema, j: Json, d: Datum, depth: nat)
    requires Depicts(p, defs, s, j, d)
    ensures Decodes(ReadDefault(p, defs, s, j, depth), Fits(p, defs, s, j, d, depth), d)
    decreases d, 2, s
  {
    hide Depicts, Fits, ReadDefault;
    if depth == 0 || s.Prim? {
      LeafIsDecoded(p, defs, s, j, d, depth);
    } else if s.Array? {
      ArrayIsDecoded(p, defs, s.items, j, d, depth);
    } else if s.Map? {
      MapIsDecoded(p, defs, s.values, j, d, depth);
    } else if s.Named? {
      NamedIsDecoded(p, defs, s.fullname, j, d, depth);
    } else {
      UnionParts(p, defs, s.branches, j, d, depth);
      DepictedIsDecoded(p, defs, s.branches[0], j, d, depth - 1);
    }
  }

  lemma LeafIsDecoded(p: Platform, defs: Defs, s: Schema, j: Json, d: Datum, depth: nat)
    requires Depicts(p, defs, s, j, d) && (depth == 0 || s.Prim?)
    ensures Decodes(ReadDefault(p, defs, s, j, depth), Fits(p, defs, s, j, d, depth), d)
  {
  }

  lemma UnionParts(p: Platform, defs: Defs, bs: seq<Schema>, j: Json, d: Datum, depth: nat)
    requires Depicts(p, defs, Union(bs), j, d) && depth > 0
    ensures bs != [] && Depicts(p, defs, bs[0], j, d)
    ensures ReadDefault(p, defs, Union(bs), j, depth) == ReadDefault(p, defs, bs[0], j, depth - 1)
    ensures Fits(p, defs, Union(bs), j, d, depth) == Fits(p, defs, bs[0], j, d, depth - 1)
  {
  }

  lemma {:induction false} ArrayIsDecoded(p: Platform, defs: Defs, s: Schema, j: Json, d: Datum, depth: nat)
    requires Depicts(p, defs, Array(s), j, d) && depth > 0
    ensures Decodes(ReadDefault(p, defs, Array(s), j, depth), Fits(p, defs, Array(s), j, d, depth), d)
    decreases d, 1
  {
    ArrayParts(p, defs, s, j, d, depth);
    hide Depicts, Fits, ReadDefault, ReadDefaultItems;
    assert j.items[0..] == j.items && d.items[0..] == d.items;
    ItemsAreDecoded(p, defs, s, j.items, d, 0, depth - 1);
  }

  lemma ArrayParts(p: Platform, defs: Defs, s: Schema, j: Json, d: Datum, depth: nat)
    requires Depicts(p, defs, Array(s), j, d) && depth > 0
    ensures d.List? && j.JArr? && |j.items| == |d.items|
    ensures forall i :: 0 <= i < |d.items| ==> Depicts(p, defs, s, j.items[i], d.items[i])
    ensures Fits(p, defs, Array(s), j, d, depth) <==>
      forall i :: 0 <= i < |d.items| ==> Fits(p, defs, s, j.items[i], d.items[i], depth - 1)
    ensures
      var ds := ReadDefaultItems(p, defs, s, j.items, depth - 1);
      ReadDefault(p, defs, Array(s), j, depth) == if ds.Failure? then Failure(ds.error) else Success(List(ds.value))
  {
    hide ReadDefaultItems;
  }

  lemma {:induction false} MapIsDecoded(p: Platform, defs: Defs, s: Schema, j: Json, d: Datum, depth: nat)
    requires Depicts(p, defs, Map(s), j, d) && depth > 0
    ensures Decodes(ReadDefault(p, defs, Map(s), j, depth), Fits(p, defs, Map(s), j, d, depth), d)
    decreases d, 1
  {
    MapParts(p, defs, s, j, d, depth);
    hide Depicts, Fits, ReadDefault, ReadDefaultEntries;
    EntriesAreDecoded(p, defs, s, j.members, d, depth - 1);
  }

  lemma MapParts(p: Platform, defs: Defs, s: Schema, j: Json, d: Datum, depth: nat)
    requires Depicts(p, defs, Map(s), j, d) && depth > 0
    ensures d.Dict? && j.JObj? && j.members.Keys == d.entries.Keys
    ensures forall k :: k in d.entries ==> Depicts(p, defs, s, j.members[k], d.entries[k])
    ensures Fits(p, defs, Map(s), j, d, depth) <==>
      forall k :: k in d.entries ==> Fits(p, defs, s, j.members[k], d.entries[k], depth - 1)
    ensures
      var m := ReadDefaultEntries(p, defs, s, j.members, depth - 1);
      ReadDefault(p, defs, Map(s), j, depth) == if m.Failure? then Failure(m.error) else Success(Dict(m.value))
  {
    hide ReadDefaultEntries;
  }

  lemma {:induction false} NamedIsDecoded(p: Platform, defs: Defs, n: string, j: Json, d: Datum, depth: nat)
    requires Depicts(p, defs, Named(n), j, d) && depth > 0
    ensures Decodes(ReadDefault(p, defs, Named(n), j, depth), Fits(p, defs, Named(n), j, d, depth), d)
    decreases d, 1
  {
    hide ReadDefaultFields, FieldNames, EntriesOf, EntryOr;
    if defs[n].Record? {
      var fields := defs[n].fields;
      FieldsAreDecoded(p, defs, fields, 0, j.members, d, depth - 1, map[]);
      FieldsAreAll(fields, d.entries);
      assert ReadDefault(p, defs, Named(n), j, depth) ==
        var m := ReadDefaultFields(p, defs, fields, j.members, depth - 1, map[]);
        if m.Failure? then Failure(m.error) else Success(Dict(m.value));
    }
  }

  lemma {:induction false} ItemsAreDecoded(p: Platform, defs: Defs, s: Schema, js: seq<Json>, d: Datum, i: nat,
                                           depth: nat)
    requires d.List? && |js| == |d.items| && i <= |js|
    requires forall k :: 0 <= k < |js| ==> Depicts(p, defs, s, js[k], d.items[k])
    ensures
      var res := ReadDefaultItems(p, defs, s, js[i..], depth);
      Decodes(res, forall k :: i <= k < |js| ==> Fits(p, defs, s, js[k], d.items[k], depth), d.items[i..])
    decreases d, 0, |js| - i, 0
  {
    hide Depicts, Fits, ReadDefault;
    if i == |js| {
      assert js[i..] == [] && d.items[i..] == [];
    } else {
      DepictedIsDecoded(p, defs, s, js[i], d.items[i], depth);
      ItemsAreDecoded(p, defs, s, js, d, i + 1, depth);
      assert js[i..][1..] == js[i + 1..] && [d.items[i]] + d.items[i + 1..] == d.items[i..];
    }
  }

  lemma {:induction false} EntriesAreDecoded(p: Platform, defs: Defs, s: Schema, members: map<string, Json>, d: Datum,
                                             depth: nat)
    requires d.Dict? && members.Keys == d.entries.Keys
    requires forall k :: k in d.entries ==> Depicts(p, defs, s, members[k], d.entries[k])
    ensures
      var res := ReadDefaultEntries(p, defs, s, members, depth);
      Decodes(res, forall k :: k in d.entries ==> Fits(p, defs, s, members[k], d.entries[k], depth), d.entries)
    decreases d, 0, 0
  {
    hide Depicts, Fits, ReadDefault;
    forall k | k in d.entries
      ensures
        Decodes(ReadDefault(p, defs, s, members[k], depth), Fits(p, defs, s, members[k], d.entries[k], depth),
                d.entries[k])
    {
      DepictedIsDecoded(p, defs, s, members[k], d.entries[k], depth);
    }
    if ReadDefaultEntries(p, defs, s, members, depth).Success? {
      assert ReadDefaultEntries(p, defs, s, members, depth).value == d.entries;
    }
  }

  ghost function EntriesOf(fields: seq<Field>, m: map<string, Datum>): map<string, Datum>
    requires FieldNames(fields) <= m.Keys
  {
    map name | name in FieldNames(fields) :: m[name]
  }

  lemma FieldsAreAll(fields: seq<Field>, m: map<string, Datum>)
    requires FieldNames(fields) == m.Keys
    ensures fields[0..] == fields && map[] + EntriesOf(fields, m) == m
  {
  }

  lemma {:induction false} FieldsAreDecoded(p: Platform, defs: Defs, fields: seq<Field>, i: nat,
                                            members: map<string, Json>, d: Datum, depth: nat, acc: map<string, Datum>)
    requires d.Dict? && FieldNames(fields) == d.entries.Keys && i <= |fields|
    requires forall k :: 0 <= k < |fields| ==>
      && fields[k].name in d.entries
      && Depicts(p, defs, fields[k].ftype, EntryOr(members, fields[k]), d.entries[fields[k].name])
    ensures FieldNames(fields[i..]) <= d.entries.Keys
    ensures
      var res := ReadDefaultFields(p, defs, fields[i..], members, depth, acc);
      Decodes(res, forall k :: i <= k < |fields| ==>
        Fits(p, defs, fields[k].ftype, EntryOr(members, fields[k]), d.entries[fields[k].name], depth),
        acc + EntriesOf(fields[i..], d.entries))
    decreases d, 0, |fields| - i, 0
  {
    hide Depicts, Fits, ReadDefault, ReadDefaultFields, EntryOr, EntriesOf;
    if i == |fields| {
      NoFieldsLeft(p, defs, fields, members, d.entries, depth, acc);
    } else {
      var f := fields[i];
      var v := d.entries[f.name];
      NextEntry(fields, i, d.entries, acc);
      OneField(p, defs, fields, i, members, depth, acc);
      hide FieldNames;
      DepictedIsDecoded(p, defs, f.ftype, EntryOr(members, f), v, depth);
      FieldsAreDecoded(p, defs, fields, i + 1, members, d, depth, acc[f.name := v]);
    }
  }

  lemma NoFieldsLeft(p: Platform, defs: Defs, fields: seq<Field>, members: map<string, Json>, m: map<string, Datum>,
                     depth: nat, acc: map<string, Datum>)
    ensures FieldNames(fields[|fields|..]) <= m.Keys
    ensures ReadDefaultFields(p, defs, fields[|fields|..], members, depth, acc)
      == Success(acc + EntriesOf(fields[|fields|..], m))
  {
    assert fields[|fields|..] == [];
    assert acc + EntriesOf([], m) == acc;
  }

  lemma OneField(p: Platform, defs: Defs, fields: seq<Field>, i: nat, members: map<string, Json>, depth: nat,
                 acc: map<string, Datum>)
    requires i < |fields|
    ensures
      var d := ReadDefault(p, defs, fields[i].ftype, EntryOr(members, fields[i]), depth);
      ReadDefaultFields(p, defs, fields[i..], members, depth, acc) ==
        if d.Failure? then Failure(d.error)
        else ReadDefaultFields(p, defs, fields[i + 1..], members, depth, acc[fields[i].name := d.value])
  {
    hide ReadDefault;
    assert fields[i..][1..] == fields[i + 1..];
  }

  lemma NextEntry(fields: seq<Field>, i: nat, m: map<string, Datum>, acc: map<string, Datum>)
    requires i < |fields| && FieldNames(fields) == m.Keys && fields[i].name in m
    ensures FieldNames(fields[i..]) <= m.Keys && FieldNames(fields[i + 1..]) <= m.Keys
    ensures acc[fields[i].name := m[fields[i].name]] + EntriesOf(fields[i + 1..], m) == acc + EntriesOf(fields[i..], m)
  {
    assert fields[i..] == [fields[i]] + fields[i + 1..];
  }

  /** The defaults that can be decoded at all: their outer form fits the schema, and numbers convert. */
  predicate Shaped(p: Platform, defs: Defs, s: Schema, j: Json, depth: nat)
    decreases depth
  {
    depth > 0 &&
    match s
    case Prim(prim) =>
      && (prim == PInt || prim == PLong ==> p.toInt(j).Some?)
      && (prim == PFloat || prim == PDouble ==> p.toFloat(j).Some?)
    case Array(items) =>
      j.JArr? && forall i :: 0 <= i < |j.items| ==> Shaped(p, defs, items, j.items[i], depth - 1)
    case Map(values) =>
      j.JObj? && forall k :: k in j.members ==> Shaped(p, defs, values, j.members[k], depth - 1)
    case Union(bs) => bs != [] && Shaped(p, defs, bs[0], j, depth - 1)
    case Named(n) =>
      n in defs &&
      match defs[n]
      case Record(kind, fields) =>
        && kind == KRecord && j.JObj?
        && forall i :: 0 <= i < |fields| ==>
             Shaped(p, defs, fields[i].ftype, EntryOr(j.members, fields[i]), depth - 1)
      case _ => true
  }

  /** A default is decoded exactly if it has such a form; what is declared as an error has no default. */
  lemma {:induction false} DecodedExactlyIfShaped(p: Platform, defs: Defs, s: Schema, j: Json, depth: nat)
    ensures ReadDefault(p, defs, s, j, depth).Success? <==> Shaped(p, defs, s, j, depth)
    decreases depth, 1
  {
    hide EntryOr, FromJson, ReadDefaultItems, ReadDefaultFields;
    if depth > 0 {
      match s
      case Prim(_) =>
      case Array(items) =>
        if j.JArr? {
          assert j.items[0..] == j.items;
          ItemsAreShaped(p, defs, items, j.items, 0, depth - 1);
        }
      case Map(values) =>
        if j.JObj? {
          forall k | k in j.members { DecodedExactlyIfShaped(p, defs, values, j.members[k], depth - 1); }
        }
      case Union(bs) =>
        if bs != [] {
          DecodedExactlyIfShaped(p, defs, bs[0], j, depth - 1);
        }
      case Named(n) =>
        if n in defs && defs[n].Record? && j.JObj? {
          assert defs[n].fields[0..] == defs[n].fields;
          FieldsAreShaped(p, defs, defs[n].fields, 0, j.members, depth - 1, map[]);
        }
    }
  }

  lemma {:induction false} ItemsAreShaped(p: Platform, defs: Defs, s: Schema, js: seq<Json>, i: nat, depth: nat)
    requires i <= |js|
    ensures ReadDefaultItems(p, defs, s, js[i..], depth).Success? <==>
      forall k :: i <= k < |js| ==> Shaped(p, defs, s, js[k], depth)
    decreases depth, 2, |js| - i
  {
    hide Shaped, ReadDefault;
    if i < |js| {
      DecodedExactlyIfShaped(p, defs, s, js[i], depth);
      ItemsAreShaped(p, defs, s, js, i + 1, depth);
      assert js[i..][1..] == js[i + 1..];
    }
  }

  lemma {:induction false} FieldsAreShaped(p: Platform, defs: Defs, fields: seq<Field>, i: nat,
                                           members: map<string, Json>, depth: nat, acc: map<string, Datum>)
    requires i <= |fields|
    ensures ReadDefaultFields(p, defs, fields[i..], members, depth, acc).Success? <==>
      forall k :: i <= k < |fields| ==> Shaped(p, defs, fields[k].ftype, EntryOr(members, fields[k]), depth)
    decreases depth, 2, |fields| - i
  {
    hide Shaped, ReadDefault, EntryOr;
    if i < |fields| {
      var d := ReadDefault(p, defs, fields[i].ftype, EntryOr(members, fields[i]), depth);
      OneField(p, defs, fields, i, members, depth, acc);
      hide ReadDefaultFields;
      DecodedExactlyIfShaped(p, defs, fields[i].ftype, EntryOr(members, fields[i]), depth);
      if d.Success? {
        FieldsAreShaped(p, defs, fields, i + 1, members, depth, acc[fields[i].name := d.value]);
      }
    }
  }

  // Defaults of the fields of a schema

  /** Every default in the schema depicts some datum of its field's type. */
  ghost predicate DepictingDefaults(p: Platform, defs: Defs) {
    forall n, i :: n in defs && defs[n].Record? && 0 <= i < |defs[n].fields| ==>
      var f := defs[n].fields[i];
      f.default.Some? ==> exists d :: Depicts(p, defs, f.ftype, f.default.value, d)
  }

  lemma {:induction false} DepictedConforms(p: Platform, defs: Defs, s: Schema, j: Json, d: Datum)
    requires Depicts(p, defs, s, j, d)
    ensures Conforms(true, defs, s, d)
    decreases d, s
  {
    match s
    case Prim(_) =>
    case Array(items) => forall i | 0 <= i < |d.items| { DepictedConforms(p, defs, items, j.items[i], d.items[i]); }
    case Map(values) => forall k | k in d.entries { DepictedConforms(p, defs, values, j.members[k], d.entries[k]); }
    case Union(bs) => DepictedConforms(p, defs, bs[0], j, d);
    case Named(n) =>
      if defs[n].Record? {
        var fields := defs[n].fields;
        forall i | 0 <= i < |fields| ensures Conforms(true, defs, fields[i].ftype, Get(d.entries, fields[i].name)) {
          DepictedConforms(p, defs, fields[i].ftype, EntryOr(j.members, fields[i]), d.entries[fields[i].name]);
        }
      }
  }

  /** Such defaults decode to data of the right type, so whatever is read conforms. */
  lemma DepictingDefaultsAreGood(p: Platform, defs: Defs)
    requires DepictingDefaults(p, defs)
    ensures GoodDefaults(true, p, defs)
  {
    hide Depicts, Fits, Conforms, ReadDefault;
    forall n, i | n in defs && defs[n].Record? && 0 <= i < |defs[n].fields|
      ensures
        var f := defs[n].fields[i];
        Default(p, defs, f).Success? ==> Conforms(true, defs, f.ftype, Default(p, defs, f).value)
    {
      var f := defs[n].fields[i];
      if f.default.Some? {
        var d :| Depicts(p, defs, f.ftype, f.default.value, d);
        DepictedIsDecoded(p, defs, f.ftype, f.default.value, d, p.stackDepth);
        DepictedConforms(p, defs, f.ftype, f.default.value, d);
      }
    }
  }

  /**
   * On any bytes: a record is read only if every field that the writer lacks has a default, and then
   * each such field holds the datum that its default depicts.
   */
  lemma MissingFieldsGetDefaults(p: Platform, dw: Defs, w: string, dr: Defs, r: string, bs: seq<byte>, i: nat)
    requires Guarded(dw) && w in dw && dw[w].Record? && r in dr && dr[r].Record?
    requires DistinctFields(dr[r].fields) && i < |dr[r].fields|
    requires FindField(dw[w].fields, dr[r].fields[i].name).None?
    requires Read(p, dw, Named(w), dr, Named(r), bs).Success?
    ensures
      var (f, v) := (dr[r].fields[i], Read(p, dw, Named(w), dr, Named(r), bs).value.0);
      && v.Dict? && f.name in v.entries && f.default.Some?
      && forall d :: Depicts(p, dr, f.ftype, f.default.value, d) ==> v.entries[f.name] == d
  {
    var wf, rf := dw[w].fields, dr[r].fields;
    var f := rf[i];
    hide Guarded, Depicts, Fits, Match, ReadFields, FillDefaults, FindField, ReadDefault;
    var m := ReadFields(p, dw, w, dr, rf, 0, bs, map[]).value.0;
    assert Read(p, dw, Named(w), dr, Named(r), bs).value.0 == Dict(FillDefaults(p, dr, wf, rf, 0, m).value);
    hide Read;
    FillDefaultsMeaning(p, dr, wf, rf, 0, m);
    IsMissing(wf, rf, f.name);
    FindDistinct(rf, i);
    forall d | Depicts(p, dr, f.ftype, f.default.value, d)
      ensures FillDefaults(p, dr, wf, rf, 0, m).value[f.name] == d
    {
      DepictedIsDecoded(p, dr, f.ftype, f.default.value, d, p.stackDepth);
    }
  }

  /** JSON has no bytes: what a default decodes to never holds any. */
  predicate NoBytes(d: Datum) {
    match d
    case Bytes(_) => false
    case List(items) => forall i :: 0 <= i < |items| ==> NoBytes(items[i])
    case Dict(entries) => forall k :: k in entries ==> NoBytes(entries[k])
    case _ => true
  }

  /** So a default of a bytes or fixed field is taken over as it is and is never valid. */
  lemma BytesDefaultsAreInvalid(p: Platform, defs: Defs, s: Schema, j: Json, depth: nat)
    requires s == Prim(PBytes) || (s.Named? && s.fullname in defs && defs[s.fullname].Fixed?)
    ensures
      var res := ReadDefault(p, defs, s, j, depth);
      if depth == 0 then res == Failure(RecursionLimit)
      else res == Success(FromJson(j)) && NoBytes(FromJson(j)) && !Validate(defs, s, FromJson(j))
  {
    JsonHasNoBytes(j);
    hide FromJson;
  }

  lemma {:induction false} JsonHasNoBytes(j: Json)
    ensures NoBytes(FromJson(j))
  {
    match j
    case JArr(items) => forall i | 0 <= i < |items| { JsonHasNoBytes(items[i]); }
    case JObj(members) => forall k | k in members { JsonHasNoBytes(members[k]); }
    case _ =>
  }
}
