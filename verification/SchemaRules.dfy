/** The rules the parser enforces are the ones the codec relies on. */
module SchemaRules {
  import opened Basics
  import opened Schemas
  import opened SchemaText

  /** Only the given names occur, and unions keep UnionSchema's rules. */
  predicate Scoped(s: Schema, names: set<string>) {
    match s
    case Prim(_) => true
    case Array(items) => Scoped(items, names)
    case Map(values) => Scoped(values, names)
    case Union(bs) => forall i :: 0 <= i < |bs| ==> Scoped(bs[i], names) && MayJoin(bs[..i], bs[i])
    case Named(n) => n in names
  }

  predicate ScopedFields(fs: seq<FieldProps>, names: set<string>) {
    forall i :: 0 <= i < |fs| ==> Scoped(fs[i].ftype, names) && !FieldNameTaken(fs[..i], fs[i].name)
  }

  predicate ScopedType(t: NamedType, names: set<string>) {
    match t.body
    case FixedBody(_) => true
    case EnumBody(symbols) => Distinct(symbols)
    case RecordBody(_, fs) => ScopedFields(fs, names)
  }

  ghost predicate ScopedNames(st: Names) {
    st.defs.Keys <= st.taken && forall n :: n in st.defs ==> ScopedType(st.defs[n], st.taken)
  }

  /** A step of parsing keeps the rules and defines every name it takes. */
  ghost predicate Keeps(st: Names, st': Names) {
    ScopedNames(st') && st.taken <= st'.taken && forall n :: n in st'.taken && n !in st.taken ==> n in st'.defs
  }

  lemma {:induction false} MoreNames(s: Schema, a: set<string>, b: set<string>)
    requires Scoped(s, a) && a <= b
    ensures Scoped(s, b)
  {
    match s
    case Prim(_) =>
    case Array(items) => MoreNames(items, a, b);
    case Map(values) => MoreNames(values, a, b);
    case Union(bs) => forall i | 0 <= i < |bs| { MoreNames(bs[i], a, b); }
    case Named(_) =>
  }

  lemma MoreNamesType(t: NamedType, a: set<string>, b: set<string>)
    requires ScopedType(t, a) && a <= b
    ensures ScopedType(t, b)
  {
    if t.body.RecordBody? {
      forall i | 0 <= i < |t.body.fields| { MoreNames(t.body.fields[i].ftype, a, b); }
    }
  }

  lemma TakeName(st: Names, n: string)
    requires ScopedNames(st)
    ensures ScopedNames(Names(st.taken + {n}, st.defs))
  {
    forall k | k in st.defs { MoreNamesType(st.defs[k], st.taken, st.taken + {n}); }
  }

  lemma AddDefinition(st: Names, st': Names, n: string, t: NamedType)
    requires Keeps(Names(st.taken + {n}, st.defs), st') && n !in st.taken && ScopedType(t, st'.taken)
    ensures Keeps(st, st'.(defs := st'.defs[n := t]))
  {
  }

  lemma {:induction false} ParseKeeps(j: Json, default: Option<string>, st: Names)
    requires ScopedNames(st)
    ensures
      var r := Parse(j, default, st);
      r.Success? ==> Keeps(st, r.value.1) && Scoped(r.value.0, r.value.1.taken)
    decreases j, 0
  {
    hide ScopedNames, NewName, GetSpace;
    assert st.defs.Keys <= st.taken by { ReallyScoped(st); }
    KeepsItself(st);
    match j
    case JObj(m) =>
      var t := Member(m, "type");
      if t.JStr? && Parse(j, default, st).Success? && PrimitiveOf(t.s).None? {
        if t.s == "fixed" || t.s == "enum" {
          LeafKeeps(m, t.s, default, st);
        } else if t.s == "record" || t.s == "error" {
          var full := NewName(m, default, st).value;
          var items := Member(m, "fields").items;
          var inner := if t.s == "record" then Some(GetSpace(full)) else default;
          var st1 := Names(st.taken + {full}, st.defs);
          TakeName(st, full);
          FieldsKeep(items, inner, st1, []);
          var (fs, st') := ParseFields(items, inner, st1, []).value;
          AddDefinition(st, st', full, Define(m, full, RecordBody(t.s == "error", fs)));
        } else if t.s == "array" {
          TypeKeeps(m["items"], default, st);
        } else {
          TypeKeeps(m["values"], default, st);
        }
      }
    case JArr(items) => BranchesKeep(items, default, st, []);
    case _ =>
  }

  lemma ReallyScoped(st: Names)
    requires ScopedNames(st)
    ensures st.defs.Keys <= st.taken
  {
  }

  lemma KeepsItself(st: Names)
    requires ScopedNames(st)
    ensures Keeps(st, st)
  {
  }

  lemma LeafKeeps(m: map<string, Json>, t: string, default: Option<string>, st: Names)
    requires ScopedNames(st)
    ensures
      var r := ParseLeaf(m, t, default, st);
      r.Success? ==> Keeps(st, r.value.1) && Scoped(r.value.0, r.value.1.taken)
  {
    var r := ParseLeaf(m, t, default, st);
    if r.Success? {
      var full := NewName(m, default, st).value;
      TakeName(st, full);
      AddDefinition(st, Names(st.taken + {full}, st.defs), full, r.value.1.defs[full]);
    }
  }

  lemma {:induction false} TypeKeeps(j: Json, default: Option<string>, st: Names)
    requires ScopedNames(st)
    ensures
      var r := ParseType(j, default, st);
      r.Success? ==> Keeps(st, r.value.1) && Scoped(r.value.0, r.value.1.taken)
    decreases j, 1
  {
    ParseKeeps(j, default, st);
  }

  lemma {:induction false} BranchesKeep(items: seq<Json>, default: Option<string>, st: Names, bs: seq<Schema>)
    requires ScopedNames(st) && Scoped(Union(bs), st.taken)
    ensures
      var r := ParseBranches(items, default, st, bs);
      r.Success? ==> Keeps(st, r.value.1) && Scoped(Union(r.value.0), r.value.1.taken)
    decreases items
  {
    if items != [] {
      TypeKeeps(items[0], default, st);
      var r := ParseType(items[0], default, st);
      hide ParseType, MayJoin;
      if r.Success? && MayJoin(bs, r.value.0) {
        MoreNames(Union(bs), st.taken, r.value.1.taken);
        var bs' := bs + [r.value.0];
        forall i | 0 <= i < |bs'| ensures Scoped(bs'[i], r.value.1.taken) && MayJoin(bs'[..i], bs'[i]) {
          assert i < |bs| ==> Union(bs).branches[i] == bs[i] && bs'[..i] == bs[..i];
          assert bs'[..|bs|] == bs;
        }
        BranchesKeep(items[1..], default, r.value.1, bs');
      }
    }
  }

  lemma {:induction false} FieldsKeep(items: seq<Json>, default: Option<string>, st: Names, fs: seq<FieldProps>)
    requires ScopedNames(st) && ScopedFields(fs, st.taken)
    ensures
      var r := ParseFields(items, default, st, fs);
      r.Success? ==> Keeps(st, r.value.1) && ScopedFields(r.value.0, r.value.1.taken)
    decreases items
  {
    if items != [] && items[0].JObj? && "type" in items[0].members {
      TypeKeeps(items[0].members["type"], default, st);
      var r := ParseType(items[0].members["type"], default, st);
      if r.Success? {
        var f := FieldOf(items[0].members, r.value.0);
        assert f.Success? ==> f.value.ftype == r.value.0;
        hide ParseType, FieldNameTaken, FieldOf;
        if f.Success? && !FieldNameTaken(fs, f.value.name) {
          forall i | 0 <= i < |fs| { MoreNames(fs[i].ftype, st.taken, r.value.1.taken); }
          var fs' := fs + [f.value];
          forall i | 0 <= i < |fs'| ensures Scoped(fs'[i].ftype, r.value.1.taken)
              && !FieldNameTaken(fs'[..i], fs'[i].name) {
            assert i < |fs| ==> fs'[..i] == fs[..i];
            assert fs'[..|fs|] == fs;
          }
          FieldsKeep(items[1..], default, r.value.1, fs');
        }
      }
    }
  }

  // The codec's view of the definitions

  /** The parts of a named type the codec looks at; a negative size, which the parser lets through, is taken for 0. */
  function DefinitionOf(t: NamedType): Definition {
    match t.body
    case FixedBody(size) => Fixed(if size < 0 then 0 else size)
    case EnumBody(symbols) => Enum(symbols)
    case RecordBody(isError, fs) =>
      Record(if isError then KError else KRecord,
             seq(|fs|, i requires 0 <= i < |fs| => Field(fs[i].name, fs[i].ftype, fs[i].default)))
  }

  function DefsOf(env: Env): Defs {
    map n | n in env :: DefinitionOf(env[n])
  }

  lemma {:induction false} ScopedIsWellFormed(env: Env, s: Schema)
    requires Scoped(s, env.Keys)
    ensures WellFormedSchema(DefsOf(env), s)
  {
    match s
    case Prim(_) =>
    case Array(items) => ScopedIsWellFormed(env, items);
    case Map(values) => ScopedIsWellFormed(env, values);
    case Union(bs) =>
      forall i | 0 <= i < |bs| { ScopedIsWellFormed(env, bs[i]); }
      forall i, j | 0 <= i < j < |bs| && !bs[i].Named?
        ensures TypeOf(DefsOf(env), bs[i]) != TypeOf(DefsOf(env), bs[j])
      {
        assert MayJoin(bs[..j], bs[j]) && bs[..j][i] == bs[i];
      }
    case Named(_) =>
  }

  /** And conversely: the rules of the parser refuse nothing the codec could use. */
  lemma {:induction false} WellFormedIsScoped(env: Env, s: Schema)
    requires WellFormedSchema(DefsOf(env), s)
    ensures Scoped(s, env.Keys)
  {
    match s
    case Prim(_) =>
    case Array(items) => WellFormedIsScoped(env, items);
    case Map(values) => WellFormedIsScoped(env, values);
    case Union(bs) =>
      forall i | 0 <= i < |bs| ensures Scoped(bs[i], env.Keys) && MayJoin(bs[..i], bs[i]) {
        WellFormedIsScoped(env, bs[i]);
        assert forall j :: 0 <= j < i && !bs[j].Named? ==> TypeOf(DefsOf(env), bs[j]) != TypeOf(DefsOf(env), bs[i]);
      }
    case Named(_) =>
  }

  /** A name is taken exactly if an earlier field has it. */
  lemma FieldNamesAreDistinct(fs: seq<FieldProps>)
    ensures (forall i :: 0 <= i < |fs| ==> !FieldNameTaken(fs[..i], fs[i].name)) <==>
      forall i, j :: 0 <= i < j < |fs| ==> fs[i].name != fs[j].name
  {
    forall i, j | 0 <= i < j < |fs| ensures fs[..j][i] == fs[i] {
    }
  }

  /** The codec finds the fields of a record by their names, with their types and defaults. */
  lemma FieldsAreFound(t: NamedType, i: nat)
    requires t.body.RecordBody? && i < |t.body.fields|
    requires forall j, k :: 0 <= j < k < |t.body.fields| ==> t.body.fields[j].name != t.body.fields[k].name
    ensures DefinitionOf(t).Record?
    ensures
      var f := t.body.fields[i];
      FindField(DefinitionOf(t).fields, f.name) == Some(Field(f.name, f.ftype, f.default))
  {
    FindDistinct(DefinitionOf(t).fields, i);
    hide FindField;
  }

  /** Every schema the parser accepts is well formed as the codec needs it. */
  lemma ParsedIsWellFormed(j: Json)
    ensures
      var r := Parse(j, None, Names({}, map[]));
      r.Success? ==> WellFormed(DefsOf(r.value.1.defs)) && WellFormedSchema(DefsOf(r.value.1.defs), r.value.0)
  {
    var st := Names({}, map[]);
    ParseKeeps(j, None, st);
    var r := Parse(j, None, st);
    if r.Success? {
      var env := r.value.1.defs;
      hide Parse;
      assert env.Keys == r.value.1.taken;
      ScopedIsWellFormed(env, r.value.0);
      forall n, i | n in env && env[n].body.RecordBody? && 0 <= i < |env[n].body.fields|
        ensures WellFormedSchema(DefsOf(env), env[n].body.fields[i].ftype)
      {
        assert ScopedType(env[n], env.Keys);
        ScopedIsWellFormed(env, env[n].body.fields[i].ftype);
      }
      forall n | n in env && env[n].body.RecordBody? ensures DistinctFields(DefsOf(env)[n].fields) {
        var fs := env[n].body.fields;
        assert ScopedType(env[n], env.Keys);
        forall i, j | 0 <= i < j < |fs| ensures fs[i].name != fs[j].name {
          assert fs[..j][i] == fs[i] && !FieldNameTaken(fs[..j], fs[j].name);
        }
      }
    }
  }
}
