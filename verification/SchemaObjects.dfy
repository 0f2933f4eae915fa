/** Parsing and printing with a Names object that is updated in place (avro/devices/avro/schema.py). */
module SchemaObjects {
  import opened Basics
  import opened Schemas
  import opened SchemaText

  /** Names: the schemas seen so far, and the default namespace, which a record changes while its fields are parsed. */
  class NameTable {
    var taken: set<string>
    var defs: Env
    var defaultNamespace: Option<string>

    ghost predicate Valid()
      reads this
    {
      defs.Keys <= taken
    }

    ghost function State(): Names
      reads this
    {
      Names(taken, defs)
    }

    constructor ()
      ensures Valid() && State() == Names({}, map[]) && defaultNamespace == None
    {
      taken, defs, defaultNamespace := {}, map[], None;
    }

    method HasName(name: string, space: Option<string>) returns (b: bool)
      ensures b <==> FullName(name, space, defaultNamespace) in taken
    {
      b := FullName(name, space, defaultNamespace) in taken;
    }

    /** The checks of NamedSchema and add_name. A name is taken before its definition is complete. */
    method AddName(m: map<string, Json>) returns (res: Result<string>)
      requires Valid()
      modifies this`taken
      ensures Valid() && res == NewName(m, defaultNamespace, old(State()))
      ensures taken == if res.Success? then old(taken) + {res.value} else old(taken)
    {
      var name, space := Member(m, "name"), Member(m, "namespace");
      if !name.JStr? || name.s == "" {
        return Failure(SchemaParse);
      }
      if !space.JStr? && !space.JNull? {
        return Failure(SchemaParse);
      }
      var full := FullName(name.s, StringOf(space), defaultNamespace);
      if full in VALID_TYPES || full in taken {
        return Failure(SchemaParse);
      }
      taken := taken + {full};
      return Success(full);
    }
  }

  /** The method did what the parser function says; after an exception nothing is promised. */
  ghost predicate Follows<T>(res: Result<T>, names: Names, spec: Result<(T, Names)>) {
    if spec.Failure? then res == Failure(spec.error) else res == Success(spec.value.0) && names == spec.value.1
  }

  /** `make_avsc_object` */
  method MakeAvscObject(j: Json, names: NameTable) returns (res: Result<Schema>)
    requires names.Valid()
    modifies names
    ensures names.Valid() && (res.Success? ==> names.defaultNamespace == old(names.defaultNamespace))
    ensures Follows(res, names.State(), Parse(j, old(names.defaultNamespace), old(names.State())))
    decreases j, 1
  {
    match j
    case JStr(s) =>
      var p := PrimitiveOf(s);
      return if p.Some? then Success(Prim(p.value)) else Failure(SchemaParse);
    case JArr(items) =>
      var bs :- MakeUnion(items, names);
      return Success(Union(bs));
    case JObj(m) =>
      var t := Member(m, "type");
      if !t.JStr? {
        return Failure(SchemaParse);
      }
      if PrimitiveOf(t.s).Some? {
        return Success(Prim(PrimitiveOf(t.s).value));
      }
      if t.s == "fixed" || t.s == "enum" {
        res := MakeLeaf(m, t.s, names);
      } else if t.s == "record" || t.s == "error" {
        res := MakeRecord(j, t.s == "error", names);
      } else if t.s == "array" {
        if "items" !in m {
          return Failure(SchemaParse);
        }
        var items :- MakeType(m["items"], names);
        return Success(Array(items));
      } else if t.s == "map" {
        if "values" !in m {
          return Failure(SchemaParse);
        }
        var values :- MakeType(m["values"], names);
        return Success(Map(values));
      } else {
        return Failure(SchemaParse);
      }
    case _ => return Failure(SchemaParse);
  }

  method MakeLeaf(m: map<string, Json>, t: string, names: NameTable) returns (res: Result<Schema>)
    requires names.Valid()
    modifies names
    ensures names.Valid() && names.defaultNamespace == old(names.defaultNamespace)
    ensures Follows(res, names.State(), ParseLeaf(m, t, old(names.defaultNamespace), old(names.State())))
  {
    var body :- if t == "fixed" then FixedOf(Member(m, "size")) else EnumOf(Member(m, "symbols"));
    var full :- names.AddName(m);
    names.defs := names.defs[full := Define(m, full, body)];
    return Success(Named(full));
  }

  /** What Parse says of a record or error. */
  ghost function ParseRecord(m: map<string, Json>, isError: bool, default: Option<string>, st: Names)
      : Result<(Schema, Names)>
    requires st.defs.Keys <= st.taken
  {
    var fields := Member(m, "fields");
    if !fields.JArr? then Failure(SchemaParse)
    else
      var full :- NewName(m, default, st);
      var (fs, st') :-
        ParseFields(fields.items, if isError then default else Some(GetSpace(full)), Names(st.taken + {full}, st.defs),
            []);
      Success((Named(full), st'.(defs := st'.defs[full := Define(m, full, RecordBody(isError, fs))])))
  }

  /** RecordSchema: the default namespace is saved, set to the record's own, and restored. */
  method MakeRecord(j: Json, isError: bool, names: NameTable) returns (res: Result<Schema>)
    requires j.JObj? && names.Valid()
    modifies names
    ensures names.Valid() && (res.Success? ==> names.defaultNamespace == old(names.defaultNamespace))
    ensures Follows(res, names.State(),
        ParseRecord(j.members, isError, old(names.defaultNamespace), old(names.State())))
    decreases j, 0
  {
    var m := j.members;
    var fields := Member(m, "fields");
    if !fields.JArr? {
      return Failure(SchemaParse);
    }
    var full :- names.AddName(m);
    var oldDefault := names.defaultNamespace;
    if !isError {
      names.defaultNamespace := Some(GetSpace(full));
    }
    var fs :- MakeFieldObjects(fields.items, names);
    names.defs := names.defs[full := Define(m, full, RecordBody(isError, fs))];
    if !isError {
      names.defaultNamespace := oldDefault;
    }
    return Success(Named(full));
  }

  /** The step Field, ArraySchema, MapSchema and UnionSchema share: a known name, or a schema of its own. */
  method MakeType(j: Json, names: NameTable) returns (res: Result<Schema>)
    requires names.Valid()
    modifies names
    ensures names.Valid() && (res.Success? ==> names.defaultNamespace == old(names.defaultNamespace))
    ensures Follows(res, names.State(), ParseType(j, old(names.defaultNamespace), old(names.State())))
    decreases j, 2
  {
    if j.JStr? {
      if j.s == "" {
        return Failure(SchemaParse);
      }
      var known := names.HasName(j.s, None);
      if known {
        return Success(Named(FullName(j.s, None, names.defaultNamespace)));
      }
    }
    res := MakeAvscObject(j, names);
  }

  /** UnionSchema */
  method MakeUnion(items: seq<Json>, names: NameTable) returns (res: Result<seq<Schema>>)
    requires names.Valid()
    modifies names
    ensures names.Valid() && (res.Success? ==> names.defaultNamespace == old(names.defaultNamespace))
    ensures Follows(res, names.State(), ParseBranches(items, old(names.defaultNamespace), old(names.State()), []))
    decreases items, 0
  {
    hide ParseType, MayJoin;
    var bs: seq<Schema> := [];
    var i := 0;
    while i < |items|
      invariant i <= |items| && names.Valid() && names.defaultNamespace == old(names.defaultNamespace)
      invariant ParseBranches(items, old(names.defaultNamespace), old(names.State()), []) ==
                ParseBranches(items[i..], names.defaultNamespace, names.State(), bs)
    {
      assert items[i..][0] == items[i] && items[i..][1..] == items[i + 1..];
      var b :- MakeType(items[i], names);
      if !MayJoin(bs, b) {
        return Failure(SchemaParse);
      }
      bs := bs + [b];
      i := i + 1;
    }
    return Success(bs);
  }

  /** `make_field_objects` */
  method MakeFieldObjects(items: seq<Json>, names: NameTable) returns (res: Result<seq<FieldProps>>)
    requires names.Valid()
    modifies names
    ensures names.Valid() && (res.Success? ==> names.defaultNamespace == old(names.defaultNamespace))
    ensures Follows(res, names.State(), ParseFields(items, old(names.defaultNamespace), old(names.State()), []))
    decreases items, 0
  {
    hide ParseType, FieldOf, FieldNameTaken;
    var fs: seq<FieldProps> := [];
    var i := 0;
    while i < |items|
      invariant i <= |items| && names.Valid() && names.defaultNamespace == old(names.defaultNamespace)
      invariant ParseFields(items, old(names.defaultNamespace), old(names.State()), []) ==
                ParseFields(items[i..], names.defaultNamespace, names.State(), fs)
    {
      assert items[i..][0] == items[i] && items[i..][1..] == items[i + 1..];
      if !items[i].JObj? || "type" !in items[i].members {
        return Failure(SchemaParse);
      }
      var ftype :- MakeType(items[i].members["type"], names);
      var f :- FieldOf(items[i].members, ftype);
      if FieldNameTaken(fs, f.name) {
        return Failure(SchemaParse);
      }
      fs := fs + [f];
      i := i + 1;
    }
    return Success(fs);
  }

  /** `to_json`, where names.taken holds what has been printed. */
  method ToJson(env: Env, s: Schema, names: NameTable) returns (j: Json)
    modifies names`taken
    ensures (j, names.taken) == Print(env, s, old(names.taken))
    decreases env.Keys - names.taken, Weight(s)
  {
    match s
    case Prim(p) => return JStr(PrimitiveName(p));
    case Array(items) =>
      var item := ToJson(env, items, names);
      return JObj(map["type" := JStr("array"), "items" := item]);
    case Map(values) =>
      var value := ToJson(env, values, names);
      return JObj(map["type" := JStr("map"), "values" := value]);
    case Union(bs) =>
      var js := BranchesToJson(env, bs, names);
      return JArr(js);
    case Named(n) =>
      if n !in env {
        return JNull;
      }
      if n in names.taken {
        return JStr(NameRef(env[n], n));
      }
      names.taken := names.taken + {n};
      var props := NamedProps(env[n]);
      match env[n].body {
        case FixedBody(size) => return JObj(props["size" := JInt(size)]);
        case EnumBody(symbols) => return JObj(props["symbols" := JArr(Strings(symbols))]);
        case RecordBody(_, fields) =>
          var js := FieldsToJson(env, fields, names);
          return JObj(props["fields" := JArr(js)]);
      }
  }

  /** What has been printed, and what is still to come. */
  ghost predicate SoFar(whole: (seq<Json>, set<string>), js: seq<Json>, rest: (seq<Json>, set<string>)) {
    whole == (js + rest.0, rest.1)
  }

  lemma OneMore(whole: (seq<Json>, set<string>), js: seq<Json>, j: Json, rest: (seq<Json>, set<string>))
    requires SoFar(whole, js, ([j] + rest.0, rest.1))
    ensures SoFar(whole, js + [j], rest)
  {
    assert js + ([j] + rest.0) == js + [j] + rest.0;
  }

  lemma BranchesUnfold(env: Env, bs: seq<Schema>, i: nat, printed: set<string>)
    requires i < |bs|
    ensures Weight(bs[i]) < Weights(bs[i..]) && Weights(bs[i + 1..]) < Weights(bs[i..])
    ensures
      var (j, after) := Print(env, bs[i], printed);
      var rest := PrintBranches(env, bs[i + 1..], after);
      PrintBranches(env, bs[i..], printed) == ([j] + rest.0, rest.1)
  {
    assert bs[i..][1..] == bs[i + 1..];
    hide Print, Weight;
  }

  lemma FieldsUnfold(env: Env, fs: seq<FieldProps>, i: nat, printed: set<string>)
    requires i < |fs|
    ensures Weight(fs[i].ftype) < FieldWeights(fs[i..]) && FieldWeights(fs[i + 1..]) < FieldWeights(fs[i..])
    ensures
      var (j, after) := Print(env, fs[i].ftype, printed);
      var rest := PrintFields(env, fs[i + 1..], after);
      PrintFields(env, fs[i..], printed) == ([JObj(FieldMembers(fs[i], j))] + rest.0, rest.1)
  {
    assert fs[i..][1..] == fs[i + 1..];
    hide Print, Weight, FieldMembers;
  }

  method BranchesToJson(env: Env, bs: seq<Schema>, names: NameTable) returns (js: seq<Json>)
    modifies names`taken
    ensures (js, names.taken) == PrintBranches(env, bs, old(names.taken))
    decreases env.Keys - names.taken, Weights(bs)
  {
    hide Print, Weight, Weights;
    js := [];
    var i := 0;
    ghost var whole := PrintBranches(env, bs, names.taken);
    assert bs[0..] == bs && [] + whole.0 == whole.0;
    while i < |bs|
      invariant i <= |bs| && old(names.taken) <= names.taken && Weights(bs[i..]) <= Weights(bs)
      invariant SoFar(whole, js, PrintBranches(env, bs[i..], names.taken))
    {
      hide PrintBranches;
      BranchesUnfold(env, bs, i, names.taken);
      var branch := ToJson(env, bs[i], names);
      OneMore(whole, js, branch, PrintBranches(env, bs[i + 1..], names.taken));
      js := js + [branch];
      i := i + 1;
    }
    assert js + [] == js;
  }

  method FieldsToJson(env: Env, fs: seq<FieldProps>, names: NameTable) returns (js: seq<Json>)
    modifies names`taken
    ensures (js, names.taken) == PrintFields(env, fs, old(names.taken))
    decreases env.Keys - names.taken, FieldWeights(fs)
  {
    hide Print, Weight, FieldWeights, FieldMembers;
    js := [];
    var i := 0;
    ghost var whole := PrintFields(env, fs, names.taken);
    assert fs[0..] == fs && [] + whole.0 == whole.0;
    while i < |fs|
      invariant i <= |fs| && old(names.taken) <= names.taken && FieldWeights(fs[i..]) <= FieldWeights(fs)
      invariant SoFar(whole, js, PrintFields(env, fs[i..], names.taken))
    {
      hide PrintFields;
      FieldsUnfold(env, fs, i, names.taken);
      var ftype := ToJson(env, fs[i].ftype, names);
      var field := JObj(FieldMembers(fs[i], ftype));
      OneMore(whole, js, field, PrintFields(env, fs[i + 1..], names.taken));
      js := js + [field];
      i := i + 1;
    }
    assert js + [] == js;
  }
}
