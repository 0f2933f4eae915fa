/** When the text a schema prints is parsed back into that schema. */
module SchemaRoundTrip {
  import opened Basics
  import opened Schemas
  import opened SchemaText

  /** The stored name and namespace lead back to the full name. */
  predicate ProperName(t: NamedType, fullname: string, default: Option<string>) {
    && t.name != "" && FullName(t.name, t.namespace, default) == fullname && fullname !in VALID_TYPES
    && (t.namespace.Some? ==> t.namespace.value == GetSpace(fullname))
  }

  predicate ProperField(f: FieldProps) {
    f.name != "" && (f.order.Some? ==> f.order.value in SORT_ORDERS)
  }

  function Inner(isError: bool, fullname: string, default: Option<string>): Option<string> {
    if isError then default else Some(GetSpace(fullname))
  }

  /**
   * Every name in the schema, read where it is printed, means what it stands for: a definition
   * recomputes its own full name; a reference finds the type it refers to; and a primitive
   * is not hidden by a type of the same name. Unions, fields and symbols obey the parser's rules.
   */
  predicate Faithful(env: Env, s: Schema, default: Option<string>, printed: set<string>)
    decreases env.Keys - printed, Weight(s)
  {
    match s
    case Prim(p) => FullName(PrimitiveName(p), None, default) !in printed
    case Array(items) => Faithful(env, items, default, printed)
    case Map(values) => Faithful(env, values, default, printed)
    case Union(bs) => FaithfulBranches(env, bs, default, printed, [])
    case Named(n) =>
      n in env &&
      if n in printed then
        NameRef(env[n], n) != "" && FullName(NameRef(env[n], n), None, default) == n
      else
        ProperName(env[n], n, default) &&
        match env[n].body
        case FixedBody(_) => true
        case EnumBody(symbols) => Distinct(symbols)
        case RecordBody(isError, fields) =>
          FaithfulFields(env, fields, Inner(isError, n, default), printed + {n}, [])
  }

  predicate FaithfulBranches(env: Env, bs: seq<Schema>, default: Option<string>, printed: set<string>,
                             before: seq<Schema>)
    decreases env.Keys - printed, Weights(bs)
  {
    bs != [] ==>
      && MayJoin(before, bs[0]) && Faithful(env, bs[0], default, printed)
      && FaithfulBranches(env, bs[1..], default, Print(env, bs[0], printed).1, before + [bs[0]])
  }

  predicate FaithfulFields(env: Env, fs: seq<FieldProps>, default: Option<string>, printed: set<string>,
                           before: seq<FieldProps>)
    decreases env.Keys - printed, FieldWeights(fs)
  {
    fs != [] ==>
      && ProperField(fs[0]) && !FieldNameTaken(before, fs[0].name) && Faithful(env, fs[0].ftype, default, printed)
      && FaithfulFields(env, fs[1..], default, Print(env, fs[0].ftype, printed).1, before + [fs[0]])
  }

  /** What parsing has added are definitions of env. */
  ghost predicate OnlyFrom(env: Env, st: Names, st': Names) {
    forall k :: k in st'.defs && k !in st.taken ==> k in env && st'.defs[k] == env[k]
  }

  /** Parsing has added the names up to after, each with its definition. */
  ghost predicate Complete(env: Env, st: Names, st': Names, after: set<string>) {
    OnlyFrom(env, st, st') && st'.taken == after && forall k :: k in after && k !in st.taken ==> k in st'.defs
  }

  ghost predicate TypeMeaning(env: Env, s: Schema, default: Option<string>, st: Names)
    requires st.defs.Keys <= st.taken
  {
    var (j, after) := Print(env, s, st.taken);
    var r := ParseType(j, default, st);
    && (Faithful(env, s, default, st.taken) ==> r.Success? && r.value.0 == s && Complete(env, st, r.value.1, after))
    && (r.Success? && r.value.0 == s && OnlyFrom(env, st, r.value.1) ==> Faithful(env, s, default, st.taken))
  }

  ghost predicate BranchesMeaning(env: Env, bs: seq<Schema>, default: Option<string>, st: Names, before: seq<Schema>)
    requires st.defs.Keys <= st.taken
  {
    var (js, after) := PrintBranches(env, bs, st.taken);
    var r := ParseBranches(js, default, st, before);
    var ok := FaithfulBranches(env, bs, default, st.taken, before);
    && (ok ==> r.Success? && r.value.0 == before + bs && Complete(env, st, r.value.1, after))
    && (r.Success? && r.value.0 == before + bs && OnlyFrom(env, st, r.value.1) ==> ok)
  }

  ghost predicate FieldsMeaning(env: Env, fs: seq<FieldProps>, default: Option<string>, st: Names,
                                before: seq<FieldProps>)
    requires st.defs.Keys <= st.taken
  {
    var (js, after) := PrintFields(env, fs, st.taken);
    var r := ParseFields(js, default, st, before);
    var ok := FaithfulFields(env, fs, default, st.taken, before);
    && (ok ==> r.Success? && r.value.0 == before + fs && Complete(env, st, r.value.1, after))
    && (r.Success? && r.value.0 == before + fs && OnlyFrom(env, st, r.value.1) ==> ok)
  }

  lemma OnlyFromParts(env: Env, st: Names, mid: Names, end: Names)
    requires Extends(st, mid) && Extends(mid, end) && OnlyFrom(env, st, end)
    ensures OnlyFrom(env, st, mid) && OnlyFrom(env, mid, end)
  {
  }

  lemma CompleteParts(env: Env, st: Names, mid: Names, end: Names, between: set<string>, after: set<string>)
    requires Extends(st, mid) && Extends(mid, end) && Complete(env, st, mid, between) && Complete(env, mid, end, after)
    ensures Complete(env, st, end, after)
  {
  }

  lemma PrimitiveMeaning(env: Env, p: Primitive, default: Option<string>, st: Names)
    requires st.defs.Keys <= st.taken
    ensures TypeMeaning(env, Prim(p), default, st)
  {
    assert PrimitiveOf(PrimitiveName(p)) == Some(p) && PrimitiveName(p) != "";
  }

  lemma ArrayMeaning(env: Env, items: Schema, default: Option<string>, st: Names)
    requires st.defs.Keys <= st.taken && TypeMeaning(env, items, default, st)
    ensures TypeMeaning(env, Array(items), default, st)
  {
    hide ParseType, Complete, OnlyFrom;
    var (j, after) := Print(env, items, st.taken);
    var whole := Print(env, Array(items), st.taken).0;
    assert whole.members["type"] == JStr("array") && whole.members["items"] == j;
    hide Print;
    ParseOfArray(whole.members, default, st);
  }

  lemma MapMeaning(env: Env, values: Schema, default: Option<string>, st: Names)
    requires st.defs.Keys <= st.taken && TypeMeaning(env, values, default, st)
    ensures TypeMeaning(env, Map(values), default, st)
  {
    hide ParseType, Complete, OnlyFrom;
    var (j, after) := Print(env, values, st.taken);
    var whole := Print(env, Map(values), st.taken).0;
    assert whole.members["type"] == JStr("map") && whole.members["values"] == j;
    hide Print;
    ParseOfMap(whole.members, default, st);
  }

  // make_avsc_object on an object, by the type it names

  lemma ParseOfArray(m: map<string, Json>, default: Option<string>, st: Names)
    requires st.defs.Keys <= st.taken && "type" in m && m["type"] == JStr("array") && "items" in m
    ensures ParseType(JObj(m), default, st) ==
      var r := ParseType(m["items"], default, st);
      if r.Failure? then Failure(r.error) else Success((Array(r.value.0), r.value.1))
  {
  }

  lemma ParseOfMap(m: map<string, Json>, default: Option<string>, st: Names)
    requires st.defs.Keys <= st.taken && "type" in m && m["type"] == JStr("map") && "values" in m
    ensures ParseType(JObj(m), default, st) ==
      var r := ParseType(m["values"], default, st);
      if r.Failure? then Failure(r.error) else Success((Map(r.value.0), r.value.1))
  {
  }

  lemma ParseOfLeaf(m: map<string, Json>, t: string, default: Option<string>, st: Names)
    requires st.defs.Keys <= st.taken && "type" in m && m["type"] == JStr(t) && (t == "fixed" || t == "enum")
    ensures ParseType(JObj(m), default, st) == ParseLeaf(m, t, default, st)
  {
  }

  lemma ParseOfRecord(m: map<string, Json>, isError: bool, default: Option<string>, st: Names)
    requires st.defs.Keys <= st.taken && "type" in m && m["type"] == JStr(if isError then "error" else "record")
    requires "fields" in m && m["fields"].JArr?
    ensures ParseType(JObj(m), default, st) ==
      var full := NewName(m, default, st);
      if full.Failure? then Failure(full.error)
      else
        var r := ParseFields(m["fields"].items, Inner(isError, full.value, default),
            Names(st.taken + {full.value}, st.defs), []);
        if r.Failure? then Failure(r.error)
        else
          var defs := r.value.1.defs[full.value := Define(m, full.value, RecordBody(isError, r.value.0))];
          Success((Named(full.value), r.value.1.(defs := defs)))
  {
  }

  /** The printed name and namespace are taken up again exactly if they lead to the full name. */
  lemma NameMeaning(t: NamedType, n: string, m: map<string, Json>, default: Option<string>, st: Names)
    requires HoldsName(m, t) && n !in st.taken
    ensures ProperName(t, n, default) ==> NewName(m, default, st) == Success(n)
    ensures
      var full := NewName(m, default, st);
      full == Success(n) && Define(m, n, t.body) == t ==> ProperName(t, n, default)
    ensures Member(m, "name") == JStr(t.name)
    ensures ProperName(t, n, default) ==> Define(m, n, t.body) == t
  {
    hide FullName, GetSpace, VALID_TYPES;
    assert "name" in NamedProps(t) && m["name"] == JStr(t.name);
    assert t.namespace.Some? ==> "namespace" in NamedProps(t) && m["namespace"] == JStr(t.namespace.value);
    assert StringOf(Member(m, "namespace")) == t.namespace;
  }

  lemma PrintOfLeaf(env: Env, n: string, printed: set<string>)
    requires n in env && n !in printed && !env[n].body.RecordBody?
    ensures
      var (t, (j, after)) := (env[n], Print(env, Named(n), printed));
      && after == printed + {n} && j.JObj? && HoldsName(j.members, t) && "type" in j.members
      && (t.body.FixedBody? ==>
            && j.members["type"] == JStr("fixed")
            && "size" in j.members && j.members["size"] == JInt(t.body.size))
      && (t.body.EnumBody? ==>
            && j.members["type"] == JStr("enum")
            && "symbols" in j.members && j.members["symbols"] == JArr(Strings(t.body.symbols)))
  {
  }

  lemma FaithfulLeaf(env: Env, n: string, default: Option<string>, printed: set<string>)
    requires n in env && n !in printed && !env[n].body.RecordBody?
    ensures Faithful(env, Named(n), default, printed) ==
      (ProperName(env[n], n, default) && (env[n].body.EnumBody? ==> Distinct(env[n].body.symbols)))
  {
    hide ProperName;
  }

  /** A fixed or an enum adds its own definition only. */
  lemma LeafAdds(env: Env, n: string, st: Names, d: NamedType)
    requires st.defs.Keys <= st.taken && n in env && n !in st.taken
    ensures
      var end := Names(st.taken + {n}, st.defs[n := d]);
      && (d == env[n] ==> Complete(env, st, end, st.taken + {n}))
      && (OnlyFrom(env, st, end) ==> d == env[n])
  {
    assert n in st.defs[n := d].Keys && n !in st.defs.Keys;
  }

  lemma FixedMeaning(env: Env, n: string, default: Option<string>, st: Names)
    requires st.defs.Keys <= st.taken && n in env && n !in st.taken && env[n].body.FixedBody?
    ensures TypeMeaning(env, Named(n), default, st)
  {
    hide Print, NamedProps, NewName, ProperName, Define, Faithful, ParseType, OnlyFrom, Complete, HoldsName;
    PrintOfLeaf(env, n, st.taken);
    FaithfulLeaf(env, n, default, st.taken);
    var m := Print(env, Named(n), st.taken).0.members;
    NameMeaning(env[n], n, m, default, st);
    ParseOfLeaf(m, "fixed", default, st);
    LeafAdds(env, n, st, Define(m, n, env[n].body));
  }

  lemma EnumMeaning(env: Env, n: string, default: Option<string>, st: Names)
    requires st.defs.Keys <= st.taken && n in env && n !in st.taken && env[n].body.EnumBody?
    ensures TypeMeaning(env, Named(n), default, st)
  {
    hide Print, NamedProps, NewName, ProperName, Define, Faithful, ParseType, OnlyFrom, Complete, HoldsName,
        EnumOf, Distinct, Strings;
    PrintOfLeaf(env, n, st.taken);
    FaithfulLeaf(env, n, default, st.taken);
    var m := Print(env, Named(n), st.taken).0.members;
    NameMeaning(env[n], n, m, default, st);
    ParseOfLeaf(m, "enum", default, st);
    EnumOfStrings(env[n].body.symbols);
    LeafAdds(env, n, st, Define(m, n, env[n].body));
  }

  lemma EnumOfStrings(symbols: seq<string>)
    ensures EnumOf(JArr(Strings(symbols)))
        == if Distinct(symbols) then Success(EnumBody(symbols)) else Failure(SchemaParse)
  {
    var js := Strings(symbols);
    var ss := seq(|js|, i requires 0 <= i < |js| => js[i].s);
    assert ss == symbols;
  }

  /** The object m holds what the printer writes for the name of t. */
  predicate HoldsName(m: map<string, Json>, t: NamedType) {
    && NamedProps(t).Keys <= m.Keys && (forall k :: k in NamedProps(t) ==> m[k] == NamedProps(t)[k])
    && (t.namespace.None? ==> "namespace" !in m)
  }

  lemma PrintOfRecord(env: Env, n: string, printed: set<string>)
    requires n in env && n !in printed && env[n].body.RecordBody?
    ensures
      var t := env[n];
      var (js, after) := PrintFields(env, t.body.fields, printed + {n});
      var (j, after') := Print(env, Named(n), printed);
      && after == after' && j.JObj? && HoldsName(j.members, t)
      && "type" in j.members && j.members["type"] == JStr(if t.body.isError then "error" else "record")
      && "fields" in j.members && j.members["fields"] == JArr(js)
  {
    hide PrintFields;
  }

  lemma FaithfulRecord(env: Env, n: string, default: Option<string>, printed: set<string>)
    requires n in env && n !in printed && env[n].body.RecordBody?
    ensures
      var t := env[n];
      Faithful(env, Named(n), default, printed) ==
        (ProperName(t, n, default)
            && FaithfulFields(env, t.body.fields, Inner(t.body.isError, n, default), printed + {n}, []))
  {
  }

  lemma RecordMeaning(env: Env, n: string, default: Option<string>, st: Names)
    requires st.defs.Keys <= st.taken && n in env && n !in st.taken && env[n].body.RecordBody?
    requires FieldsMeaning(env, env[n].body.fields, Inner(env[n].body.isError, n, default),
        Names(st.taken + {n}, st.defs), [])
    ensures TypeMeaning(env, Named(n), default, st)
  {
    var t := env[n];
    var isError, fields := t.body.isError, t.body.fields;
    hide Print, PrintFields, NamedProps, NewName, ProperName, Define, Faithful, FaithfulFields, ParseType, ParseFields,
        Inner, OnlyFrom, Complete, Extends, HoldsName, Member;
    PrintOfRecord(env, n, st.taken);
    FaithfulRecord(env, n, default, st.taken);
    var m := Print(env, Named(n), st.taken).0.members;
    NameMeaning(t, n, m, default, st);
    ParseOfRecord(m, isError, default, st);
    if NewName(m, default, st) != Success(n) {
      return;
    }
    var none: seq<FieldProps> := [];
    assert none + fields == fields;
    var r := ParseFields(m["fields"].items, Inner(isError, n, default), Names(st.taken + {n}, st.defs), []);
    if r.Failure? {
      return;
    }
    var d := Define(m, n, RecordBody(isError, r.value.0));
    DefineBody(m, n, RecordBody(isError, r.value.0));
    RecordAdds(env, n, st, r.value.1, d, PrintFields(env, fields, st.taken + {n}).1);
  }

  lemma DefineBody(m: map<string, Json>, full: string, body: Body)
    requires Member(m, "name").JStr?
    ensures Define(m, full, body).body == body
  {
  }

  /** A record's own definition is added after those of its fields. */
  lemma RecordAdds(env: Env, n: string, st: Names, mid: Names, d: NamedType, after: set<string>)
    requires st.defs.Keys <= st.taken && n in env && n !in st.taken && Extends(Names(st.taken + {n}, st.defs), mid)
    ensures
      var st1, end := Names(st.taken + {n}, st.defs), mid.(defs := mid.defs[n := d]);
      && (Complete(env, st1, mid, after) && d == env[n] ==> Complete(env, st, end, after))
      && (OnlyFrom(env, st, end) ==> d == env[n] && OnlyFrom(env, st1, mid))
  {
    var st1, end := Names(st.taken + {n}, st.defs), mid.(defs := mid.defs[n := d]);
    assert n in end.defs && end.defs[n] == d;
    if OnlyFrom(env, st, end) {
      forall k | k in mid.defs && k !in st1.taken ensures k in env && mid.defs[k] == env[k] {
        assert k in end.defs && end.defs[k] == mid.defs[k];
      }
    }
  }

  lemma ReferenceMeaning(env: Env, n: string, default: Option<string>, st: Names)
    requires st.defs.Keys <= st.taken && (n !in env || n in st.taken)
    ensures TypeMeaning(env, Named(n), default, st)
  {
  }

  lemma UnionMeaning(env: Env, bs: seq<Schema>, default: Option<string>, st: Names)
    requires st.defs.Keys <= st.taken && BranchesMeaning(env, bs, default, st, [])
    ensures TypeMeaning(env, Union(bs), default, st)
  {
    var none: seq<Schema> := [];
    assert none + bs == bs;
    var (js, after) := PrintBranches(env, bs, st.taken);
    assert Print(env, Union(bs), st.taken) == (JArr(js), after);
    hide Print, PrintBranches, ParseType, ParseBranches, FaithfulBranches, Complete, OnlyFrom;
    ParseOfUnion(js, default, st);
  }

  lemma ParseOfUnion(js: seq<Json>, default: Option<string>, st: Names)
    requires st.defs.Keys <= st.taken
    ensures ParseType(JArr(js), default, st) ==
      var r := ParseBranches(js, default, st, []);
      if r.Failure? then Failure(r.error) else Success((Union(r.value.0), r.value.1))
  {
  }

  lemma {:induction false} PrintParse(env: Env, s: Schema, default: Option<string>, st: Names)
    requires st.defs.Keys <= st.taken
    ensures TypeMeaning(env, s, default, st)
    decreases env.Keys - st.taken, Weight(s)
  {
    hide TypeMeaning, FieldsMeaning, BranchesMeaning;
    match s
    case Prim(p) => PrimitiveMeaning(env, p, default, st);
    case Array(items) =>
      PrintParse(env, items, default, st);
      ArrayMeaning(env, items, default, st);
    case Map(values) =>
      PrintParse(env, values, default, st);
      MapMeaning(env, values, default, st);
    case Union(bs) =>
      PrintParseBranches(env, bs, default, st, []);
      UnionMeaning(env, bs, default, st);
    case Named(n) =>
      if n !in env || n in st.taken {
        ReferenceMeaning(env, n, default, st);
      } else {
        match env[n].body
        case FixedBody(_) => FixedMeaning(env, n, default, st);
        case EnumBody(_) => EnumMeaning(env, n, default, st);
        case RecordBody(isError, fields) =>
          PrintParseFields(env, fields, Inner(isError, n, default), Names(st.taken + {n}, st.defs), []);
          RecordMeaning(env, n, default, st);
      }
  }

  lemma {:induction false} PrintParseBranches(env: Env, bs: seq<Schema>, default: Option<string>, st: Names,
                                              before: seq<Schema>)
    requires st.defs.Keys <= st.taken
    ensures BranchesMeaning(env, bs, default, st, before)
    decreases env.Keys - st.taken, Weights(bs)
  {
    if bs == [] {
      assert before + bs == before;
    } else {
      hide TypeMeaning, BranchesMeaning;
      PrintParse(env, bs[0], default, st);
      var r := ParseType(Print(env, bs[0], st.taken).0, default, st);
      if r.Success? && r.value.0 == bs[0] && Faithful(env, bs[0], default, st.taken) {
        hide Faithful, ParseType, OnlyFrom, Extends;
        PrintParseBranches(env, bs[1..], default, r.value.1, before + [bs[0]]);
      }
      BranchStep(env, bs, default, st, before);
    }
  }

  lemma BranchStep(env: Env, bs: seq<Schema>, default: Option<string>, st: Names, before: seq<Schema>)
    requires st.defs.Keys <= st.taken && bs != [] && TypeMeaning(env, bs[0], default, st)
    requires
      var r := ParseType(Print(env, bs[0], st.taken).0, default, st);
      r.Success? && r.value.0 == bs[0] && Faithful(env, bs[0], default, st.taken) ==>
        BranchesMeaning(env, bs[1..], default, r.value.1, before + [bs[0]])
    ensures BranchesMeaning(env, bs, default, st, before)
  {
    var (j, between) := Print(env, bs[0], st.taken);
    var (js, after) := PrintBranches(env, bs, st.taken);
    var r := ParseType(j, default, st);
    var all := ParseBranches(js, default, st, before);
    assert js[0] == j && js[1..] == PrintBranches(env, bs[1..], between).0;
    assert before + [bs[0]] + bs[1..] == before + bs;
    hide Print, PrintBranches, ParseType, MayJoin, Faithful, OnlyFrom, Extends, Complete;
    if FaithfulBranches(env, bs, default, st.taken, before) {
      assert r.Success? && r.value.0 == bs[0] && r.value.1.taken == between by { CompleteTakes(env, st, r, between); }
      CompleteParts(env, st, r.value.1, all.value.1, between, after);
    }
    if all.Success? && all.value.0 == before + bs && OnlyFrom(env, st, all.value.1) {
      assert before + [r.value.0] <= all.value.0;
      assert (before + bs)[|before|] == bs[0] && (before + [r.value.0])[|before|] == r.value.0;
      OnlyFromParts(env, st, r.value.1, all.value.1);
      CompleteTakes(env, st, r, between);
    }
  }

  lemma CompleteTakes(env: Env, st: Names, r: Result<(Schema, Names)>, after: set<string>)
    requires r.Success? ==> Complete(env, st, r.value.1, after)
    ensures r.Success? ==> r.value.1.taken == after
  {
  }

  lemma {:induction false} PrintParseFields(env: Env, fs: seq<FieldProps>, default: Option<string>, st: Names,
                                            before: seq<FieldProps>)
    requires st.defs.Keys <= st.taken
    ensures FieldsMeaning(env, fs, default, st, before)
    decreases env.Keys - st.taken, FieldWeights(fs)
  {
    if fs == [] {
      assert before + fs == before;
    } else {
      hide TypeMeaning, FieldsMeaning;
      PrintParse(env, fs[0].ftype, default, st);
      var r := ParseType(Print(env, fs[0].ftype, st.taken).0, default, st);
      if r.Success? && r.value.0 == fs[0].ftype && Faithful(env, fs[0].ftype, default, st.taken) {
        hide Faithful, ParseType, OnlyFrom, Extends;
        PrintParseFields(env, fs[1..], default, r.value.1, before + [fs[0]]);
      }
      FieldStep(env, fs, default, st, before);
    }
  }

  lemma FieldStep(env: Env, fs: seq<FieldProps>, default: Option<string>, st: Names, before: seq<FieldProps>)
    requires st.defs.Keys <= st.taken && fs != [] && TypeMeaning(env, fs[0].ftype, default, st)
    requires
      var r := ParseType(Print(env, fs[0].ftype, st.taken).0, default, st);
      r.Success? && r.value.0 == fs[0].ftype && Faithful(env, fs[0].ftype, default, st.taken) ==>
        FieldsMeaning(env, fs[1..], default, r.value.1, before + [fs[0]])
    ensures FieldsMeaning(env, fs, default, st, before)
  {
    var (j, between) := Print(env, fs[0].ftype, st.taken);
    var (js, after) := PrintFields(env, fs, st.taken);
    var r := ParseType(j, default, st);
    var all := ParseFields(js, default, st, before);
    assert js[0] == JObj(FieldMembers(fs[0], j)) && js[1..] == PrintFields(env, fs[1..], between).0;
    assert before + [fs[0]] + fs[1..] == before + fs;
    if r.Success? {
      FieldOfMembers(fs[0], j, r.value.0);
    }
    assert "type" in FieldMembers(fs[0], j) && FieldMembers(fs[0], j)["type"] == j;
    hide Print, PrintFields, ParseType, Faithful, OnlyFrom, Extends, Complete, FieldMembers, FieldOf, ProperField,
        FieldNameTaken;
    if FaithfulFields(env, fs, default, st.taken, before) {
      assert r.Success? && r.value.0 == fs[0].ftype && r.value.1.taken == between by {
        CompleteTakes(env, st, r, between);
      }
      CompleteParts(env, st, r.value.1, all.value.1, between, after);
    }
    if all.Success? && all.value.0 == before + fs && OnlyFrom(env, st, all.value.1) {
      var f := fs[0].(ftype := r.value.0);
      assert before + [f] <= all.value.0;
      assert (before + fs)[|before|] == fs[0] && (before + [f])[|before|] == f;
      OnlyFromParts(env, st, r.value.1, all.value.1);
      CompleteTakes(env, st, r, between);
    }
  }

  lemma FieldOfMembers(f: FieldProps, j: Json, ftype: Schema)
    ensures FieldOf(FieldMembers(f, j), ftype)
        == if ProperField(f) then Success(f.(ftype := ftype)) else Failure(SchemaParse)
  {
  }

  const NO_NAMES: Names := Names({}, map[])

  /** `parse(str(s))` is s again, with the same full names and the same definition behind each of them. */
  ghost predicate Rebuilds(env: Env, s: Schema) {
    var (j, names) := Print(env, s, {});
    var r := Parse(j, None, NO_NAMES);
    && r.Success? && r.value.0 == s
    && r.value.1.defs.Keys == names && forall n :: n in names ==> n in env && r.value.1.defs[n] == env[n]
  }

  lemma PrintedAtTop(env: Env, s: Schema)
    ensures ParseType(Print(env, s, {}).0, None, NO_NAMES) == Parse(Print(env, s, {}).0, None, NO_NAMES)
  {
    if s.Prim? {
      PrimitiveNames(s.prim);
    }
  }

  /** A printed schema is parsed back exactly if every name in it means, where it is printed, what it stands for. */
  lemma RebuildsExactlyWhenFaithful(env: Env, s: Schema)
    ensures Rebuilds(env, s) <==> Faithful(env, s, None, {})
  {
    hide Print, Parse, ParseType, Faithful;
    PrintParse(env, s, None, NO_NAMES);
    PrintedAtTop(env, s);
  }

  lemma PrimitiveNames(p: Primitive)
    ensures PrimitiveOf(PrimitiveName(p)) == Some(p) && PrimitiveName(p) != "" && '.' !in PrimitiveName(p)
    ensures PrimitiveName(p) in VALID_TYPES
  {
    var i := match p
      case PNull => 0 case PBoolean => 1 case PString => 2 case PBytes => 3
      case PInt => 4 case PLong => 5 case PFloat => 6 case PDouble => 7;
    assert PRIMITIVE_TYPES[i] == PrimitiveName(p);
    assert VALID_TYPES[i] == PRIMITIVE_TYPES[i];
  }

  // Two families of schemas for which it always works

  /** The rules of unions, enums and fields, and no name without a definition. */
  predicate RegularSchema(env: Env, s: Schema) {
    match s
    case Prim(_) => true
    case Array(items) => RegularSchema(env, items)
    case Map(values) => RegularSchema(env, values)
    case Union(bs) =>
      forall i :: 0 <= i < |bs| ==> RegularSchema(env, bs[i]) && MayJoin(bs[..i], bs[i])
    case Named(n) => n in env
  }

  predicate Regular(env: Env) {
    forall n :: n in env ==>
      match env[n].body
      case FixedBody(_) => true
      case EnumBody(symbols) => Distinct(symbols)
      case RecordBody(_, fs) =>
        forall i :: 0 <= i < |fs| ==>
          ProperField(fs[i]) && RegularSchema(env, fs[i].ftype) && !FieldNameTaken(fs[..i], fs[i].name)
  }

  /** Every named type has an explicit, non-empty namespace or a dotted name. */
  predicate AllQualified(env: Env) {
    forall n :: n in env ==>
      var t := env[n];
      && t.name != "" && n !in VALID_TYPES && (t.namespace.Some? ==> t.namespace.value == GetSpace(n))
      && if '.' in t.name then n == t.name else NonEmpty(t.namespace) && n == t.namespace.value + "." + t.name
  }

  /** No named type has a namespace or a dot in its name. */
  predicate NoneQualified(env: Env) {
    forall n :: n in env ==>
      env[n].namespace.None? && env[n].name == n && n != "" && '.' !in n && n !in VALID_TYPES
  }

  /** The simple name of n is that of a primitive type. */
  predicate NamedLikeAPrimitive(n: string) {
    exists p: Primitive :: |n| > |PrimitiveName(p)| && n[|n| - |PrimitiveName(p)| - 1..] == "." + PrimitiveName(p)
  }

  predicate Unambiguous(env: Env, default: Option<string>) {
    || (AllQualified(env) && forall n :: n in env ==> !NamedLikeAPrimitive(n))
    || (NoneQualified(env) && !NonEmpty(default))
  }

  lemma PrimitiveIsNotHidden(env: Env, p: Primitive, default: Option<string>, printed: set<string>)
    requires Unambiguous(env, default) && printed <= env.Keys
    ensures FullName(PrimitiveName(p), None, default) !in printed
  {
    PrimitiveNames(p);
    var n := FullName(PrimitiveName(p), None, default);
    if NonEmpty(default) {
      assert n[|n| - |PrimitiveName(p)| - 1..] == "." + PrimitiveName(p);
    }
  }

  lemma NamesAreFound(env: Env, n: string, default: Option<string>)
    requires Unambiguous(env, default) && n in env
    ensures NameRef(env[n], n) != "" && FullName(NameRef(env[n], n), None, default) == n
    ensures ProperName(env[n], n, default)
    ensures !env[n].body.RecordBody? || Unambiguous(env, Inner(env[n].body.isError, n, default))
  {
    hide VALID_TYPES;
  }

  lemma {:induction false} UnambiguousIsFaithful(env: Env, s: Schema, default: Option<string>, printed: set<string>)
    requires Unambiguous(env, default) && Regular(env) && RegularSchema(env, s) && printed <= env.Keys
    ensures Faithful(env, s, default, printed)
    decreases env.Keys - printed, Weight(s)
  {
    hide Unambiguous, Regular;
    match s
    case Prim(p) => PrimitiveIsNotHidden(env, p, default, printed);
    case Array(items) => UnambiguousIsFaithful(env, items, default, printed);
    case Map(values) => UnambiguousIsFaithful(env, values, default, printed);
    case Union(bs) => UnambiguousBranches(env, bs, default, printed, 0);
    case Named(n) =>
      NamesAreFound(env, n, default);
      hide ProperName;
      if n !in printed {
        RegularBody(env, n);
        if env[n].body.RecordBody? {
          UnambiguousFields(env, env[n].body.fields, Inner(env[n].body.isError, n, default), printed + {n}, 0);
        }
      }
  }

  lemma RegularBody(env: Env, n: string)
    requires Regular(env) && n in env
    ensures match env[n].body
      case FixedBody(_) => true
      case EnumBody(symbols) => Distinct(symbols)
      case RecordBody(_, fs) =>
        forall i :: 0 <= i < |fs| ==>
          ProperField(fs[i]) && RegularSchema(env, fs[i].ftype) && !FieldNameTaken(fs[..i], fs[i].name)
  {
  }

  lemma {:induction false} UnambiguousBranches(env: Env, bs: seq<Schema>, default: Option<string>, printed: set<string>,
                                               i: nat)
    requires Unambiguous(env, default) && Regular(env) && printed <= env.Keys && i <= |bs|
    requires forall j :: 0 <= j < |bs| ==> RegularSchema(env, bs[j]) && MayJoin(bs[..j], bs[j])
    ensures FaithfulBranches(env, bs[i..], default, printed, bs[..i])
    decreases env.Keys - printed, Weights(bs[i..])
  {
    hide Unambiguous, Regular, RegularSchema, MayJoin;
    if i < |bs| {
      UnambiguousIsFaithful(env, bs[i], default, printed);
      UnambiguousBranches(env, bs, default, Print(env, bs[i], printed).1, i + 1);
      assert bs[i..][1..] == bs[i + 1..] && bs[..i] + [bs[i]] == bs[..i + 1];
    }
  }

  lemma {:induction false} UnambiguousFields(env: Env, fs: seq<FieldProps>, default: Option<string>,
                                             printed: set<string>, i: nat)
    requires Unambiguous(env, default) && Regular(env) && printed <= env.Keys && i <= |fs|
    requires forall j :: 0 <= j < |fs| ==>
      ProperField(fs[j]) && RegularSchema(env, fs[j].ftype) && !FieldNameTaken(fs[..j], fs[j].name)
    ensures FaithfulFields(env, fs[i..], default, printed, fs[..i])
    decreases env.Keys - printed, FieldWeights(fs[i..])
  {
    hide Unambiguous, Regular, RegularSchema, ProperField, FieldNameTaken;
    if i < |fs| {
      UnambiguousIsFaithful(env, fs[i].ftype, default, printed);
      UnambiguousFields(env, fs, default, Print(env, fs[i].ftype, printed).1, i + 1);
      assert fs[i..][1..] == fs[i + 1..] && fs[..i] + [fs[i]] == fs[..i + 1];
    }
  }

  /**
   * Recursive or not, a regular schema survives printing and parsing if all its named types are
   * qualified and none is named like a primitive, or if none is qualified at all.
   */
  lemma UnambiguousSchemasAreRebuilt(env: Env, s: Schema)
    requires Regular(env) && RegularSchema(env, s) && Unambiguous(env, None)
    ensures Rebuilds(env, s)
  {
    RebuildsExactlyWhenFaithful(env, s);
    UnambiguousIsFaithful(env, s, None, {});
  }
}
