/**
 * Every JSON text of a schema, not only the one to_json prints: which texts make_avsc_object
 * accepts (avro/devices/avro/schema.py), and as what.
 */
module LiberalText {
  import opened Basics
  import opened Schemas
  import opened SchemaText
  import opened SchemaRoundTrip

  /** A primitive: its name, unless a type of that name hides it, or any object with that name as its type. */
  predicate PrimitiveText(j: Json, p: Primitive, default: Option<string>, printed: set<string>) {
    match j
    case JStr(s) => s == PrimitiveName(p) && FullName(s, None, default) !in printed
    case JObj(m) => Member(m, "type") == JStr(PrimitiveName(p))
    case _ => false
  }

  /** A reference: any name that stands for n where it is read. */
  predicate ReferenceText(j: Json, n: string, default: Option<string>) {
    j.JStr? && j.s != "" && FullName(j.s, None, default) == n
  }

  /** What every definition of n holds; its namespace may be left out, null, or unused because the name has a dot. */
  predicate NameText(m: map<string, Json>, t: NamedType, n: string, default: Option<string>) {
    && Member(m, "type") == JStr(TypeProp(t)) && Member(m, "name") == JStr(t.name)
    && t.name != "" && n !in VALID_TYPES
    && match Member(m, "namespace")
       case JNull => t.namespace == None && FullName(t.name, None, default) == n
       case JStr(space) => t.namespace == Some(GetSpace(n)) && FullName(t.name, Some(space), default) == n
       case _ => false
  }

  predicate SymbolsText(j: Json, symbols: seq<string>) {
    && j.JArr? && |j.items| == |symbols| && Distinct(symbols)
    && forall i :: 0 <= i < |symbols| ==> j.items[i] == JStr(symbols[i])
  }

  /** The properties of a field other than its type. */
  predicate FieldText(j: Json, f: FieldProps) {
    && j.JObj? && "type" in j.members && Member(j.members, "name") == JStr(f.name) && f.name != ""
    && f.default == (if "default" in j.members then Some(j.members["default"]) else None)
    && match f.order
       case None => Member(j.members, "order") == JNull
       case Some(order) => Member(j.members, "order") == JStr(order) && order in SORT_ORDERS
  }

  /**
   * j is a text of the schema s, where the names in `printed` have been defined before: each named
   * type is defined where it first occurs and referred to afterwards. Objects may have further members.
   */
  predicate Text(env: Env, j: Json, s: Schema, default: Option<string>, printed: set<string>)
    decreases env.Keys - printed, Weight(s)
  {
    match s
    case Prim(p) => PrimitiveText(j, p, default, printed)
    case Array(items) =>
      && j.JObj? && Member(j.members, "type") == JStr("array") && "items" in j.members
      && Text(env, j.members["items"], items, default, printed)
    case Map(values) =>
      && j.JObj? && Member(j.members, "type") == JStr("map") && "values" in j.members
      && Text(env, j.members["values"], values, default, printed)
    case Union(bs) => j.JArr? && BranchTexts(env, j.items, bs, default, printed, [])
    case Named(n) =>
      if n in printed then ReferenceText(j, n, default)
      else
        n in env && j.JObj? && NameText(j.members, env[n], n, default) &&
        match env[n].body
        case FixedBody(size) => Member(j.members, "size") == JInt(size)
        case EnumBody(symbols) => SymbolsText(Member(j.members, "symbols"), symbols)
        case RecordBody(isError, fields) =>
          var js := Member(j.members, "fields");
          js.JArr? && FieldTexts(env, js.items, fields, Inner(isError, n, default), printed + {n}, [])
  }

  predicate BranchTexts(env: Env, js: seq<Json>, bs: seq<Schema>, default: Option<string>, printed: set<string>,
                        before: seq<Schema>)
    decreases env.Keys - printed, Weights(bs)
  {
    if bs == [] then js == []
    else
      && js != [] && MayJoin(before, bs[0]) && Text(env, js[0], bs[0], default, printed)
      && BranchTexts(env, js[1..], bs[1..], default, Print(env, bs[0], printed).1, before + [bs[0]])
  }

  predicate FieldTexts(env: Env, js: seq<Json>, fs: seq<FieldProps>, default: Option<string>, printed: set<string>,
                       before: seq<FieldProps>)
    decreases env.Keys - printed, FieldWeights(fs)
  {
    if fs == [] then js == []
    else
      && js != [] && FieldText(js[0], fs[0]) && !FieldNameTaken(before, fs[0].name)
      && Text(env, js[0].members["type"], fs[0].ftype, default, printed)
      && FieldTexts(env, js[1..], fs[1..], default, Print(env, fs[0].ftype, printed).1, before + [fs[0]])
  }

  /** The text is parsed to s, with definitions of env behind its names, exactly if it is a text of s. */
  ghost predicate TextMeaning(env: Env, j: Json, s: Schema, default: Option<string>, st: Names)
    requires st.defs.Keys <= st.taken
  {
    var r := ParseType(j, default, st);
    var ok := Text(env, j, s, default, st.taken);
    && (ok ==> r.Success? && r.value.0 == s && Complete(env, st, r.value.1, Print(env, s, st.taken).1))
    && (r.Success? && r.value.0 == s && OnlyFrom(env, st, r.value.1) ==> ok)
  }

  ghost predicate BranchTextsMeaning(env: Env, js: seq<Json>, bs: seq<Schema>, default: Option<string>, st: Names,
                                     before: seq<Schema>)
    requires st.defs.Keys <= st.taken
  {
    var r := ParseBranches(js, default, st, before);
    var ok := BranchTexts(env, js, bs, default, st.taken, before);
    && (ok ==>
          r.Success? && r.value.0 == before + bs && Complete(env, st, r.value.1, PrintBranches(env, bs, st.taken).1))
    && (r.Success? && r.value.0 == before + bs && OnlyFrom(env, st, r.value.1) ==> ok)
  }

  ghost predicate FieldTextsMeaning(env: Env, js: seq<Json>, fs: seq<FieldProps>, default: Option<string>, st: Names,
                                    before: seq<FieldProps>)
    requires st.defs.Keys <= st.taken
  {
    var r := ParseFields(js, default, st, before);
    var ok := FieldTexts(env, js, fs, default, st.taken, before);
    && (ok ==> r.Success? && r.value.0 == before + fs && Complete(env, st, r.value.1, PrintFields(env, fs, st.taken).1))
    && (r.Success? && r.value.0 == before + fs && OnlyFrom(env, st, r.value.1) ==> ok)
  }

  lemma PrimitiveByName(s: string, p: Primitive)
    ensures PrimitiveOf(s) == Some(p) <==> s == PrimitiveName(p)
    ensures PrimitiveName(p) != ""
  {
  }

  /** Only a string or an object that names a primitive is parsed to one, and it changes nothing. */
  lemma PrimitiveComesFrom(j: Json, p: Primitive, default: Option<string>, st: Names)
    requires st.defs.Keys <= st.taken
    ensures
      var r := ParseType(j, default, st);
      PrimitiveText(j, p, default, st.taken) <==> r.Success? && r.value.0 == Prim(p)
    ensures PrimitiveText(j, p, default, st.taken) ==> ParseType(j, default, st) == Success((Prim(p), st))
  {
    hide NewName, FullName, GetSpace, ParseFields, Define, FixedOf, EnumOf, Extends, PrimitiveOf, PrimitiveName,
        VALID_TYPES;
    if j.JStr? {
      PrimitiveByName(j.s, p);
    } else if j.JObj? && Member(j.members, "type").JStr? {
      PrimitiveByName(Member(j.members, "type").s, p);
    }
  }

  lemma PrimitiveTextMeaning(env: Env, j: Json, p: Primitive, default: Option<string>, st: Names)
    requires st.defs.Keys <= st.taken
    ensures TextMeaning(env, j, Prim(p), default, st)
  {
    PrimitiveComesFrom(j, p, default, st);
    hide ParseType, PrimitiveText;
  }

  /** A named type comes from a reference if its name was taken before, and otherwise from its definition. */
  lemma NamedComesFrom(j: Json, default: Option<string>, st: Names)
    requires st.defs.Keys <= st.taken
    ensures
      var r := ParseType(j, default, st);
      r.Success? && r.value.0.Named? ==>
        var n := r.value.0.fullname;
        if n in st.taken then ReferenceText(j, n, default) && r.value.1 == st
        else
          && j.JObj? && NewName(j.members, default, st) == Success(n) && n in r.value.1.defs
          && Member(j.members, "type").JStr?
          && Member(j.members, "type").s == TypeProp(r.value.1.defs[n])
          && r.value.1.defs[n] == Define(j.members, n, r.value.1.defs[n].body)
  {
    hide NewName, FullName, GetSpace, ParseFields;
  }

  lemma ReferenceTextMeaning(env: Env, j: Json, n: string, default: Option<string>, st: Names)
    requires st.defs.Keys <= st.taken && (n !in env || n in st.taken)
    ensures TextMeaning(env, j, Named(n), default, st)
  {
    NamedComesFrom(j, default, st);
    assert ReferenceText(j, n, default) && n in st.taken ==> ParseType(j, default, st) == Success((Named(n), st));
    hide ParseType, ReferenceText, NameText, Define, NewName;
  }

  // Definitions

  /** The name of a definition is accepted, and stored as env has it, exactly if it is a text of that name. */
  lemma NameTextMeaning(m: map<string, Json>, t: NamedType, n: string, default: Option<string>, st: Names)
    requires n !in st.taken
    ensures NameText(m, t, n, default) <==>
      && Member(m, "type") == JStr(TypeProp(t)) && NewName(m, default, st) == Success(n) && Define(m, n, t.body) == t
  {
    hide FullName, GetSpace, VALID_TYPES;
  }

  lemma LeafParts(env: Env, j: Json, n: string, default: Option<string>, st: Names)
    requires st.defs.Keys <= st.taken && n in env && n !in st.taken && !env[n].body.RecordBody?
    ensures Print(env, Named(n), st.taken).1 == st.taken + {n}
    ensures Text(env, j, Named(n), default, st.taken) <==>
      && j.JObj? && NameText(j.members, env[n], n, default)
      && (if env[n].body.FixedBody? then FixedOf(Member(j.members, "size")) else EnumOf(Member(j.members, "symbols")))
        == Success(env[n].body)
  {
    hide NameText, FixedOf, EnumOf, SymbolsText, NamedProps;
    if j.JObj? {
      if env[n].body.EnumBody? {
        SymbolsTextMeaning(Member(j.members, "symbols"), env[n].body.symbols);
      } else {
        SizeMeaning(Member(j.members, "size"), env[n].body.size);
      }
    }
  }

  lemma SizeMeaning(j: Json, size: int)
    ensures j == JInt(size) <==> FixedOf(j) == Success(FixedBody(size))
  {
  }

  lemma SymbolsTextMeaning(j: Json, symbols: seq<string>)
    ensures SymbolsText(j, symbols) <==> EnumOf(j) == Success(EnumBody(symbols))
  {
    hide Distinct;
    if j.JArr? && forall i :: 0 <= i < |j.items| ==> j.items[i].JStr? {
      var ss := seq(|j.items|, i requires 0 <= i < |j.items| => j.items[i].s);
      assert ss == symbols <==>
        |j.items| == |symbols| && forall i :: 0 <= i < |symbols| ==> j.items[i] == JStr(symbols[i]);
      assert EnumOf(j) == if Distinct(ss) then Success(EnumBody(ss)) else Failure(SchemaParse);
    }
  }

  /** A fixed or an enum. */
  lemma LeafTextMeaning(env: Env, j: Json, n: string, default: Option<string>, st: Names)
    requires st.defs.Keys <= st.taken && n in env && n !in st.taken && !env[n].body.RecordBody?
    ensures TextMeaning(env, j, Named(n), default, st)
  {
    hide Text, Print, ParseType, NameText, NewName, Define, FixedOf, EnumOf, Complete, VALID_TYPES;
    LeafParts(env, j, n, default, st);
    NamedComesFrom(j, default, st);
    if j.JObj? {
      var m := j.members;
      NameTextMeaning(m, env[n], n, default, st);
      if Member(m, "type") == JStr(TypeProp(env[n])) && NewName(m, default, st) == Success(n) {
        ParseOfLeaf(m, TypeProp(env[n]), default, st);
        var body := if env[n].body.FixedBody? then FixedOf(Member(m, "size")) else EnumOf(Member(m, "symbols"));
        if body.Success? {
          LeafAdds(env, n, st, Define(m, n, body.value));
          DefineBody(m, n, body.value);
        }
      }
    }
  }

  lemma RecordParts(env: Env, j: Json, n: string, default: Option<string>, printed: set<string>)
    requires n in env && n !in printed && env[n].body.RecordBody?
    ensures
      var (isError, fields) := (env[n].body.isError, env[n].body.fields);
      Print(env, Named(n), printed).1 == PrintFields(env, fields, printed + {n}).1
    ensures
      var (isError, fields) := (env[n].body.isError, env[n].body.fields);
      Text(env, j, Named(n), default, printed) <==>
        && j.JObj? && NameText(j.members, env[n], n, default) && Member(j.members, "fields").JArr?
        && FieldTexts(env, Member(j.members, "fields").items, fields, Inner(isError, n, default), printed + {n}, [])
  {
    hide NameText, PrintFields, NamedProps, FieldTexts;
  }

  lemma RecordTextMeaning(env: Env, j: Json, n: string, default: Option<string>, st: Names)
    requires st.defs.Keys <= st.taken && n in env && n !in st.taken && env[n].body.RecordBody?
    requires j.JObj? && Member(j.members, "fields").JArr? ==>
      FieldTextsMeaning(env, Member(j.members, "fields").items, env[n].body.fields,
        Inner(env[n].body.isError, n, default), Names(st.taken + {n}, st.defs), [])
    ensures TextMeaning(env, j, Named(n), default, st)
  {
    hide Text, FieldTexts, Print, PrintFields, ParseType, ParseFields, NameText, NewName, Define, Inner, Complete,
      Extends, VALID_TYPES;
    RecordParts(env, j, n, default, st.taken);
    NamedComesFrom(j, default, st);
    if j.JObj? {
      var m, t := j.members, env[n];
      NameTextMeaning(m, t, n, default, st);
      if Member(m, "type") == JStr(TypeProp(t)) && NewName(m, default, st) == Success(n) {
        RecordBodyMeaning(env, m, n, default, st);
      }
    }
  }

  lemma RecordBodyMeaning(env: Env, m: map<string, Json>, n: string, default: Option<string>, st: Names)
    requires st.defs.Keys <= st.taken && n in env && n !in st.taken && env[n].body.RecordBody?
    requires Member(m, "type") == JStr(TypeProp(env[n])) && NewName(m, default, st) == Success(n)
    requires Member(m, "fields").JArr? ==>
      FieldTextsMeaning(env, Member(m, "fields").items, env[n].body.fields,
        Inner(env[n].body.isError, n, default), Names(st.taken + {n}, st.defs), [])
    ensures
      var (t, inner) := (env[n], Inner(env[n].body.isError, n, default));
      var after := PrintFields(env, t.body.fields, st.taken + {n}).1;
      var r := ParseType(JObj(m), default, st);
      var ok :=
        && Define(m, n, t.body) == t && Member(m, "fields").JArr?
        && FieldTexts(env, Member(m, "fields").items, t.body.fields, inner, st.taken + {n}, []);
      && (ok ==> r.Success? && r.value.0 == Named(n) && Complete(env, st, r.value.1, after))
      && (r.Success? && OnlyFrom(env, st, r.value.1) ==> ok)
  {
    var t := env[n];
    var isError, fields := t.body.isError, t.body.fields;
    hide FieldTexts, PrintFields, ParseType, ParseFields, NewName, Define, Inner, Complete, OnlyFrom, Extends;
    if !Member(m, "fields").JArr? {
      FieldsAreNeeded(m, default, st);
      return;
    }
    ParseOfRecord(m, isError, default, st);
    var none: seq<FieldProps> := [];
    assert none + fields == fields;
    var r := ParseFields(m["fields"].items, Inner(isError, n, default), Names(st.taken + {n}, st.defs), []);
    if r.Success? {
      var d := Define(m, n, RecordBody(isError, r.value.0));
      DefineBody(m, n, RecordBody(isError, r.value.0));
      RecordAdds(env, n, st, r.value.1, d, PrintFields(env, fields, st.taken + {n}).1);
    }
  }

  lemma FieldsAreNeeded(m: map<string, Json>, default: Option<string>, st: Names)
    requires st.defs.Keys <= st.taken && !Member(m, "fields").JArr?
    requires Member(m, "type") == JStr("record") || Member(m, "type") == JStr("error")
    ensures ParseType(JObj(m), default, st).Failure?
  {
  }

  // Arrays, maps and unions

  lemma CollectionTextMeaning(env: Env, j: Json, s: Schema, default: Option<string>, st: Names)
    requires st.defs.Keys <= st.taken && (s.Array? || s.Map?)
    requires s.Array? && j.JObj? && "items" in j.members ==>
      TextMeaning(env, j.members["items"], s.items, default, st)
    requires s.Map? && j.JObj? && "values" in j.members ==>
      TextMeaning(env, j.members["values"], s.values, default, st)
    ensures TextMeaning(env, j, s, default, st)
  {
    var key, item := if s.Array? then "items" else "values", if s.Array? then s.items else s.values;
    CollectionParts(env, j, s, default, st);
    CollectionComesFrom(j, default, st);
    hide Text, Print, ParseType, Complete, OnlyFrom;
    if j.JObj? && Member(j.members, "type") == JStr(if s.Array? then "array" else "map") && key in j.members {
      if s.Array? {
        ParseOfArray(j.members, default, st);
      } else {
        ParseOfMap(j.members, default, st);
      }
    }
  }

  lemma CollectionParts(env: Env, j: Json, s: Schema, default: Option<string>, st: Names)
    requires s.Array? || s.Map?
    ensures
      var (name, key, item) := if s.Array? then ("array", "items", s.items) else ("map", "values", s.values);
      && Print(env, s, st.taken).1 == Print(env, item, st.taken).1
      && (Text(env, j, s, default, st.taken) <==>
            && j.JObj? && Member(j.members, "type") == JStr(name) && key in j.members
            && Text(env, j.members[key], item, default, st.taken))
  {
  }

  /** Only an object of that type is parsed to an array or map, only a list to a union. */
  lemma CollectionComesFrom(j: Json, default: Option<string>, st: Names)
    requires st.defs.Keys <= st.taken
    ensures
      var r := ParseType(j, default, st);
      r.Success? ==>
        && (r.value.0.Array? ==> j.JObj? && Member(j.members, "type") == JStr("array") && "items" in j.members)
        && (r.value.0.Map? ==> j.JObj? && Member(j.members, "type") == JStr("map") && "values" in j.members)
        && (r.value.0.Union? ==> j.JArr?)
  {
    hide NewName, FullName, GetSpace, ParseFields, Define;
  }

  lemma UnionTextMeaning(env: Env, j: Json, bs: seq<Schema>, default: Option<string>, st: Names)
    requires st.defs.Keys <= st.taken && (j.JArr? ==> BranchTextsMeaning(env, j.items, bs, default, st, []))
    ensures TextMeaning(env, j, Union(bs), default, st)
  {
    var none: seq<Schema> := [];
    assert none + bs == bs;
    assert Print(env, Union(bs), st.taken).1 == PrintBranches(env, bs, st.taken).1;
    CollectionComesFrom(j, default, st);
    hide Print, PrintBranches, ParseType, ParseBranches, BranchTexts, Complete, OnlyFrom;
    if j.JArr? {
      ParseOfUnion(j.items, default, st);
    }
  }

  /** make_avsc_object accepts exactly the texts of a schema, and understands each as that schema. */
  lemma {:induction false} Understood(env: Env, j: Json, s: Schema, default: Option<string>, st: Names)
    requires st.defs.Keys <= st.taken
    ensures TextMeaning(env, j, s, default, st)
    decreases env.Keys - st.taken, Weight(s)
  {
    hide TextMeaning, BranchTextsMeaning, FieldTextsMeaning;
    match s
    case Prim(p) => PrimitiveTextMeaning(env, j, p, default, st);
    case Array(items) =>
      if j.JObj? && "items" in j.members {
        Understood(env, j.members["items"], items, default, st);
      }
      CollectionTextMeaning(env, j, s, default, st);
    case Map(values) =>
      if j.JObj? && "values" in j.members {
        Understood(env, j.members["values"], values, default, st);
      }
      CollectionTextMeaning(env, j, s, default, st);
    case Union(bs) =>
      if j.JArr? {
        BranchesUnderstood(env, j.items, bs, default, st, []);
      }
      UnionTextMeaning(env, j, bs, default, st);
    case Named(n) =>
      if n !in env || n in st.taken {
        ReferenceTextMeaning(env, j, n, default, st);
      } else if !env[n].body.RecordBody? {
        LeafTextMeaning(env, j, n, default, st);
      } else {
        if j.JObj? && Member(j.members, "fields").JArr? {
          FieldsUnderstood(env, Member(j.members, "fields").items, env[n].body.fields,
            Inner(env[n].body.isError, n, default), Names(st.taken + {n}, st.defs), []);
        }
        RecordTextMeaning(env, j, n, default, st);
      }
  }

  lemma {:induction false} BranchesUnderstood(env: Env, js: seq<Json>, bs: seq<Schema>, default: Option<string>,
                                              st: Names, before: seq<Schema>)
    requires st.defs.Keys <= st.taken
    ensures BranchTextsMeaning(env, js, bs, default, st, before)
    decreases env.Keys - st.taken, Weights(bs)
  {
    if bs == [] || js == [] {
      NoBranches(env, js, bs, default, st, before);
    } else {
      hide TextMeaning, BranchTextsMeaning;
      Understood(env, js[0], bs[0], default, st);
      var r := ParseType(js[0], default, st);
      if r.Success? && r.value.0 == bs[0] && Text(env, js[0], bs[0], default, st.taken) {
        hide Text, ParseType, OnlyFrom, Extends;
        BranchesUnderstood(env, js[1..], bs[1..], default, r.value.1, before + [bs[0]]);
      }
      BranchTextStep(env, js, bs, default, st, before);
    }
  }

  lemma NoBranches(env: Env, js: seq<Json>, bs: seq<Schema>, default: Option<string>, st: Names, before: seq<Schema>)
    requires st.defs.Keys <= st.taken && (bs == [] || js == [])
    ensures BranchTextsMeaning(env, js, bs, default, st, before)
  {
    assert |before + bs| == |before| + |bs|;
    assert before + [] == before;
    hide ParseType, Text;
  }

  lemma BranchTextStep(env: Env, js: seq<Json>, bs: seq<Schema>, default: Option<string>, st: Names,
                       before: seq<Schema>)
    requires st.defs.Keys <= st.taken && bs != [] && js != [] && TextMeaning(env, js[0], bs[0], default, st)
    requires
      var r := ParseType(js[0], default, st);
      r.Success? && r.value.0 == bs[0] && Text(env, js[0], bs[0], default, st.taken) ==>
        BranchTextsMeaning(env, js[1..], bs[1..], default, r.value.1, before + [bs[0]])
    ensures BranchTextsMeaning(env, js, bs, default, st, before)
  {
    var between, after := Print(env, bs[0], st.taken).1, PrintBranches(env, bs, st.taken).1;
    var r := ParseType(js[0], default, st);
    var all := ParseBranches(js, default, st, before);
    assert after == PrintBranches(env, bs[1..], between).1;
    assert before + [bs[0]] + bs[1..] == before + bs;
    hide Print, PrintBranches, ParseType, MayJoin, Text, OnlyFrom, Extends, Complete;
    if BranchTexts(env, js, bs, default, st.taken, before) {
      assert r.Success? && r.value.0 == bs[0] && r.value.1.taken == between by { CompleteTakes(env, st, r, between); }
      CompleteParts(env, st, r.value.1, all.value.1, between, after);
    }
    if all.Success? && all.value.0 == before + bs && OnlyFrom(env, st, all.value.1) {
      assert before + [r.value.0] <= all.value.0;
      assert (before + bs)[|before|] == bs[0] && (before + [r.value.0])[|before|] == r.value.0;
      OnlyFromParts(env, st, r.value.1, all.value.1);
      CompleteTakes(env, st, r, between);
    }
  }

  lemma {:induction false} FieldsUnderstood(env: Env, js: seq<Json>, fs: seq<FieldProps>, default: Option<string>,
                                            st: Names, before: seq<FieldProps>)
    requires st.defs.Keys <= st.taken
    ensures FieldTextsMeaning(env, js, fs, default, st, before)
    decreases env.Keys - st.taken, FieldWeights(fs)
  {
    if fs == [] || js == [] || !js[0].JObj? || "type" !in js[0].members {
      NoFields(env, js, fs, default, st, before);
    } else {
      hide TextMeaning, FieldTextsMeaning;
      var j := js[0].members["type"];
      Understood(env, j, fs[0].ftype, default, st);
      var r := ParseType(j, default, st);
      if r.Success? && r.value.0 == fs[0].ftype && Text(env, j, fs[0].ftype, default, st.taken) {
        hide Text, ParseType, OnlyFrom, Extends;
        FieldsUnderstood(env, js[1..], fs[1..], default, r.value.1, before + [fs[0]]);
      }
      FieldTextStep(env, js, fs, default, st, before);
    }
  }

  lemma NoFields(env: Env, js: seq<Json>, fs: seq<FieldProps>, default: Option<string>, st: Names,
                 before: seq<FieldProps>)
    requires st.defs.Keys <= st.taken && (fs == [] || js == [] || !js[0].JObj? || "type" !in js[0].members)
    ensures FieldTextsMeaning(env, js, fs, default, st, before)
  {
    assert |before + fs| == |before| + |fs|;
    assert before + [] == before;
    hide ParseType, Text, FieldOf;
  }

  lemma FieldTextMeaning(j: Json, f: FieldProps, ftype: Schema)
    requires j.JObj? && "type" in j.members
    ensures FieldText(j, f) <==> FieldOf(j.members, ftype) == Success(f.(ftype := ftype))
  {
  }

  lemma FieldTextStep(env: Env, js: seq<Json>, fs: seq<FieldProps>, default: Option<string>, st: Names,
                      before: seq<FieldProps>)
    requires st.defs.Keys <= st.taken && fs != [] && js != [] && js[0].JObj? && "type" in js[0].members
    requires TextMeaning(env, js[0].members["type"], fs[0].ftype, default, st)
    requires
      var j := js[0].members["type"];
      var r := ParseType(j, default, st);
      r.Success? && r.value.0 == fs[0].ftype && Text(env, j, fs[0].ftype, default, st.taken) ==>
        FieldTextsMeaning(env, js[1..], fs[1..], default, r.value.1, before + [fs[0]])
    ensures FieldTextsMeaning(env, js, fs, default, st, before)
  {
    var j := js[0].members["type"];
    var between, after := Print(env, fs[0].ftype, st.taken).1, PrintFields(env, fs, st.taken).1;
    var r := ParseType(j, default, st);
    var all := ParseFields(js, default, st, before);
    assert after == PrintFields(env, fs[1..], between).1;
    assert before + [fs[0]] + fs[1..] == before + fs;
    if r.Success? {
      FieldTextMeaning(js[0], fs[0], r.value.0);
    }
    hide Print, PrintFields, ParseType, Text, OnlyFrom, Extends, Complete, FieldText, FieldNameTaken;
    if FieldTexts(env, js, fs, default, st.taken, before) {
      assert r.Success? && r.value.0 == fs[0].ftype && r.value.1.taken == between by {
        CompleteTakes(env, st, r, between);
      }
      hide FieldOf;
      CompleteParts(env, st, r.value.1, all.value.1, between, after);
    }
    if all.Success? && all.value.0 == before + fs && OnlyFrom(env, st, all.value.1) {
      var f := FieldOf(js[0].members, r.value.0).value;
      assert f.ftype == r.value.0;
      hide FieldOf;
      assert before + [f] <= all.value.0;
      assert (before + fs)[|before|] == fs[0] && (before + [f])[|before|] == f;
      OnlyFromParts(env, st, r.value.1, all.value.1);
      CompleteTakes(env, st, r, between);
    }
  }

  // Whole schemas

  /** `parse` gives s, with the full names and the definitions that env has for s. */
  ghost predicate IsParsedTo(env: Env, j: Json, s: Schema) {
    var r := Parse(j, None, NO_NAMES);
    && r.Success? && r.value.0 == s && r.value.1.defs.Keys == Print(env, s, {}).1
    && forall n :: n in r.value.1.defs ==> n in env && r.value.1.defs[n] == env[n]
  }

  lemma ParsedAtTop(j: Json)
    ensures ParseType(j, None, NO_NAMES) == Parse(j, None, NO_NAMES)
  {
  }

  /** A JSON value is parsed to a schema exactly if it is one of its texts. */
  lemma ParsedExactlyIfText(env: Env, j: Json, s: Schema)
    ensures IsParsedTo(env, j, s) <==> Text(env, j, s, None, {})
  {
    hide Text, Print, Parse, ParseType;
    Understood(env, j, s, None, NO_NAMES);
    ParsedAtTop(j);
  }

  /** So whatever is accepted is a text of the schema it is taken for. */
  lemma AcceptedIsText(j: Json)
    ensures
      var r := Parse(j, None, NO_NAMES);
      r.Success? ==> Text(r.value.1.defs, j, r.value.0, None, {})
  {
    hide Text, Print, Parse, ParseType;
    ParsedAtTop(j);
    var r := Parse(j, None, NO_NAMES);
    if r.Success? {
      Understood(r.value.1.defs, j, r.value.0, None, NO_NAMES);
    }
  }

  /** What to_json prints is a text of the schema exactly if the names in it mean what they stand for. */
  lemma PrintedIsText(env: Env, s: Schema)
    ensures Text(env, Print(env, s, {}).0, s, None, {}) <==> Faithful(env, s, None, {})
  {
    hide Text, Print, Parse, ParseType, Faithful;
    PrintParse(env, s, None, NO_NAMES);
    Understood(env, Print(env, s, {}).0, s, None, NO_NAMES);
  }

  /** All texts of a schema are understood alike, and so as the printed one where that is a text too. */
  lemma TextsAreUnderstoodAlike(env: Env, i: Json, j: Json, s: Schema)
    requires Text(env, i, s, None, {}) && Text(env, j, s, None, {})
    ensures Parse(i, None, NO_NAMES).Success? && Parse(i, None, NO_NAMES) == Parse(j, None, NO_NAMES)
  {
    hide Text, Print, Parse, ParseType;
    Understood(env, i, s, None, NO_NAMES);
    Understood(env, j, s, None, NO_NAMES);
    ParsedAtTop(i);
    ParsedAtTop(j);
    var a, b := Parse(i, None, NO_NAMES).value.1, Parse(j, None, NO_NAMES).value.1;
    assert a.taken == b.taken && a.defs == b.defs;
  }

  // What a text may do that to_json does not

  /**
   * An object whose type is the name of a primitive is that primitive, whatever else it holds and
   * wherever it stands.
   */
  lemma PrimitiveObjects(p: Primitive, m: map<string, Json>, default: Option<string>, st: Names)
    requires st.defs.Keys <= st.taken && Member(m, "type") == JStr(PrimitiveName(p))
    ensures Parse(JObj(m), default, st) == ParseType(JObj(m), default, st) == Success((Prim(p), st))
    ensures Parse(JObj(m), default, st) == Parse(JStr(PrimitiveName(p)), default, st)
  {
    PrimitiveByName(PrimitiveName(p), p);
    hide PrimitiveName, PrimitiveOf;
  }

  const KNOWN_MEMBERS := ["type", "name", "namespace", "size", "symbols", "fields", "items", "values"]

  /** Members nothing asks for are ignored. */
  lemma UnknownMembersAreIgnored(env: Env, m: map<string, Json>, key: string, v: Json, s: Schema,
                                 default: Option<string>, printed: set<string>)
    requires key !in KNOWN_MEMBERS
    ensures Text(env, JObj(m[key := v]), s, default, printed) <==> Text(env, JObj(m), s, default, printed)
  {
    OtherMembers(m, key, v);
    hide Member, KNOWN_MEMBERS, BranchTexts, FieldTexts, ReferenceText, SymbolsText, VALID_TYPES, Print;
  }

  lemma OtherMembers(m: map<string, Json>, key: string, v: Json)
    requires key !in KNOWN_MEMBERS
    ensures
      var m' := m[key := v];
      && Member(m', "type") == Member(m, "type") && Member(m', "name") == Member(m, "name")
      && Member(m', "namespace") == Member(m, "namespace") && Member(m', "size") == Member(m, "size")
      && Member(m', "symbols") == Member(m, "symbols") && Member(m', "fields") == Member(m, "fields")
      && (if "items" in m then "items" in m' && m'["items"] == m["items"] else "items" !in m')
      && (if "values" in m then "values" in m' && m'["values"] == m["values"] else "values" !in m')
  {
    assert KNOWN_MEMBERS[0] == "type" && KNOWN_MEMBERS[1] == "name" && KNOWN_MEMBERS[2] == "namespace";
    assert KNOWN_MEMBERS[3] == "size" && KNOWN_MEMBERS[4] == "symbols" && KNOWN_MEMBERS[5] == "fields";
    assert KNOWN_MEMBERS[6] == "items" && KNOWN_MEMBERS[7] == "values";
  }
}
