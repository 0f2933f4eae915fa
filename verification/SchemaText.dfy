/**
 * Schemas as JSON: make_avsc_object and to_json (avro/devices/avro/schema.py), with the
 * names seen so far and the default namespace threaded through.
 */
module SchemaText {
  import opened Basics
  import opened Schemas

  /** A field with all the properties that are printed. */
  datatype FieldProps = FieldProps(name: string, ftype: Schema, default: Option<Json>, order: Option<string>)

  datatype Body =
    | FixedBody(size: int)
    | EnumBody(symbols: seq<string>)
    | RecordBody(isError: bool, fields: seq<FieldProps>)

  /** The properties of a named schema: name and namespace as they are stored, which is how they are printed. */
  datatype NamedType = NamedType(name: string, namespace: Option<string>, body: Body)

  /** Named schemas by full name. */
  type Env = map<string, NamedType>

  const PRIMITIVE_TYPES := ["null", "boolean", "string", "bytes", "int", "long", "float", "double"]
  const VALID_TYPES :=
    PRIMITIVE_TYPES + ["fixed", "enum", "record", "error", "array", "map", "union", "request", "error_union"]
  const SORT_ORDERS := ["ascending", "descending", "ignore"]

  function PrimitiveName(p: Primitive): string {
    match p
    case PNull => "null"
    case PBoolean => "boolean"
    case PString => "string"
    case PBytes => "bytes"
    case PInt => "int"
    case PLong => "long"
    case PFloat => "float"
    case PDouble => "double"
  }

  function PrimitiveOf(s: string): Option<Primitive> {
    if s == "null" then Some(PNull)
    else if s == "boolean" then Some(PBoolean)
    else if s == "string" then Some(PString)
    else if s == "bytes" then Some(PBytes)
    else if s == "int" then Some(PInt)
    else if s == "long" then Some(PLong)
    else if s == "float" then Some(PFloat)
    else if s == "double" then Some(PDouble)
    else None
  }

  // Names

  predicate NonEmpty(space: Option<string>) {
    space.Some? && space.value != ""
  }

  /** `Name(name, space, default).fullname` for a non-empty name. */
  function FullName(name: string, space: Option<string>, default: Option<string>): string {
    if '.' in name then name
    else if NonEmpty(space) then space.value + "." + name
    else if NonEmpty(default) then default.value + "." + name
    else name
  }

  /** `full.rsplit(".", 1)[0]` */
  function BeforeLastDot(full: string): string
    requires '.' in full
  {
    if full[|full| - 1] == '.' then full[..|full| - 1] else BeforeLastDot(full[..|full| - 1])
  }

  /** `get_space`, which finds no namespace in a name that starts with a dot. */
  function GetSpace(full: string): string {
    if '.' in full && full[0] != '.' then BeforeLastDot(full) else ""
  }

  /** `name_ref`: the printer's default namespace is always None. */
  function NameRef(t: NamedType, fullname: string): string {
    if t.namespace.None? then t.name else fullname
  }

  // Printing

  function Weight(s: Schema): nat {
    match s
    case Prim(_) => 1
    case Array(items) => Weight(items) + 1
    case Map(values) => Weight(values) + 1
    case Union(bs) => Weights(bs) + 1
    case Named(_) => 1
  }

  function Weights(bs: seq<Schema>): nat {
    if bs == [] then 0 else Weight(bs[0]) + 1 + Weights(bs[1..])
  }

  function FieldWeights(fs: seq<FieldProps>): nat {
    if fs == [] then 0 else Weight(fs[0].ftype) + 1 + FieldWeights(fs[1..])
  }

  function TypeProp(t: NamedType): string {
    match t.body
    case FixedBody(_) => "fixed"
    case EnumBody(_) => "enum"
    case RecordBody(isError, _) => if isError then "error" else "record"
  }

  /** The properties all named types have. */
  function NamedProps(t: NamedType): map<string, Json> {
    var m := map["type" := JStr(TypeProp(t)), "name" := JStr(t.name)];
    if t.namespace.Some? then m["namespace" := JStr(t.namespace.value)] else m
  }

  function FieldMembers(f: FieldProps, ftype: Json): map<string, Json> {
    var m := map["type" := ftype, "name" := JStr(f.name)];
    var m' := if f.default.Some? then m["default" := f.default.value] else m;
    if f.order.Some? then m'["order" := JStr(f.order.value)] else m'
  }

  /** `to_json`, with the set of names printed before and after. Every name must have a definition. */
  function Print(env: Env, s: Schema, printed: set<string>): (r: (Json, set<string>))
    ensures printed <= r.1 <= printed + env.Keys
    decreases env.Keys - printed, Weight(s)
  {
    match s
    case Prim(p) => (JStr(PrimitiveName(p)), printed)
    case Array(items) =>
      var (j, after) := Print(env, items, printed);
      (JObj(map["type" := JStr("array"), "items" := j]), after)
    case Map(values) =>
      var (j, after) := Print(env, values, printed);
      (JObj(map["type" := JStr("map"), "values" := j]), after)
    case Union(bs) =>
      var (js, after) := PrintBranches(env, bs, printed);
      (JArr(js), after)
    case Named(n) =>
      if n !in env then (JNull, printed)
      else if n in printed then (JStr(NameRef(env[n], n)), printed)
      else
        var props := NamedProps(env[n]);
        match env[n].body
        case FixedBody(size) => (JObj(props["size" := JInt(size)]), printed + {n})
        case EnumBody(symbols) => (JObj(props["symbols" := JArr(Strings(symbols))]), printed + {n})
        case RecordBody(_, fields) =>
          var (js, after) := PrintFields(env, fields, printed + {n});
          (JObj(props["fields" := JArr(js)]), after)
  }

  function Strings(ss: seq<string>): (js: seq<Json>)
    ensures |js| == |ss| && forall i :: 0 <= i < |ss| ==> js[i] == JStr(ss[i])
  {
    seq(|ss|, i requires 0 <= i < |ss| => JStr(ss[i]))
  }

  function PrintBranches(env: Env, bs: seq<Schema>, printed: set<string>): (r: (seq<Json>, set<string>))
    ensures printed <= r.1 <= printed + env.Keys && |r.0| == |bs|
    decreases env.Keys - printed, Weights(bs)
  {
    if bs == [] then ([], printed)
    else
      var (j, after) := Print(env, bs[0], printed);
      var (js, after') := PrintBranches(env, bs[1..], after);
      ([j] + js, after')
  }

  function PrintFields(env: Env, fs: seq<FieldProps>, printed: set<string>): (r: (seq<Json>, set<string>))
    ensures printed <= r.1 <= printed + env.Keys && |r.0| == |fs|
    decreases env.Keys - printed, FieldWeights(fs)
  {
    if fs == [] then ([], printed)
    else
      var (j, after) := Print(env, fs[0].ftype, printed);
      var (js, after') := PrintFields(env, fs[1..], after);
      ([JObj(FieldMembers(fs[0], j))] + js, after')
  }

  // Parsing

  /** A Names object: the names taken, and the definitions that are complete. */
  datatype Names = Names(taken: set<string>, defs: Env)

  ghost predicate Extends(st: Names, st': Names) {
    && st.taken <= st'.taken && st'.defs.Keys <= st'.taken
    && forall k :: k in st.taken ==> (k in st'.defs <==> k in st.defs) && (k in st.defs ==> st'.defs[k] == st.defs[k])
  }

  /** `json_data.get(key)` */
  function Member(m: map<string, Json>, key: string): Json {
    if key in m then m[key] else JNull
  }

  function StringOf(j: Json): Option<string> {
    if j.JStr? then Some(j.s) else None
  }

  /** The checks of NamedSchema and add_name; what comes back is the full name. */
  function NewName(m: map<string, Json>, default: Option<string>, st: Names): (r: Result<string>)
    ensures r.Success? ==> Member(m, "name").JStr? && r.value !in st.taken
  {
    var name, space := Member(m, "name"), Member(m, "namespace");
    if !name.JStr? || name.s == "" || !(space.JStr? || space.JNull?) then Failure(SchemaParse)
    else
      var full := FullName(name.s, StringOf(space), default);
      if full in VALID_TYPES || full in st.taken then Failure(SchemaParse) else Success(full)
  }

  function Define(m: map<string, Json>, full: string, body: Body): NamedType
    requires Member(m, "name").JStr?
  {
    NamedType(Member(m, "name").s, if Member(m, "namespace").JStr? then Some(GetSpace(full)) else None, body)
  }

  /** `make_avsc_object` */
  function Parse(j: Json, default: Option<string>, st: Names): (r: Result<(Schema, Names)>)
    requires st.defs.Keys <= st.taken
    ensures r.Success? ==> Extends(st, r.value.1)
    decreases j, 0
  {
    match j
    case JObj(m) =>
      var t := Member(m, "type");
      if !t.JStr? then Failure(SchemaParse)
      else if PrimitiveOf(t.s).Some? then Success((Prim(PrimitiveOf(t.s).value), st))
      else if t.s == "fixed" || t.s == "enum" then ParseLeaf(m, t.s, default, st)
      else if t.s == "record" || t.s == "error" then
        var fields := Member(m, "fields");
        if !fields.JArr? then Failure(SchemaParse)
        else
          var full :- NewName(m, default, st);
          var inner := if t.s == "record" then Some(GetSpace(full)) else default;
          var (fs, st') :- ParseFields(fields.items, inner, Names(st.taken + {full}, st.defs), []);
          Success((Named(full), st'.(defs := st'.defs[full := Define(m, full, RecordBody(t.s == "error", fs))])))
      else if t.s == "array" then
        if "items" !in m then Failure(SchemaParse)
        else
          var (items, st') :- ParseType(m["items"], default, st);
          Success((Array(items), st'))
      else if t.s == "map" then
        if "values" !in m then Failure(SchemaParse)
        else
          var (values, st') :- ParseType(m["values"], default, st);
          Success((Map(values), st'))
      else Failure(SchemaParse)
    case JArr(items) =>
      var (bs, st') :- ParseBranches(items, default, st, []);
      Success((Union(bs), st'))
    case JStr(s) => if PrimitiveOf(s).Some? then Success((Prim(PrimitiveOf(s).value), st)) else Failure(SchemaParse)
    case _ => Failure(SchemaParse)
  }

  function ParseLeaf(m: map<string, Json>, t: string, default: Option<string>, st: Names): (r: Result<(Schema, Names)>)
    requires st.defs.Keys <= st.taken
    ensures r.Success? ==> Extends(st, r.value.1)
  {
    var body :- if t == "fixed" then FixedOf(Member(m, "size")) else EnumOf(Member(m, "symbols"));
    var full :- NewName(m, default, st);
    Success((Named(full), Names(st.taken + {full}, st.defs[full := Define(m, full, body)])))
  }

  function FixedOf(size: Json): Result<Body> {
    if size.JInt? then Success(FixedBody(size.n)) else Failure(SchemaParse)
  }

  function EnumOf(symbols: Json): Result<Body> {
    if !symbols.JArr? || exists i :: 0 <= i < |symbols.items| && !symbols.items[i].JStr? then Failure(SchemaParse)
    else
      var ss := seq(|symbols.items|, i requires 0 <= i < |symbols.items| => symbols.items[i].s);
      if Distinct(ss) then Success(EnumBody(ss)) else Failure(SchemaParse)
  }

  /** A string is looked up among the names before it is taken for a primitive. */
  function ParseType(j: Json, default: Option<string>, st: Names): (r: Result<(Schema, Names)>)
    requires st.defs.Keys <= st.taken
    ensures r.Success? ==> Extends(st, r.value.1)
    decreases j, 1
  {
    if !j.JStr? then Parse(j, default, st)
    else if j.s == "" then Failure(SchemaParse)
    else if FullName(j.s, None, default) in st.taken then Success((Named(FullName(j.s, None, default)), st))
    else Parse(j, default, st)
  }

  predicate SameUnnamedType(a: Schema, b: Schema) {
    match a
    case Prim(p) => b == Prim(p)
    case Array(_) => b.Array?
    case Map(_) => b.Map?
    case Union(_) => b.Union?
    case Named(_) => false
  }

  /** UnionSchema's rules for the next branch. */
  predicate MayJoin(bs: seq<Schema>, b: Schema) {
    !b.Union? && forall i :: 0 <= i < |bs| ==> !SameUnnamedType(bs[i], b)
  }

  function ParseBranches(items: seq<Json>, default: Option<string>, st: Names, bs: seq<Schema>)
      : (r: Result<(seq<Schema>, Names)>)
    requires st.defs.Keys <= st.taken
    ensures r.Success? ==> Extends(st, r.value.1) && bs <= r.value.0 && |r.value.0| == |bs| + |items|
    decreases items
  {
    if items == [] then Success((bs, st))
    else
      var (b, st') :- ParseType(items[0], default, st);
      if !MayJoin(bs, b) then Failure(SchemaParse) else ParseBranches(items[1..], default, st', bs + [b])
  }

  predicate FieldNameTaken(fs: seq<FieldProps>, name: string) {
    exists i :: 0 <= i < |fs| && fs[i].name == name
  }

  /** The Field constructor, once its type has been parsed. */
  function FieldOf(m: map<string, Json>, ftype: Schema): Result<FieldProps> {
    var name, order := Member(m, "name"), Member(m, "order");
    if !name.JStr? || name.s == "" || !(order.JNull? || (order.JStr?
        && order.s in SORT_ORDERS)) then Failure(SchemaParse)
    else Success(FieldProps(name.s, ftype, if "default" in m then Some(m["default"]) else None, StringOf(order)))
  }

  /** `make_field_objects` */
  function ParseFields(items: seq<Json>, default: Option<string>, st: Names, fs: seq<FieldProps>)
      : (r: Result<(seq<FieldProps>, Names)>)
    requires st.defs.Keys <= st.taken
    ensures r.Success? ==> Extends(st, r.value.1) && fs <= r.value.0 && |r.value.0| == |fs| + |items|
    decreases items
  {
    if items == [] then Success((fs, st))
    else if !items[0].JObj? || "type" !in items[0].members then Failure(SchemaParse)
    else
      var (ftype, st') :- ParseType(items[0].members["type"], default, st);
      var f :- FieldOf(items[0].members, ftype);
      if FieldNameTaken(fs, f.name) then Failure(SchemaParse) else ParseFields(items[1..], default, st', fs + [f])
  }
}
