/** Schema objects and Python data, as avro/devices/avro/schema.py and io.py use them. */
module Schemas {
  import opened Basics

  datatype Primitive = PNull | PBoolean | PString | PBytes | PInt | PLong | PFloat | PDouble

  /** JSON as json.loads returns it; a dict has no order. */
  datatype Json =
    | JNull
    | JBool(b: bool)
    | JInt(n: int)
    | JFloat(bits: int)
    | JStr(s: string)
    | JArr(items: seq<Json>)
    | JObj(members: map<string, Json>)

  /**
   * A schema object. Named types may be recursive, so an occurrence of one holds only its
   * full name, which leads to one of the definitions of the schema it belongs to.
   */
  datatype Schema =
    | Prim(prim: Primitive)
    | Array(items: Schema)
    | Map(values: Schema)
    | Union(branches: seq<Schema>)
    | Named(fullname: string)

  datatype Field = Field(name: string, ftype: Schema, default: Option<Json>)

  datatype RecordKind = KRecord | KError | KRequest

  datatype Definition =
    | Fixed(size: nat)
    | Enum(symbols: seq<string>)
    | Record(kind: RecordKind, fields: seq<Field>)

  type Defs = map<string, Definition>

  /** The `type` property, which check_props and match_schemas compare. */
  datatype TypeName =
    | TPrim(prim: Primitive) | TArray | TMap | TUnion | TFixed | TEnum | TRecord(kind: RecordKind) | TUnknown

  function TypeOf(defs: Defs, s: Schema): TypeName {
    match s
    case Prim(p) => TPrim(p)
    case Array(_) => TArray
    case Map(_) => TMap
    case Union(_) => TUnion
    case Named(n) =>
      if n !in defs then TUnknown
      else match defs[n]
        case Fixed(_) => TFixed
        case Enum(_) => TEnum
        case Record(kind, _) => TRecord(kind)
  }

  /** Python data. A float is its IEEE 754 double bit pattern; records and maps are both dicts. */
  datatype Datum =
    | Null
    | Bool(b: bool)
    | Int(n: int)
    | Float(bits: int)
    | Text(s: string)
    | Bytes(data: seq<byte>)
    | List(items: seq<Datum>)
    | Dict(entries: map<string, Datum>)

  /** `dict.get(key)` */
  function Get(m: map<string, Datum>, key: string): Datum {
    if key in m then m[key] else Null
  }

  /** `fields_dict.get(name)`: in a dict built field by field the last of several wins. */
  function FindField(fields: seq<Field>, name: string): (r: Option<Field>)
    ensures r.Some? ==> r.value in fields && r.value.name == name
    ensures r.None? <==> forall i :: 0 <= i < |fields| ==> fields[i].name != name
  {
    if fields == [] then None
    else
      var last := fields[|fields| - 1];
      if last.name == name then Some(last) else FindField(fields[..|fields| - 1], name)
  }

  function FieldNames(fields: seq<Field>): set<string> {
    set f | f in fields :: f.name
  }

  predicate DistinctFields(fields: seq<Field>) {
    forall i, j :: 0 <= i < j < |fields| ==> fields[i].name != fields[j].name
  }

  lemma {:induction false} FindDistinct(fields: seq<Field>, i: nat)
    requires DistinctFields(fields) && i < |fields|
    ensures FindField(fields, fields[i].name) == Some(fields[i])
  {
    if i < |fields| - 1 {
      FindDistinct(fields[..|fields| - 1], i);
    }
  }

  /** The rules every schema built by the parser meets (UnionSchema and make_field_objects). */
  ghost predicate WellFormedSchema(defs: Defs, s: Schema) {
    match s
    case Prim(_) => true
    case Array(items) => WellFormedSchema(defs, items)
    case Map(values) => WellFormedSchema(defs, values)
    case Named(n) => n in defs
    case Union(bs) =>
      && (forall i :: 0 <= i < |bs| ==>
            WellFormedSchema(defs, bs[i]) && !bs[i].Union? && TypeOf(defs, bs[i]) != TRecord(KRequest))
      && (forall i, j :: 0 <= i < j < |bs| && !bs[i].Named? ==> TypeOf(defs, bs[i]) != TypeOf(defs, bs[j]))
  }

  ghost predicate WellFormed(defs: Defs) {
    forall n :: n in defs && defs[n].Record? ==>
      && DistinctFields(defs[n].fields)
      && forall i :: 0 <= i < |defs[n].fields| ==> WellFormedSchema(defs, defs[n].fields[i].ftype)
  }

  /**
   * Every cycle of record fields passes through a union, array or map: named types can be ranked
   * so that a field whose type is directly a named type has a lower rank than its record.
   * Reading any other schema re-enters the same record forever without reading a byte.
   */
  ghost predicate IsRanking(defs: Defs, rank: map<string, nat>) {
    && defs.Keys <= rank.Keys
    && forall n, i :: n in defs && defs[n].Record? && 0 <= i < |defs[n].fields| ==>
         var t := defs[n].fields[i].ftype;
         t.Named? && t.fullname in defs ==> rank[t.fullname] < rank[n]
  }

  ghost predicate Guarded(defs: Defs) {
    exists rank :: IsRanking(defs, rank)
  }

  ghost function Ranking(defs: Defs): (rank: map<string, nat>)
    requires Guarded(defs)
    ensures IsRanking(defs, rank)
  {
    var rank :| IsRanking(defs, rank); rank
  }

  /** How many records can be entered in a row before the next byte is read. */
  ghost function Height(defs: Defs, s: Schema): (h: nat)
    requires Guarded(defs)
  {
    if s.Named? && s.fullname in defs then Ranking(defs)[s.fullname] + 1 else 0
  }

  lemma FieldIsLower(defs: Defs, n: string, i: nat)
    requires Guarded(defs) && n in defs && defs[n].Record? && i < |defs[n].fields|
    ensures Height(defs, defs[n].fields[i].ftype) < Height(defs, Named(n))
  {
  }
}
