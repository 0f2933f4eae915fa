/** Schemas the parser accepts whose printed form means something else. */
module SchemaCounterexamples {
  import opened Basics
  import opened Schemas
  import opened SchemaText
  import opened SchemaRoundTrip

  /** A fixed type that takes its namespace from the record around it. */
  const INNER := NamedType("B", None, FixedBody(1))
  const OUTER := NamedType("R", Some("a"), RecordBody(false, [FieldProps("f", Named("a.B"), None, None)]))
  const INHERITED: Env := map["a.R" := OUTER, "a.B" := INNER]

  const INNER_JSON := JObj(map["type" := JStr("fixed"), "name" := JStr("B"), "size" := JInt(1)])
  const OUTER_JSON := JObj(map["type" := JStr("record"), "name" := JStr("R"), "namespace" := JStr("a"),
                               "fields" := JArr([JObj(map["type" := INNER_JSON, "name" := JStr("f")])])])

  lemma ParseInner(st: Names)
    requires st.defs.Keys <= st.taken && "a.B" !in st.taken
    ensures ParseType(INNER_JSON, Some("a"), st)
        == Success((Named("a.B"), Names(st.taken + {"a.B"}, st.defs["a.B" := INNER])))
  {
    assert "a" + "." + "B" == "a.B";
  }

  lemma OuterName()
    ensures NewName(OUTER_JSON.members, None, NO_NAMES) == Success("a.R") && GetSpace("a.R") == "a"
    ensures Member(OUTER_JSON.members, "name").JStr? && Define(OUTER_JSON.members, "a.R", OUTER.body) == OUTER
  {
    assert "a" + "." + "R" == "a.R";
  }

  lemma ParseOuter()
    ensures ParseType(OUTER_JSON, None, NO_NAMES) == Success((Named("a.R"), Names({"a.R", "a.B"}, INHERITED)))
  {
    hide Parse, ParseType, ParseFields, FullName, GetSpace, NewName, Define, Member;
    var m := OUTER_JSON.members;
    OuterName();
    ParseOfRecord(m, false, None, NO_NAMES);
    var st := Names({"a.R"}, map[]);
    ParseOuterFields(st);
    var defs: Env := map[];
    assert defs["a.B" := INNER]["a.R" := OUTER] == INHERITED;
    assert {"a.R"} + {"a.B"} == {"a.R", "a.B"} && {} + {"a.R"} == {"a.R"};
  }

  lemma ParseOuterFields(st: Names)
    requires st.defs.Keys <= st.taken && "a.B" !in st.taken
    ensures ParseFields(OUTER_JSON.members["fields"].items, Some("a"), st, [])
      == Success((OUTER.body.fields, Names(st.taken + {"a.B"}, st.defs["a.B" := INNER])))
  {
    ParseInner(st);
    var items := OUTER_JSON.members["fields"].items;
    assert items[1..] == [];
    hide ParseType, Parse;
    var f := OUTER.body.fields[0];
    assert items[0].members["type"] == INNER_JSON && FieldOf(items[0].members, Named("a.B")) == Success(f);
    var st' := Names(st.taken + {"a.B"}, st.defs["a.B" := INNER]);
    var none: seq<FieldProps> := [];
    assert none + [f] == OUTER.body.fields && !FieldNameTaken(none, f.name);
    assert ParseFields(items[1..], Some("a"), st', none + [f]) == Success((none + [f], st'));
  }

  /** The namespace of the inner type is lost where it is referred to from outside the record. */
  lemma InheritedNamespaceIsLost()
    ensures
      var s := Union([Named("a.R"), Named("a.B")]);
      var r := Parse(JArr([OUTER_JSON, JStr("a.B")]), None, NO_NAMES);
      r == Success((s, Names({"a.R", "a.B"}, INHERITED))) && !Rebuilds(INHERITED, s)
  {
    ParseOuter();
    var items := [OUTER_JSON, JStr("a.B")];
    var bs := [Named("a.R"), Named("a.B")];
    assert items[1..] == [JStr("a.B")] && items[1..][1..] == [];
    var st := Names({"a.R", "a.B"}, INHERITED);
    assert ParseType(JStr("a.B"), None, st) == Success((Named("a.B"), st));
    assert [Named("a.R")] + [Named("a.B")] == bs;
    hide Parse, ParseType, INHERITED;
    var none: seq<Schema> := [];
    assert none + [bs[0]] == [bs[0]] && MayJoin(none, bs[0]) && MayJoin([bs[0]], bs[1]);
    assert ParseBranches(items[1..][1..], None, st, bs) == Success((bs, st));
    assert ParseBranches(items[1..], None, st, [bs[0]]) == Success((bs, st));
    assert ParseBranches(items, None, NO_NAMES, none) == Success((bs, st));
    ParseOfUnion(items, None, NO_NAMES);
    ParseTypeOfList(items, None, NO_NAMES);
    InheritedIsNotFaithful();
    RebuildsExactlyWhenFaithful(INHERITED, Union(bs));
  }

  lemma ParseTypeOfList(js: seq<Json>, default: Option<string>, st: Names)
    requires st.defs.Keys <= st.taken
    ensures ParseType(JArr(js), default, st) == Parse(JArr(js), default, st)
  {
  }

  lemma InheritedIsNotFaithful()
    ensures !Faithful(INHERITED, Union([Named("a.R"), Named("a.B")]), None, {})
  {
    var bs := [Named("a.R"), Named("a.B")];
    var none: set<string> := {};
    assert none + {"a.R"} == {"a.R"};
    var fs := OUTER.body.fields;
    assert INHERITED["a.R"] == OUTER && fs[0].ftype == Named("a.B");
    assert "a.B" in Print(INHERITED, fs[0].ftype, {"a.R"}).1;
    assert "a.B" in PrintFields(INHERITED, fs, {"a.R"}).1;
    var printed := Print(INHERITED, Named("a.R"), {}).1;
    assert bs[1..] == [Named("a.B")];
    assert "a.B" in printed;
    assert !Faithful(INHERITED, Named("a.B"), None, printed);
    var nothing: seq<Schema> := [];
    assert nothing + [bs[0]] == [bs[0]];
    assert !FaithfulBranches(INHERITED, bs[1..], None, printed, [bs[0]]);
    assert !FaithfulBranches(INHERITED, bs, None, {}, nothing);
  }
}
