/** Reading with the writer's own schema skips nothing, so it always ends. */
module SelfReading {
  import opened Basics
  import opened Schemas
  import opened Encoding
  import opened Decoding
  import opened RoundTrip
  import opened Execution
  import opened SkipRefinement
  import opened Termination

  /** Every record is read as itself. */
  function OwnTables(defs: Defs): Tables {
    Tables({}, set n | n in defs :: (n, n))
  }

  lemma {:induction false} OwnSchemaIsQuiet(defs: Defs, s: Schema)
    requires WellFormedSchema(defs, s)
    ensures QuietRead(defs, s, defs, s, OwnTables(defs))
  {
    match s
    case Prim(_) =>
    case Array(items) => OwnSchemaIsQuiet(defs, items);
    case Map(values) => OwnSchemaIsQuiet(defs, values);
    case Named(_) =>
    case Union(bs) =>
      forall j | 0 <= j < |bs| ensures QuietRead(defs, bs[j], defs, s, OwnTables(defs)) {
        FirstMatchOfBranch(defs, bs, j);
        OwnSchemaIsQuiet(defs, bs[j]);
      }
  }

  lemma OwnTablesAreSealed(defs: Defs)
    requires WellFormed(defs)
    ensures Sealed(defs, defs, OwnTables(defs))
  {
    hide FindField, QuietRead, WellFormedSchema;
    forall n, i | n in defs && defs[n].Record? && 0 <= i < |defs[n].fields|
      ensures QuietField(defs, defs[n].fields[i], defs, defs[n].fields, OwnTables(defs))
    {
      FindDistinct(defs[n].fields, i);
      OwnSchemaIsQuiet(defs, defs[n].fields[i].ftype);
    }
  }

  /** On every byte string, and as Read describes it. */
  lemma OwnSchemaEnds(p: Platform, defs: Defs, s: Schema, st: Stream, pos: nat) returns (k: nat)
    requires Guarded(defs) && WellFormed(defs) && WellFormedSchema(defs, s) && pos <= |st.data|
    ensures Ends(p, defs, s, defs, s, st, pos)
    ensures
      var run := ReadAt(p, defs, s, defs, s, st, pos, k);
      run != Failure(OutOfSteps) && Same(st, Read(p, defs, s, defs, s, Tail(st, pos)), run)
  {
    hide Guarded, WellFormed, WellFormedSchema, Sealed, QuietRead, Read, ReadAt;
    OwnTablesAreSealed(defs);
    OwnSchemaIsQuiet(defs, s);
    k := QuietSteps(p, defs, s, defs, s, OwnTables(defs), st, pos);
  }
}
