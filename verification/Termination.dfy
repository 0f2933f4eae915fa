/** When reading ends: for which schemas on every byte string, and on which inputs never. */
module Termination {
  import opened Basics
  import opened Varint
  import opened Schemas
  import opened Encoding
  import opened Decoding
  import opened Execution
  import opened SkipRefinement
  import opened ReadRefinement
  import opened Steps

  /** Some number of steps is enough. */
  ghost predicate Ends(p: Platform, dw: Defs, w: Schema, dr: Defs, r: Schema, st: Stream, pos: nat)
    requires pos <= |st.data|
  {
    exists k: nat :: ReadAt(p, dw, w, dr, r, st, pos, k) != Failure(OutOfSteps)
  }

  // What Read and Skip can report

  /** Not OutOfSteps, and if nothing sized is skipped, no backward move either. */
  predicate Fine<T>(r: Result<T>, quiet: bool) {
    r.Failure? ==> r.error != OutOfSteps && (quiet ==> IsException(r.error))
  }

  /**
   * Nothing with a size of its own is skipped in w: no string, bytes, array or map. Of the
   * records in names this is known already.
   */
  predicate PlainSkip(dw: Defs, w: Schema, names: set<string>) {
    match w
    case Prim(prim) => prim != PString && prim != PBytes
    case Array(_) => false
    case Map(_) => false
    case Union(bs) => forall i :: 0 <= i < |bs| ==> PlainSkip(dw, bs[i], names)
    case Named(n) => n in dw && dw[n].Record? ==> n in names
  }

  /** Nothing sized is skipped when data of w are read as r; of the pairs of records in pairs this is known already. */
  predicate QuietRead(dw: Defs, w: Schema, dr: Defs, r: Schema, t: Tables)
    decreases w, r
  {
    if !Match(dw, w, dr, r) then true
    else if !w.Union? && r.Union? then
      var i := FirstMatch(dw, w, dr, r.branches);
      i < |r.branches| ==> QuietRead(dw, w, dr, r.branches[i], t)
    else
      match w
      case Prim(_) => true
      case Array(items) => r.Array? ==> QuietRead(dw, items, dr, r.items, t)
      case Map(values) => r.Map? ==> QuietRead(dw, values, dr, r.values, t)
      case Union(bs) => forall i :: 0 <= i < |bs| ==> QuietRead(dw, bs[i], dr, r, t)
      case Named(n) => n in dw && dw[n].Record? && r.Named? ==> (n, r.fullname) in t.pairs
  }

  /** Records that are skipped, and records that are read as others. */
  datatype Tables = Tables(names: set<string>, pairs: set<(string, string)>)

  /** A field of the writer's record is skipped exactly if the reader's record has none of its name. */
  predicate QuietField(dw: Defs, f: Field, dr: Defs, rf: seq<Field>, t: Tables) {
    match FindField(rf, f.name)
    case Some(field) => QuietRead(dw, f.ftype, dr, field.ftype, t)
    case None => PlainSkip(dw, f.ftype, t.names)
  }

  /** What the tables say of their records is true of all their fields. */
  predicate Sealed(dw: Defs, dr: Defs, t: Tables) {
    && (forall n :: n in t.names && n in dw && dw[n].Record? ==>
          forall i :: 0 <= i < |dw[n].fields| ==> PlainSkip(dw, dw[n].fields[i].ftype, t.names))
    && (forall q :: q in t.pairs && q.0 in dw && dw[q.0].Record? && q.1 in dr && dr[q.1].Record? ==>
          forall i :: 0 <= i < |dw[q.0].fields| ==> QuietField(dw, dw[q.0].fields[i], dr, dr[q.1].fields, t))
  }

  lemma {:induction false} SkipOutcome(dw: Defs, dr: Defs, w: Schema, t: Tables, bs: seq<byte>, quiet: bool)
    requires Guarded(dw) && (quiet ==> Sealed(dw, dr, t) && PlainSkip(dw, w, t.names))
    ensures Fine(Skip(dw, w, bs), quiet)
    decreases |bs|, Height(dw, w), 1
  {
    LongLeaves(bs);
    hide Guarded, Sealed, ReadLong, ReadDigits;
    match w
    case Prim(prim) => hide SkipBytes; SkipPrimitiveOutcome(prim, bs);
    case Array(items) => SkipBlockOutcome(false, dw, dr, items, t, bs);
    case Map(values) => SkipBlockOutcome(true, dw, dr, values, t, bs);
    case Union(branches) =>
      IndexLeaves(bs, branches, [], []);
      var b := ReadBranch(branches, bs);
      if b.Success? {
        assert b.value.0 in branches;
        SkipOutcome(dw, dr, b.value.0, t, b.value.1, quiet);
      }
    case Named(n) =>
      if n in dw && dw[n].Record? {
        SkipFieldsOutcome(dw, dr, n, 0, t, bs, quiet);
      }
  }

  lemma SkipPrimitiveOutcome(prim: Primitive, bs: seq<byte>)
    ensures Fine(SkipPrimitive(prim, bs), prim != PString && prim != PBytes)
  {
    LongLeaves(bs);
    hide ReadLong, ReadDigits;
  }

  lemma {:induction false} SkipItemsOutcome(keyed: bool, dw: Defs, dr: Defs, w: Schema, t: Tables, n: nat,
                                            bs: seq<byte>)
    requires Guarded(dw)
    ensures Fine(SkipItems(keyed, dw, w, n, bs), false)
    decreases |bs|, if n == 0 then 0 else Height(dw, w) + 1, 1, n
  {
    hide Guarded, Skip, SkipBlock;
    if n == 0 {
      SkipBlockOutcome(keyed, dw, dr, w, t, bs);
    } else {
      SkipPrimitiveOutcome(PBytes, bs);
      var key := SkipKey(keyed, bs);
      if key.Success? {
        SkipOutcome(dw, dr, w, t, key.value, false);
        var item := Skip(dw, w, key.value);
        if item.Success? {
          SkipItemsOutcome(keyed, dw, dr, w, t, n - 1, item.value);
        }
      }
    }
  }

  lemma {:induction false} SkipBlockOutcome(keyed: bool, dw: Defs, dr: Defs, w: Schema, t: Tables, bs: seq<byte>)
    requires Guarded(dw)
    ensures Fine(SkipBlock(keyed, dw, w, bs), false)
    decreases |bs|, 0, 0, 0
  {
    hide Guarded, SkipItems, ReadHead;
    IndexLeaves(bs, [], [], []);
    var head := ReadHead(bs);
    if head.Success? {
      if head.value.0.size.None? {
        SkipItemsOutcome(keyed, dw, dr, w, t, head.value.0.count, head.value.1);
      } else {
        var next := Drop(head.value.0.size.value, head.value.1);
        if next.Success? {
          SkipBlockOutcome(keyed, dw, dr, w, t, next.value);
        }
      }
    }
  }

  lemma {:induction false} SkipFieldsOutcome(dw: Defs, dr: Defs, n: string, i: nat, t: Tables, bs: seq<byte>,
                                             quiet: bool)
    requires Guarded(dw) && n in dw && dw[n].Record? && i <= |dw[n].fields|
    requires quiet ==> Sealed(dw, dr, t) && n in t.names
    ensures Fine(SkipFields(dw, n, i, bs), quiet)
    decreases |bs|, Height(dw, Named(n)), 0, |dw[n].fields| - i
  {
    hide Guarded, Skip, QuietField;
    if i < |dw[n].fields| {
      FieldIsLower(dw, n, i);
      var w := dw[n].fields[i].ftype;
      SkipOutcome(dw, dr, w, t, bs, quiet);
      var field := Skip(dw, w, bs);
      if field.Success? {
        SkipFieldsOutcome(dw, dr, n, i + 1, t, field.value, quiet);
      }
    }
  }

  lemma {:induction false} ReadOutcome(p: Platform, dw: Defs, w: Schema, dr: Defs, r: Schema, t: Tables, bs: seq<byte>,
                                       quiet: bool)
    requires Guarded(dw) && (quiet ==> Sealed(dw, dr, t) && QuietRead(dw, w, dr, r, t))
    ensures Fine(Read(p, dw, w, dr, r, bs), quiet)
    decreases |bs|, Height(dw, w), 1, r
  {
    hide Guarded, Sealed, Match, FirstMatch, ReadBranch, ReadPrimitive, ReadSymbol, ReadBlock, ReadFields,
        FillDefaults, Values, ToMap;
    if !Match(dw, w, dr, r) {
      return;
    }
    if !w.Union? {
      if r.Union? {
        var i := FirstMatch(dw, w, dr, r.branches);
        if i < |r.branches| {
          ReadOutcome(p, dw, w, dr, r.branches[i], t, bs, quiet);
        }
        return;
      }
      MatchShape(dw, w, dr, r);
    }
    match w
    case Prim(prim) => PrimitiveLeaves(p, prim, bs);
    case Array(items) => ReadBlockOutcome(p, false, dw, items, dr, r.items, t, bs, [], quiet);
    case Map(values) => ReadBlockOutcome(p, true, dw, values, dr, r.values, t, bs, [], quiet);
    case Union(branches) =>
      IndexLeaves(bs, branches, [], []);
      var b := ReadBranch(branches, bs);
      if b.Success? {
        ReadOutcome(p, dw, b.value.0, dr, r, t, b.value.1, quiet);
      }
    case Named(n) =>
      match dw[n]
      case Fixed(_) =>
      case Enum(symbols) => IndexLeaves(bs, [], symbols, dr[r.fullname].symbols);
      case Record(_, wf) =>
        var rf := dr[r.fullname].fields;
        ReadFieldsOutcome(p, dw, n, dr, r.fullname, 0, t, bs, map[], quiet);
        var m := ReadFields(p, dw, n, dr, rf, 0, bs, map[]);
        if m.Success? {
          FillDefaultsRaises(p, dr, wf, rf, 0, m.value.0);
        }
  }

  lemma {:induction false} ReadItemsOutcome(p: Platform, keyed: bool, dw: Defs, w: Schema, dr: Defs, r: Schema,
                                            t: Tables, n: nat, bs: seq<byte>, acc: seq<(string, Datum)>, quiet: bool)
    requires Guarded(dw) && (quiet ==> Sealed(dw, dr, t) && QuietRead(dw, w, dr, r, t))
    ensures Fine(ReadItems(p, keyed, dw, w, dr, r, n, bs, acc), quiet)
    decreases |bs|, if n == 0 then 0 else Height(dw, w) + 1, 1, n
  {
    hide Guarded, Sealed, Read, ReadBlock, QuietRead, ReadText;
    if n == 0 {
      ReadBlockOutcome(p, keyed, dw, w, dr, r, t, bs, acc, quiet);
    } else {
      BytesLeave(p, bs);
      var key := ReadKey(p, keyed, bs);
      if key.Success? {
        ReadOutcome(p, dw, w, dr, r, t, key.value.1, quiet);
        var d := Read(p, dw, w, dr, r, key.value.1);
        if d.Success? {
          ReadItemsOutcome(p, keyed, dw, w, dr, r, t, n - 1, d.value.1, acc + [(key.value.0, d.value.0)], quiet);
        }
      }
    }
  }

  lemma {:induction false} ReadBlockOutcome(p: Platform, keyed: bool, dw: Defs, w: Schema, dr: Defs, r: Schema,
                                            t: Tables, bs: seq<byte>, acc: seq<(string, Datum)>, quiet: bool)
    requires Guarded(dw) && (quiet ==> Sealed(dw, dr, t) && QuietRead(dw, w, dr, r, t))
    ensures Fine(ReadBlock(p, keyed, dw, w, dr, r, bs, acc), quiet)
    decreases |bs|, 0, 0, 0
  {
    hide Guarded, Sealed, ReadItems, ReadHead, QuietRead;
    IndexLeaves(bs, [], [], []);
    var head := ReadHead(bs);
    if head.Success? && head.value.0.count > 0 {
      ReadItemsOutcome(p, keyed, dw, w, dr, r, t, head.value.0.count, head.value.1, acc, quiet);
    }
  }

  lemma {:induction false} ReadFieldsOutcome(p: Platform, dw: Defs, n: string, dr: Defs, rn: string, i: nat, t: Tables,
                                             bs: seq<byte>, acc: map<string, Datum>, quiet: bool)
    requires Guarded(dw) && n in dw && dw[n].Record? && i <= |dw[n].fields| && rn in dr && dr[rn].Record?
    requires quiet ==> Sealed(dw, dr, t) && (n, rn) in t.pairs
    ensures Fine(ReadFields(p, dw, n, dr, dr[rn].fields, i, bs, acc), quiet)
    decreases |bs|, Height(dw, Named(n)), 0, |dw[n].fields| - i
  {
    if i < |dw[n].fields| {
      var f, rf := dw[n].fields[i], dr[rn].fields;
      assert quiet ==> QuietField(dw, f, dr, rf, t) by { FieldIsQuiet(dw, dr, t, n, rn, i, quiet); }
      hide Guarded, Sealed, Read, Skip, FindField, QuietRead, PlainSkip;
      FieldIsLower(dw, n, i);
      match FindField(rf, f.name)
      case Some(field) =>
        ReadOutcome(p, dw, f.ftype, dr, field.ftype, t, bs, quiet);
        var d := Read(p, dw, f.ftype, dr, field.ftype, bs);
        if d.Success? {
          ReadFieldsOutcome(p, dw, n, dr, rn, i + 1, t, d.value.1, acc[f.name := d.value.0], quiet);
        }
      case None =>
        SkipOutcome(dw, dr, f.ftype, t, bs, quiet);
        var skip := Skip(dw, f.ftype, bs);
        if skip.Success? {
          ReadFieldsOutcome(p, dw, n, dr, rn, i + 1, t, skip.value, acc, quiet);
        }
    }
  }

  lemma FieldIsQuiet(dw: Defs, dr: Defs, t: Tables, n: string, rn: string, i: nat, quiet: bool)
    requires n in dw && dw[n].Record? && i < |dw[n].fields| && rn in dr && dr[rn].Record?
    requires quiet ==> Sealed(dw, dr, t) && (n, rn) in t.pairs
    ensures quiet ==> QuietField(dw, dw[n].fields[i], dr, dr[rn].fields, t)
  {
    hide QuietField;
    if quiet {
      var q := (n, rn);
      assert q in t.pairs && q.0 == n && q.1 == rn;
    }
  }

  // Every input

  /**
   * A run ends with what Read says of its input, unless Read says that a skip moves back. Where
   * it says that a block is skipped back to its own head, the run never ends.
   */
  lemma EndsAsDescribed(p: Platform, dw: Defs, w: Schema, dr: Defs, r: Schema, st: Stream, pos: nat)
    requires Guarded(dw) && pos <= |st.data|
    ensures
      var spec := Read(p, dw, w, dr, r, Tail(st, pos));
      if spec == Failure(EndlessSkip) then !Ends(p, dw, w, dr, r, st, pos)
      else spec != Failure(BackwardSkip) ==>
        && Ends(p, dw, w, dr, r, st, pos)
        && forall k: nat ::
             var run := ReadAt(p, dw, w, dr, r, st, pos, k);
             run == Failure(OutOfSteps) || Same(st, spec, run)
  {
    hide Guarded, Read, ReadAt;
    var spec := Read(p, dw, w, dr, r, Tail(st, pos));
    var e := ReadRefines(p, dw, w, dr, r, st, pos);
    ReadOutcome(p, dw, w, dr, r, Tables({}, {}), Tail(st, pos), false);
    assert Agrees(st, spec, ReadAt(p, dw, w, dr, r, st, pos, e), true);
    forall k: nat
      ensures spec != Failure(EndlessSkip) && spec != Failure(BackwardSkip) ==>
        var run := ReadAt(p, dw, w, dr, r, st, pos, k);
        run == Failure(OutOfSteps) || Same(st, spec, run)
      ensures spec == Failure(EndlessSkip) ==> ReadAt(p, dw, w, dr, r, st, pos, k) == Failure(OutOfSteps)
    {
      assert Agrees(st, spec, ReadAt(p, dw, w, dr, r, st, pos, k), k >= e);
    }
  }

  // Every byte string

  /** If nothing sized is ever skipped, reading ends on every byte string, as Read describes it. */
  lemma QuietReadEnds(p: Platform, dw: Defs, w: Schema, dr: Defs, r: Schema, t: Tables, st: Stream, pos: nat)
    requires Guarded(dw) && Sealed(dw, dr, t) && QuietRead(dw, w, dr, r, t) && pos <= |st.data|
    ensures Ends(p, dw, w, dr, r, st, pos)
    ensures exists k: nat :: Same(st, Read(p, dw, w, dr, r, Tail(st, pos)), ReadAt(p, dw, w, dr, r, st, pos, k))
  {
    hide Guarded, Sealed, QuietRead, Read, ReadAt;
    var k := QuietSteps(p, dw, w, dr, r, t, st, pos);
  }

  lemma QuietSteps(p: Platform, dw: Defs, w: Schema, dr: Defs, r: Schema, t: Tables, st: Stream, pos: nat)
    returns (k: nat)
    requires Guarded(dw) && Sealed(dw, dr, t) && QuietRead(dw, w, dr, r, t) && pos <= |st.data|
    ensures
      var run := ReadAt(p, dw, w, dr, r, st, pos, k);
      run != Failure(OutOfSteps) && Same(st, Read(p, dw, w, dr, r, Tail(st, pos)), run)
  {
    hide Guarded, Sealed, QuietRead, Read, ReadAt;
    ReadOutcome(p, dw, w, dr, r, t, Tail(st, pos), true);
    EndsAsDescribed(p, dw, w, dr, r, st, pos);
    k :| ReadAt(p, dw, w, dr, r, st, pos, k) != Failure(OutOfSteps);
    assert Same(st, Read(p, dw, w, dr, r, Tail(st, pos)), ReadAt(p, dw, w, dr, r, st, pos, k));
  }

  /**
   * More generally a string or bytes may be skipped, but not inside an array or map and at most
   * d records deep; arrays and maps themselves may not.
   */
  predicate TameSkip(dw: Defs, w: Schema, t: Tables, d: nat)
    decreases d, w
  {
    PlainSkip(dw, w, t.names) ||
    match w
    case Prim(_) => true
    case Array(_) => false
    case Map(_) => false
    case Union(bs) => forall i :: 0 <= i < |bs| ==> TameSkip(dw, bs[i], t, d)
    case Named(n) =>
      n in dw && dw[n].Record? ==>
        d > 0 && forall i :: 0 <= i < |dw[n].fields| ==> TameSkip(dw, dw[n].fields[i].ftype, t, d - 1)
  }

  predicate TameRead(dw: Defs, w: Schema, dr: Defs, r: Schema, t: Tables, d: nat)
    decreases d, w, r
  {
    QuietRead(dw, w, dr, r, t) ||
    if !w.Union? && r.Union? then
      var i := FirstMatch(dw, w, dr, r.branches);
      i < |r.branches| ==> TameRead(dw, w, dr, r.branches[i], t, d)
    else
      match w
      case Prim(_) => false
      case Array(_) => false
      case Map(_) => false
      case Union(bs) => forall i :: 0 <= i < |bs| ==> TameRead(dw, bs[i], dr, r, t, d)
      case Named(n) =>
        n in dw && dw[n].Record? && r.Named? && r.fullname in dr && dr[r.fullname].Record? ==>
          d > 0 && forall i :: 0 <= i < |dw[n].fields| ==>
            match FindField(dr[r.fullname].fields, dw[n].fields[i].name)
            case Some(field) => TameRead(dw, dw[n].fields[i].ftype, dr, field.ftype, t, d - 1)
            case None => TameSkip(dw, dw[n].fields[i].ftype, t, d - 1)
  }

  lemma {:induction false} TameSkipEnds(dw: Defs, dr: Defs, w: Schema, t: Tables, d: nat, st: Stream, pos: nat)
    returns (k: nat)
    requires Guarded(dw) && Sealed(dw, dr, t) && TameSkip(dw, w, t, d) && pos <= |st.data|
    ensures SkipAt(dw, w, st, pos, k) != Failure(OutOfSteps)
    decreases d, w, 1
  {
    hide Guarded, Sealed, PlainSkip, TameSkip, SkipAt, SkipFieldsAt;
    k := 1;
    if PlainSkip(dw, w, t.names) {
      k := PlainSkipEnds(dw, dr, w, t, st, pos);
    } else if w.Union? {
      TameParts(dw, w, t, d);
      k := TameUnionEnds(dw, dr, w, t, d, st, pos);
    } else if w.Named? && w.fullname in dw && dw[w.fullname].Record? {
      TameParts(dw, w, t, d);
      k := TameSkipFieldsEnd(dw, dr, w.fullname, 0, t, d, st, pos);
      k := k + 1;
      SkipPartAt(dw, w, st, pos, k);
    } else {
      TameParts(dw, w, t, d);
      LeafEnds(dw, w, st, pos);
    }
  }

  lemma {:induction false} TameUnionEnds(dw: Defs, dr: Defs, w: Schema, t: Tables, d: nat, st: Stream, pos: nat)
    returns (k: nat)
    requires Guarded(dw) && Sealed(dw, dr, t) && pos <= |st.data|
    requires w.Union? && forall i :: 0 <= i < |w.branches| ==> TameSkip(dw, w.branches[i], t, d)
    ensures SkipAt(dw, w, st, pos, k) != Failure(OutOfSteps)
    decreases d, w, 0
  {
    hide Guarded, Sealed, TameSkip, SkipAt;
    k := 1;
    BranchEnds(st, pos, w.branches);
    var b := After(st, ReadBranch(w.branches, Tail(st, pos)));
    hide ReadBranch, Tail, After;
    if b.Success? {
      k := TameSkipEnds(dw, dr, b.value.0, t, d, st, b.value.1);
      k := k + 1;
    }
    SkipPartAt(dw, w, st, pos, k);
  }

  /** What tameness of a union or a record says of its parts. */
  lemma TameParts(dw: Defs, w: Schema, t: Tables, d: nat)
    requires TameSkip(dw, w, t, d) && !PlainSkip(dw, w, t.names)
    ensures !w.Array? && !w.Map?
    ensures w.Union? ==> forall i :: 0 <= i < |w.branches| ==> TameSkip(dw, w.branches[i], t, d)
    ensures w.Named? && w.fullname in dw && dw[w.fullname].Record? ==>
      d > 0 && forall i :: 0 <= i < |dw[w.fullname].fields| ==> TameSkip(dw, dw[w.fullname].fields[i].ftype, t, d - 1)
  {
    hide PlainSkip;
  }

  /** How a union and a record are skipped. */
  lemma SkipPartAt(dw: Defs, w: Schema, st: Stream, pos: nat, k: nat)
    requires pos <= |st.data| && k > 0
    ensures w.Union? ==>
      var b := After(st, ReadBranch(w.branches, Tail(st, pos)));
      SkipAt(dw, w, st, pos, k) == if b.Failure? then Failure(b.error) else SkipAt(dw, b.value.0, st, b.value.1, k - 1)
    ensures w.Named? && w.fullname in dw && dw[w.fullname].Record? ==>
      SkipAt(dw, w, st, pos, k) == SkipFieldsAt(dw, w.fullname, 0, st, pos, k - 1)
  {
    hide ReadBranch, Tail, SkipFieldsAt;
  }

  lemma LeafEnds(dw: Defs, w: Schema, st: Stream, pos: nat)
    requires pos <= |st.data| && (w.Prim? || (w.Named? && (w.fullname in dw ==> !dw[w.fullname].Record?)))
    ensures SkipAt(dw, w, st, pos, 1) != Failure(OutOfSteps)
  {
    if w.Prim? {
      SkipPrimitiveEnds(w.prim, st, pos);
      hide SkipPrimitiveAt;
    } else {
      SkipPrimitiveEnds(PLong, st, pos);
      hide SkipLongAt, Tail;
    }
  }

  lemma PlainSkipEnds(dw: Defs, dr: Defs, w: Schema, t: Tables, st: Stream, pos: nat) returns (k: nat)
    requires Guarded(dw) && Sealed(dw, dr, t) && PlainSkip(dw, w, t.names) && pos <= |st.data|
    ensures SkipAt(dw, w, st, pos, k) != Failure(OutOfSteps)
  {
    hide Guarded, Sealed, PlainSkip, Skip, SkipAt;
    k := SkipRefines(dw, w, st, pos);
    SkipOutcome(dw, dr, w, t, Tail(st, pos), true);
    assert Moves(st, Skip(dw, w, Tail(st, pos)), SkipAt(dw, w, st, pos, k), k >= k);
  }

  lemma SkipPrimitiveEnds(prim: Primitive, st: Stream, pos: nat)
    requires pos <= |st.data|
    ensures SkipPrimitiveAt(prim, st, pos) != Failure(OutOfSteps)
  {
    LongLeaves(Tail(st, pos));
    hide ReadLong, ReadDigits;
  }

  lemma BranchEnds(st: Stream, pos: nat, branches: seq<Schema>)
    requires pos <= |st.data|
    ensures
      var b := After(st, ReadBranch(branches, Tail(st, pos)));
      b != Failure(OutOfSteps) && (b.Success? ==> exists i :: 0 <= i < |branches| && branches[i] == b.value.0)
  {
    IndexLeaves(Tail(st, pos), branches, [], []);
    var b := ReadBranch(branches, Tail(st, pos));
    hide ReadBranch;
    assert b.Success? ==> b.value.0 in branches;
  }

  lemma {:induction false} TameSkipFieldsEnd(dw: Defs, dr: Defs, n: string, i: nat, t: Tables, d: nat, st: Stream,
                                             pos: nat)
    returns (k: nat)
    requires Guarded(dw) && Sealed(dw, dr, t) && pos <= |st.data| && d > 0
    requires n in dw && dw[n].Record? && i <= |dw[n].fields|
    requires forall j :: i <= j < |dw[n].fields| ==> TameSkip(dw, dw[n].fields[j].ftype, t, d - 1)
    ensures SkipFieldsAt(dw, n, i, st, pos, k) != Failure(OutOfSteps)
    decreases d, Named(n), 0, |dw[n].fields| - i
  {
    hide Guarded, Sealed, TameSkip, SkipAt;
    k := 1;
    if i < |dw[n].fields| {
      var w := dw[n].fields[i].ftype;
      var k1 := TameSkipEnds(dw, dr, w, t, d - 1, st, pos);
      var field := SkipAt(dw, w, st, pos, k1);
      var k2 := 0;
      if field.Success? {
        k2 := TameSkipFieldsEnd(dw, dr, n, i + 1, t, d, st, field.value);
        MoreSkipFields(dw, n, i + 1, st, field.value, k2, Max(k1, k2));
      }
      MoreSkip(dw, w, st, pos, k1, Max(k1, k2));
      k := Max(k1, k2) + 1;
    }
  }

  lemma {:induction false} TameEnds(p: Platform, dw: Defs, w: Schema, dr: Defs, r: Schema, t: Tables, d: nat,
                                    st: Stream, pos: nat)
    returns (k: nat)
    requires Guarded(dw) && Sealed(dw, dr, t) && TameRead(dw, w, dr, r, t, d) && pos <= |st.data|
    ensures ReadAt(p, dw, w, dr, r, st, pos, k) != Failure(OutOfSteps)
    decreases d, w, r, 1
  {
    hide Guarded, Sealed, ReadAt, ReadFieldsAt, ReadBranch, FirstMatch, Match, QuietRead;
    if QuietRead(dw, w, dr, r, t) {
      hide TameRead;
      k := QuietSteps(p, dw, w, dr, r, t, st, pos);
      return;
    }
    NotQuiet(dw, w, dr, r, t);
    if w.Union? {
      BranchEnds(st, pos, w.branches);
      var b := After(st, ReadBranch(w.branches, Tail(st, pos)));
      k := 0;
      if b.Success? {
        k := TameEnds(p, dw, b.value.0, dr, r, t, d, st, b.value.1);
      }
      hide TameRead;
      UnionEnds(p, dw, w.branches, dr, r, st, pos, k);
    } else if r.Union? {
      var i := FirstMatch(dw, w, dr, r.branches);
      k := TameEnds(p, dw, w, dr, r.branches[i], t, d, st, pos);
      hide TameRead;
      ReaderUnionEnds(p, dw, w, dr, r, st, pos, k);
    } else {
      MatchShape(dw, w, dr, r);
      assert w.Named?;
      k := TameFieldsEnd(p, dw, w.fullname, dr, r.fullname, 0, t, d, st, pos, map[]);
      hide TameRead;
      RecordEnds(p, dw, w.fullname, dr, r.fullname, st, pos, k);
    }
    k := k + 1;
  }

  lemma UnionEnds(p: Platform, dw: Defs, branches: seq<Schema>, dr: Defs, r: Schema, st: Stream, pos: nat, k: nat)
    requires pos <= |st.data|
    requires
      var b := After(st, ReadBranch(branches, Tail(st, pos)));
      && b != Failure(OutOfSteps)
      && (b.Success? ==> ReadAt(p, dw, b.value.0, dr, r, st, b.value.1, k) != Failure(OutOfSteps))
    ensures ReadAt(p, dw, Union(branches), dr, r, st, pos, k + 1) != Failure(OutOfSteps)
  {
    hide ReadBranch;
  }

  lemma ReaderUnionEnds(p: Platform, dw: Defs, w: Schema, dr: Defs, r: Schema, st: Stream, pos: nat, k: nat)
    requires pos <= |st.data| && !w.Union? && r.Union?
    requires
      var i := FirstMatch(dw, w, dr, r.branches);
      i < |r.branches| ==> ReadAt(p, dw, w, dr, r.branches[i], st, pos, k) != Failure(OutOfSteps)
    ensures ReadAt(p, dw, w, dr, r, st, pos, k + 1) != Failure(OutOfSteps)
  {
    hide Match, FirstMatch;
  }

  /** What is not quiet is a union, an array, a map or a record. */
  lemma NotQuiet(dw: Defs, w: Schema, dr: Defs, r: Schema, t: Tables)
    requires !QuietRead(dw, w, dr, r, t)
    ensures Match(dw, w, dr, r)
    ensures !w.Union? && r.Union? ==> FirstMatch(dw, w, dr, r.branches) < |r.branches|
    ensures !w.Union? && !r.Union? ==> w.Array? || w.Map? || (w.Named? && w.fullname in dw && dw[w.fullname].Record?)
  {
    hide Match, FirstMatch;
  }

  lemma RecordEnds(p: Platform, dw: Defs, n: string, dr: Defs, rn: string, st: Stream, pos: nat, k: nat)
    requires pos <= |st.data| && n in dw && dw[n].Record? && rn in dr && dr[rn].Record?
    requires Match(dw, Named(n), dr, Named(rn))
    requires ReadFieldsAt(p, dw, n, dr, dr[rn].fields, 0, st, pos, map[], k) != Failure(OutOfSteps)
    ensures ReadAt(p, dw, Named(n), dr, Named(rn), st, pos, k + 1) != Failure(OutOfSteps)
  {
    var m := ReadFieldsAt(p, dw, n, dr, dr[rn].fields, 0, st, pos, map[], k);
    if m.Success? {
      FillDefaultsRaises(p, dr, dw[n].fields, dr[rn].fields, 0, m.value.0);
    }
    hide Match, ReadFieldsAt, FillDefaults;
  }

  lemma {:induction false} TameFieldsEnd(p: Platform, dw: Defs, n: string, dr: Defs, rn: string, i: nat, t: Tables,
                                         d: nat, st: Stream, pos: nat, acc: map<string, Datum>) returns (k: nat)
    requires Guarded(dw) && Sealed(dw, dr, t) && pos <= |st.data| && d > 0
    requires n in dw && dw[n].Record? && rn in dr && dr[rn].Record? && i <= |dw[n].fields|
    requires forall j :: i <= j < |dw[n].fields| ==>
      match FindField(dr[rn].fields, dw[n].fields[j].name)
      case Some(field) => TameRead(dw, dw[n].fields[j].ftype, dr, field.ftype, t, d - 1)
      case None => TameSkip(dw, dw[n].fields[j].ftype, t, d - 1)
    ensures ReadFieldsAt(p, dw, n, dr, dr[rn].fields, i, st, pos, acc, k) != Failure(OutOfSteps)
    decreases d, Named(n), Named(rn), 0, |dw[n].fields| - i
  {
    hide Guarded, Sealed, TameRead, TameSkip, ReadAt, SkipAt, FindField;
    k := 1;
    if i < |dw[n].fields| {
      var f, rf := dw[n].fields[i], dr[rn].fields;
      var k1, k2 := 0, 0;
      match FindField(rf, f.name)
      case Some(field) =>
        k1 := TameEnds(p, dw, f.ftype, dr, field.ftype, t, d - 1, st, pos);
        var v := ReadAt(p, dw, f.ftype, dr, field.ftype, st, pos, k1);
        if v.Success? {
          var acc' := acc[f.name := v.value.0];
          k2 := TameFieldsEnd(p, dw, n, dr, rn, i + 1, t, d, st, v.value.1, acc');
          MoreReadFields(p, dw, n, dr, rf, i + 1, st, v.value.1, acc', k2, Max(k1, k2));
        }
        MoreRead(p, dw, f.ftype, dr, field.ftype, st, pos, k1, Max(k1, k2));
        k := Max(k1, k2) + 1;
      case None =>
        k1 := TameSkipEnds(dw, dr, f.ftype, t, d - 1, st, pos);
        var v := SkipAt(dw, f.ftype, st, pos, k1);
        if v.Success? {
          k2 := TameFieldsEnd(p, dw, n, dr, rn, i + 1, t, d, st, v.value, acc);
          MoreReadFields(p, dw, n, dr, rf, i + 1, st, v.value, acc, k2, Max(k1, k2));
        }
        MoreSkip(dw, f.ftype, st, pos, k1, Max(k1, k2));
        k := Max(k1, k2) + 1;
    }
  }

  /** Reading tame schemas ends on every byte string, from every position. */
  lemma TameReadEnds(p: Platform, dw: Defs, w: Schema, dr: Defs, r: Schema, t: Tables, d: nat)
    requires Guarded(dw) && Sealed(dw, dr, t) && TameRead(dw, w, dr, r, t, d)
    ensures forall st: Stream, pos: nat :: pos <= |st.data| ==> Ends(p, dw, w, dr, r, st, pos)
  {
    hide Guarded, Sealed, TameRead, ReadAt;
    forall st: Stream, pos: nat | pos <= |st.data| ensures Ends(p, dw, w, dr, r, st, pos) {
      var k := TameEnds(p, dw, w, dr, r, t, d, st, pos);
    }
  }
}
