/** Read and ReadAt: what Read says of an input, and enough steps on it, agree. */
module ReadRefinement {
  import opened Basics
  import opened Varint
  import opened Schemas
  import opened Encoding
  import opened Decoding
  import opened Execution
  import opened SkipRefinement

  // Reading

  /** Read and ReadAt where the schemas match and the reader's is a union only if the writer's is one. */
  lemma ReadMeans(p: Platform, dw: Defs, w: Schema, dr: Defs, r: Schema, st: Stream, pos: nat, k: nat)
    requires Guarded(dw) && pos <= |st.data| && k > 0 && Match(dw, w, dr, r) && (r.Union? ==> w.Union?)
    ensures w.Array? ==>
      && Read(p, dw, w, dr, r, Tail(st, pos)) ==
           Listed(ReadBlock(p, false, dw, w.items, dr, r.items, Tail(st, pos), []))
      && ReadAt(p, dw, w, dr, r, st, pos, k) ==
           Listed(ReadBlockAt(p, false, dw, w.items, dr, r.items, st, pos, [], k - 1))
    ensures w.Map? ==>
      && Read(p, dw, w, dr, r, Tail(st, pos)) ==
           Mapped(ReadBlock(p, true, dw, w.values, dr, r.values, Tail(st, pos), []))
      && ReadAt(p, dw, w, dr, r, st, pos, k) ==
           Mapped(ReadBlockAt(p, true, dw, w.values, dr, r.values, st, pos, [], k - 1))
    ensures w.Named? ==> w.fullname in dw && r.Named? && r.fullname in dr && TypeOf(dw, w) == TypeOf(dr, r)
    ensures w.Named? && dw[w.fullname].Record? ==>
      var (wf, rf) := (dw[w.fullname].fields, dr[r.fullname].fields);
      && Read(p, dw, w, dr, r, Tail(st, pos)) ==
           Filled(p, dr, wf, rf, ReadFields(p, dw, w.fullname, dr, rf, 0, Tail(st, pos), map[]))
      && ReadAt(p, dw, w, dr, r, st, pos, k)
           == Filled(p, dr, wf, rf, ReadFieldsAt(p, dw, w.fullname, dr, rf, 0, st, pos, map[], k - 1))
  {
    hide Guarded, Match, ReadBlock, ReadBlockAt, ReadFields, ReadFieldsAt, FillDefaults, Values, ToMap;
    if !w.Union? {
      MatchShape(dw, w, dr, r);
    }
  }

  /** The last step of read_array, for both ways of leaving the rest of the input. */
  function Listed<T>(r: Result<(seq<(string, Datum)>, T)>): Result<(Datum, T)> {
    match r
    case Failure(e) => Failure(e)
    case Success((es, rest)) => Success((List(Values(es)), rest))
  }

  function Mapped<T>(r: Result<(seq<(string, Datum)>, T)>): Result<(Datum, T)> {
    match r
    case Failure(e) => Failure(e)
    case Success((es, rest)) => Success((Dict(ToMap(es)), rest))
  }

  function Filled<T>(p: Platform, dr: Defs, wf: seq<Field>, rf: seq<Field>, r: Result<(map<string, Datum>, T)>)
      : Result<(Datum, T)> {
    match r
    case Failure(e) => Failure(e)
    case Success((m, rest)) =>
      match FillDefaults(p, dr, wf, rf, 0, m)
      case Failure(e) => Failure(e)
      case Success(m') => Success((Dict(m'), rest))
  }

  lemma ListedAgrees(st: Stream, spec: Parsed<seq<(string, Datum)>>, run: Result<(seq<(string, Datum)>, nat)>,
                     enough: bool)
    requires Agrees(st, spec, run, enough)
    ensures Agrees(st, Listed(spec), Listed(run), enough) && Agrees(st, Mapped(spec), Mapped(run), enough)
  {
    hide Values, ToMap;
  }

  lemma FilledAgrees(p: Platform, dr: Defs, wf: seq<Field>, rf: seq<Field>, st: Stream,
                     spec: Parsed<map<string, Datum>>, run: Result<(map<string, Datum>, nat)>, enough: bool)
    requires Agrees(st, spec, run, enough)
    ensures Agrees(st, Filled(p, dr, wf, rf, spec), Filled(p, dr, wf, rf, run), enough)
  {
    if spec.Success? {
      FillDefaultsRaises(p, dr, wf, rf, 0, spec.value.0);
    }
    hide FillDefaults;
  }

  lemma ReadUnionMeans(p: Platform, dw: Defs, branches: seq<Schema>, dr: Defs, r: Schema, st: Stream, pos: nat, k: nat)
    requires Guarded(dw) && pos <= |st.data| && k > 0
    ensures
      var b := ReadBranch(branches, Tail(st, pos));
      Read(p, dw, Union(branches), dr, r, Tail(st, pos))
        == if b.Failure? then Failure(b.error) else Read(p, dw, b.value.0, dr, r, b.value.1)
    ensures
      var b := After(st, ReadBranch(branches, Tail(st, pos)));
      ReadAt(p, dw, Union(branches), dr, r, st, pos, k)
        == if b.Failure? then Failure(b.error) else ReadAt(p, dw, b.value.0, dr, r, st, b.value.1, k - 1)
  {
    hide Guarded, ReadBranch, After;
  }

  lemma ReadUnionStep(p: Platform, dw: Defs, branches: seq<Schema>, dr: Defs, r: Schema, st: Stream, pos: nat, k: nat,
                      enough: bool)
    requires Guarded(dw) && pos <= |st.data| && k > 0
    requires
      var b := ReadBranch(branches, Tail(st, pos));
      b.Success? ==>
        var pos' := |st.data| - |b.value.1|;
        Agrees(st, Read(p, dw, b.value.0, dr, r, Tail(st, pos')), ReadAt(p, dw, b.value.0, dr, r, st, pos', k - 1),
               enough)
    ensures Agrees(st, Read(p, dw, Union(branches), dr, r, Tail(st, pos)),
                   ReadAt(p, dw, Union(branches), dr, r, st, pos, k), enough)
  {
    hide Guarded, ReadBranch, Read, ReadAt, Agrees, After;
    var b := ReadBranch(branches, Tail(st, pos));
    BranchAgrees(st, pos, branches);
    ReadUnionMeans(p, dw, branches, dr, r, st, pos, k);
    Then(st, b, After(st, b), true,
         Read(p, dw, Union(branches), dr, r, Tail(st, pos)), ReadAt(p, dw, Union(branches), dr, r, st, pos, k), enough);
  }

  lemma ReadLeafRefines(p: Platform, dw: Defs, w: Schema, dr: Defs, r: Schema, st: Stream, pos: nat, k: nat)
    requires Guarded(dw) && pos <= |st.data| && k > 0 && Match(dw, w, dr, r) && !r.Union?
    requires w.Prim? || (w.Named? && w.fullname in dw && !dw[w.fullname].Record?)
    ensures Agrees(st, Read(p, dw, w, dr, r, Tail(st, pos)), ReadAt(p, dw, w, dr, r, st, pos, k), true)
  {
    MatchShape(dw, w, dr, r);
    var bs := Tail(st, pos);
    if w.Prim? {
      PrimitiveLeaves(p, w.prim, bs);
      AfterAgrees(st, pos, ReadPrimitive(p, w.prim, bs));
      hide ReadPrimitive, Leaves;
    } else if dw[w.fullname].Fixed? {
      AfterAgrees(st, pos, Success(Take(dw[w.fullname].size, bs)));
      hide Take, Leaves;
    } else {
      var written, wanted := dw[w.fullname].symbols, dr[r.fullname].symbols;
      IndexLeaves(bs, [], written, wanted);
      AfterAgrees(st, pos, ReadSymbol(written, wanted, bs));
      hide ReadSymbol, Leaves;
    }
    hide Guarded, Match;
  }

  lemma ReadItemsMeans(p: Platform, keyed: bool, dw: Defs, w: Schema, dr: Defs, r: Schema, n: nat, bs: seq<byte>,
                       acc: seq<(string, Datum)>)
    requires Guarded(dw)
    ensures n == 0 ==> ReadItems(p, keyed, dw, w, dr, r, n, bs, acc) == ReadBlock(p, keyed, dw, w, dr, r, bs, acc)
    ensures n > 0 ==>
      var key := ReadKey(p, keyed, bs);
      ReadItems(p, keyed, dw, w, dr, r, n, bs, acc) ==
        if key.Failure? then Failure(key.error)
        else
          var d := Read(p, dw, w, dr, r, key.value.1);
          if d.Failure? then Failure(d.error)
          else ReadItems(p, keyed, dw, w, dr, r, n - 1, d.value.1, acc + [(key.value.0, d.value.0)])
  {
    hide Guarded, Read, ReadKey, ReadBlock;
  }

  lemma ReadItemsAtMeans(p: Platform, keyed: bool, dw: Defs, w: Schema, dr: Defs, r: Schema, n: nat, st: Stream,
                         pos: nat, acc: seq<(string, Datum)>, k: nat)
    requires pos <= |st.data| && k > 0
    ensures n == 0 ==>
      ReadItemsAt(p, keyed, dw, w, dr, r, n, st, pos, acc, k) ==
        ReadBlockAt(p, keyed, dw, w, dr, r, st, pos, acc, k - 1)
    ensures n > 0 ==>
      var key := After(st, ReadKey(p, keyed, Tail(st, pos)));
      ReadItemsAt(p, keyed, dw, w, dr, r, n, st, pos, acc, k) ==
        if key.Failure? then Failure(key.error)
        else
          var d := ReadAt(p, dw, w, dr, r, st, key.value.1, k - 1);
          if d.Failure? then Failure(d.error)
          else ReadItemsAt(p, keyed, dw, w, dr, r, n - 1, st, d.value.1, acc + [(key.value.0, d.value.0)], k - 1)
  {
    hide ReadAt, ReadKey, ReadBlockAt, After;
  }

  lemma ReadKeyAgrees(p: Platform, keyed: bool, st: Stream, pos: nat)
    requires pos <= |st.data|
    ensures Agrees(st, ReadKey(p, keyed, Tail(st, pos)), After(st, ReadKey(p, keyed, Tail(st, pos))), true)
  {
    BytesLeave(p, Tail(st, pos));
    AfterAgrees(st, pos, ReadKey(p, keyed, Tail(st, pos)));
    hide ReadKey;
  }

  lemma ReadItemsStep(p: Platform, keyed: bool, dw: Defs, w: Schema, dr: Defs, r: Schema, n: nat, st: Stream, pos: nat,
                      acc: seq<(string, Datum)>, k: nat, enough: bool)
    requires Guarded(dw) && pos <= |st.data| && k > 0 && n > 0
    requires
      var key := ReadKey(p, keyed, Tail(st, pos));
      key.Success? ==>
        var pos' := |st.data| - |key.value.1|;
        && Agrees(st, Read(p, dw, w, dr, r, Tail(st, pos')), ReadAt(p, dw, w, dr, r, st, pos', k - 1), enough)
        && var d := Read(p, dw, w, dr, r, Tail(st, pos'));
           d.Success? ==>
             var pos'', acc' := |st.data| - |d.value.1|, acc + [(key.value.0, d.value.0)];
             Agrees(st, ReadItems(p, keyed, dw, w, dr, r, n - 1, Tail(st, pos''), acc'),
                    ReadItemsAt(p, keyed, dw, w, dr, r, n - 1, st, pos'', acc', k - 1), enough)
    ensures
      Agrees(st, ReadItems(p, keyed, dw, w, dr, r, n, Tail(st, pos), acc),
             ReadItemsAt(p, keyed, dw, w, dr, r, n, st, pos, acc, k), enough)
  {
    hide Guarded, ReadKey, Read, ReadAt, ReadItems, ReadItemsAt, Agrees, After;
    var key := ReadKey(p, keyed, Tail(st, pos));
    ReadKeyAgrees(p, keyed, st, pos);
    ReadItemsMeans(p, keyed, dw, w, dr, r, n, Tail(st, pos), acc);
    ReadItemsAtMeans(p, keyed, dw, w, dr, r, n, st, pos, acc, k);
    var whole := ReadItems(p, keyed, dw, w, dr, r, n, Tail(st, pos), acc);
    var all := ReadItemsAt(p, keyed, dw, w, dr, r, n, st, pos, acc, k);
    if Arrived(st, key, After(st, key)) {
      var pos' := |st.data| - |key.value.1|;
      Then(st, Read(p, dw, w, dr, r, key.value.1), ReadAt(p, dw, w, dr, r, st, pos', k - 1), enough, whole, all,
           enough);
    }
    Then(st, key, After(st, key), true, whole, all, enough);
  }

  lemma ReadBlockMeans(p: Platform, keyed: bool, dw: Defs, w: Schema, dr: Defs, r: Schema, st: Stream, pos: nat,
                       acc: seq<(string, Datum)>, k: nat)
    requires Guarded(dw) && pos <= |st.data| && k > 0
    ensures
      var head := ReadHead(Tail(st, pos));
      ReadBlock(p, keyed, dw, w, dr, r, Tail(st, pos), acc) ==
        if head.Failure? then Failure(head.error)
        else if head.value.0.count == 0 then Success((acc, head.value.1))
        else ReadItems(p, keyed, dw, w, dr, r, head.value.0.count, head.value.1, acc)
    ensures
      var head := After(st, ReadHead(Tail(st, pos)));
      ReadBlockAt(p, keyed, dw, w, dr, r, st, pos, acc, k) ==
        if head.Failure? then Failure(head.error)
        else if head.value.0.count == 0 then Success((acc, head.value.1))
        else ReadItemsAt(p, keyed, dw, w, dr, r, head.value.0.count, st, head.value.1, acc, k - 1)
  {
    hide Guarded, ReadHead, ReadItems, ReadItemsAt, After;
  }

  lemma ReadBlockStep(p: Platform, keyed: bool, dw: Defs, w: Schema, dr: Defs, r: Schema, st: Stream, pos: nat,
                      acc: seq<(string, Datum)>, k: nat, enough: bool)
    requires Guarded(dw) && pos <= |st.data| && k > 0
    requires
      var head := ReadHead(Tail(st, pos));
      head.Success? && head.value.0.count > 0 ==>
        var pos' := |st.data| - |head.value.1|;
        Agrees(st, ReadItems(p, keyed, dw, w, dr, r, head.value.0.count, Tail(st, pos'), acc),
               ReadItemsAt(p, keyed, dw, w, dr, r, head.value.0.count, st, pos', acc, k - 1), enough)
    ensures
      Agrees(st, ReadBlock(p, keyed, dw, w, dr, r, Tail(st, pos), acc),
             ReadBlockAt(p, keyed, dw, w, dr, r, st, pos, acc, k), enough)
  {
    hide Guarded, ReadHead, ReadItems, ReadItemsAt, ReadBlock, ReadBlockAt, After;
    var head := ReadHead(Tail(st, pos));
    HeadAgrees(st, pos);
    ReadBlockMeans(p, keyed, dw, w, dr, r, st, pos, acc, k);
    Then(st, head, After(st, head), true, ReadBlock(p, keyed, dw, w, dr, r, Tail(st, pos), acc),
         ReadBlockAt(p, keyed, dw, w, dr, r, st, pos, acc, k), enough);
  }

  /** What is left of ReadFields after a field that is read, or skipped. */
  lemma ReadFieldsMeans(p: Platform, dw: Defs, n: string, dr: Defs, rf: seq<Field>, i: nat, st: Stream, pos: nat,
                        acc: map<string, Datum>, k: nat)
    requires Guarded(dw) && n in dw && dw[n].Record? && i < |dw[n].fields| && pos <= |st.data| && k > 0
    ensures
      var f := dw[n].fields[i];
      var field := FindField(rf, f.name);
      if field.Some? then
        var (d, ran) := (Read(p, dw, f.ftype, dr, field.value.ftype, Tail(st, pos)),
                         ReadAt(p, dw, f.ftype, dr, field.value.ftype, st, pos, k - 1));
        && ReadFields(p, dw, n, dr, rf, i, Tail(st, pos), acc)
             == (if d.Failure? then Failure(d.error)
                 else ReadFields(p, dw, n, dr, rf, i + 1, d.value.1, acc[f.name := d.value.0]))
        && ReadFieldsAt(p, dw, n, dr, rf, i, st, pos, acc, k)
             == (if ran.Failure? then Failure(ran.error)
                 else ReadFieldsAt(p, dw, n, dr, rf, i + 1, st, ran.value.1, acc[f.name := ran.value.0], k - 1))
      else
        var (skip, ran) := (Skip(dw, f.ftype, Tail(st, pos)), SkipAt(dw, f.ftype, st, pos, k - 1));
        && ReadFields(p, dw, n, dr, rf, i, Tail(st, pos), acc)
             == (if skip.Failure? then Failure(skip.error) else ReadFields(p, dw, n, dr, rf, i + 1, skip.value, acc))
        && ReadFieldsAt(p, dw, n, dr, rf, i, st, pos, acc, k)
             == (if ran.Failure? then Failure(ran.error)
                 else ReadFieldsAt(p, dw, n, dr, rf, i + 1, st, ran.value, acc, k - 1))
  {
    hide Guarded, Read, ReadAt, Skip, SkipAt, FindField;
  }

  /** A field the reader has, too. */
  lemma ReadFieldStep(p: Platform, dw: Defs, n: string, dr: Defs, rf: seq<Field>, i: nat, st: Stream, pos: nat,
                      acc: map<string, Datum>, k: nat, enough: bool)
    requires Guarded(dw) && n in dw && dw[n].Record? && i < |dw[n].fields| && pos <= |st.data| && k > 0
    requires FindField(rf, dw[n].fields[i].name).Some?
    requires
      var f := dw[n].fields[i];
      var r := FindField(rf, f.name).value.ftype;
      var d := Read(p, dw, f.ftype, dr, r, Tail(st, pos));
      && Agrees(st, d, ReadAt(p, dw, f.ftype, dr, r, st, pos, k - 1), enough)
      && (d.Success? ==>
            var pos', acc' := |st.data| - |d.value.1|, acc[f.name := d.value.0];
            Agrees(st, ReadFields(p, dw, n, dr, rf, i + 1, Tail(st, pos'), acc'),
                   ReadFieldsAt(p, dw, n, dr, rf, i + 1, st, pos', acc', k - 1), enough))
    ensures
      Agrees(st, ReadFields(p, dw, n, dr, rf, i, Tail(st, pos), acc),
             ReadFieldsAt(p, dw, n, dr, rf, i, st, pos, acc, k), enough)
  {
    hide Guarded, Read, ReadAt, ReadFields, ReadFieldsAt, Agrees, FindField;
    var f := dw[n].fields[i];
    var r := FindField(rf, f.name).value.ftype;
    ReadFieldsMeans(p, dw, n, dr, rf, i, st, pos, acc, k);
    Then(st, Read(p, dw, f.ftype, dr, r, Tail(st, pos)), ReadAt(p, dw, f.ftype, dr, r, st, pos, k - 1), enough,
         ReadFields(p, dw, n, dr, rf, i, Tail(st, pos), acc),
         ReadFieldsAt(p, dw, n, dr, rf, i, st, pos, acc, k), enough);
  }

  /** A field only the writer has. */
  lemma SkippedFieldStep(p: Platform, dw: Defs, n: string, dr: Defs, rf: seq<Field>, i: nat, st: Stream, pos: nat,
                         acc: map<string, Datum>, k: nat, enough: bool)
    requires Guarded(dw) && n in dw && dw[n].Record? && i < |dw[n].fields| && pos <= |st.data| && k > 0
    requires FindField(rf, dw[n].fields[i].name).None?
    requires
      var w := dw[n].fields[i].ftype;
      var skip := Skip(dw, w, Tail(st, pos));
      && Moves(st, skip, SkipAt(dw, w, st, pos, k - 1), enough)
      && (skip.Success? ==>
            var pos' := |st.data| - |skip.value|;
            Agrees(st, ReadFields(p, dw, n, dr, rf, i + 1, Tail(st, pos'), acc),
                   ReadFieldsAt(p, dw, n, dr, rf, i + 1, st, pos', acc, k - 1), enough))
    ensures
      Agrees(st, ReadFields(p, dw, n, dr, rf, i, Tail(st, pos), acc),
             ReadFieldsAt(p, dw, n, dr, rf, i, st, pos, acc, k), enough)
  {
    hide Guarded, Skip, SkipAt, ReadFields, ReadFieldsAt, Agrees, FindField;
    var w := dw[n].fields[i].ftype;
    ReadFieldsMeans(p, dw, n, dr, rf, i, st, pos, acc, k);
    Then(st, Unit(Skip(dw, w, Tail(st, pos))), Unit(SkipAt(dw, w, st, pos, k - 1)), enough,
         ReadFields(p, dw, n, dr, rf, i, Tail(st, pos), acc),
         ReadFieldsAt(p, dw, n, dr, rf, i, st, pos, acc, k), enough);
  }

  // The recursion: how many steps are enough

  lemma {:induction false} ReadRefines(p: Platform, dw: Defs, w: Schema, dr: Defs, r: Schema, st: Stream, pos: nat)
    returns (e: nat)
    requires Guarded(dw) && pos <= |st.data|
    ensures forall k: nat ::
      Agrees(st, Read(p, dw, w, dr, r, Tail(st, pos)), ReadAt(p, dw, w, dr, r, st, pos, k), k >= e)
    decreases |st.data| - pos, Height(dw, w), 2, r
  {
    if !Match(dw, w, dr, r) {
      e := 1;
      Mismatch(p, dw, w, dr, r, st, pos);
    } else if w.Union? {
      e := WriterUnionRefines(p, dw, w, dr, r, st, pos);
    } else if r.Union? {
      hide Guarded, Agrees, Match, Read, FirstMatch;
      assert ReadAt(p, dw, w, dr, r, st, pos, 0) == Failure(OutOfSteps);
      hide ReadAt;
      var i := FirstMatch(dw, w, dr, r.branches);
      var e' := 0;
      if i < |r.branches| {
        e' := ReadRefines(p, dw, w, dr, r.branches[i], st, pos);
      }
      e := e' + 1;
      forall k: nat | k > 0
        ensures Agrees(st, Read(p, dw, w, dr, r, Tail(st, pos)), ReadAt(p, dw, w, dr, r, st, pos, k), k >= e)
      {
        ReaderUnionStep(p, dw, w, dr, r, st, pos, k, k >= e);
      }
      NoSteps(st, Read(p, dw, w, dr, r, Tail(st, pos)));
    } else {
      hide Guarded, Agrees, Match, Read, ReadAt;
      MatchShape(dw, w, dr, r);
      if w.Array? || w.Map? {
        e := CollectionRefines(p, dw, w, dr, r, st, pos);
      } else if w.Named? && dw[w.fullname].Record? {
        e := RecordRefines(p, dw, w.fullname, dr, r.fullname, st, pos);
      } else {
        e := 1;
        LeafRefines(p, dw, w, dr, r, st, pos);
      }
    }
  }

  lemma {:induction false} WriterUnionRefines(p: Platform, dw: Defs, w: Schema, dr: Defs, r: Schema, st: Stream,
                                              pos: nat)
    returns (e: nat)
    requires Guarded(dw) && pos <= |st.data| && w.Union?
    ensures forall k: nat ::
      Agrees(st, Read(p, dw, w, dr, r, Tail(st, pos)), ReadAt(p, dw, w, dr, r, st, pos, k), k >= e)
    decreases |st.data| - pos, Height(dw, w), 1, r
  {
    hide Guarded, Agrees, Read, ReadBranch;
    assert ReadAt(p, dw, w, dr, r, st, pos, 0) == Failure(OutOfSteps);
    hide ReadAt;
    var e' := 0;
    var b := ReadBranch(w.branches, Tail(st, pos));
    if b.Success? {
      e' := ReadRefines(p, dw, b.value.0, dr, r, st, |st.data| - |b.value.1|);
    }
    e := e' + 1;
    forall k: nat | k > 0
      ensures Agrees(st, Read(p, dw, w, dr, r, Tail(st, pos)), ReadAt(p, dw, w, dr, r, st, pos, k), k >= e)
    {
      ReadUnionStep(p, dw, w.branches, dr, r, st, pos, k, k >= e);
    }
    NoSteps(st, Read(p, dw, w, dr, r, Tail(st, pos)));
  }

  lemma LeafRefines(p: Platform, dw: Defs, w: Schema, dr: Defs, r: Schema, st: Stream, pos: nat)
    requires Guarded(dw) && pos <= |st.data| && Match(dw, w, dr, r) && !r.Union?
    requires w.Prim? || (w.Named? && w.fullname in dw && !dw[w.fullname].Record?)
    ensures forall k: nat ::
      Agrees(st, Read(p, dw, w, dr, r, Tail(st, pos)), ReadAt(p, dw, w, dr, r, st, pos, k), k >= 1)
  {
    hide Guarded, Agrees, Read, Match;
    assert ReadAt(p, dw, w, dr, r, st, pos, 0) == Failure(OutOfSteps);
    hide ReadAt;
    forall k: nat | k > 0
      ensures Agrees(st, Read(p, dw, w, dr, r, Tail(st, pos)), ReadAt(p, dw, w, dr, r, st, pos, k), k >= 1)
    {
      ReadLeafRefines(p, dw, w, dr, r, st, pos, k);
    }
    NoSteps(st, Read(p, dw, w, dr, r, Tail(st, pos)));
  }

  lemma {:induction false} CollectionRefines(p: Platform, dw: Defs, w: Schema, dr: Defs, r: Schema, st: Stream,
                                             pos: nat)
    returns (e: nat)
    requires Guarded(dw) && pos <= |st.data| && Match(dw, w, dr, r) && ((w.Array? && r.Array?) || (w.Map? && r.Map?))
    ensures forall k: nat ::
      Agrees(st, Read(p, dw, w, dr, r, Tail(st, pos)), ReadAt(p, dw, w, dr, r, st, pos, k), k >= e)
    decreases |st.data| - pos, Height(dw, w), 1, r
  {
    hide Guarded, Agrees, Read, Match, ReadBlock, ReadBlockAt;
    assert ReadAt(p, dw, w, dr, r, st, pos, 0) == Failure(OutOfSteps);
    hide ReadAt;
    var keyed := w.Map?;
    var (wi, ri) := (if keyed then w.values else w.items, if keyed then r.values else r.items);
    var e' := ReadBlockRefines(p, keyed, dw, wi, dr, ri, st, pos, []);
    e := e' + 1;
    forall k: nat | k > 0
      ensures Agrees(st, Read(p, dw, w, dr, r, Tail(st, pos)), ReadAt(p, dw, w, dr, r, st, pos, k), k >= e)
    {
      ReadMeans(p, dw, w, dr, r, st, pos, k);
      var spec := ReadBlock(p, keyed, dw, wi, dr, ri, Tail(st, pos), []);
      var run := ReadBlockAt(p, keyed, dw, wi, dr, ri, st, pos, [], k - 1);
      Fewer(st, spec, run, k - 1 >= e', k >= e);
      ListedAgrees(st, spec, run, k >= e);
    }
    NoSteps(st, Read(p, dw, w, dr, r, Tail(st, pos)));
  }

  lemma {:induction false} RecordRefines(p: Platform, dw: Defs, n: string, dr: Defs, rn: string, st: Stream, pos: nat)
    returns (e: nat)
    requires Guarded(dw) && pos <= |st.data| && n in dw && dw[n].Record? && rn in dr && dr[rn].Record?
    requires Match(dw, Named(n), dr, Named(rn))
    ensures forall k: nat ::
      Agrees(st, Read(p, dw, Named(n), dr, Named(rn), Tail(st, pos)),
             ReadAt(p, dw, Named(n), dr, Named(rn), st, pos, k), k >= e)
    decreases |st.data| - pos, Height(dw, Named(n)), 1, Named(rn)
  {
    hide Guarded, Agrees, Read, Match, ReadFields, ReadFieldsAt, Filled;
    assert ReadAt(p, dw, Named(n), dr, Named(rn), st, pos, 0) == Failure(OutOfSteps);
    hide ReadAt;
    var (wf, rf) := (dw[n].fields, dr[rn].fields);
    var e' := ReadFieldsRefines(p, dw, n, dr, rf, 0, st, pos, map[]);
    e := e' + 1;
    forall k: nat | k > 0
      ensures Agrees(st, Read(p, dw, Named(n), dr, Named(rn), Tail(st, pos)),
                     ReadAt(p, dw, Named(n), dr, Named(rn), st, pos, k), k >= e)
    {
      ReadMeans(p, dw, Named(n), dr, Named(rn), st, pos, k);
      var spec := ReadFields(p, dw, n, dr, rf, 0, Tail(st, pos), map[]);
      var run := ReadFieldsAt(p, dw, n, dr, rf, 0, st, pos, map[], k - 1);
      Fewer(st, spec, run, k - 1 >= e', k >= e);
      FilledAgrees(p, dr, wf, rf, st, spec, run, k >= e);
    }
    NoSteps(st, Read(p, dw, Named(n), dr, Named(rn), Tail(st, pos)));
  }

  lemma Mismatch(p: Platform, dw: Defs, w: Schema, dr: Defs, r: Schema, st: Stream, pos: nat)
    requires Guarded(dw) && pos <= |st.data| && !Match(dw, w, dr, r)
    ensures forall k: nat ::
      Agrees(st, Read(p, dw, w, dr, r, Tail(st, pos)), ReadAt(p, dw, w, dr, r, st, pos, k), k >= 1)
  {
    hide Guarded, Match;
  }

  lemma ReaderUnionStep(p: Platform, dw: Defs, w: Schema, dr: Defs, r: Schema, st: Stream, pos: nat, k: nat,
                        enough: bool)
    requires Guarded(dw) && pos <= |st.data| && k > 0 && Match(dw, w, dr, r) && !w.Union? && r.Union?
    requires
      var i := FirstMatch(dw, w, dr, r.branches);
      i < |r.branches| ==>
        Agrees(st, Read(p, dw, w, dr, r.branches[i], Tail(st, pos)),
               ReadAt(p, dw, w, dr, r.branches[i], st, pos, k - 1), enough)
    ensures Agrees(st, Read(p, dw, w, dr, r, Tail(st, pos)), ReadAt(p, dw, w, dr, r, st, pos, k), enough)
  {
    hide Guarded, FirstMatch, Match;
  }

  lemma {:induction false} ReadItemsRefines(p: Platform, keyed: bool, dw: Defs, w: Schema, dr: Defs, r: Schema, n: nat,
                                            st: Stream, pos: nat, acc: seq<(string, Datum)>) returns (e: nat)
    requires Guarded(dw) && pos <= |st.data|
    ensures forall k: nat ::
      Agrees(st, ReadItems(p, keyed, dw, w, dr, r, n, Tail(st, pos), acc),
             ReadItemsAt(p, keyed, dw, w, dr, r, n, st, pos, acc, k), k >= e)
    decreases |st.data| - pos, if n == 0 then 0 else Height(dw, w) + 1, 1, n
  {
    hide Guarded, Agrees, Read, ReadAt, ReadBlock, ReadBlockAt, ReadItems, ReadItemsAt, ReadKey;
    if n == 0 {
      e := ReadBlockRefines(p, keyed, dw, w, dr, r, st, pos, acc);
      NoItemsRefine(p, keyed, dw, w, dr, r, st, pos, acc, e);
      e := e + 1;
      return;
    }
    var e1, e2, pos', pos'', acc' := 0, 0, pos, pos, acc;
    var key := ReadKey(p, keyed, Tail(st, pos));
    if key.Success? {
      pos' := |st.data| - |key.value.1|;
      e1 := ReadRefines(p, dw, w, dr, r, st, pos');
      var d := Read(p, dw, w, dr, r, Tail(st, pos'));
      if d.Success? {
        pos'', acc' := |st.data| - |d.value.1|, acc + [(key.value.0, d.value.0)];
        e2 := ReadItemsRefines(p, keyed, dw, w, dr, r, n - 1, st, pos'', acc');
      }
    }
    e := Max(e1, e2) + 1;
    forall k: nat
      ensures Agrees(st, ReadItems(p, keyed, dw, w, dr, r, n, Tail(st, pos), acc),
                     ReadItemsAt(p, keyed, dw, w, dr, r, n, st, pos, acc, k), k >= e)
    {
      if k == 0 {
        NoItemSteps(p, keyed, dw, w, dr, r, n, st, pos, acc);
      } else {
        if key.Success? {
          var d := Read(p, dw, w, dr, r, Tail(st, pos'));
          Fewer(st, d, ReadAt(p, dw, w, dr, r, st, pos', k - 1), k - 1 >= e1, k >= e);
          if d.Success? {
            Fewer(st, ReadItems(p, keyed, dw, w, dr, r, n - 1, Tail(st, pos''), acc'),
                  ReadItemsAt(p, keyed, dw, w, dr, r, n - 1, st, pos'', acc', k - 1), k - 1 >= e2, k >= e);
          }
        }
        ReadItemsStep(p, keyed, dw, w, dr, r, n, st, pos, acc, k, k >= e);
      }
    }
  }

  lemma NoItemSteps(p: Platform, keyed: bool, dw: Defs, w: Schema, dr: Defs, r: Schema, n: nat, st: Stream, pos: nat,
                    acc: seq<(string, Datum)>)
    requires Guarded(dw) && pos <= |st.data|
    ensures Agrees(st, ReadItems(p, keyed, dw, w, dr, r, n, Tail(st, pos), acc),
                   ReadItemsAt(p, keyed, dw, w, dr, r, n, st, pos, acc, 0), false)
  {
    hide Guarded, Agrees, ReadItems;
    NoSteps(st, ReadItems(p, keyed, dw, w, dr, r, n, Tail(st, pos), acc));
  }

  /** When the items of a block have been read, the next block follows. */
  lemma NoItemsRefine(p: Platform, keyed: bool, dw: Defs, w: Schema, dr: Defs, r: Schema, st: Stream, pos: nat,
                      acc: seq<(string, Datum)>, e: nat)
    requires Guarded(dw) && pos <= |st.data|
    requires forall k: nat ::
      Agrees(st, ReadBlock(p, keyed, dw, w, dr, r, Tail(st, pos), acc),
             ReadBlockAt(p, keyed, dw, w, dr, r, st, pos, acc, k), k >= e)
    ensures forall k: nat ::
      Agrees(st, ReadItems(p, keyed, dw, w, dr, r, 0, Tail(st, pos), acc),
             ReadItemsAt(p, keyed, dw, w, dr, r, 0, st, pos, acc, k), k >= e + 1)
  {
    hide Guarded, Agrees, ReadBlock, ReadBlockAt, ReadItems, ReadItemsAt;
    var spec := ReadItems(p, keyed, dw, w, dr, r, 0, Tail(st, pos), acc);
    ReadItemsMeans(p, keyed, dw, w, dr, r, 0, Tail(st, pos), acc);
    forall k: nat
      ensures Agrees(st, spec, ReadItemsAt(p, keyed, dw, w, dr, r, 0, st, pos, acc, k), k >= e + 1)
    {
      if k == 0 {
        NoItemSteps(p, keyed, dw, w, dr, r, 0, st, pos, acc);
      } else {
        ReadItemsAtMeans(p, keyed, dw, w, dr, r, 0, st, pos, acc, k);
        Fewer(st, spec, ReadBlockAt(p, keyed, dw, w, dr, r, st, pos, acc, k - 1), k - 1 >= e, k >= e + 1);
      }
    }
  }

  lemma {:induction false} ReadBlockRefines(p: Platform, keyed: bool, dw: Defs, w: Schema, dr: Defs, r: Schema,
                                            st: Stream, pos: nat, acc: seq<(string, Datum)>) returns (e: nat)
    requires Guarded(dw) && pos <= |st.data|
    ensures forall k: nat ::
      Agrees(st, ReadBlock(p, keyed, dw, w, dr, r, Tail(st, pos), acc),
             ReadBlockAt(p, keyed, dw, w, dr, r, st, pos, acc, k), k >= e)
    decreases |st.data| - pos, 0, 0, 0
  {
    hide Guarded, Agrees, ReadItems, ReadItemsAt, ReadBlock, ReadHead;
    assert ReadBlockAt(p, keyed, dw, w, dr, r, st, pos, acc, 0) == Failure(OutOfSteps);
    hide ReadBlockAt;
    var spec := ReadBlock(p, keyed, dw, w, dr, r, Tail(st, pos), acc);
    var e' := 0;
    var head := ReadHead(Tail(st, pos));
    if head.Success? && head.value.0.count > 0 {
      e' := ReadItemsRefines(p, keyed, dw, w, dr, r, head.value.0.count, st, |st.data| - |head.value.1|, acc);
    }
    e := e' + 1;
    forall k: nat | k > 0 ensures Agrees(st, spec, ReadBlockAt(p, keyed, dw, w, dr, r, st, pos, acc, k), k >= e) {
      if head.Success? && head.value.0.count > 0 {
        var pos' := |st.data| - |head.value.1|;
        Fewer(st, ReadItems(p, keyed, dw, w, dr, r, head.value.0.count, Tail(st, pos'), acc),
              ReadItemsAt(p, keyed, dw, w, dr, r, head.value.0.count, st, pos', acc, k - 1), k - 1 >= e', k >= e);
      }
      ReadBlockStep(p, keyed, dw, w, dr, r, st, pos, acc, k, k >= e);
    }
    NoSteps(st, spec);
  }

  lemma {:induction false} ReadFieldsRefines(p: Platform, dw: Defs, n: string, dr: Defs, rf: seq<Field>, i: nat,
                                             st: Stream, pos: nat, acc: map<string, Datum>) returns (e: nat)
    requires Guarded(dw) && n in dw && dw[n].Record? && i <= |dw[n].fields| && pos <= |st.data|
    ensures forall k: nat ::
      Agrees(st, ReadFields(p, dw, n, dr, rf, i, Tail(st, pos), acc),
             ReadFieldsAt(p, dw, n, dr, rf, i, st, pos, acc, k), k >= e)
    decreases |st.data| - pos, Height(dw, Named(n)), 0, |dw[n].fields| - i, 1
  {
    if i == |dw[n].fields| {
      e := 1;
      EndOfFields(p, dw, n, dr, rf, st, pos, acc);
    } else if FindField(rf, dw[n].fields[i].name).Some? {
      e := ReadFieldRefines(p, dw, n, dr, rf, i, st, pos, acc);
    } else {
      e := SkippedFieldRefines(p, dw, n, dr, rf, i, st, pos, acc);
    }
  }

  lemma {:induction false} ReadFieldRefines(p: Platform, dw: Defs, n: string, dr: Defs, rf: seq<Field>, i: nat,
                                            st: Stream, pos: nat, acc: map<string, Datum>) returns (e: nat)
    requires Guarded(dw) && n in dw && dw[n].Record? && i < |dw[n].fields| && pos <= |st.data|
    requires FindField(rf, dw[n].fields[i].name).Some?
    ensures forall k: nat ::
      Agrees(st, ReadFields(p, dw, n, dr, rf, i, Tail(st, pos), acc),
             ReadFieldsAt(p, dw, n, dr, rf, i, st, pos, acc, k), k >= e)
    decreases |st.data| - pos, Height(dw, Named(n)), 0, |dw[n].fields| - i, 0
  {
    hide Guarded, Agrees, Read, ReadAt, ReadFields, FindField;
    assert ReadFieldsAt(p, dw, n, dr, rf, i, st, pos, acc, 0) == Failure(OutOfSteps);
    hide ReadFieldsAt;
    FieldIsLower(dw, n, i);
    var f := dw[n].fields[i];
    var r := FindField(rf, f.name).value.ftype;
    var spec, d := ReadFields(p, dw, n, dr, rf, i, Tail(st, pos), acc), Read(p, dw, f.ftype, dr, r, Tail(st, pos));
    var e1 := ReadRefines(p, dw, f.ftype, dr, r, st, pos);
    var e2, pos', acc' := 0, pos, acc;
    if d.Success? {
      pos', acc' := |st.data| - |d.value.1|, acc[f.name := d.value.0];
      e2 := ReadFieldsRefines(p, dw, n, dr, rf, i + 1, st, pos', acc');
    }
    e := Max(e1, e2) + 1;
    forall k: nat | k > 0 ensures Agrees(st, spec, ReadFieldsAt(p, dw, n, dr, rf, i, st, pos, acc, k), k >= e) {
      Fewer(st, d, ReadAt(p, dw, f.ftype, dr, r, st, pos, k - 1), k - 1 >= e1, k >= e);
      if d.Success? {
        Fewer(st, ReadFields(p, dw, n, dr, rf, i + 1, Tail(st, pos'), acc'),
              ReadFieldsAt(p, dw, n, dr, rf, i + 1, st, pos', acc', k - 1), k - 1 >= e2, k >= e);
      }
      ReadFieldStep(p, dw, n, dr, rf, i, st, pos, acc, k, k >= e);
    }
    NoSteps(st, spec);
  }

  lemma {:induction false} SkippedFieldRefines(p: Platform, dw: Defs, n: string, dr: Defs, rf: seq<Field>, i: nat,
                                               st: Stream, pos: nat, acc: map<string, Datum>) returns (e: nat)
    requires Guarded(dw) && n in dw && dw[n].Record? && i < |dw[n].fields| && pos <= |st.data|
    requires FindField(rf, dw[n].fields[i].name).None?
    ensures forall k: nat ::
      Agrees(st, ReadFields(p, dw, n, dr, rf, i, Tail(st, pos), acc),
             ReadFieldsAt(p, dw, n, dr, rf, i, st, pos, acc, k), k >= e)
    decreases |st.data| - pos, Height(dw, Named(n)), 0, |dw[n].fields| - i, 0
  {
    hide Guarded, Agrees, Skip, SkipAt, ReadFields, FindField;
    assert ReadFieldsAt(p, dw, n, dr, rf, i, st, pos, acc, 0) == Failure(OutOfSteps);
    hide ReadFieldsAt;
    FieldIsLower(dw, n, i);
    var w := dw[n].fields[i].ftype;
    var spec, skip := ReadFields(p, dw, n, dr, rf, i, Tail(st, pos), acc), Skip(dw, w, Tail(st, pos));
    var e1 := SkipRefines(dw, w, st, pos);
    var e2, pos' := 0, pos;
    if skip.Success? {
      pos' := |st.data| - |skip.value|;
      e2 := ReadFieldsRefines(p, dw, n, dr, rf, i + 1, st, pos', acc);
    }
    e := Max(e1, e2) + 1;
    forall k: nat | k > 0 ensures Agrees(st, spec, ReadFieldsAt(p, dw, n, dr, rf, i, st, pos, acc, k), k >= e) {
      Fewer(st, Unit(skip), Unit(SkipAt(dw, w, st, pos, k - 1)), k - 1 >= e1, k >= e);
      if skip.Success? {
        Fewer(st, ReadFields(p, dw, n, dr, rf, i + 1, Tail(st, pos'), acc),
              ReadFieldsAt(p, dw, n, dr, rf, i + 1, st, pos', acc, k - 1), k - 1 >= e2, k >= e);
      }
      SkippedFieldStep(p, dw, n, dr, rf, i, st, pos, acc, k, k >= e);
    }
    NoSteps(st, spec);
  }

  lemma EndOfFields(p: Platform, dw: Defs, n: string, dr: Defs, rf: seq<Field>, st: Stream, pos: nat,
                    acc: map<string, Datum>)
    requires Guarded(dw) && n in dw && dw[n].Record? && pos <= |st.data|
    ensures forall k: nat ::
      Agrees(st, ReadFields(p, dw, n, dr, rf, |dw[n].fields|, Tail(st, pos), acc),
             ReadFieldsAt(p, dw, n, dr, rf, |dw[n].fields|, st, pos, acc, k), k >= 1)
  {
    hide Guarded;
  }
}
