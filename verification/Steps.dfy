/** More steps never change the outcome of a run that has ended. */
module Steps {
  import opened Basics
  import opened Varint
  import opened Schemas
  import opened Encoding
  import opened Decoding
  import opened Execution
  import ReadRefinement

  /** The outcome of fewer steps, if they were enough, is the outcome of more. */
  predicate Kept<T(==)>(fewer: Result<T>, more: Result<T>) {
    fewer == Failure(OutOfSteps) || more == fewer
  }

  lemma {:induction false} MoreSkip(dw: Defs, w: Schema, st: Stream, pos: nat, k: nat, k': nat)
    requires pos <= |st.data| && k <= k'
    ensures Kept(SkipAt(dw, w, st, pos, k), SkipAt(dw, w, st, pos, k'))
    decreases k
  {
    hide ReadBranch, SkipPrimitiveAt, SkipLongAt, Seek, SkipBlockAt, SkipFieldsAt;
    if k > 0 {
      match w
      case Prim(_) =>
      case Array(items) => MoreSkipBlock(false, dw, items, st, pos, k - 1, k' - 1);
      case Map(values) => MoreSkipBlock(true, dw, values, st, pos, k - 1, k' - 1);
      case Union(branches) =>
        var b := After(st, ReadBranch(branches, Tail(st, pos)));
        if b.Success? {
          MoreSkip(dw, b.value.0, st, b.value.1, k - 1, k' - 1);
        }
      case Named(n) =>
        if n in dw && dw[n].Record? {
          MoreSkipFields(dw, n, 0, st, pos, k - 1, k' - 1);
        }
    }
  }

  lemma {:induction false} MoreSkipItems(keyed: bool, dw: Defs, w: Schema, n: nat, st: Stream, pos: nat, k: nat,
                                         k': nat)
    requires pos <= |st.data| && k <= k'
    ensures Kept(SkipItemsAt(keyed, dw, w, n, st, pos, k), SkipItemsAt(keyed, dw, w, n, st, pos, k'))
    decreases k
  {
    hide SkipAt, SkipKeyAt, SkipBlockAt;
    if k > 0 {
      if n == 0 {
        MoreSkipBlock(keyed, dw, w, st, pos, k - 1, k' - 1);
      } else {
        var key := SkipKeyAt(keyed, st, pos);
        if key.Success? {
          MoreSkip(dw, w, st, key.value, k - 1, k' - 1);
          var item := SkipAt(dw, w, st, key.value, k - 1);
          if item.Success? {
            MoreSkipItems(keyed, dw, w, n - 1, st, item.value, k - 1, k' - 1);
          }
        }
      }
    }
  }

  lemma {:induction false} MoreSkipBlock(keyed: bool, dw: Defs, w: Schema, st: Stream, pos: nat, k: nat, k': nat)
    requires pos <= |st.data| && k <= k'
    ensures Kept(SkipBlockAt(keyed, dw, w, st, pos, k), SkipBlockAt(keyed, dw, w, st, pos, k'))
    decreases k
  {
    hide ReadHead, SkipItemsAt, Seek;
    if k > 0 {
      var head := After(st, ReadHead(Tail(st, pos)));
      if head.Success? && head.value.0.count > 0 {
        if head.value.0.size.None? {
          MoreSkipItems(keyed, dw, w, head.value.0.count, st, head.value.1, k - 1, k' - 1);
        } else {
          var next := Seek(st, head.value.1, head.value.0.size.value);
          if next.Success? {
            MoreSkipBlock(keyed, dw, w, st, next.value, k - 1, k' - 1);
          }
        }
      }
    }
  }

  lemma {:induction false} MoreSkipFields(dw: Defs, n: string, i: nat, st: Stream, pos: nat, k: nat, k': nat)
    requires n in dw && dw[n].Record? && i <= |dw[n].fields| && pos <= |st.data| && k <= k'
    ensures Kept(SkipFieldsAt(dw, n, i, st, pos, k), SkipFieldsAt(dw, n, i, st, pos, k'))
    decreases k
  {
    hide SkipAt;
    if k > 0 && i < |dw[n].fields| {
      var w := dw[n].fields[i].ftype;
      MoreSkip(dw, w, st, pos, k - 1, k' - 1);
      var field := SkipAt(dw, w, st, pos, k - 1);
      if field.Success? {
        MoreSkipFields(dw, n, i + 1, st, field.value, k - 1, k' - 1);
      }
    }
  }

  lemma {:induction false} MoreRead(p: Platform, dw: Defs, w: Schema, dr: Defs, r: Schema, st: Stream, pos: nat, k: nat,
                                    k': nat)
    requires pos <= |st.data| && k <= k'
    ensures Kept(ReadAt(p, dw, w, dr, r, st, pos, k), ReadAt(p, dw, w, dr, r, st, pos, k'))
    decreases k
  {
    hide Match, FirstMatch, ReadBranch, ReadPrimitive, ReadSymbol, ReadBlockAt, ReadFieldsAt, FillDefaults, Values,
        ToMap, Take;
    if k > 0 && Match(dw, w, dr, r) {
      if !w.Union? && r.Union? {
        var i := FirstMatch(dw, w, dr, r.branches);
        if i < |r.branches| {
          MoreRead(p, dw, w, dr, r.branches[i], st, pos, k - 1, k' - 1);
        }
        return;
      }
      if !w.Union? {
        MatchShape(dw, w, dr, r);
      }
      match w
      case Prim(_) =>
      case Array(items) => MoreReadBlock(p, false, dw, items, dr, r.items, st, pos, [], k - 1, k' - 1);
      case Map(values) => MoreReadBlock(p, true, dw, values, dr, r.values, st, pos, [], k - 1, k' - 1);
      case Union(branches) =>
        var b := After(st, ReadBranch(branches, Tail(st, pos)));
        if b.Success? {
          MoreRead(p, dw, b.value.0, dr, r, st, b.value.1, k - 1, k' - 1);
        }
      case Named(n) =>
        if dw[n].Record? {
          MoreReadFields(p, dw, n, dr, dr[r.fullname].fields, 0, st, pos, map[], k - 1, k' - 1);
        }
    }
  }

  lemma {:induction false} MoreReadItems(p: Platform, keyed: bool, dw: Defs, w: Schema, dr: Defs, r: Schema, n: nat,
                                         st: Stream, pos: nat, acc: seq<(string, Datum)>, k: nat, k': nat)
    requires pos <= |st.data| && k <= k'
    ensures Kept(ReadItemsAt(p, keyed, dw, w, dr, r, n, st, pos, acc, k),
                 ReadItemsAt(p, keyed, dw, w, dr, r, n, st, pos, acc, k'))
    decreases k
  {
    hide ReadAt, ReadKey, ReadBlockAt, Tail, After;
    if k > 0 {
      ReadRefinement.ReadItemsAtMeans(p, keyed, dw, w, dr, r, n, st, pos, acc, k);
      ReadRefinement.ReadItemsAtMeans(p, keyed, dw, w, dr, r, n, st, pos, acc, k');
      hide ReadItemsAt;
      if n == 0 {
        MoreReadBlock(p, keyed, dw, w, dr, r, st, pos, acc, k - 1, k' - 1);
      } else {
        var key := After(st, ReadKey(p, keyed, Tail(st, pos)));
        if key.Success? {
          MoreRead(p, dw, w, dr, r, st, key.value.1, k - 1, k' - 1);
          var d := ReadAt(p, dw, w, dr, r, st, key.value.1, k - 1);
          if d.Success? {
            MoreReadItems(p, keyed, dw, w, dr, r, n - 1, st, d.value.1, acc + [(key.value.0, d.value.0)], k - 1,
                          k' - 1);
          }
        }
      }
    }
  }

  lemma {:induction false} MoreReadBlock(p: Platform, keyed: bool, dw: Defs, w: Schema, dr: Defs, r: Schema, st: Stream,
                                         pos: nat, acc: seq<(string, Datum)>, k: nat, k': nat)
    requires pos <= |st.data| && k <= k'
    ensures Kept(ReadBlockAt(p, keyed, dw, w, dr, r, st, pos, acc, k),
                 ReadBlockAt(p, keyed, dw, w, dr, r, st, pos, acc, k'))
    decreases k
  {
    hide ReadHead, ReadItemsAt;
    if k > 0 {
      var head := After(st, ReadHead(Tail(st, pos)));
      if head.Success? && head.value.0.count > 0 {
        MoreReadItems(p, keyed, dw, w, dr, r, head.value.0.count, st, head.value.1, acc, k - 1, k' - 1);
      }
    }
  }

  lemma {:induction false} MoreReadFields(p: Platform, dw: Defs, n: string, dr: Defs, rf: seq<Field>, i: nat,
                                          st: Stream, pos: nat, acc: map<string, Datum>, k: nat, k': nat)
    requires n in dw && dw[n].Record? && i <= |dw[n].fields| && pos <= |st.data| && k <= k'
    ensures Kept(ReadFieldsAt(p, dw, n, dr, rf, i, st, pos, acc, k),
                 ReadFieldsAt(p, dw, n, dr, rf, i, st, pos, acc, k'))
    decreases k
  {
    hide ReadAt, SkipAt, FindField;
    if k > 0 && i < |dw[n].fields| {
      var f := dw[n].fields[i];
      match FindField(rf, f.name)
      case Some(field) =>
        MoreRead(p, dw, f.ftype, dr, field.ftype, st, pos, k - 1, k' - 1);
        var d := ReadAt(p, dw, f.ftype, dr, field.ftype, st, pos, k - 1);
        if d.Success? {
          MoreReadFields(p, dw, n, dr, rf, i + 1, st, d.value.1, acc[f.name := d.value.0], k - 1, k' - 1);
        }
      case None =>
        MoreSkip(dw, f.ftype, st, pos, k - 1, k' - 1);
        var skip := SkipAt(dw, f.ftype, st, pos, k - 1);
        if skip.Success? {
          MoreReadFields(p, dw, n, dr, rf, i + 1, st, skip.value, acc, k - 1, k' - 1);
        }
    }
  }
}
