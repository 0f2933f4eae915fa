/**
 * Read and Skip describe the program as long as no skip moves back: on such inputs enough steps lead to
 * just their outcome. Where they report an endless skip, no number of steps is enough.
 */
module SkipRefinement {
  import opened Basics
  import opened Varint
  import opened Schemas
  import opened Encoding
  import opened Decoding
  import opened Execution

  /** An exception of the program, not one of the outcomes that only describe a run. */
  predicate IsException(e: Error) {
    e != BackwardSkip && e != EndlessSkip && e != OutOfSteps
  }

  /** No skip moves back. */
  predicate MovesOn<T(==)>(r: Result<T>) {
    r != Failure(BackwardSkip) && r != Failure(EndlessSkip)
  }

  /** The same exception, or the same value with the cursor in front of the same bytes. */
  ghost predicate Same<T>(st: Stream, spec: Parsed<T>, run: Result<(T, nat)>) {
    match spec
    case Failure(e) => run == Failure(e)
    case Success((v, rest)) =>
      run.Success? && run.value.0 == v && run.value.1 <= |st.data| && Tail(st, run.value.1) == rest
  }

  /** How a run relates to the description of its input; `enough` tells whether it was granted enough steps. */
  ghost predicate Agrees<T>(st: Stream, spec: Parsed<T>, run: Result<(T, nat)>, enough: bool) {
    if spec == Failure(BackwardSkip) then true
    else if spec == Failure(EndlessSkip) then run == Failure(OutOfSteps)
    else Same(st, spec, run) || (!enough && run == Failure(OutOfSteps))
  }

  /** Skipping as a parse without a value. */
  function Unit<T>(r: Result<T>): Result<((), T)> {
    match r
    case Failure(e) => Failure(e)
    case Success(x) => Success(((), x))
  }

  ghost predicate Moves(st: Stream, spec: Result<seq<byte>>, run: Result<nat>, enough: bool) {
    Agrees(st, Unit(spec), Unit(run), enough)
  }

  // Leaves

  /** A parse leaves an end part of its input, or raises an exception. */
  ghost predicate Leaves<T>(r: Parsed<T>, bs: seq<byte>) {
    match r
    case Failure(e) => IsException(e)
    case Success((_, rest)) => |rest| <= |bs| && rest == bs[|bs| - |rest|..]
  }

  lemma {:induction false} LongLeaves(bs: seq<byte>)
    ensures Leaves(ReadDigits(bs), bs) && Leaves(ReadLong(bs), bs)
    decreases |bs|
  {
    if bs != [] && bs[0] >= 128 {
      LongLeaves(bs[1..]);
    }
  }

  lemma AfterAgrees<T>(st: Stream, pos: nat, r: Parsed<T>)
    requires pos <= |st.data| && Leaves(r, Tail(st, pos))
    ensures Same(st, r, After(st, r))
  {
  }

  lemma EndOfEnd(bs: seq<byte>, mid: seq<byte>, end: seq<byte>)
    requires |mid| <= |bs| && mid == bs[|bs| - |mid|..] && |end| <= |mid| && end == mid[|mid| - |end|..]
    ensures end == bs[|bs| - |end|..]
  {
  }

  lemma BytesLeave(p: Platform, bs: seq<byte>)
    ensures Leaves(ReadBytes(bs), bs) && Leaves(ReadText(p, bs), bs)
  {
    LongLeaves(bs);
    var r := ReadLong(bs);
    if r.Success? {
      EndOfEnd(bs, r.value.1, Take(r.value.0, r.value.1).1);
    }
    hide ReadLong, Take;
  }

  lemma PrimitiveLeaves(p: Platform, prim: Primitive, bs: seq<byte>)
    ensures Leaves(ReadPrimitive(p, prim, bs), bs)
  {
    LongLeaves(bs);
    BytesLeave(p, bs);
    hide ReadLong, ReadBytes, ReadText;
  }

  lemma IndexLeaves(bs: seq<byte>, branches: seq<Schema>, written: seq<string>, wanted: seq<string>)
    ensures Leaves(ReadBranch(branches, bs), bs) && Leaves(ReadSymbol(written, wanted, bs), bs)
    ensures Leaves(ReadHead(bs), bs)
  {
    LongLeaves(bs);
    hide ReadLong;
    var r := ReadLong(bs);
    if r.Success? {
      LongLeaves(r.value.1);
      if ReadLong(r.value.1).Success? {
        EndOfEnd(bs, r.value.1, ReadLong(r.value.1).value.1);
      }
    }
  }

  lemma SeekAgrees(st: Stream, pos: nat, n: int)
    requires pos <= |st.data|
    ensures Moves(st, Drop(n, Tail(st, pos)), Seek(st, pos, n), true)
  {
  }

  lemma SkipLongAgrees(st: Stream, pos: nat)
    requires pos <= |st.data|
    ensures Moves(st, SkipLong(Tail(st, pos)), SkipLongAt(st, pos), true)
  {
    hide ReadDigits, ReadLong, Tail;
    LongLeaves(Tail(st, pos));
    AfterAgrees(st, pos, ReadDigits(Tail(st, pos)));
  }

  lemma SkipBytesAgrees(st: Stream, pos: nat)
    requires pos <= |st.data|
    ensures Moves(st, SkipBytes(Tail(st, pos)), SkipBytesAt(st, pos), true)
  {
    hide ReadLong, ReadDigits, Seek, Drop, Tail;
    var r := ReadLong(Tail(st, pos));
    LongLeaves(Tail(st, pos));
    AfterAgrees(st, pos, r);
    if r.Success? {
      hide Leaves;
      var pos' := |st.data| - |r.value.1|;
      assert Tail(st, pos') == r.value.1;
      SeekAgrees(st, pos', r.value.0);
    }
  }

  lemma SkipPrimitiveAgrees(prim: Primitive, st: Stream, pos: nat)
    requires pos <= |st.data|
    ensures Moves(st, SkipPrimitive(prim, Tail(st, pos)), SkipPrimitiveAt(prim, st, pos), true)
  {
    SkipLongAgrees(st, pos);
    SkipBytesAgrees(st, pos);
    SeekAgrees(st, pos, 1);
    SeekAgrees(st, pos, 4);
    SeekAgrees(st, pos, 8);
    hide SkipLong, SkipBytes, SkipLongAt, SkipBytesAt, Seek, Drop;
  }

  lemma {:induction false} DefaultsRaise(p: Platform, defs: Defs, s: Schema, j: Json, depth: nat)
    ensures var r := ReadDefault(p, defs, s, j, depth); r.Failure? ==> IsException(r.error)
    decreases depth, 1
  {
    if depth > 0 {
      match s
      case Array(items) =>
        if j.JArr? {
          ItemDefaultsRaise(p, defs, items, j.items, depth - 1);
        }
      case Union(bs) =>
        if bs != [] {
          DefaultsRaise(p, defs, bs[0], j, depth - 1);
        }
      case Named(n) =>
        if n in defs && defs[n].Record? && j.JObj? {
          FieldDefaultsRaise(p, defs, defs[n].fields, j.members, depth - 1, map[]);
        }
      case _ =>
    }
  }

  lemma {:induction false} ItemDefaultsRaise(p: Platform, defs: Defs, s: Schema, js: seq<Json>, depth: nat)
    ensures var r := ReadDefaultItems(p, defs, s, js, depth); r.Failure? ==> IsException(r.error)
    decreases depth, 2, js
  {
    hide ReadDefault;
    if js != [] {
      DefaultsRaise(p, defs, s, js[0], depth);
      ItemDefaultsRaise(p, defs, s, js[1..], depth);
    }
  }

  lemma {:induction false} FieldDefaultsRaise(p: Platform, defs: Defs, fields: seq<Field>, members: map<string, Json>,
                                              depth: nat, acc: map<string, Datum>)
    ensures var r := ReadDefaultFields(p, defs, fields, members, depth, acc); r.Failure? ==> IsException(r.error)
    decreases depth, 2, fields
  {
    hide ReadDefault;
    if fields != [] {
      var f := fields[0];
      var given := if f.name in members then members[f.name] else JNull;
      var j := if !given.JNull? then given else if f.default.Some? then f.default.value else JNull;
      DefaultsRaise(p, defs, f.ftype, j, depth);
      var d := ReadDefault(p, defs, f.ftype, j, depth);
      if d.Success? {
        FieldDefaultsRaise(p, defs, fields[1..], members, depth, acc[f.name := d.value]);
      }
    }
  }

  lemma {:induction false} FillDefaultsRaises(p: Platform, dr: Defs, wf: seq<Field>, rf: seq<Field>, i: nat,
                                              acc: map<string, Datum>)
    requires i <= |rf|
    ensures var r := FillDefaults(p, dr, wf, rf, i, acc); r.Failure? ==> IsException(r.error)
    decreases |rf| - i
  {
    hide ReadDefault;
    if i < |rf| {
      if FindField(wf, rf[i].name).Some? {
        FillDefaultsRaises(p, dr, wf, rf, i + 1, acc);
      } else {
        var f := FindField(rf, rf[i].name).value;
        if f.default.Some? {
          DefaultsRaise(p, dr, f.ftype, f.default.value, p.stackDepth);
        }
        var d := Default(p, dr, f);
        if d.Success? {
          FillDefaultsRaises(p, dr, wf, rf, i + 1, acc[rf[i].name := d.value]);
        }
      }
    }
  }

  // Skipping

  function Max(a: nat, b: nat): (c: nat)
    ensures c >= a && c >= b
  {
    if a >= b then a else b
  }

  /** The cursor stands where the parse left off. */
  ghost predicate Arrived<T>(st: Stream, r: Parsed<T>, run: Result<(T, nat)>) {
    r.Success? && |r.value.1| <= |st.data| && run == Success((r.value.0, |st.data| - |r.value.1|))
    && Tail(st, |st.data| - |r.value.1|) == r.value.1
  }

  /** One parse after the other. */
  lemma Then<T, U>(st: Stream, first: Parsed<T>, ran: Result<(T, nat)>, enough: bool, whole: Parsed<U>,
                   all: Result<(U, nat)>, enough': bool)
    requires Agrees(st, first, ran, enough)
    requires first.Failure? ==> whole == Failure(first.error)
    requires ran.Failure? ==> all == Failure(ran.error)
    requires Arrived(st, first, ran) ==> Agrees(st, whole, all, enough')
    ensures Agrees(st, whole, all, enough && enough')
  {
  }

  /** A run without steps. */
  lemma NoSteps<T>(st: Stream, spec: Parsed<T>)
    ensures Agrees(st, spec, Failure(OutOfSteps), false)
  {
  }

  /** Skip and SkipAt at a union. */
  lemma SkipUnionMeans(dw: Defs, branches: seq<Schema>, st: Stream, pos: nat, k: nat)
    requires Guarded(dw) && pos <= |st.data| && k > 0
    ensures
      var b := ReadBranch(branches, Tail(st, pos));
      Skip(dw, Union(branches), Tail(st, pos)) ==
        if b.Failure? then Failure(b.error)
        else Skip(dw, b.value.0, b.value.1)
    ensures
      var b := After(st, ReadBranch(branches, Tail(st, pos)));
      SkipAt(dw, Union(branches), st, pos, k)
        == if b.Failure? then Failure(b.error) else SkipAt(dw, b.value.0, st, b.value.1, k - 1)
  {
    hide Guarded, ReadBranch, After;
  }

  lemma SkipUnionStep(dw: Defs, branches: seq<Schema>, st: Stream, pos: nat, k: nat, enough: bool)
    requires Guarded(dw) && pos <= |st.data| && k > 0
    requires
      var b := ReadBranch(branches, Tail(st, pos));
      b.Success? ==>
        var pos' := |st.data| - |b.value.1|;
        Moves(st, Skip(dw, b.value.0, Tail(st, pos')), SkipAt(dw, b.value.0, st, pos', k - 1), enough)
    ensures Moves(st, Skip(dw, Union(branches), Tail(st, pos)), SkipAt(dw, Union(branches), st, pos, k), enough)
  {
    hide Guarded, ReadBranch, Skip, SkipAt, Agrees, After, Leaves, Same;
    var b := ReadBranch(branches, Tail(st, pos));
    BranchAgrees(st, pos, branches);
    SkipUnionMeans(dw, branches, st, pos, k);
    Then(st, b, After(st, b), true,
         Unit(Skip(dw, Union(branches), Tail(st, pos))), Unit(SkipAt(dw, Union(branches), st, pos, k)), enough);
  }

  lemma BranchAgrees(st: Stream, pos: nat, branches: seq<Schema>)
    requires pos <= |st.data|
    ensures Agrees(st, ReadBranch(branches, Tail(st, pos)), After(st, ReadBranch(branches, Tail(st, pos))), true)
  {
    IndexLeaves(Tail(st, pos), branches, [], []);
    AfterAgrees(st, pos, ReadBranch(branches, Tail(st, pos)));
    hide ReadBranch;
  }

  lemma HeadAgrees(st: Stream, pos: nat)
    requires pos <= |st.data|
    ensures Agrees(st, ReadHead(Tail(st, pos)), After(st, ReadHead(Tail(st, pos))), true)
  {
    IndexLeaves(Tail(st, pos), [], [], []);
    AfterAgrees(st, pos, ReadHead(Tail(st, pos)));
    hide ReadHead;
  }

  /** SkipItems and SkipItemsAt where an item is to come. */
  lemma SkipItemsMeans(keyed: bool, dw: Defs, w: Schema, n: nat, st: Stream, pos: nat, k: nat)
    requires Guarded(dw) && pos <= |st.data| && k > 0 && n > 0
    ensures
      var key := SkipKey(keyed, Tail(st, pos));
      SkipItems(keyed, dw, w, n, Tail(st, pos)) ==
        if key.Failure? then Failure(key.error)
        else
          var item := Skip(dw, w, key.value);
          if item.Failure? then Failure(item.error) else SkipItems(keyed, dw, w, n - 1, item.value)
    ensures
      var key := SkipKeyAt(keyed, st, pos);
      SkipItemsAt(keyed, dw, w, n, st, pos, k) ==
        if key.Failure? then Failure(key.error)
        else
          var item := SkipAt(dw, w, st, key.value, k - 1);
          if item.Failure? then Failure(item.error) else SkipItemsAt(keyed, dw, w, n - 1, st, item.value, k - 1)
  {
    hide Guarded, Skip, SkipAt, SkipKey, SkipKeyAt, SkipBlock, SkipBlockAt;
  }

  lemma SkipKeyAgrees(keyed: bool, st: Stream, pos: nat)
    requires pos <= |st.data|
    ensures Moves(st, SkipKey(keyed, Tail(st, pos)), SkipKeyAt(keyed, st, pos), true)
  {
    SkipBytesAgrees(st, pos);
    hide SkipBytes, SkipBytesAt;
  }

  lemma SkipItemsStep(keyed: bool, dw: Defs, w: Schema, n: nat, st: Stream, pos: nat, k: nat, enough: bool)
    requires Guarded(dw) && pos <= |st.data| && k > 0 && n > 0
    requires
      var key := SkipKey(keyed, Tail(st, pos));
      key.Success? ==>
        var pos' := |st.data| - |key.value|;
        && Moves(st, Skip(dw, w, Tail(st, pos')), SkipAt(dw, w, st, pos', k - 1), enough)
        && var item := Skip(dw, w, Tail(st, pos'));
           item.Success? ==>
             var pos'' := |st.data| - |item.value|;
             Moves(st, SkipItems(keyed, dw, w, n - 1, Tail(st, pos'')),
                   SkipItemsAt(keyed, dw, w, n - 1, st, pos'', k - 1), enough)
    ensures
      Moves(st, SkipItems(keyed, dw, w, n, Tail(st, pos)), SkipItemsAt(keyed, dw, w, n, st, pos, k), enough)
  {
    hide Guarded, SkipKey, SkipKeyAt, Skip, SkipAt, SkipItems, SkipItemsAt, Agrees;
    var key, run := SkipKey(keyed, Tail(st, pos)), SkipKeyAt(keyed, st, pos);
    SkipKeyAgrees(keyed, st, pos);
    SkipItemsMeans(keyed, dw, w, n, st, pos, k);
    var whole, all := Unit(SkipItems(keyed, dw, w, n, Tail(st, pos))), Unit(SkipItemsAt(keyed, dw, w, n, st, pos, k));
    if Arrived(st, Unit(key), Unit(run)) {
      Then(st, Unit(Skip(dw, w, key.value)), Unit(SkipAt(dw, w, st, run.value, k - 1)), enough, whole, all, enough);
    }
    Then(st, Unit(key), Unit(run), true, whole, all, enough);
  }

  /** SkipBlock and SkipBlockAt after the head of a block. */
  lemma SkipBlockMeans(keyed: bool, dw: Defs, w: Schema, st: Stream, pos: nat, k: nat)
    requires Guarded(dw) && pos <= |st.data| && k > 0
    ensures
      var head := ReadHead(Tail(st, pos));
      SkipBlock(keyed, dw, w, Tail(st, pos)) ==
        if head.Failure? then Failure(head.error)
        else AfterHead(keyed, dw, w, head.value.0, Tail(st, pos), head.value.1)
    ensures
      var head := After(st, ReadHead(Tail(st, pos)));
      SkipBlockAt(keyed, dw, w, st, pos, k) ==
        if head.Failure? then Failure(head.error) else AfterHeadAt(keyed, dw, w, head.value.0, st, head.value.1, k)
  {
    hide Guarded, ReadHead, SkipItems, SkipItemsAt, After, Seek, Drop;
  }

  ghost function AfterHead(keyed: bool, dw: Defs, w: Schema, head: Head, bs: seq<byte>, rest: seq<byte>)
      : Result<seq<byte>>
    requires Guarded(dw)
  {
    if head.count == 0 then Success(rest)
    else if head.size.None? then SkipItems(keyed, dw, w, head.count, rest)
    else if head.size.value == |rest| - |bs| then Failure(EndlessSkip)
    else
      var rest' :- Drop(head.size.value, rest);
      SkipBlock(keyed, dw, w, rest')
  }

  ghost function AfterHeadAt(keyed: bool, dw: Defs, w: Schema, head: Head, st: Stream, pos: nat, k: nat): Result<nat>
    requires pos <= |st.data| && k > 0
  {
    if head.count == 0 then Success(pos)
    else if head.size.None? then SkipItemsAt(keyed, dw, w, head.count, st, pos, k - 1)
    else
      var pos' :- Seek(st, pos, head.size.value);
      SkipBlockAt(keyed, dw, w, st, pos', k - 1)
  }

  lemma SizedBlockStep(keyed: bool, dw: Defs, w: Schema, head: Head, st: Stream, pos: nat, pos': nat, k: nat,
                       enough: bool)
    requires Guarded(dw) && pos <= pos' <= |st.data| && k > 0 && head.count > 0 && head.size.Some?
    requires
      if pos' + head.size.value == pos then SkipBlockAt(keyed, dw, w, st, pos, k - 1) == Failure(OutOfSteps)
      else
        var next := Seek(st, pos', head.size.value);
        head.size.value >= 0 && next.Success? ==>
          Moves(st, SkipBlock(keyed, dw, w, Tail(st, next.value)), SkipBlockAt(keyed, dw, w, st, next.value, k - 1),
                enough)
    ensures Moves(st, AfterHead(keyed, dw, w, head, Tail(st, pos), Tail(st, pos')),
                  AfterHeadAt(keyed, dw, w, head, st, pos', k), enough)
  {
    hide Guarded, SkipBlock, SkipBlockAt;
    SeekAgrees(st, pos', head.size.value);
    if pos' + head.size.value != pos && head.size.value >= 0 {
      hide Agrees;
      var drop, seek := Drop(head.size.value, Tail(st, pos')), Seek(st, pos', head.size.value);
      hide Seek, Drop;
      Then(st, Unit(drop), Unit(seek), true, Unit(AfterHead(keyed, dw, w, head, Tail(st, pos), Tail(st, pos'))),
           Unit(AfterHeadAt(keyed, dw, w, head, st, pos', k)), enough);
    }
  }

  lemma LastBlock(keyed: bool, dw: Defs, w: Schema, head: Head, st: Stream, pos: nat, pos': nat, k: nat, enough: bool)
    requires Guarded(dw) && pos <= pos' <= |st.data| && k > 0 && head.count == 0
    ensures Moves(st, AfterHead(keyed, dw, w, head, Tail(st, pos), Tail(st, pos')),
                  AfterHeadAt(keyed, dw, w, head, st, pos', k), enough)
  {
    hide Guarded;
  }

  lemma SkipBlockStep(keyed: bool, dw: Defs, w: Schema, st: Stream, pos: nat, k: nat, enough: bool)
    requires Guarded(dw) && pos <= |st.data| && k > 0
    requires
      var head := ReadHead(Tail(st, pos));
      head.Success? ==>
        var pos' := |st.data| - |head.value.1|;
        Moves(st, AfterHead(keyed, dw, w, head.value.0, Tail(st, pos), Tail(st, pos')),
              AfterHeadAt(keyed, dw, w, head.value.0, st, pos', k), enough)
    ensures
      Moves(st, SkipBlock(keyed, dw, w, Tail(st, pos)), SkipBlockAt(keyed, dw, w, st, pos, k), enough)
  {
    hide Guarded, ReadHead, SkipBlock, SkipBlockAt, AfterHead, AfterHeadAt, Agrees;
    var head := ReadHead(Tail(st, pos));
    HeadAgrees(st, pos);
    SkipBlockMeans(keyed, dw, w, st, pos, k);
    Then(st, head, After(st, head), true, Unit(SkipBlock(keyed, dw, w, Tail(st, pos))),
         Unit(SkipBlockAt(keyed, dw, w, st, pos, k)), enough);
  }

  /** SkipFields and SkipFieldsAt where a field is to come. */
  lemma SkipFieldsMeans(dw: Defs, n: string, i: nat, st: Stream, pos: nat, k: nat)
    requires Guarded(dw) && n in dw && dw[n].Record? && i < |dw[n].fields| && pos <= |st.data| && k > 0
    ensures
      var field := Skip(dw, dw[n].fields[i].ftype, Tail(st, pos));
      SkipFields(dw, n, i, Tail(st, pos)) ==
        if field.Failure? then Failure(field.error)
        else SkipFields(dw, n, i + 1, field.value)
    ensures
      var field := SkipAt(dw, dw[n].fields[i].ftype, st, pos, k - 1);
      SkipFieldsAt(dw, n, i, st, pos, k)
        == if field.Failure? then Failure(field.error) else SkipFieldsAt(dw, n, i + 1, st, field.value, k - 1)
  {
    hide Guarded, Skip, SkipAt;
  }

  lemma SkipFieldsStep(dw: Defs, n: string, i: nat, st: Stream, pos: nat, k: nat, enough: bool)
    requires Guarded(dw) && n in dw && dw[n].Record? && i < |dw[n].fields| && pos <= |st.data| && k > 0
    requires
      var w := dw[n].fields[i].ftype;
      var field := Skip(dw, w, Tail(st, pos));
      && Moves(st, field, SkipAt(dw, w, st, pos, k - 1), enough)
      && (field.Success? ==>
            var pos' := |st.data| - |field.value|;
            Moves(st, SkipFields(dw, n, i + 1, Tail(st, pos')), SkipFieldsAt(dw, n, i + 1, st, pos', k - 1), enough))
    ensures Moves(st, SkipFields(dw, n, i, Tail(st, pos)), SkipFieldsAt(dw, n, i, st, pos, k), enough)
  {
    hide Guarded, Skip, SkipAt, SkipFields, SkipFieldsAt, Agrees;
    var w := dw[n].fields[i].ftype;
    SkipFieldsMeans(dw, n, i, st, pos, k);
    Then(st, Unit(Skip(dw, w, Tail(st, pos))), Unit(SkipAt(dw, w, st, pos, k - 1)), enough,
         Unit(SkipFields(dw, n, i, Tail(st, pos))), Unit(SkipFieldsAt(dw, n, i, st, pos, k)), enough);
  }

  // The recursion: how many steps are enough

  lemma {:induction false} SkipRefines(dw: Defs, w: Schema, st: Stream, pos: nat) returns (e: nat)
    requires Guarded(dw) && pos <= |st.data|
    ensures forall k: nat :: Moves(st, Skip(dw, w, Tail(st, pos)), SkipAt(dw, w, st, pos, k), k >= e)
    decreases |st.data| - pos, Height(dw, w), 1
  {
    hide Guarded, Agrees;
    var spec := Skip(dw, w, Tail(st, pos));
    var e' := 0;
    if w.Array? {
      e' := SkipBlockRefines(false, dw, w.items, st, pos);
    } else if w.Map? {
      e' := SkipBlockRefines(true, dw, w.values, st, pos);
    } else if w.Union? {
      BranchAgrees(st, pos, w.branches);
      var b := ReadBranch(w.branches, Tail(st, pos));
      if b.Success? {
        e' := SkipRefines(dw, b.value.0, st, |st.data| - |b.value.1|);
      }
    } else if w.Named? && w.fullname in dw && dw[w.fullname].Record? {
      e' := SkipFieldsRefines(dw, w.fullname, 0, st, pos);
    } else {
      SkipLeafRefines(dw, w, st, pos);
    }
    e := e' + 1;
    forall k: nat | k > 0 ensures Moves(st, spec, SkipAt(dw, w, st, pos, k), k >= e) {
      if w.Union? {
        SkipUnionStep(dw, w.branches, st, pos, k, k - 1 >= e');
      } else {
        SkipCollectionMeans(dw, w, st, pos, k);
        hide Skip, SkipAt, SkipBlock, SkipBlockAt, SkipFields, SkipFieldsAt;
      }
    }
    NoSteps(st, Unit(spec));
  }

  /** Skip and SkipAt at an array, map or record. */
  lemma SkipCollectionMeans(dw: Defs, w: Schema, st: Stream, pos: nat, k: nat)
    requires Guarded(dw) && pos <= |st.data| && k > 0
    ensures w.Array? ==>
      && Skip(dw, w, Tail(st, pos)) == SkipBlock(false, dw, w.items, Tail(st, pos))
      && SkipAt(dw, w, st, pos, k) == SkipBlockAt(false, dw, w.items, st, pos, k - 1)
    ensures w.Map? ==>
      && Skip(dw, w, Tail(st, pos)) == SkipBlock(true, dw, w.values, Tail(st, pos))
      && SkipAt(dw, w, st, pos, k) == SkipBlockAt(true, dw, w.values, st, pos, k - 1)
    ensures w.Named? && w.fullname in dw && dw[w.fullname].Record? ==>
      && Skip(dw, w, Tail(st, pos)) == SkipFields(dw, w.fullname, 0, Tail(st, pos))
      && SkipAt(dw, w, st, pos, k) == SkipFieldsAt(dw, w.fullname, 0, st, pos, k - 1)
  {
    hide Guarded, SkipBlock, SkipBlockAt, SkipFields, SkipFieldsAt;
  }

  lemma SkipLeafRefines(dw: Defs, w: Schema, st: Stream, pos: nat)
    requires Guarded(dw) && pos <= |st.data|
    requires w.Prim? || (w.Named? && (w.fullname in dw ==> !dw[w.fullname].Record?))
    ensures forall k: nat :: k > 0 ==> Moves(st, Skip(dw, w, Tail(st, pos)), SkipAt(dw, w, st, pos, k), true)
  {
    SkipLongAgrees(st, pos);
    if w.Prim? {
      SkipPrimitiveAgrees(w.prim, st, pos);
    } else if w.fullname in dw && dw[w.fullname].Fixed? {
      SeekAgrees(st, pos, dw[w.fullname].size);
    }
    hide Guarded, SkipPrimitive, SkipPrimitiveAt, SkipLong, SkipLongAt, Seek, Drop;
  }

  lemma {:induction false} SkipItemsRefines(keyed: bool, dw: Defs, w: Schema, n: nat, st: Stream, pos: nat)
    returns (e: nat)
    requires Guarded(dw) && pos <= |st.data|
    ensures forall k: nat ::
      Moves(st, SkipItems(keyed, dw, w, n, Tail(st, pos)), SkipItemsAt(keyed, dw, w, n, st, pos, k), k >= e)
    decreases |st.data| - pos, if n == 0 then 0 else Height(dw, w) + 1, 1, n
  {
    hide Guarded, Agrees, Skip, SkipAt, SkipBlock, SkipBlockAt;
    var spec := SkipItems(keyed, dw, w, n, Tail(st, pos));
    var e1, e2 := 0, 0;
    var key := SkipKey(keyed, Tail(st, pos));
    var pos', pos'' := pos, pos;
    if n == 0 {
      e1 := SkipBlockRefines(keyed, dw, w, st, pos);
    } else if key.Success? {
      pos' := |st.data| - |key.value|;
      e1 := SkipRefines(dw, w, st, pos');
      var item := Skip(dw, w, Tail(st, pos'));
      if item.Success? {
        pos'' := |st.data| - |item.value|;
        e2 := SkipItemsRefines(keyed, dw, w, n - 1, st, pos'');
      }
    }
    e := Max(e1, e2) + 1;
    forall k: nat | k > 0 ensures Moves(st, spec, SkipItemsAt(keyed, dw, w, n, st, pos, k), k >= e) {
      if n > 0 {
        if key.Success? {
          Fewer(st, Unit(Skip(dw, w, Tail(st, pos'))), Unit(SkipAt(dw, w, st, pos', k - 1)), k - 1 >= e1, k >= e);
          if Skip(dw, w, Tail(st, pos')).Success? {
            Fewer(st, Unit(SkipItems(keyed, dw, w, n - 1, Tail(st, pos''))),
                  Unit(SkipItemsAt(keyed, dw, w, n - 1, st, pos'', k - 1)), k - 1 >= e2, k >= e);
          }
        }
        SkipItemsStep(keyed, dw, w, n, st, pos, k, k >= e);
      }
    }
    NoSteps(st, Unit(spec));
  }

  /** What holds of enough steps holds where fewer would have been enough. */
  lemma Fewer<T>(st: Stream, spec: Parsed<T>, run: Result<(T, nat)>, enough: bool, enough': bool)
    requires Agrees(st, spec, run, enough) && (enough' ==> enough)
    ensures Agrees(st, spec, run, enough')
  {
  }

  lemma {:induction false} SkipBlockRefines(keyed: bool, dw: Defs, w: Schema, st: Stream, pos: nat) returns (e: nat)
    requires Guarded(dw) && pos <= |st.data|
    ensures forall k: nat ::
      Moves(st, SkipBlock(keyed, dw, w, Tail(st, pos)), SkipBlockAt(keyed, dw, w, st, pos, k), k >= e)
    decreases |st.data| - pos, 0, 0, 0
  {
    hide Guarded, Agrees, ReadHead, SkipItems, SkipItemsAt, SkipBlock, Seek, AfterHead, AfterHeadAt;
    assert SkipBlockAt(keyed, dw, w, st, pos, 0) == Failure(OutOfSteps);
    hide SkipBlockAt;
    var spec := SkipBlock(keyed, dw, w, Tail(st, pos));
    var e' := 0;
    var head := ReadHead(Tail(st, pos));
    if head.Success? {
      e' := AfterHeadRefines(keyed, dw, w, head.value.0, st, pos, |st.data| - |head.value.1|);
    }
    e := e' + 1;
    forall k: nat | k > 0 ensures Moves(st, spec, SkipBlockAt(keyed, dw, w, st, pos, k), k >= e) {
      if head.Success? {
        Fewer(st, Unit(AfterHead(keyed, dw, w, head.value.0, Tail(st, pos), Tail(st, |st.data| - |head.value.1|))),
              Unit(AfterHeadAt(keyed, dw, w, head.value.0, st, |st.data| - |head.value.1|, k)), k > e', k >= e);
      }
      SkipBlockStep(keyed, dw, w, st, pos, k, k >= e);
    }
    NoSteps(st, Unit(spec));
  }

  lemma {:induction false} AfterHeadRefines(keyed: bool, dw: Defs, w: Schema, head: Head, st: Stream, pos: nat,
                                            pos': nat)
    returns (e: nat)
    requires Guarded(dw) && pos < pos' <= |st.data|
    requires ReadHead(Tail(st, pos)) == Success((head, Tail(st, pos')))
    ensures forall k: nat :: k > 0 ==>
      Moves(st, AfterHead(keyed, dw, w, head, Tail(st, pos), Tail(st, pos')),
            AfterHeadAt(keyed, dw, w, head, st, pos', k), k > e)
    decreases |st.data| - pos', if head.count == 0 then 0 else Height(dw, w) + 1, 2, 0
  {
    hide Guarded, Agrees, ReadHead, SkipItems, SkipItemsAt, SkipBlock, SkipBlockAt;
    e := 0;
    if head.count == 0 {
      forall k: nat | k > 0
        ensures Moves(st, AfterHead(keyed, dw, w, head, Tail(st, pos), Tail(st, pos')),
                      AfterHeadAt(keyed, dw, w, head, st, pos', k), k > e)
      {
        LastBlock(keyed, dw, w, head, st, pos, pos', k, k > e);
      }
    } else if head.size.None? {
      e := SkipItemsRefines(keyed, dw, w, head.count, st, pos');
    } else {
      var size := head.size.value;
      var next := Seek(st, pos', size);
      if size >= 0 {
        e := SkipBlockRefines(keyed, dw, w, st, next.value);
      }
      hide Seek, AfterHead, AfterHeadAt;
      forall k: nat | k > 0
        ensures Moves(st, AfterHead(keyed, dw, w, head, Tail(st, pos), Tail(st, pos')),
                      AfterHeadAt(keyed, dw, w, head, st, pos', k), k > e)
      {
        if pos' + size == pos {
          BackToHead(keyed, dw, w, st, pos, k - 1);
        }
        SizedBlockStep(keyed, dw, w, head, st, pos, pos', k, k > e);
      }
    }
  }

  /** A block whose size leads back to its own head is skipped for ever. */
  lemma {:induction false} BackToHead(keyed: bool, dw: Defs, w: Schema, st: Stream, pos: nat, k: nat)
    requires pos <= |st.data|
    requires
      var head := ReadHead(Tail(st, pos));
      && head.Success? && head.value.0.size.Some?
      && |st.data| - |head.value.1| + head.value.0.size.value == pos
    ensures SkipBlockAt(keyed, dw, w, st, pos, k) == Failure(OutOfSteps)
    decreases k
  {
    hide ReadHead;
    if k > 0 {
      BackToHead(keyed, dw, w, st, pos, k - 1);
    }
  }

  lemma {:induction false} SkipFieldsRefines(dw: Defs, n: string, i: nat, st: Stream, pos: nat) returns (e: nat)
    requires Guarded(dw) && n in dw && dw[n].Record? && i <= |dw[n].fields| && pos <= |st.data|
    ensures forall k: nat :: Moves(st, SkipFields(dw, n, i, Tail(st, pos)), SkipFieldsAt(dw, n, i, st, pos, k), k >= e)
    decreases |st.data| - pos, Height(dw, Named(n)), 0, |dw[n].fields| - i
  {
    hide Guarded, Agrees;
    var spec := SkipFields(dw, n, i, Tail(st, pos));
    if i == |dw[n].fields| {
      e := 1;
      NoFieldsLeft(dw, n, st, pos);
    } else {
      hide Skip, SkipAt, SkipFields, SkipFieldsAt;
      FieldIsLower(dw, n, i);
      var w := dw[n].fields[i].ftype;
      var e1 := SkipRefines(dw, w, st, pos);
      var field := Skip(dw, w, Tail(st, pos));
      var e2, pos' := 0, pos;
      if field.Success? {
        pos' := |st.data| - |field.value|;
        e2 := SkipFieldsRefines(dw, n, i + 1, st, pos');
      }
      e := Max(e1, e2) + 1;
      forall k: nat | k > 0 ensures Moves(st, spec, SkipFieldsAt(dw, n, i, st, pos, k), k >= e) {
        Fewer(st, Unit(field), Unit(SkipAt(dw, w, st, pos, k - 1)), k - 1 >= e1, k >= e);
        if field.Success? {
          Fewer(st, Unit(SkipFields(dw, n, i + 1, Tail(st, pos'))), Unit(SkipFieldsAt(dw, n, i + 1, st, pos', k - 1)),
                k - 1 >= e2, k >= e);
        }
        SkipFieldsStep(dw, n, i, st, pos, k, k >= e);
      }
      NoSteps(st, Unit(spec));
    }
  }

  lemma NoFieldsLeft(dw: Defs, n: string, st: Stream, pos: nat)
    requires Guarded(dw) && n in dw && dw[n].Record? && pos <= |st.data|
    ensures forall k: nat ::
      Moves(st, SkipFields(dw, n, |dw[n].fields|, Tail(st, pos)), SkipFieldsAt(dw, n, |dw[n].fields|, st, pos, k),
            k >= 1)
  {
    hide Guarded;
  }
}
