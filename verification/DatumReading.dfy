/** DatumReader as procedures over a stream (avro/devices/avro/io.py). */
module DatumReading {
  import opened Basics
  import opened Varint
  import opened Schemas
  import opened Encoding
  import opened Decoding
  import opened Execution
  import opened SkipRefinement
  import opened ReadRefinement
  import opened BinaryStreams
  import opened Termination
  import opened SelfReading

  /** The rest of an array or map once the count of its next block has been read. */
  ghost function FromCount(p: Platform, keyed: bool, dw: Defs, w: Schema, dr: Defs, r: Schema, count: int, st: Stream,
                           pos: nat, acc: seq<(string, Datum)>, k: nat): Result<(seq<(string, Datum)>, nat)>
    requires pos <= |st.data| && k > 0
  {
    if count == 0 then Success((acc, pos))
    else if count > 0 then ReadItemsAt(p, keyed, dw, w, dr, r, count, st, pos, acc, k - 1)
    else
      var (size, pos') :- After(st, ReadLong(Tail(st, pos)));
      ReadItemsAt(p, keyed, dw, w, dr, r, -count, st, pos', acc, k - 1)
  }

  lemma BlockFromCount(p: Platform, keyed: bool, dw: Defs, w: Schema, dr: Defs, r: Schema, st: Stream, pos: nat,
                       acc: seq<(string, Datum)>, k: nat)
    requires pos <= |st.data|
    ensures
      var head := After(st, ReadLong(Tail(st, pos)));
      ReadBlockAt(p, keyed, dw, w, dr, r, st, pos, acc, k) ==
        if k == 0 then Failure(OutOfSteps)
        else if head.Failure? then Failure(head.error)
        else FromCount(p, keyed, dw, w, dr, r, head.value.0, st, head.value.1, acc, k)
  {
    HeadAt(st, pos);
    hide ReadHead, ReadLong, ReadItemsAt, Tail;
  }

  /** After the last item of a block the count of the next one is read. */
  lemma NextBlock(p: Platform, keyed: bool, dw: Defs, w: Schema, dr: Defs, r: Schema, st: Stream, pos: nat,
                  acc: seq<(string, Datum)>, k: nat)
    requires pos <= |st.data|
    ensures
      var head := After(st, ReadLong(Tail(st, pos)));
      ReadItemsAt(p, keyed, dw, w, dr, r, 0, st, pos, acc, k) ==
        if k <= 1 then Failure(OutOfSteps)
        else if head.Failure? then Failure(head.error)
        else FromCount(p, keyed, dw, w, dr, r, head.value.0, st, head.value.1, acc, k - 1)
  {
    hide ReadBlockAt, ReadLong, Tail, FromCount, ReadAt;
    if k > 0 {
      BlockFromCount(p, keyed, dw, w, dr, r, st, pos, acc, k - 1);
    }
  }

  lemma LastCount(p: Platform, keyed: bool, dw: Defs, w: Schema, dr: Defs, r: Schema, st: Stream, pos: nat,
                  acc: seq<(string, Datum)>, k: nat)
    requires pos <= |st.data| && k > 0
    ensures FromCount(p, keyed, dw, w, dr, r, 0, st, pos, acc, k) == Success((acc, pos))
  {
  }

  /** The head of a block read number by number. */
  lemma HeadAt(st: Stream, pos: nat)
    requires pos <= |st.data|
    ensures After(st, ReadHead(Tail(st, pos))) ==
      var n := After(st, ReadLong(Tail(st, pos)));
      if n.Failure? then Failure(n.error)
      else if n.value.0 >= 0 then Success((Head(n.value.0, None), n.value.1))
      else
        var size := After(st, ReadLong(Tail(st, n.value.1)));
        if size.Failure? then Failure(size.error) else Success((Head(-n.value.0, Some(size.value.0)), size.value.1))
  {
    hide ReadLong, Tail;
    var n := ReadLong(Tail(st, pos));
    if n.Success? {
      LongTail(st, pos);
    }
  }

  /** What is left behind a number is the tail from where the number ends. */
  lemma LongTail(st: Stream, pos: nat)
    requires pos <= |st.data| && ReadLong(Tail(st, pos)).Success?
    ensures |ReadLong(Tail(st, pos)).value.1| <= |st.data|
    ensures Tail(st, |st.data| - |ReadLong(Tail(st, pos)).value.1|) == ReadLong(Tail(st, pos)).value.1
  {
    LongLeaves(Tail(st, pos));
    hide ReadLong;
    TailOf(st, pos, ReadLong(Tail(st, pos)).value.1);
  }

  lemma TailOf(st: Stream, pos: nat, rest: seq<byte>)
    requires pos <= |st.data| && |rest| <= |st.data| - pos && rest == Tail(st, pos)[|st.data| - pos - |rest|..]
    ensures Tail(st, |st.data| - |rest|) == rest
  {
  }

  ghost function SkipFromCount(keyed: bool, dw: Defs, w: Schema, count: int, st: Stream, pos: nat, k: nat): Result<nat>
    requires pos <= |st.data| && k > 0
  {
    if count == 0 then Success(pos)
    else if count > 0 then SkipItemsAt(keyed, dw, w, count, st, pos, k - 1)
    else
      var (size, pos') :- After(st, ReadLong(Tail(st, pos)));
      var pos'' :- Seek(st, pos', size);
      SkipBlockAt(keyed, dw, w, st, pos'', k - 1)
  }

  lemma SkipBlockFromCount(keyed: bool, dw: Defs, w: Schema, st: Stream, pos: nat, k: nat)
    requires pos <= |st.data|
    ensures
      var head := After(st, ReadLong(Tail(st, pos)));
      SkipBlockAt(keyed, dw, w, st, pos, k) ==
        if k == 0 then Failure(OutOfSteps)
        else if head.Failure? then Failure(head.error)
        else SkipFromCount(keyed, dw, w, head.value.0, st, head.value.1, k)
  {
    HeadAt(st, pos);
    hide ReadHead, ReadLong, SkipItemsAt, Tail, Seek;
  }

  lemma NoSkipItemsAt(keyed: bool, dw: Defs, w: Schema, st: Stream, pos: nat, k: nat)
    requires pos <= |st.data|
    ensures
      SkipItemsAt(keyed, dw, w, 0, st, pos, k) ==
        if k == 0 then Failure(OutOfSteps)
        else SkipBlockAt(keyed, dw, w, st, pos, k - 1)
  {
    hide SkipBlockAt;
  }

  /** read_record's shortcut: with as many entries as the reader has fields, no default is needed. */
  lemma NoneMissing(p: Platform, dr: Defs, wf: seq<Field>, rf: seq<Field>, m: map<string, Datum>)
    requires forall name :: name in m ==> FindField(wf, name).Some? && FindField(rf, name).Some?
    requires |FieldNames(rf)| <= |m|
    ensures FillDefaults(p, dr, wf, rf, 0, m) == Success(m)
  {
    hide FindField;
    forall name | name in m ensures name in FieldNames(rf) {
      var f := FindField(rf, name).value;
      assert f in rf && f.name == name;
    }
    if m.Keys < FieldNames(rf) {
      SubsetIsSmaller(m.Keys, FieldNames(rf));
    }
    forall i | 0 <= i < |rf| ensures FindField(wf, rf[i].name).Some? {
      assert rf[i] in rf && rf[i].name in m.Keys;
    }
    NothingToFill(p, dr, wf, rf, 0, m);
  }

  lemma {:induction false} NothingToFill(p: Platform, dr: Defs, wf: seq<Field>, rf: seq<Field>, i: nat,
                                         m: map<string, Datum>)
    requires i <= |rf| && forall j :: i <= j < |rf| ==> FindField(wf, rf[j].name).Some?
    ensures FillDefaults(p, dr, wf, rf, i, m) == Success(m)
    decreases |rf| - i
  {
    if i < |rf| {
      NothingToFill(p, dr, wf, rf, i + 1, m);
    }
  }

  lemma SubsetIsSmaller(a: set<string>, b: set<string>)
    requires a < b
    ensures |a| < |b|
  {
    var x :| x in b && x !in a;
    assert |a + {x}| <= |b| by { SubsetIsNoLarger(a + {x}, b); }
  }

  lemma {:induction false} SubsetIsNoLarger(a: set<string>, b: set<string>)
    requires a <= b
    ensures |a| <= |b|
  {
    if x :| x in a {
      SubsetIsNoLarger(a - {x}, b - {x});
    }
  }

  lemma EntryFails(p: Platform, defs: Defs, s: Schema, members: map<string, Json>, key: string, depth: nat)
    requires key in members && ReadDefault(p, defs, s, members[key], depth).Failure?
    ensures ReadDefaultEntries(p, defs, s, members, depth) == Failure(BadDefault)
  {
    hide ReadDefault;
  }

  lemma EntriesAreRead(p: Platform, defs: Defs, s: Schema, members: map<string, Json>, read: map<string, Datum>,
                       depth: nat)
    requires read.Keys == members.Keys
    requires forall k :: k in read ==> ReadDefault(p, defs, s, members[k], depth) == Success(read[k])
    ensures ReadDefaultEntries(p, defs, s, members, depth) == Success(read)
  {
    hide ReadDefault;
    assert ReadDefaultEntries(p, defs, s, members, depth).value == read;
  }

  class DatumReader {
    const p: Platform
    const dw: Defs
    const dr: Defs

    constructor (platform: Platform, writers: Defs, readers: Defs)
      ensures p == platform && dw == writers && dr == readers
    {
      p, dw, dr := platform, writers, readers;
    }

    /** `read` on an input on which no skip moves back. */
    method Read(w: Schema, r: Schema, decoder: BinaryDecoder) returns (res: Result<Datum>)
      requires decoder.Valid() && Guarded(dw) && MovesOn(Decoding.Read(p, dw, w, dr, r, decoder.Rest()))
      modifies decoder
      ensures decoder.Valid() && Follows(res, decoder.Rest(), Decoding.Read(p, dw, w, dr, r, old(decoder.Rest())))
    {
      hide Guarded, Decoding.Read, ReadAt;
      ghost var st := decoder.Input();
      EndsAsDescribed(p, dw, w, dr, r, st, decoder.pos);
      ghost var k: nat :| ReadAt(p, dw, w, dr, r, st, decoder.pos, k) != Failure(OutOfSteps);
      assert Same(st, Decoding.Read(p, dw, w, dr, r, Tail(st, decoder.pos)),
                  ReadAt(p, dw, w, dr, r, st, decoder.pos, k));
      res := ReadData(w, r, decoder, k);
    }

    /** `read` with the writer's own schema, on any input. */
    method ReadOwn(s: Schema, decoder: BinaryDecoder) returns (res: Result<Datum>)
      requires decoder.Valid() && dw == dr && Guarded(dw) && WellFormed(dw) && WellFormedSchema(dw, s)
      modifies decoder
      ensures decoder.Valid() && Follows(res, decoder.Rest(), Decoding.Read(p, dw, s, dw, s, old(decoder.Rest())))
    {
      hide Guarded, WellFormed, WellFormedSchema, Decoding.Read, ReadAt;
      ghost var k := OwnSchemaEnds(p, dw, s, decoder.Input(), decoder.pos);
      res := ReadData(s, s, decoder, k);
    }

    /**
     * What these methods require is that the run ends: k steps are enough for it. There are
     * inputs on which it does not, because a negative size moves the cursor back.
     */
    method ReadData(w: Schema, r: Schema, decoder: BinaryDecoder, ghost k: nat) returns (res: Result<Datum>)
      requires decoder.Valid() && ReadAt(p, dw, w, dr, r, decoder.Input(), decoder.pos, k) != Failure(OutOfSteps)
      modifies decoder
      ensures decoder.Valid() && decoder.Ran(res, ReadAt(p, dw, w, dr, r, decoder.Input(), old(decoder.pos), k))
      decreases k
    {
      hide Match, FirstMatch, ReadBlockAt, ReadFieldsAt, FillDefaults, Values, ToMap;
      if !Match(dw, w, dr, r) {
        return Failure(SchemaResolution);
      }
      if !w.Union? {
        if r.Union? {
          var i := FirstMatch(dw, w, dr, r.branches);
          if i == |r.branches| {
            return Failure(SchemaResolution);
          }
          res := ReadData(w, r.branches[i], decoder, k - 1);
          return;
        }
        MatchShape(dw, w, dr, r);
      }
      match w
      case Prim(prim) =>
        res := decoder.ReadLeaf(p, prim);
      case Array(items) =>
        var list := ReadArray(items, r.items, decoder, k - 1);
        res := list;
      case Map(values) =>
        var dict := ReadMap(values, r.values, decoder, k - 1);
        res := dict;
      case Union(branches) => res := ReadUnion(branches, r, decoder, k);
      case Named(n) =>
        match dw[n] {
          case Fixed(size) =>
            var data := decoder.Read(size);
            res := Success(Bytes(data));
          case Enum(symbols) =>
            res := ReadEnum(symbols, dr[r.fullname].symbols, decoder);
          case Record(_, _) => res := ReadRecord(n, r.fullname, decoder, k);
        }
    }

    method ReadArray(w: Schema, r: Schema, decoder: BinaryDecoder, ghost k: nat) returns (res: Result<Datum>)
      requires decoder.Valid()
      requires ReadBlockAt(p, false, dw, w, dr, r, decoder.Input(), decoder.pos, [], k) != Failure(OutOfSteps)
      modifies decoder
      ensures decoder.Valid()
      ensures decoder.Ran(res, Listed(ReadBlockAt(p, false, dw, w, dr, r, decoder.Input(), old(decoder.pos), [], k)))
      decreases k, 1
    {
      hide ReadAt, ReadItemsAt, ReadBlockAt, FromCount, Values, Varint.ReadLong, Tail, After;
      ghost var st := decoder.Input();
      ghost var whole := ReadBlockAt(p, false, dw, w, dr, r, st, decoder.pos, [], k);
      var items: seq<Datum> := [];
      ghost var acc: seq<(string, Datum)> := [];
      ghost var j := k;
      NothingRead();
      BlockFromCount(p, false, dw, w, dr, r, st, decoder.pos, acc, k);
      var count :- decoder.ReadLong();
      while count != 0
        invariant decoder.Valid() && 0 < j <= k && items == Values(acc)
        invariant whole == FromCount(p, false, dw, w, dr, r, count, st, decoder.pos, acc, j)
        decreases j
      {
        var block;
        block, acc, j := ReadArrayBlock(w, r, count, items, acc, decoder, j);
        var next :- block;
        items, count := next.0, next.1;
      }
      LastCount(p, false, dw, w, dr, r, st, decoder.pos, acc, j);
      return Success(List(items));
    }

    /** The body of the loop: a block, and the count of the next one. */
    method ReadArrayBlock(w: Schema, r: Schema, count: int, items: seq<Datum>, ghost acc: seq<(string, Datum)>,
                          decoder: BinaryDecoder, ghost k: nat)
      returns (res: Result<(seq<Datum>, int)>, ghost acc': seq<(string, Datum)>, ghost k': nat)
      requires decoder.Valid() && items == Values(acc) && k > 0 && count != 0
      requires FromCount(p, false, dw, w, dr, r, count, decoder.Input(), decoder.pos, acc, k) != Failure(OutOfSteps)
      modifies decoder
      ensures decoder.Valid() && k' < k
      ensures
        var whole := FromCount(p, false, dw, w, dr, r, count, decoder.Input(), old(decoder.pos), acc, k);
        match res
        case Failure(e) => whole == Failure(e)
        case Success((items', count')) =>
          && items' == Values(acc') && k' > 0
          && whole == FromCount(p, false, dw, w, dr, r, count', decoder.Input(), decoder.pos, acc', k')
      decreases k, 0
    {
      hide ReadAt, ReadItemsAt, Values, Varint.ReadLong, Tail, After;
      acc', k' := acc, k - 1;
      var n := count;
      if n < 0 {
        n := -n;
        var size :- decoder.ReadLong();
      }
      hide FromCount;
      var more;
      more, acc', k' := ReadArrayItems(w, r, n, items, acc, decoder, k - 1);
      var items' :- more;
      NextBlock(p, false, dw, w, dr, r, decoder.Input(), decoder.pos, acc', k');
      k' := k' - 1;
      var count' :- decoder.ReadLong();
      return Success((items', count')), acc', k';
    }

    static lemma NothingRead()
      ensures Values([]) == [] && ToMap([]) == map[]
    {
    }

    /** The inner loop of read_array: the `count` items of one block. */
    method ReadArrayItems(w: Schema, r: Schema, count: nat, items: seq<Datum>, ghost acc: seq<(string, Datum)>,
                          decoder: BinaryDecoder, ghost k: nat)
      returns (res: Result<seq<Datum>>, ghost acc': seq<(string, Datum)>, ghost k': nat)
      requires decoder.Valid() && items == Values(acc)
      requires ReadItemsAt(p, false, dw, w, dr, r, count, decoder.Input(), decoder.pos, acc, k) != Failure(OutOfSteps)
      modifies decoder
      ensures decoder.Valid() && k' <= k
      ensures
        var whole := ReadItemsAt(p, false, dw, w, dr, r, count, decoder.Input(), old(decoder.pos), acc, k);
        match res
        case Failure(e) => whole == Failure(e)
        case Success(items') =>
          && items' == Values(acc')
          && whole == ReadItemsAt(p, false, dw, w, dr, r, 0, decoder.Input(), decoder.pos, acc', k')
      decreases k, 0
    {
      hide ReadAt, ReadItemsAt, Values;
      ghost var st := decoder.Input();
      ghost var whole := ReadItemsAt(p, false, dw, w, dr, r, count, st, decoder.pos, acc, k);
      var items', n := items, count;
      acc', k' := acc, k;
      while n > 0
        invariant decoder.Valid() && k' <= k && items' == Values(acc')
        invariant whole == ReadItemsAt(p, false, dw, w, dr, r, n, st, decoder.pos, acc', k')
      {
        OneItem(p, false, dw, w, dr, r, n, st, decoder.pos, acc', k');
        var item :- ReadData(w, r, decoder, k' - 1);
        ValuesStep(acc', item);
        items', acc', n, k' := items' + [item], acc' + [("", item)], n - 1, k' - 1;
      }
      return Success(items'), acc', k';
    }

    method ReadMap(w: Schema, r: Schema, decoder: BinaryDecoder, ghost k: nat) returns (res: Result<Datum>)
      requires decoder.Valid()
      requires ReadBlockAt(p, true, dw, w, dr, r, decoder.Input(), decoder.pos, [], k) != Failure(OutOfSteps)
      modifies decoder
      ensures decoder.Valid()
      ensures decoder.Ran(res, Mapped(ReadBlockAt(p, true, dw, w, dr, r, decoder.Input(), old(decoder.pos), [], k)))
      decreases k, 1
    {
      hide ReadAt, ReadItemsAt, ReadBlockAt, FromCount, ToMap, Varint.ReadLong, Tail, After;
      ghost var st := decoder.Input();
      ghost var whole := ReadBlockAt(p, true, dw, w, dr, r, st, decoder.pos, [], k);
      var items: map<string, Datum> := map[];
      ghost var acc: seq<(string, Datum)> := [];
      ghost var j := k;
      NothingRead();
      BlockFromCount(p, true, dw, w, dr, r, st, decoder.pos, acc, k);
      var count :- decoder.ReadLong();
      while count != 0
        invariant decoder.Valid() && 0 < j <= k && items == ToMap(acc)
        invariant whole == FromCount(p, true, dw, w, dr, r, count, st, decoder.pos, acc, j)
        decreases j
      {
        var block;
        block, acc, j := ReadMapBlock(w, r, count, items, acc, decoder, j);
        var next :- block;
        items, count := next.0, next.1;
      }
      LastCount(p, true, dw, w, dr, r, st, decoder.pos, acc, j);
      return Success(Dict(items));
    }

    /** The body of the loop: a block, and the count of the next one. */
    method ReadMapBlock(w: Schema, r: Schema, count: int, items: map<string, Datum>, ghost acc: seq<(string, Datum)>,
                        decoder: BinaryDecoder, ghost k: nat)
      returns (res: Result<(map<string, Datum>, int)>, ghost acc': seq<(string, Datum)>, ghost k': nat)
      requires decoder.Valid() && items == ToMap(acc) && k > 0 && count != 0
      requires FromCount(p, true, dw, w, dr, r, count, decoder.Input(), decoder.pos, acc, k) != Failure(OutOfSteps)
      modifies decoder
      ensures decoder.Valid() && k' < k
      ensures
        var whole := FromCount(p, true, dw, w, dr, r, count, decoder.Input(), old(decoder.pos), acc, k);
        match res
        case Failure(e) => whole == Failure(e)
        case Success((items', count')) =>
          && items' == ToMap(acc') && k' > 0
          && whole == FromCount(p, true, dw, w, dr, r, count', decoder.Input(), decoder.pos, acc', k')
      decreases k, 0
    {
      hide ReadAt, ReadItemsAt, ToMap, Varint.ReadLong, Tail, After;
      acc', k' := acc, k - 1;
      var n := count;
      if n < 0 {
        n := -n;
        var size :- decoder.ReadLong();
      }
      hide FromCount;
      var more;
      more, acc', k' := ReadMapItems(w, r, n, items, acc, decoder, k - 1);
      var items' :- more;
      NextBlock(p, true, dw, w, dr, r, decoder.Input(), decoder.pos, acc', k');
      k' := k' - 1;
      var count' :- decoder.ReadLong();
      return Success((items', count')), acc', k';
    }

    /** The inner loop of read_map: the `count` items of one block. */
    method ReadMapItems(w: Schema, r: Schema, count: nat, items: map<string, Datum>, ghost acc: seq<(string, Datum)>,
                        decoder: BinaryDecoder, ghost k: nat)
      returns (res: Result<map<string, Datum>>, ghost acc': seq<(string, Datum)>, ghost k': nat)
      requires decoder.Valid() && items == ToMap(acc)
      requires ReadItemsAt(p, true, dw, w, dr, r, count, decoder.Input(), decoder.pos, acc, k) != Failure(OutOfSteps)
      modifies decoder
      ensures decoder.Valid() && k' <= k
      ensures
        var whole := ReadItemsAt(p, true, dw, w, dr, r, count, decoder.Input(), old(decoder.pos), acc, k);
        match res
        case Failure(e) => whole == Failure(e)
        case Success(items') =>
          && items' == ToMap(acc')
          && whole == ReadItemsAt(p, true, dw, w, dr, r, 0, decoder.Input(), decoder.pos, acc', k')
      decreases k, 0
    {
      hide ReadAt, ReadItemsAt, ToMap, ReadText;
      ghost var st := decoder.Input();
      ghost var whole := ReadItemsAt(p, true, dw, w, dr, r, count, st, decoder.pos, acc, k);
      var items', n := items, count;
      acc', k' := acc, k;
      while n > 0
        invariant decoder.Valid() && k' <= k && items' == ToMap(acc')
        invariant whole == ReadItemsAt(p, true, dw, w, dr, r, n, st, decoder.pos, acc', k')
      {
        OneItem(p, true, dw, w, dr, r, n, st, decoder.pos, acc', k');
        var key :- decoder.ReadUtf8(p);
        var item :- ReadData(w, r, decoder, k' - 1);
        ToMapStep(acc', key, item);
        items', acc', n, k' := items'[key := item], acc' + [(key, item)], n - 1, k' - 1;
      }
      return Success(items'), acc', k';
    }

    static lemma OneItem(p: Platform, keyed: bool, dw: Defs, w: Schema, dr: Defs, r: Schema, n: nat, st: Stream,
                         pos: nat, acc: seq<(string, Datum)>, k: nat)
      requires pos <= |st.data| && n > 0
      ensures
        var key := if keyed then ReadText(p, Tail(st, pos)) else Success(("", Tail(st, pos)));
        ReadItemsAt(p, keyed, dw, w, dr, r, n, st, pos, acc, k) ==
          if k == 0 then Failure(OutOfSteps)
          else if key.Failure? then Failure(key.error)
          else
            var d := ReadAt(p, dw, w, dr, r, st, |st.data| - |key.value.1|, k - 1);
            if d.Failure? then Failure(d.error)
            else ReadItemsAt(p, keyed, dw, w, dr, r, n - 1, st, d.value.1, acc + [(key.value.0, d.value.0)], k - 1)
    {
      hide ReadAt, ReadText, ReadBlockAt;
    }

    static lemma ValuesStep(acc: seq<(string, Datum)>, d: Datum)
      ensures Values(acc + [("", d)]) == Values(acc) + [d]
    {
    }

    static lemma ToMapStep(acc: seq<(string, Datum)>, key: string, d: Datum)
      ensures ToMap(acc + [(key, d)]) == ToMap(acc)[key := d]
    {
      assert (acc + [(key, d)])[..|acc|] == acc;
    }

    method ReadUnion(branches: seq<Schema>, r: Schema, decoder: BinaryDecoder, ghost k: nat)
      returns (res: Result<Datum>)
      requires decoder.Valid()
      requires ReadAt(p, dw, Union(branches), dr, r, decoder.Input(), decoder.pos, k) != Failure(OutOfSteps)
      modifies decoder
      ensures decoder.Valid()
      ensures decoder.Ran(res, ReadAt(p, dw, Union(branches), dr, r, decoder.Input(), old(decoder.pos), k))
      decreases k, 0
    {
      hide ReadAt, Varint.ReadLong, Tail, After, At;
      UnionAt(p, dw, branches, dr, r, decoder.Input(), decoder.pos, k);
      var index :- decoder.ReadLong();
      if index >= |branches| {
        return Failure(SchemaResolution);
      }
      var branch :- At(branches, index);
      res := ReadData(branch, r, decoder, k - 1);
    }

    static lemma UnionAt(p: Platform, dw: Defs, branches: seq<Schema>, dr: Defs, r: Schema, st: Stream, pos: nat,
                         k: nat)
      requires pos <= |st.data|
      ensures
        var index := After(st, ReadLong(Tail(st, pos)));
        ReadAt(p, dw, Union(branches), dr, r, st, pos, k) ==
          if k == 0 then Failure(OutOfSteps)
          else if index.Failure? then Failure(index.error)
          else if index.value.0 >= |branches| then Failure(SchemaResolution)
          else
            var branch := At(branches, index.value.0);
            if branch.Failure? then Failure(branch.error)
            else ReadAt(p, dw, branch.value, dr, r, st, index.value.1, k - 1)
    {
      hide ReadLong, At, Tail;
    }

    method ReadEnum(written: seq<string>, wanted: seq<string>, decoder: BinaryDecoder) returns (res: Result<Datum>)
      requires decoder.Valid()
      modifies decoder
      ensures decoder.Valid()
      ensures decoder.Ran(res,
                          After(decoder.Input(), ReadSymbol(written, wanted, Tail(decoder.Input(), old(decoder.pos)))))
    {
      var index :- decoder.ReadLong();
      if index >= |written| {
        return Failure(SchemaResolution);
      }
      var symbol :- At(written, index);
      if symbol !in wanted {
        return Failure(SchemaResolution);
      }
      return Success(Text(symbol));
    }

    method ReadRecord(n: string, rn: string, decoder: BinaryDecoder, ghost k: nat) returns (res: Result<Datum>)
      requires decoder.Valid() && n in dw && dw[n].Record? && rn in dr && dr[rn].Record?
      requires Match(dw, Named(n), dr, Named(rn))
      requires ReadAt(p, dw, Named(n), dr, Named(rn), decoder.Input(), decoder.pos, k) != Failure(OutOfSteps)
      modifies decoder
      ensures decoder.Valid()
      ensures decoder.Ran(res, ReadAt(p, dw, Named(n), dr, Named(rn), decoder.Input(), old(decoder.pos), k))
      decreases k, 0
    {
      hide ReadAt, ReadFieldsAt, Match, FindField, FieldNames, FillDefaults;
      RecordAt(p, dw, n, dr, rn, decoder.Input(), decoder.pos, k);
      var wf, rf := dw[n].fields, dr[rn].fields;
      var m :- ReadFields(n, rf, decoder, k - 1);
      if |FieldNames(rf)| > |m| {
        m :- FillMissing(wf, rf, m);
      } else {
        NoneMissing(p, dr, wf, rf, m);
      }
      return Success(Dict(m));
    }

    /** The first loop of read_record. */
    method ReadFields(n: string, rf: seq<Field>, decoder: BinaryDecoder, ghost k: nat)
      returns (res: Result<map<string, Datum>>)
      requires decoder.Valid() && n in dw && dw[n].Record?
      requires ReadFieldsAt(p, dw, n, dr, rf, 0, decoder.Input(), decoder.pos, map[], k) != Failure(OutOfSteps)
      modifies decoder
      ensures decoder.Valid()
      ensures decoder.Ran(res, ReadFieldsAt(p, dw, n, dr, rf, 0, decoder.Input(), old(decoder.pos), map[], k))
      ensures res.Success? ==>
        forall name :: name in res.value ==> FindField(dw[n].fields, name).Some? && FindField(rf, name).Some?
      decreases k, 0
    {
      hide ReadAt, SkipAt, ReadFieldsAt, FindField;
      ghost var st := decoder.Input();
      ghost var whole := ReadFieldsAt(p, dw, n, dr, rf, 0, st, decoder.pos, map[], k);
      ghost var j := k;
      var wf := dw[n].fields;
      var m: map<string, Datum> := map[];
      for i := 0 to |wf|
        invariant decoder.Valid() && 0 <= j <= k
        invariant whole == ReadFieldsAt(p, dw, n, dr, rf, i, st, decoder.pos, m, j)
        invariant forall name :: name in m ==> FindField(wf, name).Some? && FindField(rf, name).Some?
      {
        FieldAt(p, dw, n, dr, rf, i, st, decoder.pos, m, j);
        match FindField(rf, wf[i].name) {
          case Some(rfield) =>
            var d :- ReadData(wf[i].ftype, rfield.ftype, decoder, j - 1);
            m := m[wf[i].name := d];
          case None =>
            var skipped :- SkipData(wf[i].ftype, decoder, j - 1);
        }
        j := j - 1;
      }
      NoFieldAt(p, dw, n, dr, rf, st, decoder.pos, m, j);
      return Success(m);
    }

    static lemma FieldAt(p: Platform, dw: Defs, n: string, dr: Defs, rf: seq<Field>, i: nat, st: Stream, pos: nat,
                         acc: map<string, Datum>, k: nat)
      requires n in dw && dw[n].Record? && i < |dw[n].fields| && pos <= |st.data|
      ensures
        var f := dw[n].fields[i];
        var field := FindField(rf, f.name);
        ReadFieldsAt(p, dw, n, dr, rf, i, st, pos, acc, k) ==
          if k == 0 then Failure(OutOfSteps)
          else if field.Some? then
            var d := ReadAt(p, dw, f.ftype, dr, field.value.ftype, st, pos, k - 1);
            if d.Failure? then Failure(d.error)
            else ReadFieldsAt(p, dw, n, dr, rf, i + 1, st, d.value.1, acc[f.name := d.value.0], k - 1)
          else
            var skip := SkipAt(dw, f.ftype, st, pos, k - 1);
            if skip.Failure? then Failure(skip.error)
            else ReadFieldsAt(p, dw, n, dr, rf, i + 1, st, skip.value, acc, k - 1)
    {
      hide ReadAt, SkipAt, FindField;
    }

    static lemma NoFieldAt(p: Platform, dw: Defs, n: string, dr: Defs, rf: seq<Field>, st: Stream, pos: nat,
                           acc: map<string, Datum>, k: nat)
      requires n in dw && dw[n].Record? && pos <= |st.data|
      ensures ReadFieldsAt(p, dw, n, dr, rf, |dw[n].fields|, st, pos, acc, k) ==
        if k == 0 then Failure(OutOfSteps)
        else Success((acc, pos))
    {
    }

    static lemma RecordAt(p: Platform, dw: Defs, n: string, dr: Defs, rn: string, st: Stream, pos: nat, k: nat)
      requires pos <= |st.data| && n in dw && dw[n].Record? && rn in dr && dr[rn].Record?
      requires Match(dw, Named(n), dr, Named(rn))
      ensures
        var (wf, rf) := (dw[n].fields, dr[rn].fields);
        ReadAt(p, dw, Named(n), dr, Named(rn), st, pos, k) ==
          if k == 0 then Failure(OutOfSteps)
          else Filled(p, dr, wf, rf, ReadFieldsAt(p, dw, n, dr, rf, 0, st, pos, map[], k - 1))
    {
      hide Match, ReadFieldsAt, FillDefaults;
    }

    /** `_read_default_value`, with the number of stack frames left */
    method ReadDefaultValue(s: Schema, j: Json, depth: nat) returns (res: Result<Datum>)
      ensures res == ReadDefault(p, dr, s, j, depth)
      decreases depth, 1
    {
      if depth == 0 {
        return Failure(RecursionLimit);
      }
      match s
      case Array(items) =>
        if !j.JArr? {
          return Failure(BadDefault);
        }
        res := ReadDefaultArray(items, j.items, depth - 1);
      case Map(values) =>
        if !j.JObj? {
          return Failure(BadDefault);
        }
        res := ReadDefaultMap(values, j.members, depth - 1);
      case Union(bs) =>
        if bs == [] {
          return Failure(IndexError);
        }
        res := ReadDefaultValue(bs[0], j, depth - 1);
      case Named(n) =>
        if n in dr && dr[n].Record? && dr[n].kind == KRecord {
          if !j.JObj? {
            return Failure(BadDefault);
          }
          res := ReadDefaultRecord(dr[n].fields, j.members, depth - 1);
        } else {
          res := ReadDefault(p, dr, s, j, depth);
        }
      case Prim(_) => res := ReadDefault(p, dr, s, j, depth);
    }

    method ReadDefaultArray(s: Schema, js: seq<Json>, depth: nat) returns (res: Result<Datum>)
      ensures
        var items := ReadDefaultItems(p, dr, s, js, depth);
        res == if items.Failure? then Failure(items.error) else Success(List(items.value))
      decreases depth, 2
    {
      hide ReadDefault;
      var readArray: seq<Datum> := [];
      ghost var all := ReadDefaultItems(p, dr, s, js, depth);
      assert js[0..] == js && (all.Success? ==> readArray + all.value == all.value);
      for i := 0 to |js|
        invariant
          var rest := ReadDefaultItems(p, dr, s, js[i..], depth);
          all == if rest.Failure? then Failure(rest.error) else Success(readArray + rest.value)
      {
        ItemsUnfold(s, js, i, depth, readArray);
        var item :- ReadDefaultValue(s, js[i], depth);
        readArray := readArray + [item];
      }
      assert readArray + [] == readArray;
      return Success(List(readArray));
    }

    lemma ItemsUnfold(s: Schema, js: seq<Json>, i: nat, depth: nat, before: seq<Datum>)
      requires i < |js|
      ensures
        var d, rest := ReadDefault(p, dr, s, js[i], depth), ReadDefaultItems(p, dr, s, js[i + 1..], depth);
        var here := ReadDefaultItems(p, dr, s, js[i..], depth);
        if d.Failure? then here == Failure(d.error)
        else if rest.Failure? then here == Failure(rest.error)
        else here.Success? && before + here.value == before + [d.value] + rest.value
    {
      hide ReadDefault;
      assert js[i..][0] == js[i] && js[i..][1..] == js[i + 1..];
    }

    lemma FieldsUnfold(fields: seq<Field>, i: nat, members: map<string, Json>, depth: nat, acc: map<string, Datum>)
      requires i < |fields|
      ensures
        var f := fields[i];
        var given := if f.name in members then members[f.name] else JNull;
        var json := if given.JNull? && f.default.Some? then f.default.value else given;
        var d := ReadDefault(p, dr, f.ftype, json, depth);
        ReadDefaultFields(p, dr, fields[i..], members, depth, acc) ==
          if d.Failure? then Failure(d.error)
          else ReadDefaultFields(p, dr, fields[i + 1..], members, depth, acc[f.name := d.value])
    {
      hide ReadDefault;
      assert fields[i..][0] == fields[i] && fields[i..][1..] == fields[i + 1..];
    }

    method ReadDefaultMap(s: Schema, members: map<string, Json>, depth: nat) returns (res: Result<Datum>)
      ensures
        var entries := ReadDefaultEntries(p, dr, s, members, depth);
        res == if entries.Failure? then Failure(entries.error) else Success(Dict(entries.value))
      decreases depth, 2
    {
      hide ReadDefault, ReadDefaultEntries;
      var readMap: map<string, Datum> := map[];
      var keys := members.Keys;
      while keys != {}
        invariant keys <= members.Keys && readMap.Keys == members.Keys - keys
        invariant forall k :: k in readMap ==> ReadDefault(p, dr, s, members[k], depth) == Success(readMap[k])
        decreases |keys|
      {
        var key :| key in keys;
        var value := ReadDefaultValue(s, members[key], depth);
        if value.Failure? {
          EntryFails(p, dr, s, members, key, depth);
          return Failure(BadDefault);
        }
        readMap := readMap[key := value.value];
        keys := keys - {key};
      }
      EntriesAreRead(p, dr, s, members, readMap, depth);
      return Success(Dict(readMap));
    }

    method ReadDefaultRecord(fields: seq<Field>, members: map<string, Json>, depth: nat) returns (res: Result<Datum>)
      ensures
        var filled := ReadDefaultFields(p, dr, fields, members, depth, map[]);
        res == if filled.Failure? then Failure(filled.error) else Success(Dict(filled.value))
      decreases depth, 2
    {
      hide ReadDefault;
      var readRecord: map<string, Datum> := map[];
      assert fields[0..] == fields;
      for i := 0 to |fields|
        invariant ReadDefaultFields(p, dr, fields, members, depth, map[]) ==
                  ReadDefaultFields(p, dr, fields[i..], members, depth, readRecord)
      {
        FieldsUnfold(fields, i, members, depth, readRecord);
        var json := if fields[i].name in members then members[fields[i].name] else JNull;
        if json.JNull? && fields[i].default.Some? {
          json := fields[i].default.value;
        }
        var value :- ReadDefaultValue(fields[i].ftype, json, depth);
        readRecord := readRecord[fields[i].name := value];
      }
      return Success(Dict(readRecord));
    }

    /** The end of read_record: fields of the reader that the writer does not have. */
    method FillMissing(wf: seq<Field>, rf: seq<Field>, read: map<string, Datum>)
      returns (res: Result<map<string, Datum>>)
      ensures res == FillDefaults(p, dr, wf, rf, 0, read)
    {
      hide FindField, ReadDefault;
      var m := read;
      for i := 0 to |rf|
        invariant FillDefaults(p, dr, wf, rf, 0, read) == FillDefaults(p, dr, wf, rf, i, m)
      {
        if FindField(wf, rf[i].name).None? {
          var field := FindField(rf, rf[i].name).value;
          if field.default.None? {
            return Failure(SchemaResolution);
          }
          var d :- ReadDefaultValue(field.ftype, field.default.value, p.stackDepth);
          m := m[rf[i].name := d];
        }
      }
      return Success(m);
    }

    method SkipData(w: Schema, decoder: BinaryDecoder, ghost k: nat) returns (res: Result<()>)
      requires decoder.Valid() && SkipAt(dw, w, decoder.Input(), decoder.pos, k) != Failure(OutOfSteps)
      modifies decoder
      ensures decoder.Valid() && decoder.Moved(res, SkipAt(dw, w, decoder.Input(), old(decoder.pos), k))
      decreases k, 1
    {
      hide SkipBlockAt, SkipFieldsAt, Seek;
      match w
      case Prim(prim) => res := decoder.SkipLeaf(prim);
      case Array(items) => res := SkipCollection(false, items, decoder, k - 1);
      case Map(values) => res := SkipCollection(true, values, decoder, k - 1);
      case Union(branches) => res := SkipUnion(branches, decoder, k);
      case Named(n) =>
        if n !in dw {
          return Failure(UnknownType);
        }
        match dw[n] {
          case Fixed(size) => res := decoder.Skip(size);
          case Enum(_) => res := decoder.SkipLong();
          case Record(_, _) => res := SkipRecord(n, decoder, k - 1);
        }
    }

    method SkipUnion(branches: seq<Schema>, decoder: BinaryDecoder, ghost k: nat) returns (res: Result<()>)
      requires decoder.Valid() && SkipAt(dw, Union(branches), decoder.Input(), decoder.pos, k) != Failure(OutOfSteps)
      modifies decoder
      ensures decoder.Valid() && decoder.Moved(res, SkipAt(dw, Union(branches), decoder.Input(), old(decoder.pos), k))
      decreases k, 0
    {
      hide SkipAt, Varint.ReadLong, Tail, After, At;
      SkipUnionAt(dw, branches, decoder.Input(), decoder.pos, k);
      var index :- decoder.ReadLong();
      if index >= |branches| {
        return Failure(SchemaResolution);
      }
      var branch :- At(branches, index);
      res := SkipData(branch, decoder, k - 1);
    }

    static lemma SkipUnionAt(dw: Defs, branches: seq<Schema>, st: Stream, pos: nat, k: nat)
      requires pos <= |st.data|
      ensures
        var index := After(st, ReadLong(Tail(st, pos)));
        SkipAt(dw, Union(branches), st, pos, k) ==
          if k == 0 then Failure(OutOfSteps)
          else if index.Failure? then Failure(index.error)
          else if index.value.0 >= |branches| then Failure(SchemaResolution)
          else
            var branch := At(branches, index.value.0);
            if branch.Failure? then Failure(branch.error) else SkipAt(dw, branch.value, st, index.value.1, k - 1)
    {
      hide ReadLong, At, Tail;
    }

    /** skip_array and skip_map, which differ only in the key skipped before each value. */
    method SkipCollection(keyed: bool, w: Schema, decoder: BinaryDecoder, ghost k: nat) returns (res: Result<()>)
      requires decoder.Valid() && SkipBlockAt(keyed, dw, w, decoder.Input(), decoder.pos, k) != Failure(OutOfSteps)
      modifies decoder
      ensures decoder.Valid() && decoder.Moved(res, SkipBlockAt(keyed, dw, w, decoder.Input(), old(decoder.pos), k))
      decreases k, 1
    {
      hide SkipAt, SkipItemsAt, SkipBlockAt, Seek, Varint.ReadLong, Tail, After;
      ghost var st := decoder.Input();
      ghost var whole := SkipBlockAt(keyed, dw, w, st, decoder.pos, k);
      SkipBlockFromCount(keyed, dw, w, st, decoder.pos, k);
      ghost var j := k;
      var count :- decoder.ReadLong();
      while count != 0
        invariant decoder.Valid() && 0 < j <= k
        invariant whole == SkipFromCount(keyed, dw, w, count, st, decoder.pos, j)
        decreases j
      {
        if count < 0 {
          var size :- decoder.ReadLong();
          var skipped :- decoder.Skip(size);
          j := j - 1;
        } else {
          j := j - 1;
          ghost var last := j;
          while count > 0
            invariant decoder.Valid() && 0 <= j <= last && count >= 0
            invariant whole == SkipItemsAt(keyed, dw, w, count, st, decoder.pos, j)
          {
            SkipOneItem(keyed, dw, w, count, st, decoder.pos, j);
            if keyed {
              var skipped :- decoder.SkipBytes();
            }
            var skipped :- SkipData(w, decoder, j - 1);
            count, j := count - 1, j - 1;
          }
          NoSkipItemsAt(keyed, dw, w, st, decoder.pos, j);
          j := j - 1;
        }
        SkipBlockFromCount(keyed, dw, w, st, decoder.pos, j);
        count :- decoder.ReadLong();
      }
      return Success(());
    }
 
    static lemma SkipOneItem(keyed: bool, dw: Defs, w: Schema, n: nat, st: Stream, pos: nat, k: nat)
      requires pos <= |st.data| && n > 0
      ensures
        var key := if keyed then SkipBytesAt(st, pos) else Success(pos);
        SkipItemsAt(keyed, dw, w, n, st, pos, k) ==
          if k == 0 then Failure(OutOfSteps)
          else if key.Failure? then Failure(key.error)
          else
            var item := SkipAt(dw, w, st, key.value, k - 1);
            if item.Failure? then Failure(item.error) else SkipItemsAt(keyed, dw, w, n - 1, st, item.value, k - 1)
    {
      hide SkipAt, SkipBytesAt, SkipBlockAt;
    }

    method SkipRecord(n: string, decoder: BinaryDecoder, ghost k: nat) returns (res: Result<()>)
      requires decoder.Valid() && n in dw && dw[n].Record?
      requires SkipFieldsAt(dw, n, 0, decoder.Input(), decoder.pos, k) != Failure(OutOfSteps)
      modifies decoder
      ensures decoder.Valid() && decoder.Moved(res, SkipFieldsAt(dw, n, 0, decoder.Input(), old(decoder.pos), k))
      decreases k, 0
    {
      hide SkipAt;
      ghost var st := decoder.Input();
      ghost var whole := SkipFieldsAt(dw, n, 0, st, decoder.pos, k);
      ghost var j := k;
      for i := 0 to |dw[n].fields|
        invariant decoder.Valid() && 0 <= j <= k
        invariant whole == SkipFieldsAt(dw, n, i, st, decoder.pos, j)
      {
        var skipped :- SkipData(dw[n].fields[i].ftype, decoder, j - 1);
        j := j - 1;
      }
      return Success(());
    }
  }
}
