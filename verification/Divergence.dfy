/** Byte strings on which reading never ends: wherever an array or map is skipped, there is one. */
module Divergence {
  import opened Basics
  import opened Varint
  import opened Schemas
  import opened Encoding
  import opened Decoding
  import opened Written
  import opened Resolution
  import opened Execution
  import opened SkipRefinement
  import opened ReadRefinement
  import opened Termination

  /** A block of one item and the size -2: skipped, it leads back to its own head. */
  const POISON: seq<byte> := [1, 3]

  ghost predicate PoisonedSkip(dw: Defs, w: Schema, front: seq<byte>)
    requires Guarded(dw)
  {
    forall suffix: seq<byte> :: Skip(dw, w, front + (POISON + suffix)) == Failure(EndlessSkip)
  }

  ghost predicate PoisonedRead(p: Platform, dw: Defs, w: Schema, dr: Defs, r: Schema, front: seq<byte>)
    requires Guarded(dw)
  {
    forall suffix: seq<byte> :: Read(p, dw, w, dr, r, front + (POISON + suffix)) == Failure(EndlessSkip)
  }

  lemma PoisonLoops(keyed: bool, dw: Defs, w: Schema, suffix: seq<byte>)
    requires Guarded(dw)
    ensures SkipBlock(keyed, dw, w, POISON + suffix) == Failure(EndlessSkip)
  {
    hide Guarded;
    var bs := POISON + suffix;
    assert bs[1..] == [3] + suffix && bs[1..][1..] == suffix;
    assert ReadLong(bs) == Success((-1, bs[1..]));
    assert ReadLong(bs[1..]) == Success((-2, suffix));
  }

  // Skipping what was written, up to an array or map

  /** The datum has an array or map at its top, or in a union or record that is passed on the way there. */
  ghost predicate HoldsCollection(dw: Defs, w: Schema, d: Datum)
    requires Validate(dw, w, d)
    decreases d != Null, d, w
  {
    match w
    case Prim(_) => false
    case Array(_) => true
    case Map(_) => true
    case Union(bs) => HoldsCollection(dw, bs[LastValid(dw, bs, d)], d)
    case Named(n) =>
      dw[n].Record? &&
      exists i ::
        0 <= i < |dw[n].fields| && HoldsCollection(dw, dw[n].fields[i].ftype, Get(d.entries, dw[n].fields[i].name))
  }

  /** The datum is written up to that array or map; a poisoned block in its place is skipped for ever. */
  lemma {:induction false} PoisonSkip(p: Platform, dw: Defs, w: Schema, d: Datum) returns (front: seq<byte>)
    requires Sound(p) && Guarded(dw) && Validate(dw, w, d) && HoldsCollection(dw, w, d)
    ensures PoisonedSkip(dw, w, front)
    decreases d != Null, d, 1, w
  {
    hide Guarded, Sound, SkipBlock, SkipFields;
    front := [];
    match w
    case Array(items) =>
      forall suffix: seq<byte> ensures Skip(dw, w, front + (POISON + suffix)) == Failure(EndlessSkip) {
        PoisonLoops(false, dw, items, suffix);
        assert front + (POISON + suffix) == POISON + suffix;
      }
    case Map(values) =>
      forall suffix: seq<byte> ensures Skip(dw, w, front + (POISON + suffix)) == Failure(EndlessSkip) {
        PoisonLoops(true, dw, values, suffix);
        assert front + (POISON + suffix) == POISON + suffix;
      }
    case Union(bs) =>
      var i := LastValid(dw, bs, d);
      var inner := PoisonSkip(p, dw, bs[i], d);
      front := Long(i) + inner;
      forall suffix: seq<byte> ensures Skip(dw, w, front + (POISON + suffix)) == Failure(EndlessSkip) {
        var tail := inner + (POISON + suffix);
        assert front + (POISON + suffix) == Long(i) + tail;
        LongRoundTrip(i, tail);
      }
    case Named(n) =>
      var i :|
        0 <= i < |dw[n].fields| && HoldsCollection(dw, dw[n].fields[i].ftype, Get(d.entries, dw[n].fields[i].name));
      front := PoisonSkipFields(p, dw, n, d, 0, i);
  }

  lemma {:induction false} PoisonSkipFields(p: Platform, dw: Defs, n: string, d: Datum, i: nat, target: nat)
    returns (front: seq<byte>)
    requires Sound(p) && Guarded(dw) && n in dw && dw[n].Record? && Validate(dw, Named(n), d)
    requires i <= target < |dw[n].fields|
    requires HoldsCollection(dw, dw[n].fields[target].ftype, Get(d.entries, dw[n].fields[target].name))
    ensures forall suffix: seq<byte> :: SkipFields(dw, n, i, front + (POISON + suffix)) == Failure(EndlessSkip)
    decreases true, d, 0, target - i
  {
    hide Guarded, Sound, Skip, Write, HoldsCollection;
    var f := dw[n].fields[i];
    var v := Get(d.entries, f.name);
    if i == target {
      front := PoisonSkip(p, dw, f.ftype, v);
    } else {
      var inner := PoisonSkipFields(p, dw, n, d, i + 1, target);
      front := Write(p, dw, f.ftype, v) + inner;
      forall suffix: seq<byte> ensures SkipFields(dw, n, i, front + (POISON + suffix)) == Failure(EndlessSkip) {
        var tail := inner + (POISON + suffix);
        assert front + (POISON + suffix) == Write(p, dw, f.ftype, v) + tail;
        SkipWrite(p, dw, f.ftype, v, tail);
      }
    }
  }

  // Reading what was written, up to an array or map that is skipped

  /** Item i is reached, the ones before it being read without an exception. */
  ghost predicate ReachesItem(p: Platform, dw: Defs, w: Schema, dr: Defs, r: Schema, d: Datum, i: nat)
    requires Sound(p) && ValidEntries(p, dw, w, d) && i < Count(p, d)
    decreases true, d, 0, w, r
  {
    && (forall j :: 0 <= j < i ==> Resolve(p, dw, w, dr, r, ItemAt(p, d, j)).Some?)
    && SkipsCollection(p, dw, w, dr, r, ItemAt(p, d, i))
  }

  /**
   * Field i is reached, the ones before it being read without an exception; it is skipped if the reader
   * has no such field.
   */
  ghost predicate ReachesField(p: Platform, dw: Defs, n: string, dr: Defs, rf: seq<Field>, d: Datum, i: nat)
    requires Sound(p) && n in dw && dw[n].Record? && Validate(dw, Named(n), d) && i < |dw[n].fields|
    decreases true, d, 0
  {
    var f := dw[n].fields[i];
    && (forall j :: 0 <= j < i ==> FieldResolves(p, dw, n, dr, rf, d, j))
    && match FindField(rf, f.name)
       case Some(field) => SkipsCollection(p, dw, f.ftype, dr, field.ftype, Get(d.entries, f.name))
       case None => HoldsCollection(dw, f.ftype, Get(d.entries, f.name))
  }

  /** Reading the datum as r comes to skip an array or map in it. */
  ghost predicate SkipsCollection(p: Platform, dw: Defs, w: Schema, dr: Defs, r: Schema, d: Datum)
    requires Sound(p) && Validate(dw, w, d)
    decreases d != Null, d, 1, w, r
  {
    Match(dw, w, dr, r) &&
    if !w.Union? && r.Union? then
      var i := FirstMatch(dw, w, dr, r.branches);
      i < |r.branches| && SkipsCollection(p, dw, w, dr, r.branches[i], d)
    else
      match w
      case Prim(_) => false
      case Array(items) =>
        ItemsAreValid(p, dw, items, d);
        r.Array? && exists i: nat :: i < Count(p, d) && ReachesItem(p, dw, items, dr, r.items, d, i)
      case Map(values) =>
        ItemsAreValid(p, dw, values, d);
        r.Map? && exists i: nat :: i < Count(p, d) && ReachesItem(p, dw, values, dr, r.values, d, i)
      case Union(bs) => SkipsCollection(p, dw, bs[LastValid(dw, bs, d)], dr, r, d)
      case Named(n) =>
        dw[n].Record? && r.Named? && r.fullname in dr && dr[r.fullname].Record? &&
        exists i: nat :: i < |dw[n].fields| && ReachesField(p, dw, n, dr, dr[r.fullname].fields, d, i)
  }

  /** Reading never ends where its blocks or its fields never end. */
  lemma EndlessRead(p: Platform, dw: Defs, w: Schema, dr: Defs, r: Schema, bs: seq<byte>)
    requires Guarded(dw) && Match(dw, w, dr, r) && !w.Union? && !r.Union?
    requires w.Array? ==> ReadBlock(p, false, dw, w.items, dr, r.items, bs, []) == Failure(EndlessSkip)
    requires w.Map? ==> ReadBlock(p, true, dw, w.values, dr, r.values, bs, []) == Failure(EndlessSkip)
    requires w.Named? ==>
      && w.fullname in dw && dw[w.fullname].Record? && r.fullname in dr && dr[r.fullname].Record?
      && ReadFields(p, dw, w.fullname, dr, dr[r.fullname].fields, 0, bs, map[]) == Failure(EndlessSkip)
    ensures !w.Prim? ==> Read(p, dw, w, dr, r, bs) == Failure(EndlessSkip)
  {
    hide Guarded, Match, ReadBlock, ReadFields;
  }

  lemma {:induction false} PoisonRead(p: Platform, dw: Defs, w: Schema, dr: Defs, r: Schema, d: Datum)
    returns (front: seq<byte>)
    requires Sound(p) && Guarded(dw) && Validate(dw, w, d) && SkipsCollection(p, dw, w, dr, r, d)
    ensures PoisonedRead(p, dw, w, dr, r, front)
    decreases d != Null, d, 1, w, r
  {
    hide Guarded, Sound, Match, FirstMatch, ReadBlock, ReadFields, ReachesItem, ReachesField;
    if !w.Union? && r.Union? {
      var i := FirstMatch(dw, w, dr, r.branches);
      front := PoisonRead(p, dw, w, dr, r.branches[i], d);
      hide SkipsCollection;
      forall suffix: seq<byte> ensures Read(p, dw, w, dr, r, front + (POISON + suffix)) == Failure(EndlessSkip) {
        assert Read(p, dw, w, dr, r.branches[i], front + (POISON + suffix)) == Failure(EndlessSkip);
      }
    } else if w.Union? {
      var i := LastValid(dw, w.branches, d);
      var inner := PoisonRead(p, dw, w.branches[i], dr, r, d);
      front := Long(i) + inner;
      hide SkipsCollection;
      forall suffix: seq<byte> ensures Read(p, dw, w, dr, r, front + (POISON + suffix)) == Failure(EndlessSkip) {
        var tail := inner + (POISON + suffix);
        assert front + (POISON + suffix) == Long(i) + tail;
        LongRoundTrip(i, tail);
        assert Read(p, dw, w.branches[i], dr, r, tail) == Failure(EndlessSkip);
      }
    } else {
      hide Read;
      front := PoisonInside(p, dw, w, dr, r, d);
    }
  }

  /** In an array or a map the poison stands in a block, in a record among the fields. */
  lemma {:induction false} PoisonInside(p: Platform, dw: Defs, w: Schema, dr: Defs, r: Schema, d: Datum)
    returns (front: seq<byte>)
    requires Sound(p) && Guarded(dw) && Validate(dw, w, d) && SkipsCollection(p, dw, w, dr, r, d)
    requires !w.Union? && !r.Union?
    ensures PoisonedRead(p, dw, w, dr, r, front)
    decreases d != Null, d, 1, w, r, 0
  {
    hide Guarded, Sound, Match, ReadBlock, ReadFields, Read, ReachesItem, ReachesField;
    if w.Array? {
      ItemsAreValid(p, dw, w.items, d);
      var i: nat :| i < Count(p, d) && ReachesItem(p, dw, w.items, dr, r.items, d, i);
      front := PoisonBlock(p, dw, w.items, dr, r.items, d, i);
    } else if w.Map? {
      ItemsAreValid(p, dw, w.values, d);
      var i: nat :| i < Count(p, d) && ReachesItem(p, dw, w.values, dr, r.values, d, i);
      front := PoisonBlock(p, dw, w.values, dr, r.values, d, i);
    } else {
      var n, rf := w.fullname, dr[r.fullname].fields;
      var i: nat :| i < |dw[n].fields| && ReachesField(p, dw, n, dr, rf, d, i);
      front := PoisonFields(p, dw, n, dr, rf, d, 0, i);
    }
    forall suffix: seq<byte> ensures Read(p, dw, w, dr, r, front + (POISON + suffix)) == Failure(EndlessSkip) {
      EndlessRead(p, dw, w, dr, r, front + (POISON + suffix));
    }
  }

  /** A block with all items, the poison standing in item `target`. */
  lemma {:induction false} PoisonBlock(p: Platform, dw: Defs, w: Schema, dr: Defs, r: Schema, d: Datum, target: nat)
    returns (front: seq<byte>)
    requires Sound(p) && Guarded(dw) && ValidEntries(p, dw, w, d) && target < Count(p, d)
    requires ReachesItem(p, dw, w, dr, r, d, target)
    ensures forall suffix: seq<byte> ::
      ReadBlock(p, d.Dict?, dw, w, dr, r, front + (POISON + suffix), []) == Failure(EndlessSkip)
    decreases true, d, 0, w, r, Count(p, d) + 1
  {
    hide Guarded, Sound, Count, ReadItems, ReachesItem, ReadHead;
    var n := Count(p, d);
    var inner := PoisonItems(p, dw, w, dr, r, d, 0, target);
    front := Long(n) + inner;
    forall suffix: seq<byte>
      ensures ReadBlock(p, d.Dict?, dw, w, dr, r, front + (POISON + suffix), []) == Failure(EndlessSkip)
    {
      var tail := inner + (POISON + suffix);
      assert front + (POISON + suffix) == Long(n) + tail;
      HeadRoundTrip(n, tail);
      assert ReadItems(p, d.Dict?, dw, w, dr, r, n, tail, []) == Failure(EndlessSkip);
    }
  }

  ghost predicate PoisonedItems(p: Platform, keyed: bool, dw: Defs, w: Schema, dr: Defs, r: Schema, n: nat,
                                front: seq<byte>)
    requires Guarded(dw)
  {
    forall suffix: seq<byte>, acc: seq<(string, Datum)> ::
      ReadItems(p, keyed, dw, w, dr, r, n, front + (POISON + suffix), acc) == Failure(EndlessSkip)
  }

  lemma {:induction false} PoisonItems(p: Platform, dw: Defs, w: Schema, dr: Defs, r: Schema, d: Datum, i: nat,
                                       target: nat)
    returns (front: seq<byte>)
    requires Sound(p) && Guarded(dw) && ValidEntries(p, dw, w, d) && i <= target < Count(p, d)
    requires ReachesItem(p, dw, w, dr, r, d, target)
    ensures PoisonedItems(p, d.Dict?, dw, w, dr, r, Count(p, d) - i, front)
    decreases true, d, 0, w, r, target - i
  {
    hide Guarded, Sound, Count, KeyAt, ItemAt, Read, ReadItems, Write, WriteKey, Validate, Resolve, SkipsCollection;
    var keyed, n := d.Dict?, Count(p, d) - i;
    var key, value := KeyAt(p, d, i), ItemAt(p, d, i);
    if i == target {
      var inner := PoisonRead(p, dw, w, dr, r, value);
      front := WriteKey(p, keyed, key) + inner;
      LastItem(p, keyed, dw, w, dr, r, n, key, inner);
    } else {
      var inner := PoisonItems(p, dw, w, dr, r, d, i + 1, target);
      front := WriteKey(p, keyed, key) + (Write(p, dw, w, value) + inner);
      EarlierItem(p, keyed, dw, w, dr, r, n, key, value, inner);
    }
  }

  lemma LastItem(p: Platform, keyed: bool, dw: Defs, w: Schema, dr: Defs, r: Schema, n: nat, key: string,
                 inner: seq<byte>)
    requires Sound(p) && Guarded(dw) && n > 0 && (keyed || key == "") && PoisonedRead(p, dw, w, dr, r, inner)
    ensures PoisonedItems(p, keyed, dw, w, dr, r, n, WriteKey(p, keyed, key) + inner)
  {
    hide Guarded, Sound, Read, ReadItem, ReadBlock, WriteKey;
    forall suffix: seq<byte>, acc: seq<(string, Datum)>
      ensures ReadItems(p, keyed, dw, w, dr, r, n, WriteKey(p, keyed, key) + inner + (POISON + suffix), acc) ==
        Failure(EndlessSkip)
    {
      var tail := inner + (POISON + suffix);
      assert WriteKey(p, keyed, key) + inner + (POISON + suffix) == WriteKey(p, keyed, key) + tail;
      PoisonedItem(p, keyed, dw, w, dr, r, key, tail);
    }
  }

  lemma NextItem(p: Platform, keyed: bool, dw: Defs, w: Schema, dr: Defs, r: Schema, n: nat, bs: seq<byte>,
                 acc: seq<(string, Datum)>)
    requires Guarded(dw) && n > 0
    ensures ReadItems(p, keyed, dw, w, dr, r, n, bs, acc) ==
      var item := ReadItem(p, keyed, dw, w, dr, r, bs);
      if item.Failure? then Failure(item.error)
      else ReadItems(p, keyed, dw, w, dr, r, n - 1, item.value.1, acc + [item.value.0])
  {
    hide Guarded, ReadItem, ReadBlock;
  }

  lemma EarlierItem(p: Platform, keyed: bool, dw: Defs, w: Schema, dr: Defs, r: Schema, n: nat, key: string,
                    value: Datum, inner: seq<byte>)
    requires Sound(p) && Guarded(dw) && n > 0 && (keyed || key == "") && Validate(dw, w, value)
    requires Resolve(p, dw, w, dr, r, value).Some? && PoisonedItems(p, keyed, dw, w, dr, r, n - 1, inner)
    ensures PoisonedItems(p, keyed, dw, w, dr, r, n, WriteKey(p, keyed, key) + (Write(p, dw, w, value) + inner))
  {
    hide Guarded, Sound, Read, ReadItem, ReadItems, Write, WriteKey, Validate, Resolve;
    var front := WriteKey(p, keyed, key) + (Write(p, dw, w, value) + inner);
    var v := Resolve(p, dw, w, dr, r, value).value;
    forall suffix: seq<byte>, acc: seq<(string, Datum)>
      ensures ReadItems(p, keyed, dw, w, dr, r, n, front + (POISON + suffix), acc) == Failure(EndlessSkip)
    {
      var tail := inner + (POISON + suffix);
      assert front + (POISON + suffix) == WriteKey(p, keyed, key) + (Write(p, dw, w, value) + tail);
      assert ReadItems(p, keyed, dw, w, dr, r, n - 1, tail, acc + [(key, v)]) == Failure(EndlessSkip);
      ItemBefore(p, keyed, dw, w, dr, r, n, key, value, tail, acc);
    }
  }

  lemma ItemBefore(p: Platform, keyed: bool, dw: Defs, w: Schema, dr: Defs, r: Schema, n: nat, key: string,
                   value: Datum, tail: seq<byte>, acc: seq<(string, Datum)>)
    requires Sound(p) && Guarded(dw) && n > 0 && (keyed || key == "") && Validate(dw, w, value)
    requires Resolve(p, dw, w, dr, r, value).Some?
    ensures
      ReadItems(p, keyed, dw, w, dr, r, n, WriteKey(p, keyed, key) + (Write(p, dw, w, value) + tail), acc) ==
      ReadItems(p, keyed, dw, w, dr, r, n - 1, tail, acc + [(key, Resolve(p, dw, w, dr, r, value).value)])
  {
    hide Guarded, Sound, Read, ReadItem, ReadItems, Write, WriteKey, Validate, Resolve;
    FuseItem(p, keyed, dw, w, dr, r, key, value, tail);
    NextItem(p, keyed, dw, w, dr, r, n, WriteKey(p, keyed, key) + (Write(p, dw, w, value) + tail), acc);
  }

  lemma PoisonedItem(p: Platform, keyed: bool, dw: Defs, w: Schema, dr: Defs, r: Schema, key: string, tail: seq<byte>)
    requires Sound(p) && Guarded(dw) && (keyed || key == "") && Read(p, dw, w, dr, r, tail) == Failure(EndlessSkip)
    ensures ReadItem(p, keyed, dw, w, dr, r, WriteKey(p, keyed, key) + tail) == Failure(EndlessSkip)
  {
    hide Guarded, Sound, Read, ReadKey, WriteKey;
    KeyRoundTrip(p, keyed, key, tail);
  }

  lemma {:induction false} PoisonFields(p: Platform, dw: Defs, n: string, dr: Defs, rf: seq<Field>, d: Datum, i: nat,
                                        target: nat)
    returns (front: seq<byte>)
    requires Sound(p) && Guarded(dw) && n in dw && dw[n].Record? && Validate(dw, Named(n), d)
    requires i <= target < |dw[n].fields|
    requires ReachesField(p, dw, n, dr, rf, d, target)
    ensures forall suffix: seq<byte>, acc: map<string, Datum> ::
      ReadFields(p, dw, n, dr, rf, i, front + (POISON + suffix), acc) == Failure(EndlessSkip)
    decreases true, d, 0, Named(n), Named(n), target - i
  {
    hide Guarded, Sound, Read, Skip, Write, Resolve, FindField, SkipsCollection, HoldsCollection;
    var f := dw[n].fields[i];
    var v := Get(d.entries, f.name);
    var field := FindField(rf, f.name);
    assert Validate(dw, f.ftype, v);
    if i == target {
      if field.Some? {
        front := PoisonRead(p, dw, f.ftype, dr, field.value.ftype, v);
      } else {
        front := PoisonSkip(p, dw, f.ftype, v);
      }
      forall suffix: seq<byte>, acc: map<string, Datum>
        ensures ReadFields(p, dw, n, dr, rf, i, front + (POISON + suffix), acc) == Failure(EndlessSkip)
      {
      }
    } else {
      assert FieldResolves(p, dw, n, dr, rf, d, i);
      var inner := PoisonFields(p, dw, n, dr, rf, d, i + 1, target);
      front := Write(p, dw, f.ftype, v) + inner;
      hide Validate;
      forall suffix: seq<byte>, acc: map<string, Datum>
        ensures ReadFields(p, dw, n, dr, rf, i, front + (POISON + suffix), acc) == Failure(EndlessSkip)
      {
        var tail := inner + (POISON + suffix);
        assert front + (POISON + suffix) == Write(p, dw, f.ftype, v) + tail;
        if field.Some? {
          Fusion(p, dw, f.ftype, dr, field.value.ftype, v, tail);
        } else {
          SkipWrite(p, dw, f.ftype, v, tail);
        }
      }
    }
  }

  /**
   * Wherever reading some valid datum skips an array or map, there is a byte string, the datum
   * written up to there and two bytes more, on which reading never ends, whatever follows.
   */
  lemma SkippedCollectionNeverEnds(p: Platform, dw: Defs, w: Schema, dr: Defs, r: Schema, d: Datum)
    returns (front: seq<byte>)
    requires Sound(p) && Guarded(dw) && Validate(dw, w, d) && SkipsCollection(p, dw, w, dr, r, d)
    ensures forall suffix: seq<byte>, inMemory: bool ::
      !Ends(p, dw, w, dr, r, Stream(front + (POISON + suffix), inMemory), 0)
  {
    front := PoisonRead(p, dw, w, dr, r, d);
    hide Sound, Guarded, Validate, SkipsCollection, Read, Ends;
    forall suffix: seq<byte>, inMemory: bool
      ensures !Ends(p, dw, w, dr, r, Stream(front + (POISON + suffix), inMemory), 0)
    {
      var st := Stream(front + (POISON + suffix), inMemory);
      assert Tail(st, 0) == st.data;
      EndsAsDescribed(p, dw, w, dr, r, st, 0);
    }
  }

  // Text that is skipped inside a loop

  /** A block of one item that leaves the cursor at the head of the block is read for ever. */
  lemma {:induction false} BackToTheHead(p: Platform, keyed: bool, dw: Defs, w: Schema, dr: Defs, r: Schema, st: Stream,
                                         pos: nat, acc: seq<(string, Datum)>, k: nat)
    requires pos <= |st.data|
    requires
      var head := After(st, ReadHead(Tail(st, pos)));
      && head.Success? && head.value.0.count == 1
      && var key := After(st, ReadKey(p, keyed, Tail(st, head.value.1)));
         && key.Success?
         && forall j: nat ::
              var d := ReadAt(p, dw, w, dr, r, st, key.value.1, j);
              d == Failure(OutOfSteps) || (d.Success? && d.value.1 == pos)
    ensures ReadBlockAt(p, keyed, dw, w, dr, r, st, pos, acc, k) == Failure(OutOfSteps)
    decreases k
  {
    hide ReadHead, ReadKey, ReadAt, ReadBlockAt;
    var start := After(st, ReadHead(Tail(st, pos))).value.1;
    var key := After(st, ReadKey(p, keyed, Tail(st, start)));
    OneRound(p, keyed, dw, w, dr, r, st, pos, start, key.value, acc, k);
    if k > 2 {
      var d := ReadAt(p, dw, w, dr, r, st, key.value.1, k - 2);
      if d.Success? {
        BackToTheHead(p, keyed, dw, w, dr, r, st, pos, acc + [(key.value.0, d.value.0)], k - 3);
      }
    }
  }

  /** A block of one item, and on to the next block. */
  lemma OneRound(p: Platform, keyed: bool, dw: Defs, w: Schema, dr: Defs, r: Schema, st: Stream, pos: nat, start: nat,
                 key: (string, nat), acc: seq<(string, Datum)>, k: nat)
    requires pos <= |st.data| && start <= |st.data| && key.1 <= |st.data|
    requires
      var head := After(st, ReadHead(Tail(st, pos)));
      && head.Success? && head.value.0.count == 1 && head.value.1 == start
      && After(st, ReadKey(p, keyed, Tail(st, start))) == Success(key)
    ensures k <= 2 ==> ReadBlockAt(p, keyed, dw, w, dr, r, st, pos, acc, k) == Failure(OutOfSteps)
    ensures k > 2 ==>
      var d := ReadAt(p, dw, w, dr, r, st, key.1, k - 2);
      ReadBlockAt(p, keyed, dw, w, dr, r, st, pos, acc, k) ==
        if d.Failure? then Failure(d.error)
        else ReadBlockAt(p, keyed, dw, w, dr, r, st, d.value.1, acc + [(key.0, d.value.0)], k - 3)
  {
    hide ReadHead, ReadKey, ReadAt, ReadItemsAt, ReadBlockAt;
    NoRun(p, keyed, dw, w, dr, r, st, pos, key.1, start, acc);
    if k > 0 {
      BlockOfOne(p, keyed, dw, w, dr, r, st, pos, start, acc, k);
    }
    if k > 1 {
      ReadItemsAtMeans(p, keyed, dw, w, dr, r, 1, st, start, acc, k - 1);
      var d := ReadAt(p, dw, w, dr, r, st, key.1, k - 2);
      if k > 2 && d.Success? {
        ReadItemsAtMeans(p, keyed, dw, w, dr, r, 0, st, d.value.1, acc + [(key.0, d.value.0)], k - 2);
      }
    }
  }

  lemma BlockOfOne(p: Platform, keyed: bool, dw: Defs, w: Schema, dr: Defs, r: Schema, st: Stream, pos: nat, start: nat,
                   acc: seq<(string, Datum)>, k: nat)
    requires pos <= |st.data| && start <= |st.data| && k > 0
    requires
      var head := After(st, ReadHead(Tail(st, pos)));
      head.Success? && head.value.0.count == 1 && head.value.1 == start
    ensures ReadBlockAt(p, keyed, dw, w, dr, r, st, pos, acc, k) ==
      ReadItemsAt(p, keyed, dw, w, dr, r, 1, st, start, acc, k - 1)
  {
    hide ReadHead, ReadItemsAt;
  }

  lemma NoRun(p: Platform, keyed: bool, dw: Defs, w: Schema, dr: Defs, r: Schema, st: Stream, pos: nat, pos': nat,
              pos'': nat, acc: seq<(string, Datum)>)
    requires pos <= |st.data| && pos' <= |st.data| && pos'' <= |st.data|
    ensures ReadBlockAt(p, keyed, dw, w, dr, r, st, pos, acc, 0) == Failure(OutOfSteps)
    ensures ReadAt(p, dw, w, dr, r, st, pos', 0) == Failure(OutOfSteps)
    ensures ReadItemsAt(p, keyed, dw, w, dr, r, 1, st, pos'', acc, 0) == Failure(OutOfSteps)
  {
  }

  // Small inputs

  const INTS: Field := Field("f", Array(Prim(PInt)), None)
  const TEXT: Field := Field("s", Prim(PString), None)

  /** A record with the one field f, and the same record without it. */
  function Holding(f: Field): Defs {
    map["R" := Record(KRecord, [f])]
  }

  const EMPTY: Defs := map["R" := Record(KRecord, [])]

  lemma HoldingIsGuarded(f: Field)
    requires !f.ftype.Named?
    ensures Guarded(Holding(f))
  {
    assert IsRanking(Holding(f), map["R" := 0]);
  }

  /** A record with an array, read as one without it: on two bytes no number of steps is enough. */
  lemma TwoBytesNeverEnd(p: Platform, inMemory: bool)
    ensures !Ends(p, Holding(INTS), Named("R"), EMPTY, Named("R"), Stream([1, 3], inMemory), 0)
  {
    var st := Stream([1, 3], inMemory);
    HoldingIsGuarded(INTS);
    PoisonedRecord(p);
    hide Guarded, Read, ReadAt, Holding, EMPTY;
    assert Tail(st, 0) == [1, 3];
    EndsAsDescribed(p, Holding(INTS), Named("R"), EMPTY, Named("R"), st, 0);
  }

  lemma PoisonedRecord(p: Platform)
    requires Guarded(Holding(INTS))
    ensures Read(p, Holding(INTS), Named("R"), EMPTY, Named("R"), [1, 3]) == Failure(EndlessSkip)
  {
    PoisonLoops(false, Holding(INTS), Prim(PInt), []);
    assert POISON + [] == [1, 3];
    hide Guarded, SkipBlock;
    assert ReadFields(p, Holding(INTS), "R", EMPTY, [], 0, [1, 3], map[]) == Failure(EndlessSkip);
  }

  /** An array of records with a string, read as an array of records without it. */
  lemma SkippedTextNeverEnds(p: Platform, inMemory: bool)
    ensures !Ends(p, Holding(TEXT), Array(Named("R")), EMPTY, Array(Named("R")), Stream([2, 3], inMemory), 0)
  {
    var st := Stream([2, 3], inMemory);
    TextHead(p, st);
    hide ReadHead, ReadKey, ReadAt, ReadBlockAt, After, Tail, Holding, EMPTY, TEXT;
    forall j: nat
      ensures
        var d := ReadAt(p, Holding(TEXT), Named("R"), EMPTY, Named("R"), st, 1, j);
        d == Failure(OutOfSteps) || (d.Success? && d.value.1 == 0)
    {
      TextLeadsBack(p, st, j);
    }
    forall k: nat
      ensures ReadAt(p, Holding(TEXT), Array(Named("R")), EMPTY, Array(Named("R")), st, 0, k) == Failure(OutOfSteps)
    {
      if k > 0 {
        BackToTheHead(p, false, Holding(TEXT), Named("R"), EMPTY, Named("R"), st, 0, [], k - 1);
      }
      ArrayOfTexts(p, st, k);
    }
  }

  /** The first byte announces one item, which has no key. */
  lemma TextHead(p: Platform, st: Stream)
    requires st.data == [2, 3]
    ensures After(st, ReadHead(Tail(st, 0))) == Success((Head(1, None), 1))
    ensures After(st, ReadKey(p, false, Tail(st, 1))) == Success(("", 1))
  {
    assert Tail(st, 0) == [2, 3];
    assert [2, 3][1..] == [3];
    assert ReadDigits([2, 3]) == Success((2, [3]));
    hide ReadDigits, Tail;
    assert ReadHead([2, 3]) == Success((Head(1, None), [3]));
  }

  lemma ArrayOfTexts(p: Platform, st: Stream, k: nat)
    requires k > 0 ==>
      ReadBlockAt(p, false, Holding(TEXT), Named("R"), EMPTY, Named("R"), st, 0, [], k - 1) == Failure(OutOfSteps)
    ensures ReadAt(p, Holding(TEXT), Array(Named("R")), EMPTY, Array(Named("R")), st, 0, k) == Failure(OutOfSteps)
  {
    hide ReadBlockAt;
  }

  lemma TextLeadsBack(p: Platform, st: Stream, j: nat)
    requires st.data == [2, 3]
    ensures
      var d := ReadAt(p, Holding(TEXT), Named("R"), EMPTY, Named("R"), st, 1, j);
      d == Failure(OutOfSteps) || (d.Success? && d.value.1 == 0)
  {
    assert Tail(st, 1) == [3];
    assert ReadLong([3]) == Success((-2, [3][1..]));
    assert SkipBytesAt(st, 1) == Success(0);
    if j > 1 {
      assert ReadFieldsAt(p, Holding(TEXT), "R", EMPTY, [], 0, st, 1, map[], j - 1) ==
        if j == 2 then Failure(OutOfSteps)
        else ReadFieldsAt(p, Holding(TEXT), "R", EMPTY, [], 1, st, 0, map[], j - 2);
    }
  }

  /** The conditions of TameReadEnds are not necessary: a field that is never reached does no harm. */
  lemma UnreachedFieldEnds(p: Platform, st: Stream, pos: nat, t: Tables, d: nat)
    requires pos <= |st.data| && ("R", "R") !in t.pairs
    ensures
      var (dw, dr) := (map["R" := Record(KRecord, [Field("u", Union([]), None), INTS])],
                       map["R" := Record(KRecord, [Field("u", Union([]), None)])]);
      && Ends(p, dw, Named("R"), dr, Named("R"), st, pos)
      && !TameRead(dw, Named("R"), dr, Named("R"), t, d)
  {
    var u := Field("u", Union([]), None);
    var dw: Defs, dr: Defs := map["R" := Record(KRecord, [u, INTS])], map["R" := Record(KRecord, [u])];
    assert FindField([u], "u") == Some(u) && FindField([u], "f") == None;
    LongLeaves(Tail(st, pos));
    assert ReadAt(p, dw, Union([]), dr, Union([]), st, pos, 1).Failure?;
    assert ReadAt(p, dw, Union([]), dr, Union([]), st, pos, 1) != Failure(OutOfSteps);
    assert ReadFieldsAt(p, dw, "R", dr, [u], 0, st, pos, map[], 2) != Failure(OutOfSteps);
    assert ReadAt(p, dw, Named("R"), dr, Named("R"), st, pos, 3) != Failure(OutOfSteps);
    assert dw["R"].fields[1] == INTS;
  }
}
