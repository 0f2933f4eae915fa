/** DatumWriter as procedures over a stream (avro/devices/avro/io.py). */
module DatumWriting {
  import opened Basics
  import opened Varint
  import opened Schemas
  import opened Encoding
  import opened Decoding
  import opened BinaryStreams

  /** No str, list or dict written is longer than sys.maxsize, so every length is a 64-bit long. */
  ghost predicate Sized(p: Platform, defs: Defs, s: Schema, d: Datum)
    requires Sound(p) && Validate(defs, s, d)
    decreases d != Null, d, s
  {
    match s
    case Prim(PString) => |p.encodeText(d.s)| <= LONG_MAX
    case Prim(PBytes) => |d.data| <= LONG_MAX
    case Prim(_) => true
    case Array(items) =>
      |d.items| <= LONG_MAX && forall i :: 0 <= i < |d.items| ==> Sized(p, defs, items, d.items[i])
    case Map(values) =>
      && |p.keys(d.entries)| <= LONG_MAX
      && forall k :: k in d.entries ==> |p.encodeText(k)| <= LONG_MAX && Sized(p, defs, values, d.entries[k])
    case Union(bs) => |bs| <= LONG_MAX && Sized(p, defs, bs[LastValid(defs, bs, d)], d)
    case Named(n) =>
      match defs[n]
      case Fixed(_) => true
      case Enum(symbols) => |symbols| <= LONG_MAX
      case Record(_, fields) =>
        forall i :: 0 <= i < |fields| ==> Sized(p, defs, fields[i].ftype, Get(d.entries, fields[i].name))
  }

  /** Every number written under float or double can be packed; validate does not look at that. */
  predicate Packs(p: Platform, defs: Defs, s: Schema, d: Datum)
    requires Validate(defs, s, d)
    decreases d != Null, d, s
  {
    match s
    case Prim(PFloat) => p.floatPacks(d)
    case Prim(PDouble) => p.doublePacks(d)
    case Prim(_) => true
    case Array(items) => forall i :: 0 <= i < |d.items| ==> Packs(p, defs, items, d.items[i])
    case Map(values) => forall k :: k in d.entries ==> Packs(p, defs, values, d.entries[k])
    case Union(bs) => Packs(p, defs, bs[LastValid(defs, bs, d)], d)
    case Named(n) =>
      match defs[n]
      case Record(_, fields) =>
        forall i :: 0 <= i < |fields| ==> Packs(p, defs, fields[i].ftype, Get(d.entries, fields[i].name))
      case _ => true
  }

  predicate FloatFree(s: Schema) {
    match s
    case Prim(prim) => prim != PFloat && prim != PDouble
    case Array(items) => FloatFree(items)
    case Map(values) => FloatFree(values)
    case Union(bs) => forall i :: 0 <= i < |bs| ==> FloatFree(bs[i])
    case Named(_) => true
  }

  /** Without float and double everything packs. */
  lemma {:induction false} FloatFreePacks(p: Platform, defs: Defs, s: Schema, d: Datum)
    requires Validate(defs, s, d) && FloatFree(s)
    requires forall n, i :: n in defs && defs[n].Record? && 0 <= i < |defs[n].fields| ==>
      FloatFree(defs[n].fields[i].ftype)
    ensures Packs(p, defs, s, d)
    decreases d != Null, d, s
  {
    match s
    case Prim(_) =>
    case Array(items) => forall i | 0 <= i < |d.items| { FloatFreePacks(p, defs, items, d.items[i]); }
    case Map(values) => forall k | k in d.entries { FloatFreePacks(p, defs, values, d.entries[k]); }
    case Union(bs) => FloatFreePacks(p, defs, bs[LastValid(defs, bs, d)], d);
    case Named(n) =>
      if defs[n].Record? {
        var fields := defs[n].fields;
        forall i | 0 <= i < |fields| { FloatFreePacks(p, defs, fields[i].ftype, Get(d.entries, fields[i].name)); }
      }
  }

  /** Everything is written, or struct raised on a number and only a proper part of it is. */
  ghost predicate Wrote(res: Result<()>, before: seq<byte>, after: seq<byte>, whole: seq<byte>, packs: bool) {
    match res
    case Success(_) => packs && after == before + whole
    case Failure(e) => !packs && e == CannotPack && before <= after < before + whole
  }

  /** A part that was cut short leaves the whole cut short. */
  lemma CutShort(start: seq<byte>, before: seq<byte>, after: seq<byte>, part: seq<byte>, rest: seq<byte>)
    requires start <= before && before <= after < before + part
    ensures start <= after < before + (part + rest)
  {
  }

  class DatumWriter {
    const p: Platform
    const defs: Defs
    const schema: Schema

    constructor (platform: Platform, definitions: Defs, s: Schema)
      ensures p == platform && defs == definitions && schema == s
    {
      p, defs, schema := platform, definitions, s;
    }

    /**
     * Data that are not an example of the schema are refused before anything is written. A number
     * that cannot be packed is only met on the way, and what comes before it stays written.
     */
    method Write(d: Datum, encoder: BinaryEncoder) returns (res: Result<()>)
      requires Sound(p) && (Validate(defs, schema, d) ==> Sized(p, defs, schema, d))
      modifies encoder
      ensures
        if !Validate(defs, schema, d) then res == Failure(AvroType) && encoder.written == old(encoder.written)
        else
          Wrote(res, old(encoder.written), encoder.written, Encoding.Write(p, defs, schema, d),
                Packs(p, defs, schema, d))
    {
      if !Validate(defs, schema, d) {
        return Failure(AvroType);
      }
      res := WriteData(schema, d, encoder);
    }

    method WriteData(s: Schema, d: Datum, encoder: BinaryEncoder) returns (res: Result<()>)
      requires Sound(p) && Validate(defs, s, d) && Sized(p, defs, s, d)
      modifies encoder
      ensures Wrote(res, old(encoder.written), encoder.written, Encoding.Write(p, defs, s, d), Packs(p, defs, s, d))
      decreases d != Null, d, 1, s
    {
      res := Success(());
      match s
      case Prim(prim) => res := WriteLeaf(prim, d, encoder);
      case Array(items) => res := WriteArray(items, d, encoder);
      case Map(values) => res := WriteMap(values, d, encoder);
      case Union(bs) => res := WriteUnion(bs, d, encoder);
      case Named(n) =>
        match defs[n] {
          case Fixed(_) => encoder.Write(d.data);
          case Enum(symbols) => encoder.WriteLong(IndexOf(symbols, d.s));
          case Record(_, _) => res := WriteRecord(n, d, encoder);
        }
    }

    method WriteLeaf(prim: Primitive, d: Datum, encoder: BinaryEncoder) returns (res: Result<()>)
      requires Sound(p) && ValidPrimitive(prim, d) && Sized(p, defs, Prim(prim), d)
      modifies encoder
      ensures Wrote(res, old(encoder.written), encoder.written, WritePrimitive(p, prim, d),
                    Packs(p, defs, Prim(prim), d))
    {
      res := Success(());
      match prim
      case PNull =>
      case PBoolean => encoder.WriteBoolean(d.b);
      case PString => encoder.WriteBytes(p.encodeText(d.s));
      case PBytes => encoder.WriteBytes(d.data);
      case PInt => encoder.WriteLong(d.n);
      case PLong => encoder.WriteLong(d.n);
      case PFloat =>
        if !p.floatPacks(d) {
          return Failure(CannotPack);
        }
        encoder.Write(p.packFloat(d));
      case PDouble =>
        if !p.doublePacks(d) {
          return Failure(CannotPack);
        }
        encoder.Write(p.packDouble(d));
    }

    /** All items from number i on pack. */
    ghost predicate ItemsPack(s: Schema, d: Datum, i: nat)
      requires Sound(p) && ValidEntries(p, defs, s, d)
    {
      forall j :: i <= j < Count(p, d) ==> Packs(p, defs, s, ItemAt(p, d, j))
    }

    lemma ArrayPacks(s: Schema, d: Datum)
      requires Sound(p) && Validate(defs, Array(s), d) && ValidEntries(p, defs, s, d)
      ensures Packs(p, defs, Array(s), d) <==> ItemsPack(s, d, 0)
    {
      assert forall i :: 0 <= i < |d.items| ==> ItemAt(p, d, i) == d.items[i];
    }

    lemma MapPacks(s: Schema, d: Datum)
      requires Sound(p) && Validate(defs, Map(s), d) && ValidEntries(p, defs, s, d)
      ensures Packs(p, defs, Map(s), d) <==> ItemsPack(s, d, 0)
    {
      var keys := p.keys(d.entries);
      assert Enumerates(keys, d.entries);
      if ItemsPack(s, d, 0) {
        forall k | k in d.entries ensures Packs(p, defs, s, d.entries[k]) {
          var i :| 0 <= i < |keys| && keys[i] == k;
          assert ItemAt(p, d, i) == d.entries[k];
        }
      }
    }

    /** The first i items have been written behind start, and all of them pack. */
    ghost predicate Written(s: Schema, d: Datum, i: nat, start: seq<byte>, now: seq<byte>)
      requires Sound(p) && ValidEntries(p, defs, s, d)
    {
      && i <= Count(p, d) && start <= now
      && now + WriteItems(p, defs, s, d, i) == start + WriteItems(p, defs, s, d, 0)
      && (ItemsPack(s, d, 0) <==> ItemsPack(s, d, i))
    }

    /** An item cannot be written in full. */
    ghost predicate Stopped(s: Schema, d: Datum, start: seq<byte>, now: seq<byte>)
      requires Sound(p) && ValidEntries(p, defs, s, d)
    {
      start <= now < start + WriteItems(p, defs, s, d, 0) && !ItemsPack(s, d, 0)
    }

    /** With the count in front and the end mark behind, the block is the whole array or map. */
    lemma BlockIsWritten(s: Schema, d: Datum, before: seq<byte>, now: seq<byte>)
      requires Sound(p) && ValidEntries(p, defs, s, d)
      ensures
        var n := Count(p, d);
        var whole := before + WriteBlock(p, defs, s, d);
        && (n == 0 ==> before + Long(0) == whole && ItemsPack(s, d, 0))
        && (n > 0 && Written(s, d, n, before + Long(n), now) ==> now + Long(0) == whole && ItemsPack(s, d, 0))
        && (n > 0 && Stopped(s, d, before + Long(n), now) ==> before <= now < whole)
    {
      hide Sound, Packs, ItemsPack, Long;
      assert ItemsPack(s, d, Count(p, d)) by { NoneLeftPack(s, d); }
      NoItemsLeft(s, d);
      hide WriteItems;
      assert before + (Long(Count(p, d)) + WriteItems(p, defs, s, d, 0))
        == before + Long(Count(p, d)) + WriteItems(p, defs, s, d, 0);
    }

    lemma NoneLeftPack(s: Schema, d: Datum)
      requires Sound(p) && ValidEntries(p, defs, s, d)
      ensures ItemsPack(s, d, Count(p, d))
    {
    }

    method WriteArray(s: Schema, d: Datum, encoder: BinaryEncoder) returns (res: Result<()>)
      requires Sound(p) && Validate(defs, Array(s), d) && Sized(p, defs, Array(s), d)
      modifies encoder
      ensures Wrote(res, old(encoder.written), encoder.written, Encoding.Write(p, defs, Array(s), d),
                    Packs(p, defs, Array(s), d))
      decreases true, d, 0
    {
      ItemsAreValid(p, defs, s, d);
      ArrayPacks(s, d);
      assert |d.items| == Count(p, d) <= LONG_MAX;
      assert Encoding.Write(p, defs, Array(s), d) == WriteBlock(p, defs, s, d);
      hide Sound, Validate, Sized, ValidEntries, Encoding.Write, WriteBlock, Written, Stopped, Long, Packs, ItemsPack;
      ghost var before := encoder.written;
      if |d.items| > 0 {
        encoder.WriteLong(|d.items|);
        var i := 0;
        ghost var start := encoder.written;
        assert Written(s, d, 0, start, start) by { NothingWritten(s, d, start); }
        while i < |d.items|
          invariant i <= |d.items| && Written(s, d, i, start, encoder.written)
        {
          ItemIsReady(s, d, i);
          ghost var here := encoder.written;
          var item := WriteData(s, d.items[i], encoder);
          NoKey(here);
          WroteItem(s, d, i, start, here, here, encoder.written, item);
          if item.Failure? {
            BlockIsWritten(s, d, before, encoder.written);
            return item;
          }
          i := i + 1;
        }
      }
      BlockIsWritten(s, d, before, encoder.written);
      encoder.WriteLong(0);
      return Success(());
    }

    lemma NothingWritten(s: Schema, d: Datum, start: seq<byte>)
      requires Sound(p) && ValidEntries(p, defs, s, d)
      ensures Written(s, d, 0, start, start)
    {
      hide Sound, ValidEntries, ItemsPack, WriteItems;
    }

    lemma ItemIsReady(s: Schema, d: Datum, i: nat)
      requires Sound(p) && (Validate(defs, Array(s), d) || Validate(defs, Map(s), d))
      requires Sized(p, defs, if d.List? then Array(s) else Map(s), d) && i < Count(p, d)
      ensures ItemAt(p, d, i) < d && Validate(defs, s, ItemAt(p, d, i)) && Sized(p, defs, s, ItemAt(p, d, i))
      ensures d.List? ==> ItemAt(p, d, i) == d.items[i]
      ensures d.Dict? ==>
        var key := p.keys(d.entries)[i];
        KeyAt(p, d, i) == key && key in d.entries && ItemAt(p, d, i) == d.entries[key]
            && |p.encodeText(key)| <= LONG_MAX
    {
      ItemsAreValid(p, defs, s, d);
      if d.Dict? {
        assert Enumerates(p.keys(d.entries), d.entries);
      }
    }

    lemma FieldIsReady(n: string, d: Datum, i: nat)
      requires Sound(p) && n in defs && defs[n].Record? && Validate(defs, Named(n), d) && Sized(p, defs, Named(n), d)
      requires i < |defs[n].fields|
      ensures
        var f := defs[n].fields[i];
        d.Dict? && Validate(defs, f.ftype, Get(d.entries, f.name)) && Sized(p, defs, f.ftype, Get(d.entries, f.name))
    {
    }

    lemma NoKey(before: seq<byte>)
      ensures before + WriteKey(p, false, "") == before
    {
    }

    /** Entry i has been written, or as much of it as was possible. */
    lemma WroteItem(s: Schema, d: Datum, i: nat, start: seq<byte>, before: seq<byte>, behindKey: seq<byte>,
                    after: seq<byte>, res: Result<()>)
      requires Sound(p) && ValidEntries(p, defs, s, d) && i < Count(p, d) && Written(s, d, i, start, before)
      requires behindKey == before + WriteKey(p, d.Dict?, KeyAt(p, d, i))
      requires Wrote(res, behindKey, after, Encoding.Write(p, defs, s, ItemAt(p, d, i)),
                     Packs(p, defs, s, ItemAt(p, d, i)))
      ensures res.Success? ==> Written(s, d, i + 1, start, after)
      ensures res.Failure? ==> Stopped(s, d, start, after)
    {
      hide Sound, Encoding.Write, WriteKey, Packs, Count, ItemAt, KeyAt;
      var part, rest := Encoding.Write(p, defs, s, ItemAt(p, d, i)), WriteItems(p, defs, s, d, i + 1);
      assert WriteItems(p, defs, s, d, i) == WriteKey(p, d.Dict?, KeyAt(p, d, i)) + (part + rest);
      hide WriteItems;
      assert behindKey + (part + rest) == start + WriteItems(p, defs, s, d, 0);
      if res.Failure? {
        CutShort(start, behindKey, after, part, rest);
      } else {
        assert behindKey + (part + rest) == after + rest;
      }
    }

    /** The body of the loop of write_map. */
    method WriteEntry(s: Schema, d: Datum, i: nat, key: string, encoder: BinaryEncoder, ghost start: seq<byte>)
      returns (res: Result<()>)
      requires Sound(p) && Validate(defs, Map(s), d) && Sized(p, defs, Map(s), d) && ValidEntries(p, defs, s, d)
      requires i < Count(p, d) && key == KeyAt(p, d, i) && Written(s, d, i, start, encoder.written)
      modifies encoder
      ensures res.Success? ==> Written(s, d, i + 1, start, encoder.written)
      ensures res.Failure? ==> res.error == CannotPack && Stopped(s, d, start, encoder.written)
      decreases true, d, 0, 0
    {
      ItemIsReady(s, d, i);
      hide Sound, Validate, Sized, ValidEntries, Encoding.Write, Written, Stopped, Packs, ItemsPack;
      ghost var here := encoder.written;
      encoder.WriteBytes(p.encodeText(key));
      ghost var behindKey := encoder.written;
      assert behindKey == here + WriteKey(p, true, key);
      hide WriteKey;
      res := WriteData(s, d.entries[key], encoder);
      WroteItem(s, d, i, start, here, behindKey, encoder.written, res);
    }

    method WriteMap(s: Schema, d: Datum, encoder: BinaryEncoder) returns (res: Result<()>)
      requires Sound(p) && Validate(defs, Map(s), d) && Sized(p, defs, Map(s), d)
      modifies encoder
      ensures Wrote(res, old(encoder.written), encoder.written, Encoding.Write(p, defs, Map(s), d),
                    Packs(p, defs, Map(s), d))
      decreases true, d, 0, 1
    {
      ItemsAreValid(p, defs, s, d);
      MapPacks(s, d);
      var keys := p.keys(d.entries);
      assert |keys| == Count(p, d) <= LONG_MAX;
      assert Encoding.Write(p, defs, Map(s), d) == WriteBlock(p, defs, s, d);
      hide Sound, Validate, Sized, ValidEntries, Encoding.Write, WriteBlock, Written, Stopped, Long, Packs, ItemsPack;
      ghost var before := encoder.written;
      if |keys| > 0 {
        encoder.WriteLong(|keys|);
        var i := 0;
        ghost var start := encoder.written;
        assert Written(s, d, 0, start, start) by { NothingWritten(s, d, start); }
        while i < |keys|
          invariant i <= |keys| && Written(s, d, i, start, encoder.written)
        {
          var value := WriteEntry(s, d, i, keys[i], encoder, start);
          if value.Failure? {
            BlockIsWritten(s, d, before, encoder.written);
            return value;
          }
          i := i + 1;
        }
      }
      BlockIsWritten(s, d, before, encoder.written);
      encoder.WriteLong(0);
      return Success(());
    }

    lemma NoItemsLeft(s: Schema, d: Datum)
      requires Sound(p) && ValidEntries(p, defs, s, d)
      ensures WriteItems(p, defs, s, d, Count(p, d)) == Long(0)
    {
    }

    method WriteUnion(bs: seq<Schema>, d: Datum, encoder: BinaryEncoder) returns (res: Result<()>)
      requires Sound(p) && Validate(defs, Union(bs), d) && Sized(p, defs, Union(bs), d)
      modifies encoder
      ensures Wrote(res, old(encoder.written), encoder.written, Encoding.Write(p, defs, Union(bs), d),
                    Packs(p, defs, Union(bs), d))
      decreases d != Null, d, 1, bs
    {
      hide Sound, Validate, Sized, Encoding.Write, LastValid, Long, Packs;
      BranchIsReady(bs, d);
      var index := SelectBranch(bs, d);
      encoder.WriteLong(index);
      res := WriteData(bs[index], d, encoder);
    }

    lemma BranchIsReady(bs: seq<Schema>, d: Datum)
      requires Sound(p) && Validate(defs, Union(bs), d) && Sized(p, defs, Union(bs), d)
      ensures
        var i := LastValid(defs, bs, d);
        && 0 <= i <= LONG_MAX && Validate(defs, bs[i], d) && Sized(p, defs, bs[i], d)
        && Encoding.Write(p, defs, Union(bs), d) == Long(i) + Encoding.Write(p, defs, bs[i], d)
        && (Packs(p, defs, Union(bs), d) <==> Packs(p, defs, bs[i], d))
    {
    }

    /** The loop has no break, so the last valid branch is the one written. */
    method SelectBranch(bs: seq<Schema>, d: Datum) returns (index: int)
      ensures index == LastValid(defs, bs, d)
    {
      index := -1;
      for i := 0 to |bs|
        invariant index == LastValid(defs, bs[..i], d)
      {
        hide Validate;
        assert bs[..i + 1][..i] == bs[..i];
        if Validate(defs, bs[i], d) {
          index := i;
        }
      }
      assert bs[..|bs|] == bs;
    }

    /** All fields from number i on pack. */
    ghost predicate FieldsPack(n: string, d: Datum, i: nat)
      requires n in defs && defs[n].Record? && Validate(defs, Named(n), d)
    {
      forall j :: i <= j < |defs[n].fields| ==>
        Packs(p, defs, defs[n].fields[j].ftype, Get(d.entries, defs[n].fields[j].name))
    }

    /** Field i has been written, or as much of it as was possible. */
    lemma WroteField(n: string, d: Datum, i: nat, start: seq<byte>, before: seq<byte>, after: seq<byte>,
                     res: Result<()>)
      requires Sound(p) && n in defs && defs[n].Record? && Validate(defs, Named(n), d) && i < |defs[n].fields|
      requires start <= before && (FieldsPack(n, d, 0) <==> FieldsPack(n, d, i))
      requires
        var f := defs[n].fields[i];
        Wrote(res, before, after, Encoding.Write(p, defs, f.ftype, Get(d.entries, f.name)),
              Packs(p, defs, f.ftype, Get(d.entries, f.name)))
      ensures start <= after
      ensures res.Success? ==>
        && after + WriteFields(p, defs, n, d, i + 1) == before + WriteFields(p, defs, n, d, i)
        && (FieldsPack(n, d, 0) <==> FieldsPack(n, d, i + 1))
      ensures res.Failure? ==> after < before + WriteFields(p, defs, n, d, i) && !FieldsPack(n, d, 0)
    {
      hide Sound, Encoding.Write, Packs;
      if res.Failure? {
        var f := defs[n].fields[i];
        CutShort(start, before, after, Encoding.Write(p, defs, f.ftype, Get(d.entries, f.name)),
            WriteFields(p, defs, n, d, i + 1));
      }
    }

    method WriteRecord(n: string, d: Datum, encoder: BinaryEncoder) returns (res: Result<()>)
      requires Sound(p) && n in defs && defs[n].Record? && Validate(defs, Named(n), d) && Sized(p, defs, Named(n), d)
      modifies encoder
      ensures Wrote(res, old(encoder.written), encoder.written, Encoding.Write(p, defs, Named(n), d),
                    Packs(p, defs, Named(n), d))
      decreases true, d, 0
    {
      var fields := defs[n].fields;
      ghost var start := encoder.written;
      assert Packs(p, defs, Named(n), d) <==> FieldsPack(n, d, 0);
      for i := 0 to |fields|
        invariant start <= encoder.written
        invariant encoder.written + WriteFields(p, defs, n, d, i) == start + WriteFields(p, defs, n, d, 0)
        invariant FieldsPack(n, d, 0) <==> FieldsPack(n, d, i)
      {
        FieldIsReady(n, d, i);
        hide Sound, Validate, Sized, Encoding.Write, WriteFields, Packs, FieldsPack;
        ghost var before := encoder.written;
        var field := WriteData(fields[i].ftype, Get(d.entries, fields[i].name), encoder);
        WroteField(n, d, i, start, before, encoder.written, field);
        if field.Failure? {
          return field;
        }
      }
      return Success(());
    }
  }
}
