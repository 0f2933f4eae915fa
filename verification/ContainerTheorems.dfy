/** Whole-life properties of container files: any calls, any number of sessions, then iteration. */
module ContainerTheorems {
  import opened Basics
  import opened Varint
  import opened Schemas
  import opened Encoding
  import opened Decoding
  import opened Resolution
  import opened RoundTrip
  import opened ContainerFormat
  import opened ContainerIteration

  /** After a final flush nothing is left in the buffer, and the blocks hold all accepted data. */
  lemma FlushedLog(lib: Library, lay: Layout, calls: seq<Call>)
    requires Sound(lib.p)
    ensures
      var log := Run(lib, lay, calls + [Flush]);
      log.pending == [] && Flatten(log.blocks) == Accepted(lay, calls)
  {
    hide Sound, Validate;
    var all := calls + [Flush];
    assert all[..|all| - 1] == calls;
    Conservation(lib, lay, all);
    var log := Run(lib, lay, all);
    assert Flatten(log.blocks) + [] == Flatten(log.blocks);
  }

  /**
   * Whatever series of appends, syncs, flushes and reopenings produced the file, iterating over it
   * gives every accepted datum, once and in order, as the reader's schema sees it, and then stops.
   */
  lemma FileRoundTrip(rd: Reader, calls: seq<Call>, n: nat)
    requires SoundLibrary(rd.lib) && ValidLayout(rd.lay) && AllResolve(rd, Accepted(rd.lay, calls))
    requires !(rd.lay.sync <= BlocksBytes(rd.lib, rd.lay, Run(rd.lib, rd.lay, calls + [Flush]).blocks))
    ensures
      var header := HeaderBytes(rd.lib.p, Meta(rd.lib, rd.lay), rd.lay.sync);
      var file := FileBytes(rd.lib, rd.lay, Run(rd.lib, rd.lay, calls + [Flush]).blocks);
      Items(rd, Cursor(file, |header|, 0, [], 0), n) == Success(Expected(rd, Accepted(rd.lay, calls), n))
  {
    hide Sound, Guarded, AllResolve, HeaderBytes, BlocksBytes, Items, Run;
    FlushedLog(rd.lib, rd.lay, calls);
    var blocks := Run(rd.lib, rd.lay, calls + [Flush]).blocks;
    var header := HeaderBytes(rd.lib.p, Meta(rd.lib, rd.lay), rd.lay.sync);
    var file := FileBytes(rd.lib, rd.lay, blocks);
    assert file[|header|..] == BlocksBytes(rd.lib, rd.lay, blocks);
    IterationDelivers(rd, |header|, file, blocks, n);
  }

  lemma {:induction false} AcceptedIsValid(lay: Layout, calls: seq<Call>)
    ensures AllValid(lay, Accepted(lay, calls))
  {
    hide Validate;
    if calls != [] {
      AcceptedIsValid(lay, calls[..|calls| - 1]);
    }
  }

  /** A reader without a schema of its own sees every accepted datum in its normal form. */
  lemma OwnSchemaDelivers(rd: Reader, calls: seq<Call>, i: nat)
    requires WellFormed(rd.lay.defs) && WellFormedSchema(rd.lay.defs, rd.lay.schema)
    requires rd.dr == rd.lay.defs && rd.r == rd.lay.schema
    ensures AllResolve(rd, Accepted(rd.lay, calls))
    ensures i < |Accepted(rd.lay, calls)| ==>
      var ds := Accepted(rd.lay, calls);
      && AllValid(rd.lay, ds)
      && |Expected(rd, ds, |ds|)| == |ds|
      && Expected(rd, ds, |ds|)[i] == Next(Norm(rd.lib.p, rd.lay.defs, rd.lay.schema, ds[i]))
  {
    hide WellFormed, WellFormedSchema, Validate, Resolve, Norm;
    var ds := Accepted(rd.lay, calls);
    AcceptedIsValid(rd.lay, calls);
    forall j | 0 <= j < |ds| {
      SelfResolve(rd.lib.p, rd.lay.defs, rd.lay.schema, ds[j]);
    }
    if i < |ds| {
      ExpectedAt(rd, ds, |ds|, i);
    }
  }

  lemma {:induction false} ExpectedAt(rd: Reader, ds: seq<Datum>, n: nat, i: nat)
    requires AllResolve(rd, ds) && i < n
    ensures |Expected(rd, ds, n)| == n
    ensures Expected(rd, ds, n)[i] ==
      if i < |ds| then Next(Resolve(rd.lib.p, rd.lay.defs, rd.lay.schema, rd.dr, rd.r, ds[i]).value) else Stop
    decreases n
  {
    hide Resolve, Validate;
    var tail := if ds == [] then [] else ds[1..];
    if n > 1 {
      ExpectedAt(rd, tail, n - 1, if i > 0 then i - 1 else 0);
    } else {
      assert Expected(rd, tail, 0) == [];
    }
  }

  // Why the first block must not start with the marker

  /** Sixteen bytes that are also the start of a block holding the single boolean true. */
  const UNLUCKY: seq<byte> := [2, 2, 1, 2, 2, 1, 2, 2, 1, 2, 2, 1, 2, 2, 1, 2]

  function UnluckyLayout(): Layout {
    Layout(NULL_CODEC, UNLUCKY, map[], Prim(PBoolean))
  }

  function UnluckyReader(lib: Library): Reader {
    Reader(lib, UnluckyLayout(), map[], Prim(PBoolean))
  }

  lemma UnluckyIsOrdinary(lib: Library)
    requires SoundLibrary(lib)
    ensures ValidLayout(UnluckyLayout()) && ValidBlocks(UnluckyLayout(), [[Bool(true)]])
    ensures AllResolve(UnluckyReader(lib), [Bool(true)])
    ensures Expected(UnluckyReader(lib), [Bool(true)], 1) == [Next(Bool(true))]
  {
    assert IsRanking(UnluckyLayout().defs, map[]);
    assert Expected(UnluckyReader(lib), [Bool(true)][1..], 0) == [];
  }

  /** A file with a single datum, uncompressed. */
  lemma OneBlock(lib: Library, lay: Layout, d: Datum)
    requires SoundLibrary(lib) && ValidLayout(lay) && lay.codec == NULL_CODEC && Validate(lay.defs, lay.schema, d)
    ensures ValidBlocks(lay, [[d]])
    ensures
      var data := Write(lib.p, lay.defs, lay.schema, d);
      BlocksBytes(lib, lay, [[d]]) == Long(1) + (Long(|data|) + (data + lay.sync))
  {
    hide Sound, Write, Validate, Long, Guarded;
    var none: seq<Datum> := [];
    assert [d][1..] == none && Encodings(lib.p, lay, none) == [];
    assert Encodings(lib.p, lay, [d]) == Write(lib.p, lay.defs, lay.schema, d);
    NoBlocks(Reader(lib, lay, map[], Prim(PNull)));
    var noBlocks: seq<seq<Datum>> := [];
    assert [[d]][1..] == noBlocks;
    assert BlocksBytes(lib, lay, [[d]]) == BlockBytes(lib, lay, [d]);
  }

  lemma UnluckyBytes(lib: Library)
    requires SoundLibrary(lib)
    ensures ValidBlocks(UnluckyLayout(), [[Bool(true)]])
    ensures BlocksBytes(lib, UnluckyLayout(), [[Bool(true)]]) == [2, 2, 1] + UNLUCKY
  {
    UnluckyIsOrdinary(lib);
    OneBlock(lib, UnluckyLayout(), Bool(true));
    hide Sound, Guarded, BlocksBytes, UNLUCKY, ValidBlocks;
    assert Write(lib.p, map[], Prim(PBoolean), Bool(true)) == [1];
    assert Long(1) == [2];
    assert [2] + ([2] + ([1] + UNLUCKY)) == [2, 2, 1] + UNLUCKY;
  }

  /** The three bytes left after the skipped marker read as a block of one datum, false. */
  lemma UnluckyTail(rd: Reader, cur: Cursor)
    requires rd.lay == UnluckyLayout() && rd.dr == map[] && rd.r == Prim(PBoolean) && Guarded(rd.lay.defs)
    requires cur.count == 0 && Placed(cur) && Rest(cur) == [2, 1, 2]
    ensures
      var header := ReadBlockHeader(rd, cur);
      && header.Success? && ReadDatum(rd, header.value).Success?
      && ReadDatum(rd, header.value).value.0 == Next(Bool(false))
  {
    hide Guarded;
    assert [2, 1, 2][1..] == [1, 2] && [1, 2][1..] == [2];
    assert ReadLong([2, 1, 2]) == Success((1, [1, 2]));
    assert SkipLong([1, 2]) == Success([2]);
    RestAt(cur, [2, 1], [2]);
    var cur' := AtRest(cur, [2]).(count := 1);
    assert ReadBlockHeader(rd, cur) == Success(cur') && Rest(cur') == [2];
    assert [2][..1] == [2] && |[2][1..]| == 0;
    assert ReadPrimitive(rd.lib.p, PBoolean, [2]) == Success((Bool(false), []));
  }

  /** With this marker the reader skips into the block and reports false where true was appended. */
  lemma MarkerInFirstBlock(lib: Library, header: seq<byte>)
    requires SoundLibrary(lib)
    ensures
      var (lay, rd) := (UnluckyLayout(), UnluckyReader(lib));
      && ValidLayout(lay) && ValidBlocks(lay, [[Bool(true)]]) && AllResolve(rd, [Bool(true)])
      && Items(rd, Cursor(header + BlocksBytes(lib, lay, [[Bool(true)]]), |header|, 0, [], 0), 1) ==
           Success([Next(Bool(false))])
      && Expected(rd, [Bool(true)], 1) == [Next(Bool(true))]
  {
    UnluckyIsOrdinary(lib);
    UnluckyBytes(lib);
    UnluckyItem(UnluckyReader(lib), header, BlocksBytes(lib, UnluckyLayout(), [[Bool(true)]]));
  }

  lemma UnluckyItem(rd: Reader, header: seq<byte>, bytes: seq<byte>)
    requires rd.lay == UnluckyLayout() && rd.dr == map[] && rd.r == Prim(PBoolean) && Guarded(rd.lay.defs)
    requires bytes == [2, 2, 1] + UNLUCKY
    ensures Items(rd, Cursor(header + bytes, |header|, 0, [], 0), 1) == Success([Next(Bool(false))])
  {
    assert bytes == UNLUCKY + [2, 1, 2] && |bytes| == 19;
    hide Guarded, SkipSync, ReadBlockHeader, ReadDatum, UNLUCKY, Items;
    var cur := Cursor(header + bytes, |header|, 0, [], 0);
    assert Rest(cur) == rd.lay.sync + [2, 1, 2];
    MarkerIsSkipped(rd, cur, [2, 1, 2]);
    assert cur.pos < |cur.file| && SkipSync(rd, cur) == Success((true, AtRest(cur, [2, 1, 2])));
    UnluckyRest(cur);
    UnluckyTail(rd, AtRest(cur, [2, 1, 2]));
    OneItem(rd, cur, AtRest(cur, [2, 1, 2]));
  }

  lemma OneItem(rd: Reader, cur: Cursor, cur': Cursor)
    requires Guarded(rd.lay.defs) && Placed(cur) && cur.count == 0 && cur.pos < |cur.file|
    requires SkipSync(rd, cur) == Success((true, cur')) && Placed(cur') && cur'.pos < |cur'.file|
    requires ReadBlockHeader(rd, cur').Success? && ReadDatum(rd, ReadBlockHeader(rd, cur').value).Success?
    ensures Items(rd, cur, 1) == Success([ReadDatum(rd, ReadBlockHeader(rd, cur').value).value.0])
  {
    hide Guarded, SkipSync, ReadBlockHeader, ReadDatum;
    var (item, next) := ReadDatum(rd, ReadBlockHeader(rd, cur').value).value;
    assert NextItem(rd, cur) == Success((item, next));
    assert Items(rd, next, 0) == Success([]) && [item] + [] == [item];
  }

  lemma UnluckyRest(cur: Cursor)
    requires Placed(cur) && cur.count == 0 && |cur.file| >= 3
    ensures var cur' := AtRest(cur, [2, 1, 2]); cur'.count == 0 && cur'.pos < |cur'.file|
  {
  }

  // The same guard is not always needed: here the skipped bytes and the ones read instead say the same

  const LUCKY: seq<byte> := [2, 0, 2, 0, 2, 0, 2, 0, 2, 0, 2, 0, 2, 0, 2, 0]

  function LuckyReader(lib: Library): Reader {
    Reader(lib, Layout(NULL_CODEC, LUCKY, map[], Prim(PNull)), map[], Prim(PNull))
  }

  lemma LuckyIsOrdinary(lib: Library)
    requires SoundLibrary(lib)
    ensures var rd := LuckyReader(lib); ValidLayout(rd.lay) && ValidBlocks(rd.lay, [[Null]]) && AllResolve(rd, [Null])
  {
    assert IsRanking(LuckyReader(lib).lay.defs, map[]);
  }

  lemma LuckyBytes(lib: Library)
    requires SoundLibrary(lib)
    ensures
      var rd := LuckyReader(lib);
      ValidBlocks(rd.lay, [[Null]]) && BlocksBytes(lib, rd.lay, [[Null]]) == LUCKY + [2, 0]
  {
    LuckyIsOrdinary(lib);
    OneBlock(lib, LuckyReader(lib).lay, Null);
    hide Sound, Guarded, BlocksBytes, LUCKY, ValidBlocks;
    assert Write(lib.p, map[], Prim(PNull), Null) == [];
    assert Long(1) == [2] && Long(0) == [0];
    LuckyRotates([2], [0], []);
  }

  lemma LuckyRotates(a: seq<byte>, b: seq<byte>, c: seq<byte>)
    requires a == [2] && b == [0] && c == []
    ensures a + (b + (c + LUCKY)) == LUCKY + [2, 0]
  {
  }

  lemma LuckyTail(rd: Reader, cur: Cursor)
    requires rd.lay.codec == NULL_CODEC && rd.lay.defs == map[] && rd.lay.schema == Prim(PNull) && rd.dr == map[]
    requires rd.r == Prim(PNull)
    requires Guarded(rd.lay.defs) && cur.count == 0 && Placed(cur) && Rest(cur) == [2, 0]
    ensures
      var header := ReadBlockHeader(rd, cur);
      && header.Success?
      && ReadDatum(rd, header.value) == Success((Next(Null), cur.(pos := |cur.file|)))
  {
    hide Guarded;
    assert [2, 0][1..] == [0] && |[0][1..]| == 0;
    assert ReadLong([2, 0]) == Success((1, [0]));
    assert SkipLong([0]) == Success([]);
    RestAt(cur, [2, 0], []);
    var cur' := AtRest(cur, []).(count := 1);
    assert ReadBlockHeader(rd, cur) == Success(cur') && Rest(cur') == [];
    assert ReadPrimitive(rd.lib.p, PNull, []) == Success((Null, []));
    assert AtRest(cur', []).(count := 0) == cur.(pos := |cur.file|);
  }

  lemma LuckyExpected(rd: Reader, n: nat)
    requires AllResolve(rd, [Null]) && rd.lay.defs == map[] && rd.lay.schema == Prim(PNull) && rd.dr == map[]
    requires rd.r == Prim(PNull) && n > 0
    ensures Expected(rd, [Null], n) == [Next(Null)] + Expected(rd, [], n - 1)
  {
    assert [Null][1..] == [];
  }

  /** The first block starts with the marker, and still everything is delivered. */
  lemma MarkerCanBeHarmless(lib: Library, header: seq<byte>, n: nat)
    requires SoundLibrary(lib)
    ensures
      var rd := LuckyReader(lib);
      && ValidLayout(rd.lay) && ValidBlocks(rd.lay, [[Null]]) && AllResolve(rd, [Null])
      && rd.lay.sync <= BlocksBytes(lib, rd.lay, [[Null]])
      && Items(rd, Cursor(header + BlocksBytes(lib, rd.lay, [[Null]]), |header|, 0, [], 0), n) ==
           Success(Expected(rd, [Null], n))
  {
    LuckyIsOrdinary(lib);
    LuckyBytes(lib);
    var rd := LuckyReader(lib);
    LuckyItems(rd, header, BlocksBytes(lib, rd.lay, [[Null]]), n);
  }

  /** The marker is skipped at the start of the first block. */
  lemma LuckyStart(rd: Reader, cur: Cursor)
    requires rd == LuckyReader(rd.lib) && Placed(cur) && cur.pos < |cur.file| && Rest(cur) == LUCKY + [2, 0]
    ensures
      var cur' := cur.(pos := |cur.file| - 2);
      && Placed(cur') && SkipSync(rd, cur) == Success((true, cur')) && Rest(cur') == [2, 0]
  {
    assert |LUCKY| == SYNC_SIZE;
    hide LUCKY, SkipSync;
    MarkerIsSkipped(rd, cur, [2, 0]);
  }

  lemma LuckyItems(rd: Reader, header: seq<byte>, bytes: seq<byte>, n: nat)
    requires rd == LuckyReader(rd.lib) && Guarded(rd.lay.defs) && AllResolve(rd, [Null]) && bytes == LUCKY + [2, 0]
    ensures Items(rd, Cursor(header + bytes, |header|, 0, [], 0), n) == Success(Expected(rd, [Null], n))
  {
    hide Guarded, SkipSync, ReadBlockHeader, ReadDatum, LUCKY, Items, AllResolve;
    var cur := Cursor(header + bytes, |header|, 0, [], 0);
    assert Rest(cur) == bytes;
    LuckyStart(rd, cur);
    var cur' := cur.(pos := |cur.file| - 2);
    LuckyTail(rd, cur');
    var end := cur.(pos := |cur.file|);
    if n == 0 {
      NoItems(rd, cur);
    } else {
      FirstItem(rd, cur, cur', end, n);
      StopsForEver(rd, end, n - 1);
      LuckyExpected(rd, n);
    }
  }

  lemma NoItems(rd: Reader, cur: Cursor)
    requires Guarded(rd.lay.defs) && Placed(cur) && AllResolve(rd, [Null])
    ensures Items(rd, cur, 0) == Success(Expected(rd, [Null], 0))
  {
  }

  lemma FirstItem(rd: Reader, cur: Cursor, cur': Cursor, end: Cursor, n: nat)
    requires Guarded(rd.lay.defs) && Placed(cur) && cur.count == 0 && cur.pos < |cur.file| && n > 0
    requires SkipSync(rd, cur) == Success((true, cur')) && Placed(cur') && cur'.pos < |cur'.file| && Placed(end)
    requires ReadBlockHeader(rd, cur').Success?
    requires ReadDatum(rd, ReadBlockHeader(rd, cur').value) == Success((Next(Null), end))
    ensures Items(rd, end, n - 1).Success? ==> Items(rd, cur, n) == Success([Next(Null)] + Items(rd, end, n - 1).value)
  {
    hide Guarded, SkipSync, ReadBlockHeader, ReadDatum;
    assert NextItem(rd, cur) == Success((Next(Null), end));
  }
}
