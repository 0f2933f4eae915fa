/** Iterating over an object container file (avro/devices/avro/datafile.py: DataFileReader). */
module ContainerIteration {
  import opened Basics
  import opened Varint
  import opened Schemas
  import opened Encoding
  import opened Decoding
  import opened Execution
  import opened Resolution
  import opened RoundTrip
  import opened Written
  import opened ContainerFormat

  /** What a reader has learnt from the header, and the schema it is asked to deliver. */
  datatype Reader = Reader(lib: Library, lay: Layout, dr: Defs, r: Schema)

  /** The reader's changing part: file position, data left in the block, the inflated block and the position in it. */
  datatype Cursor = Cursor(file: seq<byte>, pos: nat, count: int, block: seq<byte>, at: nat)

  predicate Placed(cur: Cursor) {
    cur.pos <= |cur.file| && cur.at <= |cur.block|
  }

  datatype Item = Stop | Next(d: Datum)

  function Rest(cur: Cursor): seq<byte>
    requires cur.pos <= |cur.file|
  {
    cur.file[cur.pos..]
  }

  function AtRest(cur: Cursor, rest: seq<byte>): (cur': Cursor)
    requires Placed(cur) && |rest| <= |cur.file|
    ensures Placed(cur') && |cur'.file| == |cur.file|
  {
    cur.(pos := |cur.file| - |rest|)
  }

  /** `_read_block_header` */
  function ReadBlockHeader(rd: Reader, cur: Cursor): (res: Result<Cursor>)
    requires Placed(cur)
    ensures res.Success? ==> Placed(res.value)
  {
    var (count, rest) :- ReadLong(Rest(cur));
    if rd.lay.codec == NULL_CODEC then
      var rest' :- SkipLong(rest);
      Success(AtRest(cur, rest').(count := count))
    else
      var (data, rest') :- ReadBytes(rest);
      match rd.lib.inflate(data)
      case None => Failure(BadBlock)
      case Some(block) => Success(AtRest(cur, rest').(count := count, block := block, at := 0))
  }

  /** `_skip_sync`: on a mismatch the cursor moves back by SYNC_SIZE from where the read left it. */
  function SkipSync(rd: Reader, cur: Cursor): (res: Result<(bool, Cursor)>)
    requires Placed(cur)
    ensures res.Success? ==> Placed(res.value.1)
  {
    var proposed := Take(SYNC_SIZE, Rest(cur)).0;
    var pos := cur.pos + |proposed|;
    if proposed == rd.lay.sync then Success((true, cur.(pos := pos)))
    else if pos < SYNC_SIZE then Failure(NegativeSeek)
    else Success((false, cur.(pos := pos - SYNC_SIZE)))
  }

  /** What `next` does before it reads a datum; None for StopIteration. */
  function Advance(rd: Reader, cur: Cursor): (res: Result<(bool, Cursor)>)
    requires Placed(cur)
    ensures res.Success? ==> Placed(res.value.1)
  {
    if cur.count != 0 then Success((true, cur))
    else if cur.pos == |cur.file| then Success((false, cur))
    else
      var (skipped, cur') :- SkipSync(rd, cur);
      if skipped && cur'.pos == |cur'.file| then Success((false, cur'))
      else
        var cur'' :- ReadBlockHeader(rd, cur');
        Success((true, cur''))
  }

  /** Where the data are read: in the file itself, or in the inflated block. */
  function Source(rd: Reader, cur: Cursor): Stream {
    if rd.lay.codec == NULL_CODEC then Stream(cur.file, false) else Stream(cur.block, true)
  }

  function Place(rd: Reader, cur: Cursor): (pos: nat)
    requires Placed(cur)
    ensures pos <= |Source(rd, cur).data|
  {
    if rd.lay.codec == NULL_CODEC then cur.pos else cur.at
  }

  /** One datum has been read, up to the position given. */
  function Delivered(rd: Reader, cur: Cursor, pos: nat): (cur': Cursor)
    requires Placed(cur) && pos <= |Source(rd, cur).data|
    ensures Placed(cur')
  {
    (if rd.lay.codec == NULL_CODEC then cur.(pos := pos) else cur.(at := pos)).(count := cur.count - 1)
  }

  function ReadDatum(rd: Reader, cur: Cursor): (res: Result<(Item, Cursor)>)
    requires Guarded(rd.lay.defs) && Placed(cur)
    ensures res.Success? ==> Placed(res.value.1)
  {
    var st := Source(rd, cur);
    var (d, pos) :- After(st, Read(rd.lib.p, rd.lay.defs, rd.lay.schema, rd.dr, rd.r, Tail(st, Place(rd, cur))));
    Success((Next(d), Delivered(rd, cur, pos)))
  }

  /** `next`, with Stop for StopIteration, as long as no skip moves back. */
  function NextItem(rd: Reader, cur: Cursor): (res: Result<(Item, Cursor)>)
    requires Guarded(rd.lay.defs) && Placed(cur)
    ensures res.Success? ==> Placed(res.value.1)
  {
    var (more, cur') :- Advance(rd, cur);
    if more then ReadDatum(rd, cur') else Success((Stop, cur'))
  }

  /** The outcome of calling `next` n times. */
  function Items(rd: Reader, cur: Cursor, n: nat): Result<seq<Item>>
    requires Guarded(rd.lay.defs) && Placed(cur)
    decreases n
  {
    if n == 0 then Success([])
    else
      var (item, cur') :- NextItem(rd, cur);
      var items :- Items(rd, cur', n - 1);
      Success([item] + items)
  }

  ghost predicate AllResolve(rd: Reader, ds: seq<Datum>) {
    forall i :: 0 <= i < |ds| ==>
      && Validate(rd.lay.defs, rd.lay.schema, ds[i])
      && Resolve(rd.lib.p, rd.lay.defs, rd.lay.schema, rd.dr, rd.r, ds[i]).Some?
  }

  /** The data as the reader is meant to see them, and after them Stop for ever. */
  ghost function Expected(rd: Reader, ds: seq<Datum>, n: nat): seq<Item>
    requires AllResolve(rd, ds)
    decreases n
  {
    if n == 0 then []
    else if ds == [] then [Stop] + Expected(rd, ds, n - 1)
    else [Next(Resolve(rd.lib.p, rd.lay.defs, rd.lay.schema, rd.dr, rd.r, ds[0]).value)] + Expected(rd, ds[1..], n - 1)
  }

  // Where the cursor stands

  /** Inside a block, with the data ds of that block and then further blocks to come. */
  ghost predicate InBlock(rd: Reader, cur: Cursor, ds: seq<Datum>, blocks: seq<seq<Datum>>)
    requires Sound(rd.lib.p) && AllValid(rd.lay, ds) && ValidBlocks(rd.lay, blocks)
  {
    var after := rd.lay.sync + BlocksBytes(rd.lib, rd.lay, blocks);
    && Placed(cur) && cur.count == |ds|
    && if rd.lay.codec == NULL_CODEC then Rest(cur) == Encodings(rd.lib.p, rd.lay, ds) + after
       else Rest(cur) == after && cur.block[cur.at..] == Encodings(rd.lib.p, rd.lay, ds)
  }

  lemma RestAt(cur: Cursor, front: seq<byte>, rest: seq<byte>)
    requires Placed(cur) && Rest(cur) == front + rest
    ensures |rest| <= |cur.file| && Rest(AtRest(cur, rest)) == rest
    ensures AtRest(cur, rest).pos == cur.pos + |front|
  {
    assert cur.file[cur.pos..][|front|..] == rest;
  }

  lemma DatumStep(rd: Reader, cur: Cursor, ds: seq<Datum>, blocks: seq<seq<Datum>>)
    requires SoundLibrary(rd.lib) && ValidLayout(rd.lay) && AllResolve(rd, ds) && ds != []
    requires ValidBlocks(rd.lay, blocks)
    requires InBlock(rd, cur, ds, blocks)
    ensures
      var res := ReadDatum(rd, cur);
      && res.Success?
      && res.value.0 == Next(Resolve(rd.lib.p, rd.lay.defs, rd.lay.schema, rd.dr, rd.r, ds[0]).value)
      && InBlock(rd, res.value.1, ds[1..], blocks)
  {
    hide Guarded, Sound, Read, Write, Resolve, Validate, BlocksBytes, ValidBlocks;
    var p, lay := rd.lib.p, rd.lay;
    var after := lay.sync + BlocksBytes(rd.lib, lay, blocks);
    var head, tail := Write(p, lay.defs, lay.schema, ds[0]), Encodings(p, lay, ds[1..]);
    var rest := if lay.codec == NULL_CODEC then tail + after else tail;
    var st, pos := Source(rd, cur), Place(rd, cur);
    assert Tail(st, pos) == head + rest;
    Fusion(p, lay.defs, lay.schema, rd.dr, rd.r, ds[0], rest);
    assert Tail(st, pos)[|head|..] == rest;
    assert st.data[pos + |head|..] == rest;
  }

  lemma HeaderStep(rd: Reader, cur: Cursor, blocks: seq<seq<Datum>>)
    requires SoundLibrary(rd.lib) && ValidLayout(rd.lay) && ValidBlocks(rd.lay, blocks) && blocks != []
    requires Placed(cur) && Rest(cur) == BlocksBytes(rd.lib, rd.lay, blocks)
    ensures
      var res := ReadBlockHeader(rd, cur);
      res.Success? && InBlock(rd, res.value, blocks[0], blocks[1..])
  {
    hide Guarded, Sound, AllValid, Encodings, Varint.ReadLong, ReadBytes, SkipLong, Long;
    var lib, lay := rd.lib, rd.lay;
    var data := Compress(lib, lay, Encodings(lib.p, lay, blocks[0]));
    var after := lay.sync + BlocksBytes(lib, lay, blocks[1..]);
    var tail := Long(|data|) + (data + after);
    assert Rest(cur) == Long(|blocks[0]|) + tail;
    LongRoundTrip(|blocks[0]|, tail);
    if lay.codec == NULL_CODEC {
      SkipLongOfLong(|data|, data + after);
      assert Rest(cur) == Long(|blocks[0]|) + Long(|data|) + (data + after);
      RestAt(cur, Long(|blocks[0]|) + Long(|data|), data + after);
    } else {
      assert tail == WriteBytes(data) + after;
      BytesRoundTrip(data, after);
      assert Rest(cur) == Long(|blocks[0]|) + Long(|data|) + data + after;
      RestAt(cur, Long(|blocks[0]|) + Long(|data|) + data, after);
    }
  }

  lemma SkipLongOfLong(n: int, suffix: seq<byte>)
    ensures SkipLong(Long(n) + suffix) == Success(suffix)
  {
    DigitsRoundTrip(ZigZag(n), suffix);
  }

  lemma MarkerIsSkipped(rd: Reader, cur: Cursor, tail: seq<byte>)
    requires Placed(cur) && |rd.lay.sync| == SYNC_SIZE && Rest(cur) == rd.lay.sync + tail
    ensures |tail| <= |cur.file| && SkipSync(rd, cur) == Success((true, AtRest(cur, tail)))
    ensures Rest(AtRest(cur, tail)) == tail
  {
    TakeExact(rd.lay.sync, tail);
    RestAt(cur, rd.lay.sync, tail);
  }

  /** At the end of a block its sync marker is recognised, whatever follows. */
  lemma SyncStep(rd: Reader, cur: Cursor, blocks: seq<seq<Datum>>)
    requires SoundLibrary(rd.lib) && ValidLayout(rd.lay) && ValidBlocks(rd.lay, blocks)
    requires InBlock(rd, cur, [], blocks)
    ensures
      var res := SkipSync(rd, cur);
      && cur.pos < |cur.file| && res.Success? && res.value.0
      && res.value.1.count == 0 && Rest(res.value.1) == BlocksBytes(rd.lib, rd.lay, blocks)
  {
    hide Guarded, Sound, BlocksBytes;
    var after := BlocksBytes(rd.lib, rd.lay, blocks);
    assert [] + (rd.lay.sync + after) == rd.lay.sync + after;
    MarkerIsSkipped(rd, cur, after);
  }

  lemma {:induction false} StopsForEver(rd: Reader, cur: Cursor, n: nat)
    requires Guarded(rd.lay.defs) && Placed(cur) && cur.count == 0 && cur.pos == |cur.file|
    ensures Items(rd, cur, n) == Success(Expected(rd, [], n))
    decreases n
  {
    hide Guarded, ReadDatum, ReadBlockHeader, SkipSync;
    if n > 0 {
      StopsForEver(rd, cur, n - 1);
    }
  }

  lemma {:induction false} ItemsInBlock(rd: Reader, cur: Cursor, ds: seq<Datum>, blocks: seq<seq<Datum>>, n: nat)
    requires SoundLibrary(rd.lib) && ValidLayout(rd.lay) && AllResolve(rd, ds) && ValidBlocks(rd.lay, blocks)
    requires AllResolve(rd, ds + Flatten(blocks)) && InBlock(rd, cur, ds, blocks)
    ensures Items(rd, cur, n) == Success(Expected(rd, ds + Flatten(blocks), n))
    decreases n
  {
    hide Guarded, InBlock, Resolve, Validate, ReadDatum, ReadBlockHeader, SkipSync, Sound;
    if n == 0 {
    } else if ds != [] {
      assert cur.count == |ds| && Placed(cur) by { CountOf(rd, cur, ds, blocks); }
      DatumStep(rd, cur, ds, blocks);
      assert (ds + Flatten(blocks))[1..] == ds[1..] + Flatten(blocks);
      ItemsInBlock(rd, ReadDatum(rd, cur).value.1, ds[1..], blocks, n - 1);
    } else {
      assert cur.count == 0 && Placed(cur) by { CountOf(rd, cur, ds, blocks); }
      assert ds + Flatten(blocks) == Flatten(blocks);
      SyncStep(rd, cur, blocks);
      ItemsAtHeader(rd, cur, SkipSync(rd, cur).value.1, blocks, n);
    }
  }

  lemma CountOf(rd: Reader, cur: Cursor, ds: seq<Datum>, blocks: seq<seq<Datum>>)
    requires Sound(rd.lib.p) && AllValid(rd.lay, ds) && ValidBlocks(rd.lay, blocks) && InBlock(rd, cur, ds, blocks)
    ensures cur.count == |ds| && Placed(cur)
  {
  }

  /** The first sync marker is behind the cursor cur and the remaining blocks start at cur'. */
  lemma {:induction false} ItemsAtHeader(rd: Reader, cur: Cursor, cur': Cursor, blocks: seq<seq<Datum>>, n: nat)
    requires SoundLibrary(rd.lib) && ValidLayout(rd.lay) && ValidBlocks(rd.lay, blocks)
    requires AllResolve(rd, Flatten(blocks))
    requires n > 0 && Placed(cur) && cur.count == 0 && cur.pos < |cur.file|
    requires cur'.count == 0 && Placed(cur') && Rest(cur') == BlocksBytes(rd.lib, rd.lay, blocks)
    requires SkipSync(rd, cur) == Success((true, cur')) || (blocks != [] && SkipSync(rd, cur) == Success((false, cur')))
    ensures Items(rd, cur, n) == Success(Expected(rd, Flatten(blocks), n))
    decreases n, 0
  {
    hide Guarded, InBlock, Resolve, Validate, ReadDatum, ReadBlockHeader, SkipSync, Sound, BlockBytes;
    if blocks == [] {
      StopsForEver(rd, cur', n - 1);
    } else {
      NotEmpty(rd, blocks);
      HeaderStep(rd, cur', blocks);
      var cur'' := ReadBlockHeader(rd, cur').value;
      var ds, later := blocks[0], blocks[1..];
      assert Flatten(blocks) == ds + Flatten(later);
      assert forall i :: 0 <= i < |ds| ==> ds[i] == Flatten(blocks)[i];
      DatumStep(rd, cur'', ds, later);
      assert Flatten(blocks)[1..] == ds[1..] + Flatten(later);
      assert forall i :: 0 <= i < |ds| - 1 ==> ds[1..][i] == Flatten(blocks)[i + 1];
      ItemsInBlock(rd, ReadDatum(rd, cur'').value.1, ds[1..], later, n - 1);
    }
  }

  /** A block takes at least eighteen bytes, so the step back over a would-be marker stays in the file. */
  lemma NotEmpty(rd: Reader, blocks: seq<seq<Datum>>)
    requires Sound(rd.lib.p) && ValidLayout(rd.lay) && ValidBlocks(rd.lay, blocks) && blocks != []
    ensures |BlocksBytes(rd.lib, rd.lay, blocks)| >= SYNC_SIZE + 2
  {
  }

  /** The whole file: header, then blocks. */
  ghost function FileBytes(lib: Library, lay: Layout, blocks: seq<seq<Datum>>): seq<byte>
    requires SoundLibrary(lib) && ValidLayout(lay) && ValidBlocks(lay, blocks)
  {
    HeaderBytes(lib.p, Meta(lib, lay), lay.sync) + BlocksBytes(lib, lay, blocks)
  }

  /**
   * Iteration delivers every datum of every block in order and then stops. It needs the first
   * block not to start with the sync marker, because the reader looks for one there too.
   */
  lemma IterationDelivers(rd: Reader, start: nat, file: seq<byte>, blocks: seq<seq<Datum>>, n: nat)
    requires SoundLibrary(rd.lib) && ValidLayout(rd.lay) && ValidBlocks(rd.lay, blocks)
    requires AllResolve(rd, Flatten(blocks))
    requires start <= |file| && file[start..] == BlocksBytes(rd.lib, rd.lay, blocks)
    requires !(rd.lay.sync <= file[start..])
    ensures Items(rd, Cursor(file, start, 0, [], 0), n) == Success(Expected(rd, Flatten(blocks), n))
  {
    hide Guarded, BlocksBytes, ReadDatum, ReadBlockHeader, Sound, Resolve, Validate, BlockBytes;
    var cur := Cursor(file, start, 0, [], 0);
    if blocks == [] {
      assert BlocksBytes(rd.lib, rd.lay, blocks) == [] by { NoBlocks(rd); }
      StopsForEver(rd, cur, n);
    } else if n > 0 {
      NotEmpty(rd, blocks);
      assert Take(SYNC_SIZE, Rest(cur)).0 == file[start..][..SYNC_SIZE];
      ItemsAtHeader(rd, cur, cur, blocks, n);
    }
  }

  lemma NoBlocks(rd: Reader)
    requires Sound(rd.lib.p)
    ensures BlocksBytes(rd.lib, rd.lay, []) == []
  {
  }
}
