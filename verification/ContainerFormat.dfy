/**
 * Object container files (avro/devices/avro/datafile.py and the "Object Container Files" section
 * of the Avro specification): layout, the effect of writer calls, and iteration.
 */
module ContainerFormat {
  import opened Basics
  import opened Varint
  import opened Schemas
  import opened Encoding
  import opened Decoding
  import opened Resolution
  import opened RoundTrip
  import opened Written

  const MAGIC: seq<byte> := [79, 98, 106, 1]                       // 'Obj' + chr(VERSION)
  const SYNC_SIZE := 16
  const SYNC_INTERVAL := 1000 * SYNC_SIZE
  const NULL_CODEC: seq<byte> := [110, 117, 108, 108]              // 'null'
  const DEFLATE_CODEC: seq<byte> := [100, 101, 102, 108, 97, 116, 101]
  const CODEC_KEY := "avro.codec"
  const SCHEMA_KEY := "avro.schema"

  const HEADER := "org.apache.avro.file.Header"
  const HEADER_MAGIC := "org.apache.avro.file.magic"
  const HEADER_SYNC := "org.apache.avro.file.sync"
  const HEADER_FIELDS := [Field("magic", Named(HEADER_MAGIC), None), Field("meta", Map(Prim(PBytes)), None),
                          Field("sync", Named(HEADER_SYNC), None)]

  /** META_SCHEMA */
  const HEADER_DEFS: Defs := map[HEADER := Record(KRecord, HEADER_FIELDS), HEADER_MAGIC := Fixed(4),
      HEADER_SYNC := Fixed(16)]

  /** What a container file needs besides the datum codec: zlib, and schemas as text. */
  datatype Library = Library(
    p: Platform,
    deflate: seq<byte> -> seq<byte>,                  // zlib.compress(data)[2:-1]
    inflate: seq<byte> -> Option<seq<byte>>,          // zlib.decompress(data, -15)
    printSchema: ((Defs, Schema)) -> seq<byte>,       // str(schema)
    parseSchema: seq<byte> -> Option<(Defs, Schema)>) // schema.parse

  ghost predicate SoundLibrary(lib: Library) {
    Sound(lib.p) && forall data :: lib.inflate(lib.deflate(data)) == Some(data)
  }

  /** What is fixed for the life of a file. */
  datatype Layout = Layout(codec: seq<byte>, sync: seq<byte>, defs: Defs, schema: Schema)

  ghost predicate ValidLayout(lay: Layout) {
    && (lay.codec == NULL_CODEC || lay.codec == DEFLATE_CODEC) && |lay.sync| == SYNC_SIZE
    && Guarded(lay.defs)
  }

  function Meta(lib: Library, lay: Layout): map<string, Datum> {
    map[CODEC_KEY := Bytes(lay.codec), SCHEMA_KEY := Bytes(lib.printSchema((lay.defs, lay.schema)))]
  }

  function HeaderDatum(meta: map<string, Datum>, sync: seq<byte>): Datum {
    Dict(map["magic" := Bytes(MAGIC), "meta" := Dict(meta), "sync" := Bytes(sync)])
  }

  lemma HeaderIsExact(p: Platform, meta: map<string, Datum>, sync: seq<byte>)
    requires (forall k :: k in meta ==> meta[k].Bytes?) && |sync| == SYNC_SIZE
    ensures Validate(HEADER_DEFS, Named(HEADER), HeaderDatum(meta, sync))
    ensures Exact(p, HEADER_DEFS, Named(HEADER), HeaderDatum(meta, sync))
  {
    var d := HeaderDatum(meta, sync);
    assert Validate(HEADER_DEFS, HEADER_FIELDS[0].ftype, Get(d.entries, HEADER_FIELDS[0].name));
    assert Validate(HEADER_DEFS, HEADER_FIELDS[1].ftype, Get(d.entries, HEADER_FIELDS[1].name));
    assert Validate(HEADER_DEFS, HEADER_FIELDS[2].ftype, Get(d.entries, HEADER_FIELDS[2].name));
    assert Exact(p, HEADER_DEFS, HEADER_FIELDS[1].ftype, Get(d.entries, HEADER_FIELDS[1].name));
    assert FieldNames(HEADER_FIELDS) == {"magic", "meta", "sync"} by {
      assert HEADER_FIELDS[0] in HEADER_FIELDS && HEADER_FIELDS[1] in HEADER_FIELDS
          && HEADER_FIELDS[2] in HEADER_FIELDS;
    }
  }

  lemma HeaderDefsAreFine()
    ensures WellFormed(HEADER_DEFS) && Guarded(HEADER_DEFS) && WellFormedSchema(HEADER_DEFS, Named(HEADER))
  {
    assert IsRanking(HEADER_DEFS, map[HEADER := 1, HEADER_MAGIC := 0, HEADER_SYNC := 0]);
  }

  ghost function HeaderBytes(p: Platform, meta: map<string, Datum>, sync: seq<byte>): seq<byte>
    requires Sound(p) && (forall k :: k in meta ==> meta[k].Bytes?) && |sync| == SYNC_SIZE
  {
    HeaderIsExact(p, meta, sync);
    Write(p, HEADER_DEFS, Named(HEADER), HeaderDatum(meta, sync))
  }

  /** The header is read back as it was written, whatever order the metadata are written in. */
  lemma HeaderRoundTrip(p: Platform, meta: map<string, Datum>, sync: seq<byte>, suffix: seq<byte>)
    requires Sound(p) && (forall k :: k in meta ==> meta[k].Bytes?) && |sync| == SYNC_SIZE
    ensures Guarded(HEADER_DEFS)
    ensures Read(p, HEADER_DEFS, Named(HEADER), HEADER_DEFS, Named(HEADER), HeaderBytes(p, meta, sync) + suffix)
      == Success((HeaderDatum(meta, sync), suffix))
  {
    HeaderDefsAreFine();
    HeaderIsExact(p, meta, sync);
    hide Sound, Guarded, WellFormed, WellFormedSchema, Read, Write, Norm, Exact, Validate;
    DatumRoundTrip(p, HEADER_DEFS, Named(HEADER), HeaderDatum(meta, sync), suffix);
    NormIsIdentity(p, HEADER_DEFS, Named(HEADER), HeaderDatum(meta, sync));
  }

  // Blocks

  ghost predicate AllValid(lay: Layout, ds: seq<Datum>) {
    forall i :: 0 <= i < |ds| ==> Validate(lay.defs, lay.schema, ds[i])
  }

  /** The contents of a buffer to which the data have been written. */
  function Encodings(p: Platform, lay: Layout, ds: seq<Datum>): seq<byte>
    requires Sound(p) && AllValid(lay, ds)
  {
    if ds == [] then [] else Write(p, lay.defs, lay.schema, ds[0]) + Encodings(p, lay, ds[1..])
  }

  lemma {:induction false} EncodingsSnoc(p: Platform, lay: Layout, ds: seq<Datum>, d: Datum)
    requires Sound(p) && AllValid(lay, ds) && Validate(lay.defs, lay.schema, d)
    ensures AllValid(lay, ds + [d])
    ensures Encodings(p, lay, ds + [d]) == Encodings(p, lay, ds) + Write(p, lay.defs, lay.schema, d)
  {
    hide Sound, Validate, Write;
    if ds == [] {
      assert [] + [d] == [d] && [d][1..] == [];
      assert Encodings(p, lay, [d]) == Write(p, lay.defs, lay.schema, d) + Encodings(p, lay, []);
    } else {
      assert (ds + [d])[1..] == ds[1..] + [d];
      EncodingsSnoc(p, lay, ds[1..], d);
    }
  }

  function Compress(lib: Library, lay: Layout, data: seq<byte>): seq<byte> {
    if lay.codec == DEFLATE_CODEC then lib.deflate(data) else data
  }

  /** The data of a block number at most sys.maxsize, and so do its bytes. */
  ghost predicate Fits(lib: Library, lay: Layout, ds: seq<Datum>)
    requires Sound(lib.p) && AllValid(lay, ds)
  {
    |ds| <= LONG_MAX && |Compress(lib, lay, Encodings(lib.p, lay, ds))| <= LONG_MAX
  }

  /** Count, length, possibly compressed data, sync marker. */
  function BlockBytes(lib: Library, lay: Layout, ds: seq<Datum>): seq<byte>
    requires Sound(lib.p) && AllValid(lay, ds)
  {
    var data := Compress(lib, lay, Encodings(lib.p, lay, ds));
    Long(|ds|) + (Long(|data|) + (data + lay.sync))
  }

  ghost predicate ValidBlocks(lay: Layout, blocks: seq<seq<Datum>>) {
    forall i :: 0 <= i < |blocks| ==> blocks[i] != [] && AllValid(lay, blocks[i])
  }

  function BlocksBytes(lib: Library, lay: Layout, blocks: seq<seq<Datum>>): seq<byte>
    requires Sound(lib.p) && ValidBlocks(lay, blocks)
  {
    if blocks == [] then [] else BlockBytes(lib, lay, blocks[0]) + BlocksBytes(lib, lay, blocks[1..])
  }

  lemma {:induction false} BlocksBytesSnoc(lib: Library, lay: Layout, blocks: seq<seq<Datum>>, block: seq<Datum>)
    requires Sound(lib.p) && ValidBlocks(lay, blocks) && block != [] && AllValid(lay, block)
    ensures ValidBlocks(lay, blocks + [block])
    ensures BlocksBytes(lib, lay, blocks + [block]) == BlocksBytes(lib, lay, blocks) + BlockBytes(lib, lay, block)
  {
    hide Sound, AllValid, BlockBytes;
    if blocks == [] {
      assert [] + [block] == [block] && [block][1..] == [];
      assert BlocksBytes(lib, lay, [block]) == BlockBytes(lib, lay, block) + BlocksBytes(lib, lay, []);
    } else {
      assert (blocks + [block])[1..] == blocks[1..] + [block];
      BlocksBytesSnoc(lib, lay, blocks[1..], block);
    }
  }

  function Flatten(blocks: seq<seq<Datum>>): seq<Datum> {
    if blocks == [] then [] else blocks[0] + Flatten(blocks[1..])
  }

  lemma {:induction false} FlattenSnoc(blocks: seq<seq<Datum>>, block: seq<Datum>)
    ensures Flatten(blocks + [block]) == Flatten(blocks) + block
  {
    if blocks == [] {
      assert [] + [block] == [block];
      assert Flatten([block]) == block + Flatten([]);
    } else {
      assert (blocks + [block])[1..] == blocks[1..] + [block];
      FlattenSnoc(blocks[1..], block);
    }
  }

  // The writer, call by call

  /** The blocks in the file, and the data still in the buffer. */
  datatype Log = Log(blocks: seq<seq<Datum>>, pending: seq<Datum>)

  datatype Call =
    | Append(d: Datum)
    | Sync
    | Flush
    | Reopen       // close, and open the file again without a schema

  ghost predicate ValidLog(lib: Library, lay: Layout, log: Log)
    requires Sound(lib.p)
  {
    ValidBlocks(lay, log.blocks) && AllValid(lay, log.pending) && |Encodings(lib.p, lay, log.pending)| < SYNC_INTERVAL
  }

  /** `_write_block`: nothing happens while the buffer holds no datum. */
  function Cut(log: Log): Log {
    if log.pending == [] then log else Log(log.blocks + [log.pending], [])
  }

  /** The effect of a call; an invalid datum is refused with an exception. */
  function Step(lib: Library, lay: Layout, log: Log, call: Call): Log
    requires Sound(lib.p) && AllValid(lay, log.pending)
  {
    match call
    case Append(d) =>
      if !Validate(lay.defs, lay.schema, d) then log
      else
        EncodingsSnoc(lib.p, lay, log.pending, d);
        var log' := log.(pending := log.pending + [d]);
        if |Encodings(lib.p, lay, log'.pending)| >= SYNC_INTERVAL then Cut(log') else log'
    case _ => Cut(log)
  }

  lemma StepIsValid(lib: Library, lay: Layout, log: Log, call: Call)
    requires Sound(lib.p) && ValidLog(lib, lay, log)
    ensures ValidLog(lib, lay, Step(lib, lay, log, call))
  {
    match call
    case Append(d) =>
      if Validate(lay.defs, lay.schema, d) {
        EncodingsSnoc(lib.p, lay, log.pending, d);
      }
    case _ =>
  }

  /** The log after a series of calls on a new file. */
  function Run(lib: Library, lay: Layout, calls: seq<Call>): (log: Log)
    requires Sound(lib.p)
    ensures ValidLog(lib, lay, log)
  {
    if calls == [] then Log([], [])
    else
      var log := Run(lib, lay, calls[..|calls| - 1]);
      StepIsValid(lib, lay, log, calls[|calls| - 1]);
      Step(lib, lay, log, calls[|calls| - 1])
  }

  /** The data the calls hand over and the writer accepts. */
  function Accepted(lay: Layout, calls: seq<Call>): seq<Datum> {
    if calls == [] then []
    else
      var before := Accepted(lay, calls[..|calls| - 1]);
      match calls[|calls| - 1]
      case Append(d) => if Validate(lay.defs, lay.schema, d) then before + [d] else before
      case _ => before
  }

  lemma CutKeeps(log: Log)
    ensures var log' := Cut(log); Flatten(log'.blocks) + log'.pending == Flatten(log.blocks) + log.pending
  {
    FlattenSnoc(log.blocks, log.pending);
  }

  /** A call adds the datum it hands over, if that is valid, and moves the others at most. */
  lemma StepKeeps(lib: Library, lay: Layout, log: Log, call: Call)
    requires Sound(lib.p) && AllValid(lay, log.pending)
    ensures
      var log' := Step(lib, lay, log, call);
      Flatten(log'.blocks) + log'.pending == Flatten(log.blocks) + log.pending
        + if call.Append? && Validate(lay.defs, lay.schema, call.d) then [call.d] else []
  {
    hide Sound, Validate, Encodings, Flatten, Cut;
    CutKeeps(log);
    if call.Append? && Validate(lay.defs, lay.schema, call.d) {
      EncodingsSnoc(lib.p, lay, log.pending, call.d);
      var log' := log.(pending := log.pending + [call.d]);
      CutKeeps(log');
      assert Flatten(log.blocks) + (log.pending + [call.d]) == Flatten(log.blocks) + log.pending + [call.d];
    } else {
      assert Flatten(log.blocks) + log.pending + [] == Flatten(log.blocks) + log.pending;
    }
  }

  /** After any calls, blocks and buffer together hold each accepted datum exactly once, in order. */
  lemma {:induction false} Conservation(lib: Library, lay: Layout, calls: seq<Call>)
    requires Sound(lib.p)
    ensures var log := Run(lib, lay, calls); Flatten(log.blocks) + log.pending == Accepted(lay, calls)
  {
    if calls == [] {
      assert Flatten([]) + [] == [];
    } else {
      hide Sound, Validate, Step, Flatten;
      var init, last := calls[..|calls| - 1], calls[|calls| - 1];
      Conservation(lib, lay, init);
      var log := Run(lib, lay, init);
      assert Run(lib, lay, calls) == Step(lib, lay, log, last);
      hide Run;
      StepKeeps(lib, lay, log, last);
      assert Accepted(lay, init) + [] == Accepted(lay, init);
    }
  }
}
