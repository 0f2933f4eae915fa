/** DataFileWriter and DataFileReader as objects (avro/devices/avro/datafile.py). */
module ContainerFile {
  import opened Basics
  import opened Varint
  import opened Schemas
  import opened Encoding
  import opened Decoding
  import opened Execution
  import opened BinaryStreams
  import opened DatumWriting
  import opened DatumReading
  import opened ContainerFormat
  import opened ContainerIteration
  import opened ContainerExecution
  import Agreement

  /** The header of a file as the reader takes it apart. */
  datatype Opened = Opened(meta: map<string, Datum>, sync: seq<byte>)

  /** The header at the start of bs, taken apart, and what follows it. */
  ghost function HeaderOf(p: Platform, bs: seq<byte>): Parsed<Opened> {
    HeaderDefsAreFine();
    var (header, rest) :- Read(p, HEADER_DEFS, Named(HEADER), HEADER_DEFS, Named(HEADER), bs);
    var m := if header.Dict? then header.entries else map[];
    if Get(m, "magic") != Bytes(MAGIC) then Failure(NotADataFile)
    else if !Get(m, "meta").Dict? || !Get(m, "sync").Bytes? then Failure(MissingMeta)
    else Success((Opened(Get(m, "meta").entries, Get(m, "sync").data), rest))
  }

  /** The checks of the constructor of DataFileReader. */
  function Understand(lib: Library, header: Opened): Result<Layout> {
    var codec := match Get(header.meta, CODEC_KEY) case Bytes(name) => name case _ => NULL_CODEC;
    if codec != NULL_CODEC && codec != DEFLATE_CODEC then Failure(UnknownCodec)
    else
      match Get(header.meta, SCHEMA_KEY)
      case Bytes(text) => (
        match lib.parseSchema(text)
        case None => Failure(SchemaParse)
        case Some(schema) => Success(Layout(codec, header.sync, schema.0, schema.1))
      )
      case _ => Failure(SchemaParse)
  }

  /** What it learns from a file, and the bytes behind the header. */
  ghost function LayoutOf(lib: Library, data: seq<byte>): Parsed<Layout> {
    var (header, rest) :- HeaderOf(lib.p, data);
    var lay :- Understand(lib, header);
    Success((lay, rest))
  }

  /** The header of a written file, and the blocks behind it. */
  lemma WrittenHeader(lib: Library, lay: Layout, blocks: seq<seq<Datum>>)
    requires SoundLibrary(lib) && ValidLayout(lay) && ValidBlocks(lay, blocks)
    ensures HeaderOf(lib.p, FileBytes(lib, lay, blocks))
      == Success((Opened(Meta(lib, lay), lay.sync), BlocksBytes(lib, lay, blocks)))
    ensures |FileBytes(lib, lay, blocks)| - |BlocksBytes(lib, lay, blocks)|
      == |HeaderBytes(lib.p, Meta(lib, lay), lay.sync)|
  {
    hide Sound, Guarded, Read, HeaderBytes, BlocksBytes, AllValid, HEADER_DEFS;
    HeaderOpens(lib.p, Meta(lib, lay), lay.sync, BlocksBytes(lib, lay, blocks));
  }

  /** A written file is opened with the layout it was written with. */
  lemma WrittenLayout(lib: Library, lay: Layout, blocks: seq<seq<Datum>>)
    requires SoundLibrary(lib) && ValidLayout(lay) && ValidBlocks(lay, blocks)
    requires lib.parseSchema(lib.printSchema((lay.defs, lay.schema))) == Some((lay.defs, lay.schema))
    ensures LayoutOf(lib, FileBytes(lib, lay, blocks)) == Success((lay, BlocksBytes(lib, lay, blocks)))
    ensures |FileBytes(lib, lay, blocks)| - |BlocksBytes(lib, lay, blocks)|
      == |HeaderBytes(lib.p, Meta(lib, lay), lay.sync)|
  {
    WrittenHeader(lib, lay, blocks);
    MetaEntries(lib, lay);
    hide Sound, Guarded, ValidBlocks, HeaderOf, FileBytes, HeaderBytes, BlocksBytes, Meta, CODEC_KEY, SCHEMA_KEY, Get;
  }

  /**
   * Which files are opened, for any metadata: without a codec the data are not compressed, an unknown
   * one is refused, and so is a schema that is missing or cannot be parsed.
   */
  lemma HeaderDecides(lib: Library, meta: map<string, Datum>, sync: seq<byte>, blocks: seq<byte>)
    requires Sound(lib.p) && (forall k :: k in meta ==> meta[k].Bytes?) && |sync| == SYNC_SIZE
    ensures
      var res := LayoutOf(lib, HeaderBytes(lib.p, meta, sync) + blocks);
      var codec := if CODEC_KEY in meta then meta[CODEC_KEY].data else NULL_CODEC;
      if codec != NULL_CODEC && codec != DEFLATE_CODEC then res == Failure(UnknownCodec)
      else if SCHEMA_KEY !in meta then res == Failure(SchemaParse)
      else
        match lib.parseSchema(meta[SCHEMA_KEY].data)
        case None => res == Failure(SchemaParse)
        case Some(schema) => res == Success((Layout(codec, sync, schema.0, schema.1), blocks))
  {
    hide Sound, Guarded, Read, HeaderBytes, HEADER_DEFS, CODEC_KEY, SCHEMA_KEY, NULL_CODEC, DEFLATE_CODEC;
    HeaderOpens(lib.p, meta, sync, blocks);
  }

  /** A file that starts with other bytes than 'Obj' and the version is refused, whatever follows them. */
  lemma OtherMagicIsRefused(lib: Library, data: seq<byte>)
    requires |data| >= 4 && data[..4] != MAGIC
    ensures LayoutOf(lib, data).Failure?
  {
    HeaderDefsAreFine();
    var (p, defs) := (lib.p, HEADER_DEFS);
    if Read(p, defs, Named(HEADER), defs, Named(HEADER), data).Success? {
      FirstIsMagic(p, data);
      hide Read, Guarded, HEADER_DEFS;
    }
  }

  lemma FirstIsMagic(p: Platform, data: seq<byte>)
    requires Guarded(HEADER_DEFS) && |data| >= 4
    requires Read(p, HEADER_DEFS, Named(HEADER), HEADER_DEFS, Named(HEADER), data).Success?
    ensures
      var header := Read(p, HEADER_DEFS, Named(HEADER), HEADER_DEFS, Named(HEADER), data).value.0;
      header.Dict? && Get(header.entries, "magic") == Bytes(data[..4])
  {
    hide ReadFields, FillDefaults, FindField, Guarded;
    var (defs, f) := (HEADER_DEFS, HEADER_FIELDS);
    var m := map["magic" := Bytes(data[..4])];
    MagicIsRead(p, data);
    var res := ReadFields(p, defs, HEADER, defs, f, 1, data[4..], m);
    assert f[1].name == "meta" && f[2].name == "sync";
    assert res.Success?;
    var all := FillDefaults(p, defs, f, f, 0, res.value.0);
    assert all.Success? && Read(p, defs, Named(HEADER), defs, Named(HEADER), data).value.0 == Dict(all.value);
    hide Read;
    ReadFieldsKeeps(p, defs, HEADER, defs, f, 1, data[4..], m, "magic");
    Agreement.NoDefaultsNeeded(p, defs, f, 0, res.value.0);
  }

  lemma MagicIsRead(p: Platform, data: seq<byte>)
    requires Guarded(HEADER_DEFS) && |data| >= 4
    ensures
      ReadFields(p, HEADER_DEFS, HEADER, HEADER_DEFS, HEADER_FIELDS, 0, data, map[]) ==
        ReadFields(p, HEADER_DEFS, HEADER, HEADER_DEFS, HEADER_FIELDS, 1, data[4..], map["magic" := Bytes(data[..4])])
  {
    hide Guarded;
    var (defs, f) := (HEADER_DEFS, HEADER_FIELDS);
    assert f[0].name == "magic";
    FindDistinct(f, 0);
    assert Read(p, defs, f[0].ftype, defs, f[0].ftype, data) == Success((Bytes(data[..4]), data[4..]));
    hide Read, Guarded, FindField;
  }

  /** Reading on changes no field that has been read. */
  lemma {:induction false} ReadFieldsKeeps(p: Platform, dw: Defs, n: string, dr: Defs, rfields: seq<Field>, i: nat,
                                           bs: seq<byte>, acc: map<string, Datum>, name: string)
    requires Guarded(dw) && n in dw && dw[n].Record? && i <= |dw[n].fields| && name in acc
    requires forall k :: i <= k < |dw[n].fields| ==> dw[n].fields[k].name != name
    requires ReadFields(p, dw, n, dr, rfields, i, bs, acc).Success?
    ensures
      var m := ReadFields(p, dw, n, dr, rfields, i, bs, acc).value.0;
      name in m && m[name] == acc[name]
    decreases |dw[n].fields| - i
  {
    hide Guarded, Read, Skip;
    var fields := dw[n].fields;
    if i < |fields| {
      match FindField(rfields, fields[i].name)
      case Some(rf) =>
        var (d, rest) := Read(p, dw, fields[i].ftype, dr, rf.ftype, bs).value;
        ReadFieldsKeeps(p, dw, n, dr, rfields, i + 1, rest, acc[fields[i].name := d], name);
      case None =>
        ReadFieldsKeeps(p, dw, n, dr, rfields, i + 1, Skip(dw, fields[i].ftype, bs).value, acc, name);
    }
  }

  /** `_read_header` */
  method ReadHeader(p: Platform, decoder: BinaryDecoder) returns (res: Result<Opened>)
    requires decoder.Valid() && decoder.pos == 0
    modifies decoder
    ensures decoder.Valid()
    ensures
      match HeaderOf(p, old(decoder.Rest()))
      case Failure(e) => res == Failure(e)
      case Success((header, rest)) => res == Success(header) && decoder.Rest() == rest
  {
    HeaderDefsAreFine();
    hide Guarded, WellFormed, WellFormedSchema, Read, HEADER_DEFS;
    var reader := new DatumReader(p, HEADER_DEFS, HEADER_DEFS);
    var header :- reader.ReadOwn(Named(HEADER), decoder);
    var m := if header.Dict? then header.entries else map[];
    if Get(m, "magic") != Bytes(MAGIC) {
      return Failure(NotADataFile);
    }
    if !Get(m, "meta").Dict? || !Get(m, "sync").Bytes? {
      return Failure(MissingMeta);
    }
    return Success(Opened(Get(m, "meta").entries, Get(m, "sync").data));
  }

  /** Opening a file that starts with a header reads that header and stops behind it. */
  lemma HeaderOpens(p: Platform, meta: map<string, Datum>, sync: seq<byte>, suffix: seq<byte>)
    requires Sound(p) && (forall k :: k in meta ==> meta[k].Bytes?) && |sync| == SYNC_SIZE
    ensures Guarded(HEADER_DEFS)
    ensures
      var res := Read(p, HEADER_DEFS, Named(HEADER), HEADER_DEFS, Named(HEADER), HeaderBytes(p, meta, sync) + suffix);
      && res == Success((HeaderDatum(meta, sync), suffix))
      && Get(HeaderDatum(meta, sync).entries, "magic") == Bytes(MAGIC)
      && Get(HeaderDatum(meta, sync).entries, "meta") == Dict(meta)
      && Get(HeaderDatum(meta, sync).entries, "sync") == Bytes(sync)
  {
    hide Sound, Guarded, Read, HeaderBytes;
    HeaderRoundTrip(p, meta, sync, suffix);
  }

  /** There are no numbers in a header. */
  lemma HeaderPacks(p: Platform, meta: map<string, Datum>, sync: seq<byte>)
    requires Validate(HEADER_DEFS, Named(HEADER), HeaderDatum(meta, sync))
    ensures Packs(p, HEADER_DEFS, Named(HEADER), HeaderDatum(meta, sync))
  {
    hide Validate, Packs;
    assert FloatFree(HEADER_FIELDS[0].ftype) && FloatFree(HEADER_FIELDS[1].ftype) && FloatFree(HEADER_FIELDS[2].ftype);
    FloatFreePacks(p, HEADER_DEFS, Named(HEADER), HeaderDatum(meta, sync));
  }

  lemma MetaEntries(lib: Library, lay: Layout)
    ensures Get(Meta(lib, lay), CODEC_KEY) == Bytes(lay.codec)
    ensures Get(Meta(lib, lay), SCHEMA_KEY) == Bytes(lib.printSchema((lay.defs, lay.schema)))
    ensures Meta(lib, lay) == map[CODEC_KEY := Get(Meta(lib, lay), CODEC_KEY),
        SCHEMA_KEY := Get(Meta(lib, lay), SCHEMA_KEY)]
  {
  }

  class DataFileWriter {
    const lib: Library
    const lay: Layout
    const meta: map<string, Datum>
    const encoder: BinaryEncoder          // over the file
    const bufferEncoder: BinaryEncoder    // over the in-memory buffer
    const datumWriter: DatumWriter
    var blockCount: int
    ghost var log: Log

    /** File and buffer together account for every accepted datum. */
    ghost predicate Consistent()
      reads this, encoder, bufferEncoder
    {
      && encoder != bufferEncoder
      && SoundLibrary(lib) && ValidLayout(lay) && meta == Meta(lib, lay)
      && datumWriter.p == lib.p && datumWriter.defs == lay.defs && datumWriter.schema == lay.schema
      && ValidBlocks(lay, log.blocks) && AllValid(lay, log.pending)
      && encoder.written == FileBytes(lib, lay, log.blocks)
      && bufferEncoder.written == Encodings(lib.p, lay, log.pending)
      && blockCount == |log.pending|
    }

    ghost predicate Valid()
      reads this, encoder, bufferEncoder
    {
      Consistent() && |bufferEncoder.written| < SYNC_INTERVAL
    }

    /** Over a file that holds the given blocks. */
    constructor (library: Library, layout: Layout, metadata: map<string, Datum>, file: BinaryEncoder,
                 ghost blocks: seq<seq<Datum>>)
      ensures lib == library && lay == layout && meta == metadata && encoder == file && log == Log(blocks, [])
      ensures fresh(bufferEncoder) && bufferEncoder.written == [] && blockCount == 0
      ensures datumWriter.p == library.p && datumWriter.defs == layout.defs && datumWriter.schema == layout.schema
    {
      lib, lay, meta, encoder := library, layout, metadata, file;
      bufferEncoder := new BinaryEncoder();
      datumWriter := new DatumWriter(library.p, layout.defs, layout.schema);
      blockCount := 0;
      log := Log(blocks, []);
    }

    /** The constructor with a schema: a new file gets its header. */
    static method Create(lib: Library, lay: Layout, file: BinaryEncoder) returns (res: Result<DataFileWriter>)
      requires SoundLibrary(lib) && Guarded(lay.defs) && |lay.sync| == SYNC_SIZE
      requires file.written == []
      requires
        var header := HeaderDatum(Meta(lib, lay), lay.sync);
        Validate(HEADER_DEFS, Named(HEADER), header) ==> Sized(lib.p, HEADER_DEFS, Named(HEADER), header)
      modifies file
      ensures res.Success? <==> lay.codec == NULL_CODEC || lay.codec == DEFLATE_CODEC
      ensures res.Failure? ==> res.error == UnknownCodec && file.written == []
      ensures res.Success? ==> res.value.Valid() && res.value.lay == lay && res.value.lib == lib
      ensures res.Success? ==> res.value.encoder == file && res.value.log == Log([], [])
      ensures res.Success? ==> fresh(res.value) && fresh(res.value.bufferEncoder)
    {
      if lay.codec != NULL_CODEC && lay.codec != DEFLATE_CODEC {
        return Failure(UnknownCodec);
      }
      var header := HeaderDatum(Meta(lib, lay), lay.sync);
      HeaderIsExact(lib.p, Meta(lib, lay), lay.sync);
      assert FileBytes(lib, lay, []) == HeaderBytes(lib.p, Meta(lib, lay), lay.sync) + [];
      assert Encodings(lib.p, lay, []) == [];
      hide Sound, Validate, Sized, Packs, Encoding.Write, HEADER_DEFS, HeaderDatum, Meta, Guarded, FileBytes, Encodings;
      var headerWriter := new DatumWriter(lib.p, HEADER_DEFS, Named(HEADER));
      HeaderPacks(lib.p, Meta(lib, lay), lay.sync);
      var written := headerWriter.WriteData(Named(HEADER), header, file);
      assert FileBytes(lib, lay, []) == file.written;
      var writer := new DataFileWriter(lib, lay, Meta(lib, lay), file, []);
      return Success(writer);
    }

    /** The constructor without a schema: codec, marker and schema come from the file's own header. */
    static method Reopen(lib: Library, file: BinaryEncoder, ghost lay: Layout, ghost blocks: seq<seq<Datum>>)
      returns (res: Result<DataFileWriter>)
      requires SoundLibrary(lib) && ValidLayout(lay) && ValidBlocks(lay, blocks)
      ensures file.written == old(file.written)
      ensures
        match LayoutOf(lib, file.written)
        case Failure(e) => res == Failure(e)
        case Success((layout, _)) =>
          res.Success? && res.value.lay.(codec := layout.codec) == layout && res.value.encoder == file
      ensures
        && file.written == FileBytes(lib, lay, blocks)
        && lib.parseSchema(lib.printSchema((lay.defs, lay.schema))) == Some((lay.defs, lay.schema))
        ==>
        && res.Success? && res.value.Valid() && res.value.lay == lay && res.value.lib == lib
        && res.value.encoder == file && res.value.log == Log(blocks, [])
        && fresh(res.value) && fresh(res.value.bufferEncoder)
    {
      hide Sound, Guarded, Read, HeaderBytes, BlocksBytes, AllValid, Encodings, Get, CODEC_KEY, SCHEMA_KEY, HEADER_DEFS;
      WrittenHeader(lib, lay, blocks);
      NoEncodings(lib.p, lay);
      MetaEntries(lib, lay);
      hide Meta, FileBytes, HeaderOf, ValidBlocks;
      var decoder := new BinaryDecoder(file.written, false);
      var header :- ReadHeader(lib.p, decoder);
      var codec := match Get(header.meta, CODEC_KEY) case Bytes(name) => name case _ => [];
      if Get(header.meta, CODEC_KEY).Bytes? && codec != NULL_CODEC && codec != DEFLATE_CODEC {
        return Failure(UnknownCodec);
      }
      match Get(header.meta, SCHEMA_KEY) {
        case Bytes(text) =>
          match lib.parseSchema(text) {
            case None => return Failure(SchemaParse);
            case Some(schema) =>
              var layout := Layout(codec, header.sync, schema.0, schema.1);
              var metadata := map[CODEC_KEY := Get(header.meta, CODEC_KEY), SCHEMA_KEY := Bytes(text)];
              var writer := new DataFileWriter(lib, layout, metadata, file, blocks);
              return Success(writer);
          }
        case _ => return Failure(SchemaParse);
      }
    }

    /** One more block at the end of a file. */
    static lemma FileGrows(lib: Library, lay: Layout, blocks: seq<seq<Datum>>, block: seq<Datum>)
      requires SoundLibrary(lib) && ValidLayout(lay) && ValidBlocks(lay, blocks) && block != [] && AllValid(lay, block)
      ensures ValidBlocks(lay, blocks + [block])
      ensures
        var data := Compress(lib, lay, Encodings(lib.p, lay, block));
        FileBytes(lib, lay, blocks + [block]) ==
          FileBytes(lib, lay, blocks) + Long(|block|) + Long(|data|) + data + lay.sync
    {
      BlocksBytesSnoc(lib, lay, blocks, block);
      var data := Compress(lib, lay, Encodings(lib.p, lay, block));
      Regroup(HeaderBytes(lib.p, Meta(lib, lay), lay.sync), BlocksBytes(lib, lay, blocks), Long(|block|), Long(|data|),
          data, lay.sync);
    }

    static lemma Regroup(a: seq<byte>, b: seq<byte>, c: seq<byte>, d: seq<byte>, e: seq<byte>, f: seq<byte>)
      ensures a + (b + (c + (d + (e + f)))) == a + b + c + d + e + f
    {
    }

    /** `_write_block` */
    method WriteBlock() returns (res: Result<()>)
      requires Consistent() && Fits(lib, lay, log.pending)
      modifies this, encoder, bufferEncoder
      ensures Consistent()
      ensures bufferEncoder.written == if blockCount == old(blockCount) then old(bufferEncoder.written) else []
      ensures res.Success? && log == Cut(old(log))
    {
      if blockCount > 0 {
        FileGrows(lib, lay, log.blocks, log.pending);
        NoEncodings(lib.p, lay);
        hide Sound, Guarded, FileBytes, AllValid, ValidBlocks, Encodings, Long;
        encoder.WriteLong(blockCount);
        var data := bufferEncoder.written;
        var codec := Get(meta, CODEC_KEY);
        var compressed;
        if codec == Bytes(NULL_CODEC) {
          compressed := data;
        } else if codec == Bytes(DEFLATE_CODEC) {
          compressed := lib.deflate(data);
        } else {
          return Failure(UnknownCodec);
        }
        encoder.WriteLong(|compressed|);
        encoder.Write(compressed);
        encoder.Write(lay.sync);
        bufferEncoder.Truncate();
        blockCount := 0;
        log := Cut(log);
      }
      return Success(());
    }

    static lemma NoEncodings(p: Platform, lay: Layout)
      requires Sound(p)
      ensures AllValid(lay, []) && Encodings(p, lay, []) == []
    {
    }

    /**
     * `append`: refuses invalid data, and cuts a block once the buffer has reached SYNC_INTERVAL. If a
     * number cannot be packed, what has been written of the datum stays in the buffer, uncounted.
     */
    method Append(d: Datum) returns (res: Result<()>)
      requires Valid()
      requires Validate(lay.defs, lay.schema, d) ==>
        AllValid(lay, log.pending + [d]) && Fits(lib, lay, log.pending + [d])
      requires Validate(lay.defs, lay.schema, d) ==> Sized(lib.p, lay.defs, lay.schema, d)
      modifies this, encoder, bufferEncoder
      ensures res.Success? <==> Validate(lay.defs, lay.schema, d) && Packs(lib.p, lay.defs, lay.schema, d)
      ensures res.Success? ==> Valid() && log == Step(lib, lay, old(log), ContainerFormat.Append(d))
      ensures res.Success? ==>
        var pending := old(log.pending) + [d];
        AllValid(lay, pending) &&
        if |Encodings(lib.p, lay, pending)| < SYNC_INTERVAL then
          encoder.written == old(encoder.written) && log == Log(old(log.blocks), pending)
        else log == Log(old(log.blocks) + [pending], [])
      ensures res.Failure? ==>
        encoder.written == old(encoder.written) && blockCount == old(blockCount) && log == old(log)
      ensures !Validate(lay.defs, lay.schema, d) ==>
        res == Failure(AvroType) && Valid() && bufferEncoder.written == old(bufferEncoder.written)
      ensures Validate(lay.defs, lay.schema, d) && res.Failure? ==>
        && res.error == CannotPack
        && old(bufferEncoder.written) <= bufferEncoder.written
             < old(bufferEncoder.written) + Encoding.Write(lib.p, lay.defs, lay.schema, d)
        && (Valid() <==> bufferEncoder.written == old(bufferEncoder.written))
    {
      hide Sound, Guarded, BlocksBytes, HeaderBytes, Encoding.Write, Encodings, Validate, Sized, Packs, Meta;
      var written :- datumWriter.Write(d, bufferEncoder);
      EncodingsSnoc(lib.p, lay, log.pending, d);
      blockCount := blockCount + 1;
      log := log.(pending := log.pending + [d]);
      if |bufferEncoder.written| >= SYNC_INTERVAL {
        res := WriteBlock();
      } else {
        return Success(());
      }
    }

    /** `sync`: ends the block, and returns where the file now ends. */
    method Sync() returns (res: Result<nat>)
      requires Valid() && Fits(lib, lay, log.pending)
      modifies this, encoder, bufferEncoder
      ensures Valid() && log == Step(lib, lay, old(log), ContainerFormat.Sync)
      ensures res == Success(|FileBytes(lib, lay, log.blocks)|)
    {
      var written := WriteBlock();
      return Success(|encoder.written|);
    }

    /** `flush`, which `close` calls too: afterwards the file holds every datum appended. */
    method Flush() returns (res: Result<()>)
      requires Valid() && Fits(lib, lay, log.pending)
      modifies this, encoder, bufferEncoder
      ensures Valid() && log == Step(lib, lay, old(log), ContainerFormat.Flush)
      ensures res.Success? && log.pending == [] && encoder.written == FileBytes(lib, lay, log.blocks)
    {
      res := WriteBlock();
    }
  }

  class DataFileReader {
    const rd: Reader
    const decoder: BinaryDecoder          // over the file
    var datumDecoder: BinaryDecoder       // the same object, or over an inflated block
    const datumReader: DatumReader
    var blockCount: int

    ghost predicate Valid()
      reads this, decoder, datumDecoder
    {
      && decoder.Valid() && datumDecoder.Valid() && !decoder.inMemory
      && datumReader.p == rd.lib.p && datumReader.dw == rd.lay.defs && datumReader.dr == rd.dr
      && (rd.lay.codec == NULL_CODEC ==> datumDecoder == decoder)
      && (rd.lay.codec != NULL_CODEC && blockCount != 0 ==> datumDecoder != decoder)
      && (datumDecoder != decoder ==> datumDecoder.inMemory)
    }

    /** The state that ContainerIteration reasons about. */
    ghost function View(): (cur: Cursor)
      requires Valid()
      reads this, decoder, datumDecoder
      ensures Placed(cur)
    {
      if datumDecoder == decoder then Cursor(decoder.data, decoder.pos, blockCount, [], 0)
      else Cursor(decoder.data, decoder.pos, blockCount, datumDecoder.data, datumDecoder.pos)
    }

    constructor (reader: Reader, file: BinaryDecoder)
      requires file.Valid() && !file.inMemory
      ensures Valid() && rd == reader && View() == Cursor(file.data, file.pos, 0, [], 0)
      ensures decoder == file && datumDecoder == file
    {
      rd, decoder, datumDecoder := reader, file, file;
      datumReader := new DatumReader(reader.lib.p, reader.lay.defs, reader.dr);
      blockCount := 0;
    }

    /** A new reader: magic number, codec and schema are checked before anything is read. */
    static method Open(lib: Library, data: seq<byte>, dr: Defs, r: Schema, ghost lay: Layout,
                       ghost blocks: seq<seq<Datum>>)
      returns (res: Result<DataFileReader>)
      requires SoundLibrary(lib) && ValidLayout(lay) && ValidBlocks(lay, blocks)
      ensures res.Success? ==>
        res.value.Valid() && fresh(res.value) && fresh(res.value.decoder) && fresh(res.value.datumDecoder)
      ensures
        match LayoutOf(lib, data)
        case Failure(e) => res == Failure(e)
        case Success((layout, rest)) =>
          && res.Success? && res.value.rd == Reader(lib, layout, dr, r)
          && res.value.View() == Cursor(data, |data| - |rest|, 0, [], 0)
      ensures
        && data == FileBytes(lib, lay, blocks)
        && lib.parseSchema(lib.printSchema((lay.defs, lay.schema))) == Some((lay.defs, lay.schema))
        ==>
        && res.Success? && res.value.rd == Reader(lib, lay, dr, r)
        && res.value.View() == Cursor(data, |HeaderBytes(lib.p, Meta(lib, lay), lay.sync)|, 0, [], 0)
    {
      hide Sound, Guarded, Read, HeaderBytes, BlocksBytes, ValidBlocks, FileBytes, Meta, HeaderOf, Understand;
      if lib.parseSchema(lib.printSchema((lay.defs, lay.schema))) == Some((lay.defs, lay.schema)) {
        WrittenLayout(lib, lay, blocks);
      }
      var decoder := new BinaryDecoder(data, false);
      var header :- ReadHeader(lib.p, decoder);
      var layout :- Understand(lib, header);
      var reader := new DataFileReader(Reader(lib, layout, dr, r), decoder);
      return Success(reader);
    }

    /** A method that follows a function on cursors: same result and new state, or the same exception. */
    ghost predicate Steps<T>(res: Result<T>, spec: Result<(T, Cursor)>)
      requires Valid()
      reads this, decoder, datumDecoder
    {
      match spec
      case Failure(e) => res == Failure(e)
      case Success((v, cur)) => res == Success(v) && View() == cur
    }

    /** `_skip_sync` */
    method SkipSync() returns (res: Result<bool>)
      requires Valid()
      modifies decoder
      ensures Valid() && Steps(res, ContainerIteration.SkipSync(rd, old(View())))
    {
      hide Take, Guarded;
      var proposed := decoder.Read(SYNC_SIZE);
      if proposed != rd.lay.sync {
        var moved :- decoder.SeekBack(SYNC_SIZE);
        return Success(false);
      }
      return Success(true);
    }

    /** `_read_block_header` */
    method ReadBlockHeader() returns (res: Result<()>)
      requires Valid() && blockCount == 0
      modifies this, decoder
      ensures Valid()
      ensures datumDecoder == old(datumDecoder) || fresh(datumDecoder)
      ensures res.Success? && rd.lay.codec != NULL_CODEC ==> datumDecoder != decoder
      ensures
        match ContainerIteration.ReadBlockHeader(rd, old(View()))
        case Failure(e) => res == Failure(e)
        case Success(cur) => res.Success? && View() == cur
    {
      hide Guarded, Varint.ReadLong, Decoding.ReadBytes, Decoding.SkipLong;
      var count :- decoder.ReadLong();
      if rd.lay.codec == NULL_CODEC {
        var skipped :- decoder.SkipLong();
        blockCount := count;
      } else {
        var data :- decoder.ReadBytes();
        match rd.lib.inflate(data) {
          case None => return Failure(BadBlock);
          case Some(block) =>
            datumDecoder := new BinaryDecoder(block, true);
            blockCount := count;
        }
      }
      return Success(());
    }

    /** As in DatumReader, what is required is that the run ends: k steps are enough for it. */
    method ReadDatum(ghost k: nat) returns (res: Result<Item>)
      requires Valid() && (rd.lay.codec != NULL_CODEC ==> datumDecoder != decoder)
      requires ReadDatumAt(rd, View(), k) != Failure(OutOfSteps)
      modifies this, datumDecoder
      ensures Valid() && datumDecoder == old(datumDecoder)
      ensures Steps(res, ReadDatumAt(rd, old(View()), k))
    {
      hide ReadAt;
      var d :- datumReader.ReadData(rd.lay.schema, rd.r, datumDecoder, k);
      blockCount := blockCount - 1;
      return Success(Next(d));
    }

    /** `next`, with Stop for StopIteration. */
    method NextItem(ghost k: nat) returns (res: Result<Item>)
      requires Valid() && NextItemAt(rd, View(), k) != Failure(OutOfSteps)
      modifies this, decoder, datumDecoder
      ensures Valid()
      ensures datumDecoder == old(datumDecoder) || fresh(datumDecoder)
      ensures Steps(res, NextItemAt(rd, old(View()), k))
    {
      hide ContainerIteration.SkipSync, ReadDatumAt, ContainerIteration.ReadBlockHeader;
      if blockCount == 0 {
        if decoder.pos == |decoder.data| {
          return Success(Stop);
        }
        var skipped :- SkipSync();
        if skipped && decoder.pos == |decoder.data| {
          return Success(Stop);
        }
        var header :- ReadBlockHeader();
      }
      res := ReadDatum(k);
    }
  }
}
