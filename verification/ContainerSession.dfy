/** A container file from the first call to the last datum: the objects of ContainerFile put to use. */
module ContainerSession {
  import opened Basics
  import opened Varint
  import opened Schemas
  import opened Encoding
  import opened Execution
  import opened BinaryStreams
  import opened DatumWriting
  import opened ContainerFormat
  import opened ContainerIteration
  import opened ContainerExecution
  import opened ContainerTheorems
  import opened ContainerFile

  /** What a call needs: lengths and counts fit into longs, and numbers under float and double can be packed. */
  ghost predicate Ready(lib: Library, lay: Layout, log: Log, call: Call)
    requires Sound(lib.p) && AllValid(lay, log.pending)
  {
    match call
    case Append(d) =>
      Validate(lay.defs, lay.schema, d) ==>
        && Sized(lib.p, lay.defs, lay.schema, d) && Packs(lib.p, lay.defs, lay.schema, d)
        && AllValid(lay, log.pending + [d]) && ContainerFormat.Fits(lib, lay, log.pending + [d])
    case _ => ContainerFormat.Fits(lib, lay, log.pending)
  }

  ghost predicate AllReady(lib: Library, lay: Layout, calls: seq<Call>)
    requires Sound(lib.p)
  {
    forall i :: 0 <= i < |calls| ==> Ready(lib, lay, Run(lib, lay, calls[..i]), calls[i])
  }

  ghost predicate HeaderFits(lib: Library, lay: Layout)
    requires Sound(lib.p)
  {
    var header := HeaderDatum(Meta(lib, lay), lay.sync);
    Validate(HEADER_DEFS, Named(HEADER), header) ==> Sized(lib.p, HEADER_DEFS, Named(HEADER), header)
  }

  /** The schema is the one its text is parsed to. */
  ghost predicate Reparsed(lib: Library, lay: Layout) {
    lib.parseSchema(lib.printSchema((lay.defs, lay.schema))) == Some((lay.defs, lay.schema))
  }

  lemma RunOne(lib: Library, lay: Layout, calls: seq<Call>, i: nat)
    requires Sound(lib.p) && i < |calls|
    ensures Run(lib, lay, calls[..i + 1]) == Step(lib, lay, Run(lib, lay, calls[..i]), calls[i])
  {
    assert calls[..i + 1][..i] == calls[..i];
  }

  /** A new file, any calls, with exceptions for invalid data going unheeded, and a last flush. */
  method WriteFile(lib: Library, lay: Layout, calls: seq<Call>, file: BinaryEncoder)
    requires SoundLibrary(lib) && ValidLayout(lay) && HeaderFits(lib, lay) && AllReady(lib, lay, calls + [Flush])
    requires Reopen in calls ==> Reparsed(lib, lay)
    requires file.written == []
    modifies file
    ensures file.written == FileBytes(lib, lay, Run(lib, lay, calls + [Flush]).blocks)
  {
    var created := DataFileWriter.Create(lib, lay, file);
    var writer := created.value;
    hide Guarded, FileBytes, Run, Step, Ready;
    assert writer.log == Run(lib, lay, calls[..0]) by { NoCalls(lib, lay); }
    ghost var all := calls + [Flush];
    for i := 0 to |calls|
      invariant writer.Valid() && writer.lib == lib && writer.lay == lay && writer.encoder == file
      invariant fresh(writer) && fresh(writer.bufferEncoder) && writer.log == Run(lib, lay, calls[..i])
    {
      assert all[..i] == calls[..i] && all[i] == calls[i];
      RunOne(lib, lay, calls, i);
      assert Ready(lib, lay, writer.log, calls[i]);
      writer := Perform(writer, calls[i], file);
    }
    assert calls[..|calls|] == calls && all[..|calls|] == calls && all[|calls|] == Flush;
    assert all[..|calls| + 1] == all;
    RunOne(lib, lay, all, |calls|);
    assert Ready(lib, lay, writer.log, Flush);
    writer := Perform(writer, Flush, file);
  }

  lemma NoCalls(lib: Library, lay: Layout)
    requires Sound(lib.p)
    ensures Run(lib, lay, []) == Log([], [])
  {
  }

  /** One call; reopening gives a new object over the same file. */
  method Perform(writer: DataFileWriter, call: Call, file: BinaryEncoder)
    returns (writer': DataFileWriter)
    requires writer.Valid() && writer.encoder == file && Ready(writer.lib, writer.lay, writer.log, call)
    requires call == Reopen ==> Reparsed(writer.lib, writer.lay)
    modifies writer, file, writer.bufferEncoder
    ensures writer' == writer || (fresh(writer') && fresh(writer'.bufferEncoder))
    ensures writer'.Valid() && writer'.encoder == file
    ensures writer'.lib == writer.lib && writer'.lay == writer.lay
    ensures writer'.log == Step(writer.lib, writer.lay, old(writer.log), call)
  {
    writer' := writer;
    match call
    case Append(d) =>
      var appended := writer.Append(d);
    case Sync =>
      var end := writer.Sync();
    case Flush =>
      var flushed := writer.Flush();
    case Reopen =>
      var flushed := writer.Flush();
      var reopened := DataFileWriter.Reopen(writer.lib, file, writer.lay, writer.log.blocks);
      writer' := reopened.value;
  }

  /** If n calls of `next` succeed, so does the first of them, and the others follow it. */
  lemma FirstOf(rd: Reader, cur: Cursor, n: nat, k: nat)
    requires Placed(cur) && n > 0 && ItemsAt(rd, cur, n, k).Success?
    ensures
      var first := NextItemAt(rd, cur, k);
      && first.Success? && ItemsAt(rd, first.value.1, n - 1, k).Success?
      && ItemsAt(rd, cur, n, k).value == [first.value.0] + ItemsAt(rd, first.value.1, n - 1, k).value
  {
    hide NextItemAt;
  }

  /** Opening a file and calling `next` n times. */
  method ReadFile(lib: Library, data: seq<byte>, dr: Defs, r: Schema, n: nat, ghost lay: Layout, ghost calls: seq<Call>)
    returns (res: Result<seq<Item>>)
    requires SoundLibrary(lib) && ValidLayout(lay) && Reparsed(lib, lay)
    requires AllResolve(Reader(lib, lay, dr, r), Accepted(lay, calls))
    requires !(lay.sync <= BlocksBytes(lib, lay, Run(lib, lay, calls + [Flush]).blocks))
    requires data == FileBytes(lib, lay, Run(lib, lay, calls + [Flush]).blocks)
    ensures res == Success(Expected(Reader(lib, lay, dr, r), Accepted(lay, calls), n))
  {
    ghost var rd := Reader(lib, lay, dr, r);
    FileRoundTrip(rd, calls, n);
    hide Guarded, FileBytes, BlocksBytes, HeaderBytes, Run, AllResolve, Expected, Items, NextItemAt;
    ghost var blocks := Run(lib, lay, calls + [Flush]).blocks;
    var opening := DataFileReader.Open(lib, data, dr, r, lay, blocks);
    var reader := opening.value;
    ghost var k := ItemsRun(rd, reader.View(), n);
    hide ItemsAt;
    res := Iterate(reader, n, k);
  }

  /** Calling `next` n times. */
  method Iterate(reader: DataFileReader, n: nat, ghost k: nat) returns (res: Result<seq<Item>>)
    requires reader.Valid() && ItemsAt(reader.rd, reader.View(), n, k).Success?
    modifies reader, reader.decoder, reader.datumDecoder
    ensures res == ItemsAt(reader.rd, old(reader.View()), n, k)
  {
    ghost var whole := ItemsAt(reader.rd, reader.View(), n, k).value;
    var items: seq<Item> := [];
    assert [] + whole == whole;
    hide NextItemAt;
    for i := 0 to n
      invariant reader.Valid() && (reader.datumDecoder == old(reader.datumDecoder) || fresh(reader.datumDecoder))
      invariant ItemsAt(reader.rd, reader.View(), n - i, k).Success?
      invariant whole == items + ItemsAt(reader.rd, reader.View(), n - i, k).value
    {
      hide ItemsAt;
      FirstOf(reader.rd, reader.View(), n - i, k);
      ghost var later := ItemsAt(reader.rd, NextItemAt(reader.rd, reader.View(), k).value.1, n - i - 1, k).value;
      var next := reader.NextItem(k);
      assert items + ([next.value] + later) == items + [next.value] + later;
      items := items + [next.value];
    }
    assert items + [] == items;
    return Success(items);
  }

  /** Every accepted datum comes back, once and in order, as the reader's schema sees it. */
  method WriteAndRead(lib: Library, lay: Layout, calls: seq<Call>, dr: Defs, r: Schema, n: nat)
    returns (res: Result<seq<Item>>)
    requires SoundLibrary(lib) && ValidLayout(lay) && HeaderFits(lib, lay) && AllReady(lib, lay, calls + [Flush])
    requires Reparsed(lib, lay) && AllResolve(Reader(lib, lay, dr, r), Accepted(lay, calls))
    requires !(lay.sync <= BlocksBytes(lib, lay, Run(lib, lay, calls + [Flush]).blocks))
    ensures res == Success(Expected(Reader(lib, lay, dr, r), Accepted(lay, calls), n))
  {
    hide Guarded, FileBytes, BlocksBytes, Run, AllResolve, Expected, AllReady, Reparsed, HeaderFits;
    var file := new BinaryEncoder();
    WriteFile(lib, lay, calls, file);
    res := ReadFile(lib, file.written, dr, r, n, lay, calls);
  }
}
