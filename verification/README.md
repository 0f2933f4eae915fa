# The Avro Python library and the sleep job, modelled and proved

This project models five components and proves what they promise.

1. **The schema-driven binary codec** (`avro/devices/avro/io.py`). `Encoding.Write` is the writer,
   `Decoding.Read` the reader that takes a writer's and a reader's schema, `Decoding.Skip` the skipper. `Execution.ReadAt`
   and `SkipAt` are the reader and the skipper as movements of a cursor, granted so many steps.
   `Resolution.Resolve` says, without any bytes, what a reader is meant to see; `Grammar.Scan` says, without
   any reader's schema, where a well-formed encoding ends. `Encoding.Norm` is the datum a reader
   with the same schema gets back: the writer's choice of the last valid branch of a union is made explicit,
   a record keeps exactly its declared fields, a missing one becomes null.
2. **Object container files** (`avro/devices/avro/datafile.py`): the block writer, reopening a file for
   appending, and the iterating reader.
3. **RPC handshake and framing** (`avro/devices/avro/ipc.py`, `avro/devices/avro/txipc.py`): the handshake as a
   state machine over many clients and as objects that exchange bytes; the frame writer, the blocking and the
   event-driven frame reader, and the streaming producer.
4. **Schemas as text** (`avro/devices/avro/schema.py`): parsing with a table of names and a default namespace
   that is saved and restored, and printing, which refers to a type by name once it has been printed.
5. **The sleep job's splitter and partitioner** (`mr/yarn_containers/SleepJob.java`).

## How it is put together

Each operation exists once as a function on values, and where the program updates a stream, a buffer or a
field in place, once more as a method that is proved to compute that function: `BinaryStreams`, `DatumWriting`
and `DatumReading` for the codec, `ContainerFile`, `ContainerSession`, `FramedStreams`, `RemoteCalls`, `SchemaObjects`, and the classes
of `SleepJob`. The theorems are about the functions. Reading exists as a function twice: `Decoding` describes it without a cursor, as
long as no skip moves back, and most theorems are about that description; `Execution` moves a cursor, and
`ReadRefinement.ReadRefines` connects the two.

What both sides of a theorem share is also said without it: `Promotion` gives the table by which data are read, `Validation` what is
valid, `Defaults` what a default stands for, `LiberalText` which JSON is a text of which schema, `Buffering` where blocks end,
`HandshakeMemory` what client and server remember, `Leniency` what is read that no writer sends, and
`SpecificationExamples` bytes the specification spells out.

A schema occurrence is a value; a named type is referred to by its full name, which a map leads to its definition, so that
types may be recursive. What the library takes from Python itself is collected in `Encoding.Platform`
(UTF-8, the packing of floats, the order of `dict.items()`, `bool()`, `int()`, `float()`, the depth of the
stack) and in `ContainerFormat.Library` (zlib, and a file's schema as text). `Encoding.Sound` and
`ContainerFormat.SoundLibrary` state all that is assumed of them: text survives encoding, packed floats have their width,
`items()` lists each key once, inflating undoes deflating. `Defaults.SoundNumbers` adds that booleans and numbers in JSON convert to
what they say.

Some results are about code that does not always do what it is for, and say when it does:

- `SchemaRoundTrip.RebuildsExactlyWhenFaithful`: a printed schema is parsed back into itself if and only if every name
  in it, read where it is printed, means what it stands for. `SchemaCounterexamples.InheritedNamespaceIsLost` is a
  schema the parser accepts for which it does not.
- `Framing.DeclaredLengthIsRight`: the length the streaming producer announces is the length it writes if and only if
  `(L mod 8192) + 4 * (L div 8192) + 8 <= 8192`.
- `RemoteCalls.Requestor.Request`: a requestor ends a request without the server's protocol if and only if
  it took the server's hash from another requestor of the same remote name and the server already knew its protocol;
  `Handshake.SharedNameFails` is a run in which that happens.
- `SleepJob.RunMapTask`: a map task emits all its keys if and only if their number fits into an int.
- `DatumWriting.DatumWriter.Write` and `ContainerFile.DataFileWriter.Append`: a valid datum is written in full if and only if every
  number in it can be packed. Otherwise a proper part of it stays behind, in a container file's buffer without being counted.
- `Termination.EndsAsDescribed`: reading ends on every input on which no skip moves back. A negative length or block size met while
  skipping moves the cursor back, and then reading need not end: with a skipped array, `Divergence.TwoBytesNeverEnd`
  gives two bytes on which no number of steps is enough, and `SkippedCollectionNeverEnds` such bytes for every pair of schemas
  under which some datum has an array or map skipped. Conversely `TameReadEnds` names the pairs of schemas, by what is
  skipped under them, for which reading ends on every byte string; reading with the writer's own schema is among them
  (`SelfReading.OwnSchemaEnds`). That condition is not necessary, because a position that is skipped need not
  be reachable (`Divergence.UnreachedFieldEnds`).

- `Defaults.BytesDefaultsAreInvalid`: a default of a bytes or fixed field is never valid, because it stays the text it is in JSON.

One more is one-directional for a reason that is itself proved. The container reader looks for the sync marker in front of
the first block too, where none is written. `ContainerTheorems.FileRoundTrip` therefore needs the blocks not to start with the
marker; `ContainerTheorems.MarkerInFirstBlock` is a file for which the reader reports false where true was
appended, and `ContainerTheorems.MarkerCanBeHarmless` one that starts with the marker and is still read in full, so
the guard of that branch is not a necessary condition.

Where code and documentation disagree the model follows the code. `_skip_sync` says that it seeks back to where it
started; it seeks back by sixteen bytes, which is further when fewer than sixteen were left.
`ContainerIteration.SyncStep` shows that this does not happen between the blocks of a written file.

## Model

| member | source | states |
|---|---|---|
| Varint.LongRoundTrip | avro/devices/avro/io.py:178-190 | reading a written long returns it and stops right behind it, whatever follows |
| Varint.LongPrefixFree | avro/devices/avro/io.py:299-307 | no encoding of a long is a proper prefix of another one |
| Varint.LongIsShortest | avro/devices/avro/io.py:299-307 | of all byte strings that decode to a number, the one written is the shortest |
| Varint.LongWidth | avro/devices/avro/io.py:299-307 | ten bytes hold every 64-bit value, five every 32-bit value, and both bounds are reached |
| Varint.ZigZagOrder | avro/devices/avro/io.py:299-307 | numbers alternate in sign in the order of their encodings, a positive one right behind its opposite, and one further from zero never comes before one nearer |
| Varint.SpecificationTable | avro/devices/avro/io.py:299-307 | the table of the specification, byte by byte, and the two ends of the 32-bit range |
| BinaryStreams.BinaryEncoder.WriteLong | avro/devices/avro/io.py:299-307 | the loop that shifts seven bits at a time appends exactly the zig-zag base-128 digits |
| BinaryStreams.BinaryDecoder.ReadLong | avro/devices/avro/io.py:178-190 | the loop that ors shifted digits together computes the number and moves past it, or fails at the end of the data |
| BinaryStreams.BinaryDecoder.ReadBytes | avro/devices/avro/io.py:220-224 | a length and as many bytes as it says, or as are left |
| BinaryStreams.BinaryDecoder.ReadLeaf | avro/devices/avro/io.py:159-231 | every primitive reader consumes and returns what its parse function says |
| BinaryStreams.BinaryDecoder.SkipLeaf | avro/devices/avro/io.py:233-260 | every primitive skipper moves the cursor as its function says, by a negative length backwards |
| Encoding.LastValid | avro/devices/avro/io.py:859-863 | the writer's branch of a union is valid, and no later branch is |
| Encoding.UnguardedIsEmpty | avro/devices/avro/io.py:132-136 | no datum is valid for a record on a cycle of records that hold each other directly |
| Encoding.ItemsAreValid | avro/devices/avro/io.py:125-130 | every item of a valid array or map is valid, in whatever order a map's entries come |
| Validation.IntegerRanges | avro/devices/avro/io.py:111-115 | an int or long is accepted exactly if its zig-zag code fits into 32 or 64 bits, and nothing but an integer is |
| Validation.ReadIsAccepted | avro/devices/avro/io.py:99-136 | every datum that reading a well-formed encoding of the schema returns is accepted, if its ints and longs lie within their ranges |
| Validation.DeclaredFieldsDecide | avro/devices/avro/io.py:132-136 | a record is judged by its declared fields alone, a missing one as null |
| DatumWriting.DatumWriter.Write | avro/devices/avro/io.py:753-758 | an invalid datum is refused before anything is written; a valid one is written in full if and only if all its numbers pack, else a proper part of it |
| DatumWriting.DatumWriter.WriteData | avro/devices/avro/io.py:760-792 | appends exactly the encoding of the datum, or a proper part of it if and only if a number in it cannot be packed |
| DatumWriting.DatumWriter.WriteArray | avro/devices/avro/io.py:809-828 | one block with all items, if there are any, and the end mark |
| DatumWriting.DatumWriter.WriteMap | avro/devices/avro/io.py:830-850 | one block with all entries in the dict's order, and the end mark |
| DatumWriting.DatumWriter.WriteUnion | avro/devices/avro/io.py:852-867 | the index of the last valid branch, then the datum under that branch |
| DatumWriting.DatumWriter.SelectBranch | avro/devices/avro/io.py:858-862 | the loop without a break ends with the last valid branch |
| DatumWriting.DatumWriter.WriteRecord | avro/devices/avro/io.py:869-877 | the declared fields in order, a missing one as null, other keys ignored |
| Decoding.MatchShape | avro/devices/avro/io.py:366-408 | schemas that match and are no unions have the same shape, or are promotable primitives |
| Decoding.FirstMatch | avro/devices/avro/io.py:443-445 | the reader's branch matches and no earlier one does |
| Promotion.ReadsByTable | avro/devices/avro/io.py:366-408 | what the table of the specification does not allow is refused whatever the data; what it allows is read by the writer's type |
| Promotion.ReadsAsFirstBranch | avro/devices/avro/io.py:443-447 | a reader's union is read as its first branch that the table allows, and refused if there is none |
| Promotion.PrimitivesAreRead | avro/devices/avro/io.py:371-408 | a primitive is read as another exactly if they are equal or the other comes later in int, long, float, double, and the value is the number written |
| Promotion.PrimitiveCollectionsAreRead | avro/devices/avro/io.py:392-399 | arrays and maps of a primitive are read only as such of the same primitive: nothing is promoted inside |
| Promotion.SymbolsAreRead | avro/devices/avro/io.py:525-543 | an enum is read as the enum of its name exactly if that has the symbol, wherever it lists it |
| Promotion.FixedAreRead | avro/devices/avro/io.py:384-387 | a fixed is read exactly as the fixed of the same name and size |
| Leniency.BranchByIndex | avro/devices/avro/io.py:626-641 | an index counts from the front, a negative one from the end, and beyond both ends reading fails |
| Leniency.SymbolByIndex | avro/devices/avro/io.py:525-543 | the same for the symbols of an enum |
| Leniency.BytesByLength | avro/devices/avro/io.py:220-224 | a length that is negative or too large yields whatever is left |
| Leniency.BooleanByByte | avro/devices/avro/io.py:165-170 | of all bytes only 1 reads as true |
| Leniency.SizeIsIgnored | avro/devices/avro/io.py:563-573 | reading goes by the count of a block, whatever size it declares |
| Leniency.CountIsIgnored | avro/devices/avro/io.py:575-584 | skipping goes by the declared size of a block, whatever count it has |
| Leniency.SkipByLength | avro/devices/avro/io.py:253-260 | a skipped string moves the cursor by any length; to before the start it is refused in a file and stops at the start in memory |
| Leniency.LengthIsIgnored | avro/devices/avro/datafile.py:277-283 | without compression a block of a container file is read by its count, whatever length it declares |
| Leniency.CorruptBlockIsRefused | avro/devices/avro/datafile.py:283-290 | with compression a block that cannot be inflated is refused, and otherwise replaces the one before |
| Decoding.Read | avro/devices/avro/io.py:434-480 | a description that reads forwards only: a value and what is left, which is never longer, an exception, or the report that a skip moves back |
| SkipRefinement.SkipRefines | avro/devices/avro/io.py:482-513 | the cursor ends up where the description of skipping says, given enough steps and no move back; where a block is skipped back to its own head no number of steps is enough |
| ReadRefinement.ReadRefines | avro/devices/avro/io.py:434-480 | the same for reading: same value or exception, same cursor |
| Steps.MoreRead | avro/devices/avro/io.py:434-480 | a run that has ended has the same outcome when it is granted more steps |
| Termination.EndsAsDescribed | avro/devices/avro/io.py:434-480 | on every input on which no skip moves back reading ends, with what the description says; where a block is skipped back to its own head it never ends |
| Termination.QuietReadEnds | avro/devices/avro/io.py:671-680 | if no string, bytes, array or map is in a position that is skipped, reading ends on every byte string |
| Termination.TameReadEnds | avro/devices/avro/io.py:671-680 | the same with a sharper condition: strings and bytes may be skipped outside arrays and maps |
| Divergence.SkippedCollectionNeverEnds | avro/devices/avro/io.py:575-584 | wherever reading some datum skips an array or map, there are bytes on which reading never ends, whatever follows them |
| Divergence.TwoBytesNeverEnd | avro/devices/avro/io.py:575-584 | a skipped array whose block size leads back to its own count: no number of steps is enough |
| Divergence.SkippedTextNeverEnds | avro/devices/avro/io.py:253-260 | a skipped string of negative length inside an array leads back to the array's count: no number of steps is enough |
| Divergence.UnreachedFieldEnds | avro/devices/avro/io.py:671-680 | a skipped array behind a field that always raises does no harm, so the condition on schemas is not necessary |
| SelfReading.OwnSchemaEnds | avro/devices/avro/io.py:430-432 | with the writer's own schema reading ends on every byte string, as described |
| DatumReading.DatumReader.Read | avro/devices/avro/io.py:429-432 | the reader does what the description says on every input on which no skip moves back |
| DatumReading.DatumReader.ReadOwn | avro/devices/avro/io.py:430-432 | with the writer's own schema it does so on every input |
| DatumReading.DatumReader.ReadData | avro/devices/avro/io.py:434-480 | the procedure returns the value or raises the exception of the run, and leaves the cursor where it does, moves back included |
| DatumReading.DatumReader.ReadArray | avro/devices/avro/io.py:548-573 | the block loop, with counts negative or not, reads the items of the run |
| DatumReading.DatumReader.ReadMap | avro/devices/avro/io.py:586-612 | the same for maps, where a later entry of the same key wins |
| DatumReading.DatumReader.ReadUnion | avro/devices/avro/io.py:626-641 | the branch the index selects, read as the reader's schema |
| DatumReading.DatumReader.ReadEnum | avro/devices/avro/io.py:525-543 | the symbol of the index, refused if the reader does not have it |
| DatumReading.DatumReader.ReadRecord | avro/devices/avro/io.py:651-694 | fields the reader lacks are skipped and missing ones filled in, also where the count of fields makes the second loop be left out |
| DatumReading.DatumReader.FillMissing | avro/devices/avro/io.py:682-693 | every field only the reader declares gets its default, or the record is refused |
| DatumReading.DatumReader.ReadDefaultValue | avro/devices/avro/io.py:700-740 | a JSON default is decoded by the reader's schema, a union's by its first branch |
| DatumReading.DatumReader.ReadDefaultRecord | avro/devices/avro/io.py:730-737 | a record default is completed with the defaults of its own fields |
| DatumReading.DatumReader.SkipData | avro/devices/avro/io.py:482-513 | the procedure moves the cursor as the run does, forwards or backwards |
| DatumReading.DatumReader.SkipCollection | avro/devices/avro/io.py:575-624 | blocks that declare their size are jumped over, by negative sizes backwards, others skipped item by item |
| Resolution.Fusion | avro/devices/avro/io.py:434-480 | reading W-data as R fails exactly where resolution is undefined, else returns the resolution and leaves exactly the suffix |
| Resolution.FuseItems | avro/devices/avro/io.py:563-573 | item by item, reading a written block resolves the items in order |
| Resolution.FuseRecord | avro/devices/avro/io.py:651-694 | the same for records: reader's fields only, skipped fields and defaults included |
| Resolution.FillDefaultsMeaning | avro/devices/avro/io.py:682-693 | the second loop of read_record fails exactly if some missing field has no usable default, and else adds exactly the missing ones |
| Defaults.DepictedIsDecoded | avro/devices/avro/io.py:700-740 | a default that stands for a datum, its numbers converted and unions written as their first branch, is decoded to that datum exactly if the stack is deep enough, and otherwise fails |
| Defaults.LiteralsDepict | avro/devices/avro/io.py:704-713 | null, booleans, numbers and texts stand for themselves |
| Defaults.DecodedExactlyIfShaped | avro/devices/avro/io.py:700-740 | a default is decoded at all exactly if its outer form fits the schema and its numbers convert; a record declared as an error has no default |
| Defaults.OneField | avro/devices/avro/io.py:729-737 | a record default without an entry for a field, or with a null, gives the field its own default |
| Defaults.MissingFieldsGetDefaults | avro/devices/avro/io.py:682-693 | on any bytes a record is read only if every field the writer lacks has a default, and then the field holds what that default depicts |
| Defaults.DepictingDefaultsAreGood | avro/devices/avro/io.py:700-740 | schemas whose defaults all depict data meet the condition under which everything read conforms |
| Defaults.BytesDefaultsAreInvalid | avro/devices/avro/io.py:716-722 | a default of a bytes or fixed field is taken over as it is and is never valid, because JSON has no bytes |
| RoundTrip.FirstMatchOfBranch | avro/devices/avro/schema.py:513-517 | under the parser's union rules the reader's first match for a branch reads it as that branch does |
| RoundTrip.SelfResolve | avro/devices/avro/io.py:440-447 | a schema resolves against itself, and every valid datum to its normal form |
| RoundTrip.DatumRoundTrip | avro/devices/avro/io.py:753-877 | writing and reading with one schema returns the normal form and leaves the suffix, for every order of map entries |
| RoundTrip.NormIsIdentity | avro/devices/avro/io.py:869-877 | the datum comes back unchanged if and only if its records have exactly the declared fields and its numbers pack exactly |
| Conformance.ResolveConforms | avro/devices/avro/io.py:671-694 | a resolution is valid for the reader's schema if defaults decode to valid data, and its records have exactly the reader's fields if those of the defaults do |
| Conformance.ReadConforms | avro/devices/avro/io.py:99-136 | the same for whatever is read from written data |
| Conformance.ReadIsValid | avro/devices/avro/io.py:99-136 | what is read from written data validates, if the defaults only validate |
| Grammar.BlockEnd | avro/devices/avro/io.py:575-584 | a block that declared its size ends where that size says |
| Grammar.SkipFollowsScan | avro/devices/avro/io.py:482-513 | skipping stops exactly at the end of a well-formed encoding, sized blocks included |
| Grammar.ReadFollowsScan | avro/devices/avro/io.py:434-480 | a reader that succeeds consumes the same bytes whatever its own schema is |
| Written.ScanWrite | avro/devices/avro/io.py:760-877 | everything the writer writes is a well-formed encoding, whatever follows |
| Written.SkipWrite | avro/devices/avro/io.py:482-513 | skipping passes over exactly what was written |
| SpecificationExamples.RecordExample | avro/devices/avro/io.py:869-877 | the record example of the specification, byte by byte |
| SpecificationExamples.ArrayExample | avro/devices/avro/io.py:809-828 | the array example of the specification |
| SpecificationExamples.UnionExample | avro/devices/avro/io.py:852-867 | the union example of the specification |
| SpecificationExamples.EnumExample | avro/devices/avro/io.py:801-807 | the enum example of the specification |
| Agreement.ReadCompletes | avro/devices/avro/io.py:434-480 | reading with the writer's own schema does not fail on a well-formed encoding |
| Agreement.SkipAgreesWithRead | avro/devices/avro/io.py:482-513 | on every well-formed encoding skip and read both succeed and leave the cursor at its end |
| ContainerFormat.HeaderRoundTrip | avro/devices/avro/datafile.py:129-133 | the header is read back as written, in whatever order the metadata are written |
| SpecificationExamples.HeaderLayout | avro/devices/avro/datafile.py:129-133 | a header is the magic bytes, the metadata as a map, and the marker |
| SpecificationExamples.BlockExample | avro/devices/avro/datafile.py:136-164 | the block of one boolean is its count, its length, the byte and the marker |
| ContainerFormat.StepIsValid | avro/devices/avro/datafile.py:136-187 | after every call no block is empty, all data are valid, and the buffer is shorter than SYNC_INTERVAL |
| ContainerFormat.Conservation | avro/devices/avro/datafile.py:136-173 | after any calls blocks and buffer together hold each accepted datum exactly once, in order |
| Buffering.AppendBuffers | avro/devices/avro/datafile.py:166-173 | an accepted datum stays in the buffer exactly until that has reached SYNC_INTERVAL |
| Buffering.BlocksAreFew | avro/devices/avro/datafile.py:136-187 | after any calls there is at most one block for each SYNC_INTERVAL bytes of data and each sync, flush or reopening |
| Buffering.BlocksAreGreedy | avro/devices/avro/datafile.py:166-173 | no block could have ended sooner for its size, and with nothing but appends every block has reached SYNC_INTERVAL |
| ContainerFile.ReadHeader | avro/devices/avro/datafile.py:257-275 | the magic number is checked and metadata and marker are taken from the header, behind which the cursor stops |
| ContainerFile.DataFileWriter.Create | avro/devices/avro/datafile.py:70-91 | a new file holds just its header; an unknown codec is refused |
| ContainerFile.DataFileWriter.Reopen | avro/devices/avro/datafile.py:92-107 | a writer without a schema takes marker and schema from the file or fails as opening it does; over a written file it continues behind its blocks |
| ContainerFile.DataFileWriter.WriteBlock | avro/devices/avro/datafile.py:136-164 | the buffered data become one more block, and nothing is written while there are none |
| ContainerFile.DataFileWriter.Append | avro/devices/avro/datafile.py:166-173 | a valid datum whose numbers pack joins the buffer, which is cut at SYNC_INTERVAL; an invalid one changes nothing; one that cannot be packed leaves the buffer exact if and only if nothing of it was written |
| ContainerFile.DataFileWriter.Sync | avro/devices/avro/datafile.py:175-182 | the block is ended and the position returned is the length of the file |
| ContainerFile.DataFileWriter.Flush | avro/devices/avro/datafile.py:184-187 | afterwards the file holds every datum appended |
| ContainerFile.DataFileReader.Open | avro/devices/avro/datafile.py:198-219 | opening any file does what its header decides; a written file is opened with its layout, at its first block |
| ContainerFile.HeaderDecides | avro/devices/avro/datafile.py:205-219 | for any metadata: without a codec the data are not compressed, an unknown codec is refused, and so is a schema that is missing or cannot be parsed |
| ContainerFile.OtherMagicIsRefused | avro/devices/avro/datafile.py:257-268 | a file that starts with other bytes than the magic number is refused, whatever follows |
| ContainerFile.DataFileReader.ReadBlockHeader | avro/devices/avro/datafile.py:277-290 | null codec: the length is skipped and ignored; deflate: the block is inflated whole |
| ContainerFile.DataFileReader.SkipSync | avro/devices/avro/datafile.py:292-302 | the marker is passed over, or the cursor moved back by sixteen bytes |
| ContainerFile.DataFileReader.NextItem | avro/devices/avro/datafile.py:306-319 | one datum, or StopIteration, or the exception of the run, and the cursor where the run leaves it |
| ContainerIteration.SyncStep | avro/devices/avro/datafile.py:292-302 | at the end of a block its marker is always recognised, so the cursor never has to move back there |
| ContainerIteration.HeaderStep | avro/devices/avro/datafile.py:277-290 | a block header leads into that block under both codecs |
| ContainerIteration.DatumStep | avro/devices/avro/datafile.py:317-319 | inside a block the next datum is delivered and exactly its bytes are consumed |
| ContainerIteration.IterationDelivers | avro/devices/avro/datafile.py:306-319 | every datum of every block is delivered once and in order, then iteration stops for ever |
| ContainerExecution.ItemsRun | avro/devices/avro/datafile.py:306-319 | what iteration delivers by its description it delivers as a run in finitely many steps |
| ContainerTheorems.FileRoundTrip | avro/devices/avro/datafile.py:136-192 | whatever appends, syncs, flushes and reopenings made the file, iterating yields all accepted data, then stops |
| ContainerTheorems.OwnSchemaDelivers | avro/devices/avro/datafile.py:219 | a reader without a schema of its own sees each accepted datum in normal form |
| ContainerTheorems.MarkerInFirstBlock | avro/devices/avro/datafile.py:306-313 | with an unlucky marker the first datum comes back changed |
| ContainerTheorems.MarkerCanBeHarmless | avro/devices/avro/datafile.py:306-313 | a file whose blocks start with the marker can still be read in full |
| ContainerSession.WriteFile | avro/devices/avro/datafile.py:70-192 | on real objects any calls, reopenings included, leave exactly the file the log describes |
| ContainerSession.WriteAndRead | avro/devices/avro/datafile.py:70-319 | writing, opening and iterating end to end: every accepted datum once, in order, resolved, then StopIteration |
| SchemaInFiles.TextIsReadBackExactlyWhenFaithful | avro/devices/avro/datafile.py:89-101 | the schema text in a header is parsed back into the same schema and definitions if and only if the schema is faithful |
| SchemaInFiles.FaithfulFilesReopen | avro/devices/avro/datafile.py:92-107 | so a file with a faithful schema meets the condition for being opened again |
| Framing.FrameRoundTrip | avro/devices/avro/ipc.py:409-427 | reading the frames of a message returns it and consumes exactly them |
| Framing.PackIsMonotone | avro/devices/avro/ipc.py:82 | headers are ordered byte by byte from the first as their numbers are, which only the big-endian form achieves |
| Framing.FramesLength | avro/devices/avro/ipc.py:437-449 | a message costs a header for each 8192 bytes begun and one more |
| Framing.DrainMore | avro/devices/avro/txipc.py:140-154 | draining a buffer and then more bytes is draining them together, unless the first part ends the message |
| Framing.SplitIndependence | avro/devices/avro/txipc.py:140-154 | chunks a then b leave the same state as a + b if and only if a does not end a message |
| Framing.DrainIsDeframe | avro/devices/avro/txipc.py:140-154 | on the same bytes the event-driven reader delivers a message exactly where the blocking one does |
| Framing.AnySplitDelivers | avro/devices/avro/txipc.py:140-154 | however the frames are cut into non-empty chunks, finished fires once, on the last chunk, with the message |
| Framing.IncompleteFrames | avro/devices/avro/ipc.py:409-421 | no proper prefix of a message's frames is taken for a message |
| Framing.ProducerDelivers | avro/devices/avro/txipc.py:108-129 | what the producer writes decodes to its message, for every length |
| Framing.ProducedLength | avro/devices/avro/txipc.py:108-129 | how many bytes the producer writes |
| Framing.DeclaredLengthIsRight | avro/devices/avro/txipc.py:59-66 | the announced length is the length written if and only if the headers fit into the last buffer |
| Framing.DeclaredLengthIsShort | avro/devices/avro/txipc.py:59-66 | for a message of 8185 bytes 8193 are announced and 8197 written |
| FramedStreams.FramedWriter.WriteFramedMessage | avro/devices/avro/ipc.py:437-449 | the loop writes the frames of the message, none of them empty, and the terminator |
| FramedStreams.FramedReader.ReadFramedMessage | avro/devices/avro/ipc.py:409-421 | the answer depends on the bytes alone, not on how many of them each read returns |
| FramedStreams.AvroProtocol.DataReceived | avro/devices/avro/txipc.py:140-154 | the fields change as the receiver function says |
| FramedStreams.RequestStreamingProducer.StartProducing | avro/devices/avro/txipc.py:83-96 | everything is written in one go, and a second call writes nothing |
| FramedStreams.RequestStreamingProducer.Write | avro/devices/avro/txipc.py:108-121 | one buffer, and after the last one the terminator |
| Handshake.ExchangeOutcome | avro/devices/avro/ipc.py:147-209 | an exchange never fails, runs the request with the client's own protocol or asks for it once, and leaves true caches |
| Handshake.NextKeeps | avro/devices/avro/ipc.py:347-377 | every event keeps the caches true and every client's phase consistent with them |
| Handshake.NextAgrees | avro/devices/avro/ipc.py:118-127 | with one requestor per remote name, a stored hash always comes with the server's protocol |
| Handshake.TwoExchanges | avro/devices/avro/ipc.py:186-209 | over every interleaving of requests, lost exchanges and lost cache entries: no handshake failure, at most two exchanges, and the request is run exactly once, with the client's protocol |
| Handshake.ResponseIsReadWithTheServersProtocol | avro/devices/avro/ipc.py:211-242 | with one requestor per remote name a call response is read with the server's protocol |
| Handshake.SharedNameFails | avro/devices/avro/ipc.py:149-153 | with a shared remote name the second requestor ends its request without a remote protocol |
| HandshakeMemory.ExchangeTeaches | avro/devices/avro/ipc.py:186-209 | after an exchange the server's hash is known unless the client's own was right, also after a CLIENT answer, and the server has cached a client exactly if it understood it |
| HandshakeMemory.KnownExchange | avro/devices/avro/ipc.py:147-159 | where both sides remember each other the request carries hashes only and is answered BOTH |
| HandshakeMemory.HandshakeFailsExactly | avro/devices/avro/ipc.py:193-206 | whatever is cached, true or not, the handshake fails exactly if the protocol was asked for and the hash sent along is not the server's |
| HandshakeMemory.EntriesNeverChange | avro/devices/avro/ipc.py:347-377 | whatever a client sends, no entry of the protocol cache changes, and the request is decoded with what the cache then holds under the client's hash |
| HandshakeMemory.AnsweredClientsKnow | avro/devices/avro/ipc.py:124-127 | over every run, shared names included: a client whose request has ended knows the server's hash, unless its protocol is the server's |
| HandshakeMemory.FromThenOnOneExchange | avro/devices/avro/ipc.py:133-264 | over every run: from then on all its requests carry no protocol, are answered BOTH and take one exchange each, as long as the server keeps its protocol |
| HandshakeWire.RequestOnTheWire | avro/devices/avro/ipc.py:33-46 | a handshake request is read as it was meant, absent entries as null, and what follows it is untouched |
| HandshakeWire.ResponseOnTheWire | avro/devices/avro/ipc.py:48-65 | the same for a handshake response |
| SpecificationExamples.RequestLayout | avro/devices/avro/ipc.py:33-46 | the bytes of a handshake request, part by part |
| SpecificationExamples.ResponseLayout | avro/devices/avro/ipc.py:48-65 | the bytes of a handshake response, part by part |
| RemoteCalls.Responder.ProcessHandshake | avro/devices/avro/ipc.py:347-377 | the bytes are answered as the handshake function says and the protocol cache changes accordingly |
| RemoteCalls.Responder.Respond | avro/devices/avro/ipc.py:285-345 | an unknown protocol ends the answer after the handshake, else the server logic runs once on the rest of the bytes |
| RemoteCalls.Requestor.WriteHandshakeRequest | avro/devices/avro/ipc.py:147-159 | hash, known remote hash and, when asked for, the protocol are written; without a remote hash the own protocol is assumed |
| RemoteCalls.Requestor.ReadHandshakeResponse | avro/devices/avro/ipc.py:186-209 | fields and REMOTE_HASHES change as the handshake function says, which by HandshakeMemory.ExchangeTeaches stores the server's hash after NONE and after CLIENT, or a handshake failure is raised |
| RemoteCalls.Requestor.Request | avro/devices/avro/ipc.py:133-145 | over real bytes: one exchange if the server remembers the protocol or it is sent, else two; one run of the server logic with the client's protocol; afterwards both sides remember each other, so that a further request is one exchange of hashes only; and exactly when the server's protocol is known at the end |
| RemoteCalls.Requestor.IssueRequest | avro/devices/avro/ipc.py:255-264 | the answer is used, or the request is made once more |
| SchemaText.Parse | avro/devices/avro/schema.py:638-691 | parsing only adds names and never changes a definition |
| LiberalText.ParsedExactlyIfText | avro/devices/avro/schema.py:638-691 | a JSON value is parsed to a schema with given definitions exactly if it is one of that schema's texts: primitives as strings or objects, further members, namespaces left out, null or unused, references in any form that leads to the name |
| LiberalText.Understood | avro/devices/avro/schema.py:638-691 | the same at every depth, with names taken before and a namespace around |
| LiberalText.AcceptedIsText | avro/devices/avro/schema.py:638-691 | whatever is accepted is a text of the schema it is taken for |
| LiberalText.PrintedIsText | avro/devices/avro/schema.py:615-627 | what is printed is such a text exactly if the schema is faithful |
| LiberalText.TextsAreUnderstoodAlike | avro/devices/avro/schema.py:638-691 | all texts of a schema are parsed to the same schema and definitions |
| LiberalText.PrimitiveObjects | avro/devices/avro/schema.py:650-651 | an object whose type is a primitive is that primitive, whatever else it holds, and means what the string means at the top |
| LiberalText.UnknownMembersAreIgnored | avro/devices/avro/schema.py:647-675 | members nothing asks for make no difference |
| SchemaNames.SimpleName | avro/devices/avro/schema.py:181-190 | a name without a dot takes its own namespace or else the one around it, and the full name leads back to that namespace |
| SchemaNames.DottedName | avro/devices/avro/schema.py:191-210 | a name with a dot stands for itself everywhere, and its namespace is what precedes the last dot |
| SchemaText.Print | avro/devices/avro/schema.py:615-627 | printing only adds names, and only defined ones |
| SchemaRoundTrip.NameMeaning | avro/devices/avro/schema.py:181-190 | a printed name and namespace are taken up again exactly if they lead to the full name |
| SchemaRoundTrip.RecordMeaning | avro/devices/avro/schema.py:578-603 | a printed record is rebuilt exactly if its name is, and its fields are within its own namespace |
| SchemaRoundTrip.ReferenceMeaning | avro/devices/avro/schema.py:274-278 | a printed reference finds its type exactly if it leads there from the namespace around it |
| SchemaRoundTrip.PrintParse | avro/devices/avro/schema.py:302-311 | parse after print rebuilds a schema and its definitions exactly if it is faithful, anywhere inside a larger schema |
| SchemaRoundTrip.RebuildsExactlyWhenFaithful | avro/devices/avro/schema.py:638-691 | the same for whole schemas: same full names, same definition behind each of them |
| SchemaRoundTrip.UnambiguousSchemasAreRebuilt | avro/devices/avro/schema.py:246-278 | it always works if all named types are qualified and none is named like a primitive, or if none is qualified |
| SchemaCounterexamples.InheritedNamespaceIsLost | avro/devices/avro/schema.py:274-278 | a type that inherits its namespace and is used outside its record is not found again |
| SchemaRules.ParseKeeps | avro/devices/avro/schema.py:513-519 | every schema and definition parsed so far keeps the rules for unions, symbols, fields and names |
| SchemaRules.ParsedIsWellFormed | avro/devices/avro/schema.py:549-576 | every schema the parser accepts is well formed as the codec's theorems require |
| SchemaRules.WellFormedIsScoped | avro/devices/avro/schema.py:509-519 | conversely, no union the codec could use is refused by the rules of the parser |
| SchemaRules.FieldNamesAreDistinct | avro/devices/avro/schema.py:571-574 | a field is refused exactly if an earlier one has its name |
| SchemaObjects.NameTable.AddName | avro/devices/avro/schema.py:225-244 | empty, reserved and taken names are refused, others recorded |
| SchemaObjects.MakeAvscObject | avro/devices/avro/schema.py:638-691 | parsing with a table updated in place computes the parse function and restores the default namespace |
| SchemaObjects.MakeRecord | avro/devices/avro/schema.py:578-603 | the default namespace is saved, set and restored around the fields |
| SchemaObjects.MakeUnion | avro/devices/avro/schema.py:494-520 | the loop over the branches with its two rules |
| SchemaObjects.MakeFieldObjects | avro/devices/avro/schema.py:550-576 | the loop over the fields; a repeated name is refused |
| SchemaObjects.ToJson | avro/devices/avro/schema.py:615-627 | printing with a table updated in place computes the print function |
| SchemaObjects.BranchesToJson | avro/devices/avro/schema.py:525-529 | the branches in order, each printed with what is known by then |
| SchemaObjects.FieldsToJson | avro/devices/avro/schema.py:626 | the fields in order, each printed with what is known by then |
| SleepJob.SharesAddUp | mr/yarn_containers/SleepJob.java:94-99 | the shares of all records add up to the total and differ by at most one |
| SleepJob.RecordReader.Next | mr/yarn_containers/SleepJob.java:91-101 | first key and number of keys of the next record in 32-bit arithmetic, and a division by zero without records |
| SleepJob.GetRecordReader | mr/yarn_containers/SleepJob.java:78-90 | negative counts are refused, and the total wraps around |
| SleepJob.Map | mr/yarn_containers/SleepJob.java:113-134 | emits as many keys as the value says, counting up from the key |
| SleepJob.RunMapTask | mr/yarn_containers/SleepJob.java:78-134 | a map task emits 0, 1, 2, ... in order, once each, and all redcount * numReduce of them if and only if that number fits into an int |
| SleepJob.RunOverflowingMapTask | mr/yarn_containers/SleepJob.java:78-134 | with 65536 keys for each of 65536 reducers no key is emitted at all |
| SleepJob.EqualShares | mr/yarn_containers/SleepJob.java:58-60 | every reducer gets the keys congruent to its number: exactly redcount of each map task |
| SleepJob.StridedIsDistinct | mr/yarn_containers/SleepJob.java:128-133 | these keys are different from each other |

## Left out

- Read: schemas whose records contain themselves without a union, array or map in between make the library recurse until its stack is exhausted; the descriptions `Read` and `Skip` require `Guarded`, which excludes definitions that contain such a cycle, and the runs of `Execution`, which do not require it, have no stack to exhaust. By `Encoding.UnguardedIsEmpty` nothing could be written for a type on such a cycle.
- Encoding.Platform: UTF-8, the bit patterns of floats, `bool()`, `int()` and `float()` are functions about which only the stated inverses are assumed; an int or long read as float or double stays an unconverted integer, as in the library. The order of `dict.items()` is a function of the dict's value, where Python 2 may give equal dicts different orders.
- Encoding.Validate: Python 2 takes a bool for an int and a `str` for both text and bytes; data are tagged here, except that records and maps share dicts.
- Encoding.Write: describes what is written of data whose numbers can all be packed (`DatumWriting.Packs`); what is written of others is stated by `DatumWriting.DatumWriter.Write`, not to the byte.
- Basics.Drop: a seek past the end of the data is taken to stop at the end; the next read raises the same exception.
- DatumReading.DatumReader.ReadData: like the other reading methods it requires that the run ends, since a method is proved to end; runs that do not are the subject of Divergence.
- Divergence.SkippedCollectionNeverEnds: for strings and bytes that are skipped inside arrays or maps there is only the example SkippedTextNeverEnds.
- DatumWriting.DatumWriter.Write: lengths and counts are at most sys.maxsize (`Sized`).
- ContainerFile.DataFileWriter.Append: what later calls write once part of a datum has been left in the buffer.
- ContainerFile.DataFileReader.NextItem: requires, like ReadData, that the run ends.
- ContainerSession.WriteFile: data with numbers that cannot be packed.
- Decoding.ReadDefault: a JSON default of the wrong shape is a failure where Python would iterate over a string or a dict; when several entries of a map default fail, which exception is raised depends on the order of the dict and is not distinguished.
- Defaults.DepictedIsDecoded: what `int()`, `float()` and `bool()` make of JSON values other than numbers and booleans; the results hold whatever it is.
- Validation.ReadIsAccepted: the condition on numbers is sufficient; an int out of range in a union can still be valid as a long.
- Resolution.FillDefaultsMeaning: which of several missing fields is reported depends on the order of a dict; only failure itself is stated.
- Schemas.Definition: `error_union` is treated as `union`, and unions inside protocols that drop their first branch when printed are left out.
- ContainerFile.DataFileWriter.Create: the random generation of the sync marker; any sixteen bytes are allowed.
- ContainerFormat.Library: zlib and the schema text in a file's header are functions; SchemaInFiles builds the latter from the printer and the parser, where the text of JSON is assumed to load as it was dumped.
- ContainerTheorems.FileRoundTrip: the condition on the marker is sufficient, not necessary; MarkerCanBeHarmless shows that the guard of the failing branch is not necessary.
- Handshake.Setting: a protocol is its text, parsing a printed protocol is assumed to give it back, and no two protocols in use have the same MD5 hash.
- RemoteCalls.Responder.Respond: the path that reports a system error, which writes to a buffer that is never returned, and the reading of the call request, which is a parameter here.
- RemoteCalls.Requestor.Request: the reading of the call response; what is returned is the protocol it is read with and its bytes.
- FramedStreams.Connection: a frame header arrives whole if at all.
- FramedStreams.RequestStreamingProducer: pausing and resuming.
- FramedStreams.AvroProtocol: a second message on the same connection, beyond what SplitIndependence says about bytes behind the terminator.
- SchemaText.Parse: `error_union` and request records, which only protocols contain, the properties the parser drops, a boolean as the size of a fixed type, and the text of JSON itself.
- SchemaRules.DefinitionOf: a negative size of a fixed type, which the parser accepts, is taken for zero.
- SleepJob.RunMapTask: the loop that feeds records to `map` belongs to Hadoop and is written out here; sleeping, progress and job setup are left out.
- Everything else in the repository: protocol parsing and printing, HTTP and Twisted transports, the command line tool, SleepJobWithArray (the same splitter), and the Spark, HBase, Hive, Kafka, Impala and Pig scripts, which call libraries.
