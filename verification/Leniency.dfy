/**
 * What the readers make of input that no writer following the specification sends
 * (avro/devices/avro/io.py and datafile.py).
 */
module Leniency {
  import opened Basics
  import opened Varint
  import opened Schemas
  import opened Encoding
  import opened Decoding
  import opened Execution
  import C = ContainerFormat
  import I = ContainerIteration

  /** An index is a position from the front, or if it is negative from the end; beyond both ends reading fails. */
  lemma BranchByIndex(branches: seq<Schema>, i: int, suffix: seq<byte>)
    ensures
      var res := ReadBranch(branches, Long(i) + suffix);
      if 0 <= i < |branches| then res == Success((branches[i], suffix))
      else if -|branches| <= i < 0 then res == Success((branches[|branches| + i], suffix))
      else res == Failure(if i < 0 then IndexError else SchemaResolution)
  {
    LongRoundTrip(i, suffix);
    hide Long, ReadLong;
  }

  lemma SymbolByIndex(written: seq<string>, wanted: seq<string>, i: int, suffix: seq<byte>)
    ensures
      var res := ReadSymbol(written, wanted, Long(i) + suffix);
      if -|written| <= i < |written| then
        var symbol := written[if i < 0 then |written| + i else i];
        res == if symbol in wanted then Success((Text(symbol), suffix)) else Failure(SchemaResolution)
      else res == Failure(if i < 0 then IndexError else SchemaResolution)
  {
    LongRoundTrip(i, suffix);
    hide Long, ReadLong;
  }

  /** A length that is negative or too large yields whatever is left. */
  lemma BytesByLength(n: int, data: seq<byte>)
    ensures
      ReadBytes(Long(n) + data) == if 0 <= n <= |data| then Success((data[..n], data[n..])) else Success((data, []))
  {
    LongRoundTrip(n, data);
    hide Long, ReadLong;
    assert data[..|data|] == data && data[|data|..] == [];
  }

  /** Of the bytes of a boolean only 1 is true. */
  lemma BooleanByByte(p: Platform, b: byte, suffix: seq<byte>)
    ensures ReadPrimitive(p, PBoolean, [b] + suffix) == Success((Bool(b == 1), suffix))
  {
    TakeExact([b], suffix);
  }

  lemma SizedHead(count: int, size: int, rest: seq<byte>)
    requires count > 0
    ensures ReadHead(Long(-count) + (Long(size) + rest)) == Success((Head(count, Some(size)), rest))
    ensures ReadHead(Long(count) + rest) == Success((Head(count, None), rest))
  {
    LongRoundTrip(-count, Long(size) + rest);
    LongRoundTrip(size, rest);
    LongRoundTrip(count, rest);
    hide Long, ReadLong;
  }

  /** What a block says of its size makes no difference to reading, true or not: it is read by its count. */
  lemma SizeIsIgnored(p: Platform, keyed: bool, dw: Defs, w: Schema, dr: Defs, r: Schema, count: int, size: int,
                      rest: seq<byte>, acc: seq<(string, Datum)>)
    requires Guarded(dw) && count > 0
    ensures ReadBlock(p, keyed, dw, w, dr, r, Long(-count) + (Long(size) + rest), acc)
      == ReadBlock(p, keyed, dw, w, dr, r, Long(count) + rest, acc)
  {
    SizedHead(count, size, rest);
    hide Guarded, Long, ReadHead, ReadItems;
  }

  /** Skipping goes by the size and not by the count. */
  lemma CountIsIgnored(keyed: bool, dw: Defs, w: Schema, count: int, block: seq<byte>, rest: seq<byte>)
    requires Guarded(dw) && count > 0
    ensures SkipBlock(keyed, dw, w, Long(-count) + (Long(|block|) + (block + rest))) == SkipBlock(keyed, dw, w, rest)
  {
    SizedHead(count, |block|, block + rest);
    TakeExact(block, rest);
    var bs := Long(-count) + (Long(|block|) + (block + rest));
    assert |block + rest| < |bs|;
    hide Guarded, Long, ReadHead, SkipItems, Take;
  }

  /** A skipped string of any length: a move to before the start is refused in a file and ends there in memory. */
  lemma SkipByLength(st: Stream, before: seq<byte>, n: int, rest: seq<byte>)
    requires st.data == before + (Long(n) + rest)
    ensures
      var target := |before| + |Long(n)| + n;
      SkipBytesAt(st, |before|) ==
        if target < 0 then if st.inMemory then Success(0) else Failure(NegativeSeek)
        else Success(if target > |st.data| then |st.data| else target)
  {
    assert Tail(st, |before|) == Long(n) + rest;
    LongRoundTrip(n, rest);
    hide Long, ReadLong;
  }

  /** Without compression a block is read by its count, whatever length it declares. */
  lemma LengthIsIgnored(rd: I.Reader, cur: I.Cursor, count: int, length: int, rest: seq<byte>)
    requires I.Placed(cur) && rd.lay.codec == C.NULL_CODEC && I.Rest(cur) == Long(count) + (Long(length) + rest)
    ensures I.ReadBlockHeader(rd, cur) == Success(cur.(pos := |cur.file| - |rest|, count := count))
  {
    LongRoundTrip(count, Long(length) + rest);
    LongIsSkipped(length, rest);
    hide Long, ReadLong, SkipLong;
  }

  lemma LongIsSkipped(n: int, rest: seq<byte>)
    ensures SkipLong(Long(n) + rest) == Success(rest)
  {
    DigitsRoundTrip(ZigZag(n), rest);
    assert Long(n) == Digits(ZigZag(n));
    hide ReadDigits, Digits, ZigZag;
  }

  /** With compression a block that cannot be inflated is refused. */
  lemma CorruptBlockIsRefused(rd: I.Reader, cur: I.Cursor, count: int, data: seq<byte>, rest: seq<byte>)
    requires I.Placed(cur) && rd.lay.codec != C.NULL_CODEC
    requires I.Rest(cur) == Long(count) + (Long(|data|) + (data + rest))
    ensures
      I.ReadBlockHeader(rd, cur) ==
        match rd.lib.inflate(data)
        case None => Failure(BadBlock)
        case Some(block) => Success(cur.(pos := |cur.file| - |rest|, count := count, block := block, at := 0))
  {
    LongRoundTrip(count, Long(|data|) + (data + rest));
    LongRoundTrip(|data|, data + rest);
    TakeExact(data, rest);
    hide Long, ReadLong, Take;
  }
}
