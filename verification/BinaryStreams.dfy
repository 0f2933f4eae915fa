/** The leaf encoder and decoder as objects over a stream (avro/devices/avro/io.py). */
module BinaryStreams {
  import opened Basics
  import opened Varint
  import opened Schemas
  import opened Encoding
  import opened Decoding
  import opened Execution

  /** A method that follows a parse: same value and cursor, or the same exception. */
  ghost predicate Follows<T>(res: Result<T>, rest: seq<byte>, spec: Parsed<T>) {
    match spec
    case Success((v, rest')) => res == Success(v) && rest == rest'
    case Failure(e) => res == Failure(e)
  }

  function Pow2(k: nat): (p: nat)
    ensures p > 0
  {
    if k == 0 then 1 else 2 * Pow2(k - 1)
  }

  /** x << k */
  function ShiftLeft(x: nat, k: nat): nat {
    Pow2(k) * x
  }

  lemma Pow2Plus7(k: nat)
    ensures Pow2(k + 7) == 128 * Pow2(k)
  {
    assert Pow2(k + 2) == 4 * Pow2(k);
    assert Pow2(k + 4) == 4 * Pow2(k + 2);
    assert Pow2(k + 6) == 4 * Pow2(k + 4);
  }

  class BinaryEncoder {
    var written: seq<byte>

    constructor ()
      ensures written == []
    {
      written := [];
    }

    method Write(data: seq<byte>)
      modifies this
      ensures written == old(written) + data
    {
      written := written + data;
    }

    /** `truncate(0)` */
    method Truncate()
      modifies this
      ensures written == []
    {
      written := [];
    }

    method WriteBoolean(b: bool)
      modifies this
      ensures written == old(written) + [if b then 1 else 0]
    {
      if b {
        Write([1]);
      } else {
        Write([0]);
      }
    }

    /** Zig-zag by shift and exclusive or, then seven bits at a time. */
    method WriteLong(n: int)
      requires LONG_MIN <= n <= LONG_MAX
      modifies this
      ensures written == old(written) + Long(n)
    {
      var sign := n / 0x8000_0000_0000_0000;                        // n >> 63: all zeros or all ones
      var datum := if sign == 0 then 2 * n else -(2 * n) - 1;       // (n << 1) ^ sign
      assert datum == ZigZag(n);
      while datum >= 128                                            // datum & ~0x7F != 0
        invariant 0 <= datum
        invariant written + Digits(datum) == old(written) + Long(n)
        decreases datum
      {
        var before := written;
        Write([datum % 128 + 128]);
        assert written + Digits(datum / 128) == before + Digits(datum);
        datum := datum / 128;
      }
      Write([datum]);
    }

    method WriteBytes(data: seq<byte>)
      requires |data| <= LONG_MAX
      modifies this
      ensures written == old(written) + Encoding.WriteBytes(data)
    {
      WriteLong(|data|);
      Write(data);
    }
  }

  class BinaryDecoder {
    const data: seq<byte>
    const inMemory: bool          // over a StringIO, not a file
    var pos: nat

    function Input(): Stream {
      Stream(data, inMemory)
    }

    ghost predicate Valid()
      reads this
    {
      pos <= |data|
    }

    /** The bytes still to be read. */
    ghost function Rest(): seq<byte>
      requires Valid()
      reads this
    {
      data[pos..]
    }

    constructor (bytes: seq<byte>, memory: bool)
      ensures Valid() && Rest() == bytes && data == bytes && inMemory == memory && pos == 0
    {
      data, inMemory, pos := bytes, memory, 0;
      new;
      assert data[0..] == data;
    }

    method Read(n: int) returns (bs: seq<byte>)
      requires Valid()
      modifies this
      ensures Valid() && (bs, Rest()) == Take(n, old(Rest())) && pos == old(pos) + |bs|
    {
      var m := if n < 0 || n > |data| - pos then |data| - pos else n;
      bs := data[pos..pos + m];
      pos := pos + m;
      assert old(Rest())[..m] == bs && old(Rest())[m..] == Rest();
    }

    /** `seek(-n, 1)` */
    method SeekBack(n: nat) returns (res: Result<()>)
      requires Valid()
      modifies this
      ensures Valid() && (res.Success? <==> n <= old(pos))
      ensures res.Success? ==> pos == old(pos) - n
      ensures res.Failure? ==> res.error == NegativeSeek && pos == old(pos)
    {
      if n > pos {
        return Failure(NegativeSeek);
      }
      pos := pos - n;
      return Success(());
    }

    /** `ord(self.read(1))` */
    method ReadByte() returns (res: Result<byte>)
      requires Valid()
      modifies this
      ensures Valid()
      ensures old(Rest()) == [] ==> res == Failure(EndOfInput)
      ensures old(Rest()) != [] ==> res == Success(old(Rest())[0]) && Rest() == old(Rest())[1..]
    {
      var bs := Read(1);
      if bs == [] {
        return Failure(EndOfInput);
      }
      return Success(bs[0]);
    }

    /** n holds `shift` bits, so the or of a digit shifted by `shift` is an addition. */
    method ReadLong() returns (res: Result<int>)
      requires Valid()
      modifies this
      ensures Valid() && Follows(res, Rest(), Varint.ReadLong(old(Rest())))
      ensures Ran(res, After(Input(), Varint.ReadLong(Tail(Input(), old(pos)))))
    {
      ghost var start := old(Rest());
      var b :- ReadByte();
      var n: nat := b % 128;
      var shift := 7;
      assert Pow2(7) == 128 by { Pow2Plus7(0); }
      FirstDigit(start);
      hide Pow2, ShiftLeft, ReadDigits, MoreDigits, UnZigZag;
      while b >= 128                                                // (b & 0x80) != 0
        invariant Valid() && n < Pow2(shift)
        invariant ReadDigits(start) == if b < 128 then Success((n, Rest())) else MoreDigits(n, Pow2(shift), Rest())
        decreases b >= 128, |data| - pos
      {
        NextDigitAt(n, shift, Rest());
        b :- ReadByte();
        n := n + ShiftLeft(b % 128, shift);                         // n |= (b & 0x7F) << shift
        shift := shift + 7;
      }
      return Success(UnZigZag(n));                                  // (n >> 1) ^ -(n & 1)
    }

    /** The digits in bs continue a number whose lower digits, all below weight w, are n. */
    static ghost function MoreDigits(n: nat, w: nat, bs: seq<byte>): Parsed<nat> {
      var (z, rest) :- ReadDigits(bs);
      Success((n + w * z, rest))
    }

    static lemma FirstDigit(bs: seq<byte>)
      requires bs != []
      ensures ReadDigits(bs) == if bs[0] < 128 then Success((bs[0], bs[1..])) else MoreDigits(bs[0] % 128, 128, bs[1..])
    {
    }

    static lemma NextDigit(n: nat, w: nat, bs: seq<byte>)
      ensures bs == [] ==> MoreDigits(n, w, bs) == Failure(EndOfInput)
      ensures bs != [] ==>
        MoreDigits(n, w, bs) ==
          if bs[0] < 128 then Success((n + w * (bs[0] % 128), bs[1..]))
          else MoreDigits(n + w * (bs[0] % 128), 128 * w, bs[1..])
      ensures bs != [] && n < w ==> n + w * (bs[0] % 128) < 128 * w
    {
      if bs != [] {
        var digit := bs[0] % 128;
        assert w * digit <= w * 127;
        if bs[0] >= 128 && ReadDigits(bs[1..]).Success? {
          var z := ReadDigits(bs[1..]).value.0;
          assert w * (digit + 128 * z) == w * digit + 128 * w * z;
        }
      }
    }

    static lemma NextDigitAt(n: nat, shift: nat, bs: seq<byte>)
      requires n < Pow2(shift)
      ensures bs == [] ==> MoreDigits(n, Pow2(shift), bs) == Failure(EndOfInput)
      ensures bs != [] ==>
        var n' := n + ShiftLeft(bs[0] % 128, shift);
        && n' < Pow2(shift + 7)
        && MoreDigits(n, Pow2(shift), bs) ==
             if bs[0] < 128 then Success((n', bs[1..])) else MoreDigits(n', Pow2(shift + 7), bs[1..])
    {
      Pow2Plus7(shift);
      NextDigit(n, Pow2(shift), bs);
    }

    method ReadBytes() returns (res: Result<seq<byte>>)
      requires Valid()
      modifies this
      ensures Valid() && Follows(res, Rest(), Decoding.ReadBytes(old(Rest())))
    {
      var n :- ReadLong();
      var bs := Read(n);
      return Success(bs);
    }

    method ReadUtf8(p: Platform) returns (res: Result<string>)
      requires Valid()
      modifies this
      ensures Valid() && Follows(res, Rest(), ReadText(p, old(Rest())))
      ensures Ran(res, After(Input(), ReadText(p, Tail(Input(), old(pos)))))
    {
      var bs :- ReadBytes();
      match p.decodeText(bs)
      case Some(s) => return Success(s);
      case None => return Failure(BadText);
    }

    /** n bytes one by one, as read_float and read_double take them. */
    method ReadBits(n: nat) returns (res: Result<seq<byte>>)
      requires Valid()
      modifies this
      ensures Valid() && Follows(res, Rest(), ReadExactly(n, old(Rest())))
    {
      ghost var start := Rest();
      var bs: seq<byte> := [];
      while |bs| < n
        invariant Valid() && |bs| <= n && |bs| <= |start| && bs == start[..|bs|] && Rest() == start[|bs|..]
      {
        var b :- ReadByte();
        bs := bs + [b];
      }
      return Success(bs);
    }

    method ReadLeaf(p: Platform, prim: Primitive) returns (res: Result<Datum>)
      requires Valid()
      modifies this
      ensures Valid() && Follows(res, Rest(), ReadPrimitive(p, prim, old(Rest())))
      ensures Ran(res, After(Input(), ReadPrimitive(p, prim, Tail(Input(), old(pos)))))
    {
      match prim
      case PNull => return Success(Null);
      case PBoolean =>
        var b :- ReadBits(1);
        return Success(Bool(b[0] == 1));
      case PString =>
        var s :- ReadUtf8(p);
        return Success(Text(s));
      case PBytes =>
        var bs :- ReadBytes();
        return Success(Bytes(bs));
      case PInt =>
        var n :- ReadLong();
        return Success(Int(n));
      case PLong =>
        var n :- ReadLong();
        return Success(Int(n));
      case PFloat =>
        var bs :- ReadBits(4);
        return Success(Float(p.unpackFloat(bs)));
      case PDouble =>
        var bs :- ReadBits(8);
        return Success(Float(p.unpackDouble(bs)));
    }

    /** The method did what the run did: same value and cursor, or the same exception. */
    ghost predicate Ran<T>(res: Result<T>, run: Result<(T, nat)>)
      reads this
    {
      match run
      case Failure(e) => res == Failure(e)
      case Success((v, pos')) => res == Success(v) && pos == pos'
    }

    /** Like Ran, for methods that only move the cursor. */
    ghost predicate Moved(res: Result<()>, run: Result<nat>)
      reads this
    {
      match run
      case Failure(e) => res == Failure(e)
      case Success(pos') => res == Success(()) && pos == pos'
    }

    /** A method that follows a parse leaves the cursor where the parse leaves off. */
    lemma FollowedIsRan<T>(res: Result<T>, spec: Parsed<T>)
      requires Valid() && Follows(res, Rest(), spec) && (spec.Success? ==> |spec.value.1| <= |data|)
      ensures Ran(res, After(Input(), spec))
    {
    }

    /** `seek(tell() + n)`, forwards or backwards */
    method Skip(n: int) returns (res: Result<()>)
      requires Valid()
      modifies this
      ensures Valid() && Moved(res, Seek(Input(), old(pos), n))
    {
      if pos + n < 0 {
        if !inMemory {
          return Failure(NegativeSeek);
        }
        pos := 0;
        return Success(());
      }
      pos := if pos + n > |data| then |data| else pos + n;
      return Success(());
    }

    method SkipLong() returns (res: Result<()>)
      requires Valid()
      modifies this
      ensures Valid() && Moved(res, SkipLongAt(Input(), old(pos)))
    {
      ghost var start := Rest();
      var b :- ReadByte();
      while b >= 128
        invariant Valid()
        invariant b < 128 ==> Decoding.SkipLong(start) == Success(Rest())
        invariant b >= 128 ==> Decoding.SkipLong(start) == Decoding.SkipLong(Rest())
        decreases b >= 128, |data| - pos
      {
        b :- ReadByte();
      }
      return Success(());
    }

    method SkipBytes() returns (res: Result<()>)
      requires Valid()
      modifies this
      ensures Valid() && Moved(res, SkipBytesAt(Input(), old(pos)))
    {
      var n :- ReadLong();
      res := Skip(n);
    }

    method SkipLeaf(prim: Primitive) returns (res: Result<()>)
      requires Valid()
      modifies this
      ensures Valid() && Moved(res, SkipPrimitiveAt(prim, Input(), old(pos)))
    {
      match prim
      case PNull => return Success(());
      case PBoolean => res := Skip(1);
      case PString => res := SkipBytes();
      case PBytes => res := SkipBytes();
      case PInt => res := SkipLong();
      case PLong => res := SkipLong();
      case PFloat => res := Skip(4);
      case PDouble => res := Skip(8);
    }
  }
}
