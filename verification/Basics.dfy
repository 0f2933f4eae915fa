/** Vocabulary shared by every module: bytes, failures, and Python's built-in helpers. */
module Basics {
  type byte = x: int | 0 <= x < 256

  datatype Option<+T> = None | Some(value: T)

  /** The exceptions the library raises, one constructor for each cause. */
  datatype Error =
    | EndOfInput         // ord('') on an exhausted stream
    | BadText            // the bytes are not UTF-8
    | IndexError         // a list index beyond both ends
    | NegativeSeek       // IOError: a seek to before the start of a file
    | BackwardSkip       // not an exception: a skip by a negative size, see Execution
    | EndlessSkip        // not an exception: a block skipped back to its own head, for ever
    | OutOfSteps         // not an exception: the steps granted were not enough
    | SchemaResolution   // SchemaResolutionException
    | AvroType           // AvroTypeException
    | CannotPack         // struct.error or OverflowError: a number too large for its width
    | UnknownType        // AvroException("Unknown type")
    | BadDefault         // a JSON default of the wrong shape
    | RecursionLimit     // the interpreter's stack is exhausted
    | NotADataFile       // the magic number is wrong
    | MissingMeta        // the header lacks an entry
    | UnknownCodec       // DataFileException
    | BadBlock           // the codec rejects a block
    | ConnectionClosed   // ConnectionClosedException
    | ShortHeader        // struct.error on a truncated length
    | HandshakeFailure   // AvroException('Handshake failure.')
    | SchemaParse        // SchemaParseException
    | InvalidCount       // IOException on a negative count
    | DivisionByZero     // ArithmeticException

  datatype Result<+T> = Success(value: T) | Failure(error: Error) {
    predicate IsFailure() { Failure? }

    function PropagateFailure<U>(): Result<U>
      requires Failure?
    {
      Failure(error)
    }

    function Extract(): T
      requires Success?
    {
      value
    }
  }

  /** A parsed value together with the bytes that follow it. */
  type Parsed<+T> = Result<(T, seq<byte>)>

  /** `reader.read(n)`: at most n bytes; everything that is left when n is negative. */
  function Take(n: int, bs: seq<byte>): (r: (seq<byte>, seq<byte>))
    ensures r.0 + r.1 == bs
    ensures 0 <= n <= |bs| ==> |r.0| == n
  {
    var m := if n < 0 || n > |bs| then |bs| else n;
    (bs[..m], bs[m..])
  }

  lemma TakeExact(a: seq<byte>, b: seq<byte>)
    ensures Take(|a|, a + b) == (a, b)
  {
    assert (a + b)[..|a|] == a && (a + b)[|a|..] == b;
  }

  /** `reader.seek(reader.tell() + n)` for a forward move, stopping at the end of the data; see Execution for others. */
  function Drop(n: int, bs: seq<byte>): (r: Result<seq<byte>>)
    ensures r.Success? ==> |r.value| <= |bs|
  {
    if n < 0 then Failure(BackwardSkip)
    else Success(Take(n, bs).1)
  }

  /** `list[i]`: a negative index counts from the end. */
  function At<T>(s: seq<T>, i: int): (r: Result<T>)
    ensures 0 <= i < |s| ==> r == Success(s[i])
    ensures r.Success? ==> r.value in s
  {
    if 0 <= i < |s| then Success(s[i])
    else if -|s| <= i < 0 then Success(s[|s| + i])
    else Failure(IndexError)
  }

  /** `list.index(x)`: the first position of x. */
  function IndexOf<T(==)>(s: seq<T>, x: T): (i: nat)
    requires x in s
    ensures i < |s| && s[i] == x && x !in s[..i]
  {
    if s[0] == x then 0 else 1 + IndexOf(s[1..], x)
  }

  predicate Distinct<T(==)>(s: seq<T>) {
    forall i, j :: 0 <= i < j < |s| ==> s[i] != s[j]
  }
}
