/**
 * How the sleep job spreads keys over records and reducers (mr/yarn_containers/SleepJob.java).
 * Java's int is 32 bits wide: arithmetic wraps around, and division truncates toward zero.
 */
module SleepJob {
  import opened Basics

  const INT32_MAX := 0x7FFF_FFFF

  predicate Fits(x: int) {
    -INT32_MAX - 1 <= x <= INT32_MAX
  }

  function Wrap(x: int): (r: int)
    ensures Fits(r)
    ensures Fits(x) ==> r == x
  {
    (x + INT32_MAX + 1) % 0x1_0000_0000 - INT32_MAX - 1
  }

  function JavaDiv(a: int, b: int): int
    requires b > 0
  {
    if a >= 0 then a / b else -(-a / b)
  }

  function JavaRem(a: int, b: int): int
    requires b > 0
  {
    a - JavaDiv(a, b) * b
  }

  /** How many keys record i is to emit. */
  function Share(total: int, count: int, i: int): int
    requires count > 0
  {
    JavaDiv(total, count) + if JavaRem(total, count) > i then 1 else 0
  }

  /** How many keys the records before i emit. */
  function Before(total: int, count: int, i: nat): int
    requires count > 0
  {
    if i == 0 then 0 else Before(total, count, i - 1) + Share(total, count, i - 1)
  }

  lemma {:induction false} BeforeIs(total: nat, count: int, i: nat)
    requires count > 0
    ensures Before(total, count, i) == i * (total / count) + if i < total % count then i else total % count
  {
    if i > 0 {
      BeforeIs(total, count, i - 1);
      assert i * (total / count) == (i - 1) * (total / count) + total / count;
    }
  }

  lemma Division(total: nat, count: int)
    requires count > 0
    ensures 0 <= total / count <= total && 0 <= total % count < count
    ensures count * (total / count) + total % count == total
  {
    var q := total / count;
    assert count * q >= q by { Grow(1, count, q); }
  }

  lemma Grow(a: int, b: int, q: int)
    requires a <= b && q >= 0
    ensures a * q <= b * q
  {
    assert (b - a) * q >= 0;
  }

  /** The records together emit everything, and each as many keys as any other, give or take one. */
  lemma SharesAddUp(total: nat, count: int, i: nat)
    requires count > 0 && i <= count
    ensures Before(total, count, count) == total
    ensures 0 <= Before(total, count, i) <= total
    ensures i < count ==> total / count <= Share(total, count, i) <= total / count + 1
  {
    BeforeIs(total, count, count);
    BeforeIs(total, count, i);
    Division(total, count);
    Grow(i, count, total / count);
    Grow(0, i, total / count);
  }

  /** A total that has wrapped around makes every share negative or zero. */
  lemma {:induction false} NegativeShares(total: int, count: int, i: nat)
    requires count > 0 && total < 0
    ensures Share(total, count, i) == -(-total / count) <= 0
    ensures Before(total, count, i) == -(i * (-total / count))
    ensures i <= count ==> total <= Before(total, count, i) <= 0
  {
    var q := -total / count;
    Division(-total, count);
    if i > 0 {
      NegativeShares(total, count, i - 1);
      assert i * q == (i - 1) * q + q;
    }
    if i <= count {
      Grow(i, count, q);
      Grow(0, i, q);
    }
  }

  lemma SharesFit(total: int, count: int, i: nat)
    requires count > 0 && i <= count && Fits(total)
    ensures Fits(Before(total, count, i))
    ensures if total < 0 then Before(total, count, i) <= 0 else Before(total, count, i) >= 0
    ensures total >= 0 ==> Before(total, count, count) == total
    ensures total < 0 ==> Before(total, count, count) <= 0
  {
    if total < 0 {
      NegativeShares(total, count, i);
      NegativeShares(total, count, count);
    } else {
      SharesAddUp(total, count, i);
    }
  }

  /** The share of a record that there is. */
  lemma ShareFits(total: int, count: int, i: nat)
    requires count > 0 && i < count && Fits(total)
    ensures Fits(Share(total, count, i))
    ensures if total < 0 then Share(total, count, i) <= 0 else Share(total, count, i) >= 0
  {
    if total < 0 {
      NegativeShares(total, count, i);
      Division(-total, count);
    } else {
      Division(total, count);
      SharesAddUp(total, count, i);
      SharesAddUp(total, count, i + 1);
    }
  }

  /** 0, 1, ..., n - 1 */
  function Upto(n: nat): (s: seq<int>)
    ensures |s| == n && forall i :: 0 <= i < n ==> s[i] == i
  {
    seq(n, i => i)
  }

  lemma ShareStep(total: int, count: int, i: nat)
    requires count > 0 && i < count && Fits(total)
    ensures Before(total, count, i + 1) == Before(total, count, i) + Share(total, count, i)
    ensures Fits(Before(total, count, i)) && Fits(Before(total, count, i + 1)) && Fits(Share(total, count, i))
    ensures (Before(total, count, i) >= 0 && Share(total, count, i) >= 0)
        || (Before(total, count, i) <= 0 && Share(total, count, i) <= 0)
  {
    SharesFit(total, count, i);
    SharesFit(total, count, i + 1);
    ShareFits(total, count, i);
  }

  function Positive(x: int): nat {
    if x > 0 then x else 0
  }

  lemma NextKeys(start: seq<int>, before: int, share: int)
    requires (before >= 0 && share >= 0) || (before <= 0 && share <= 0)
    ensures start + Upto(Positive(before)) + seq(Positive(share), i => before + i) ==
      start + Upto(Positive(before + share))
  {
  }

  class OutputCollector {
    var keys: seq<int>

    constructor ()
      ensures keys == []
    {
      keys := [];
    }

    method Collect(key: int)
      modifies this
      ensures keys == old(keys) + [key]
    {
      keys := keys + [key];
    }
  }

  class RecordReader {
    const count: int
    const emitPerMapTask: int
    var records: int
    var emitCount: int

    constructor (mapCount: int, total: int)
      ensures count == mapCount && emitPerMapTask == total && records == 0 && emitCount == 0
    {
      count, emitPerMapTask, records, emitCount := mapCount, total, 0, 0;
    }

    /** The next record, its first key and the number of its keys; without records, a division by zero. */
    method Next() returns (res: Result<(bool, int, int)>)
      requires count >= 0
      modifies this
      ensures count == 0 ==> res == Failure(DivisionByZero) && records == old(records) && emitCount == old(emitCount)
      ensures count > 0 ==>
        var emit := Wrap(Share(emitPerMapTask, count, old(records)));
        && res == Success((old(records) < count, old(emitCount), emit))
        && records == Wrap(old(records) + 1) && emitCount == Wrap(old(emitCount) + emit)
    {
      var key := emitCount;
      if count == 0 {
        return Failure(DivisionByZero);
      }
      var emit := Wrap(JavaDiv(emitPerMapTask, count));
      if JavaRem(emitPerMapTask, count) > records {
        emit := Wrap(emit + 1);
      }
      WrapTwice(JavaDiv(emitPerMapTask, count));
      emitCount := Wrap(emitCount + emit);
      var more := records < count;
      records := Wrap(records + 1);
      return Success((more, key, emit));
    }

    lemma WrapTwice(x: int)
      ensures Wrap(Wrap(x) + 1) == Wrap(x + 1)
    {
    }
  }

  /** `getRecordReader` */
  method GetRecordReader(count: int, redcount: int, numReduce: int) returns (res: Result<RecordReader>)
    ensures
      if count < 0 || redcount < 0 then res == Failure(InvalidCount)
      else
        && res.Success? && fresh(res.value) && res.value.count == count
        && res.value.emitPerMapTask == Wrap(redcount * numReduce)
        && res.value.records == 0 && res.value.emitCount == 0
  {
    if count < 0 {
      return Failure(InvalidCount);
    }
    if redcount < 0 {
      return Failure(InvalidCount);
    }
    var reader := new RecordReader(count, Wrap(redcount * numReduce));
    return Success(reader);
  }

  /** `map` */
  method Map(key: int, value: int, output: OutputCollector)
    requires Fits(key + value)
    modifies output
    ensures output.keys == old(output.keys) + seq(Positive(value), i => key + i)
  {
    var i := 0;
    while i < value
      invariant 0 <= i <= Positive(value)
      invariant output.keys == old(output.keys) + seq(i, j => key + j)
    {
      output.Collect(key + i);
      i := i + 1;
    }
  }

  /** `getPartition`, for the keys that are emitted */
  function GetPartition(key: nat, numReduce: int): (p: int)
    requires numReduce > 0
    ensures 0 <= p < numReduce
  {
    key % numReduce
  }

  /** The keys a reducer gets, in the order in which they were emitted. */
  function KeysOf(keys: seq<int>, numReduce: int, reducer: int): seq<int>
    requires numReduce > 0 && forall i :: 0 <= i < |keys| ==> keys[i] >= 0
  {
    if keys == [] then []
    else
      var n := |keys| - 1;
      KeysOf(keys[..n], numReduce, reducer) + if GetPartition(keys[n], numReduce) == reducer then [keys[n]] else []
  }

  /** Prefixes can be cancelled, and two initial stretches of the numbers are equal if they are equally long. */
  lemma SameKeys(start: seq<int>, a: nat, b: nat)
    ensures start + Upto(a) == start + Upto(b) <==> a == b
  {
    assert |start + Upto(a)| == |start| + a && |start + Upto(b)| == |start| + b;
  }

  /**
   * One map task: the records of the reader, mapped until there are no more. It emits
   * redcount keys for each reducer exactly if their number fits into an int.
   */
  method RunMapTask(count: int, redcount: int, numReduce: nat, output: OutputCollector) returns (res: Result<()>)
    requires Fits(count)
    modifies output
    ensures count < 0 || redcount < 0 ==> res == Failure(InvalidCount)
    ensures count == 0 && redcount >= 0 ==> res == Failure(DivisionByZero)
    ensures res.Failure? ==> output.keys == old(output.keys)
    ensures count > 0 && redcount >= 0 ==>
      res.Success? && output.keys == old(output.keys) + Upto(Positive(Wrap(redcount * numReduce)))
    ensures count > 0 && redcount >= 0 ==>
      && redcount * numReduce >= 0
      && (output.keys == old(output.keys) + Upto(redcount * numReduce) <==> redcount * numReduce <= INT32_MAX)
  {
    if redcount >= 0 {
      Grow(0, redcount, numReduce);
      SameKeys(output.keys, Positive(Wrap(redcount * numReduce)), redcount * numReduce);
    }
    var reader :- GetRecordReader(count, redcount, numReduce);
    var first :- reader.Next();
    var more, key, value := first.0, first.1, first.2;
    ghost var total := reader.emitPerMapTask;
    ghost var i := 0;
    assert output.keys + Upto(0) == output.keys;
    SharesFit(total, count, 0);
    ShareFits(total, count, 0);
    ShareStep(total, count, 0);
    hide Share, Before, Wrap, Upto;
    while more
      invariant 0 <= i <= count && more == (i < count)
      invariant reader.count == count && reader.emitPerMapTask == total && Fits(Before(total, count, i))
      invariant more ==> reader.records == i + 1
      invariant more ==> key == Before(total, count, i) && value == Share(total, count, i)
      invariant more ==> reader.emitCount == Before(total, count, i + 1)
      invariant output.keys == old(output.keys) + Upto(Positive(Before(total, count, i)))
      decreases count - i
    {
      ghost var keys := output.keys;
      ShareStep(total, count, i);
      if i + 1 < count {
        ShareStep(total, count, i + 1);
      }
      Map(key, value, output);
      NextKeys(old(output.keys), Before(total, count, i), value);
      i := i + 1;
      var next := reader.Next();
      more, key, value := next.value.0, next.value.1, next.value.2;
    }
    SharesFit(total, count, count);
    return Success(());
  }

  /** 65536 keys for each of 65536 reducers: the product wraps around to zero, and no key is emitted. */
  method RunOverflowingMapTask(count: int, output: OutputCollector) returns (res: Result<()>)
    requires Fits(count) && count > 0
    modifies output
    ensures res.Success? && output.keys == old(output.keys)
  {
    assert Wrap(65536 * 65536) == 0;
    assert output.keys + Upto(0) == output.keys;
    res := RunMapTask(count, 65536, 65536, output);
  }

  /** The reducer's own number, and every numReduce-th key after it: redcount of them. */
  function Strided(redcount: nat, numReduce: nat, reducer: nat): (s: seq<int>)
    ensures |s| == redcount
  {
    seq(redcount, i => i * numReduce + reducer)
  }

  lemma StridedIsDistinct(redcount: nat, numReduce: nat, reducer: nat)
    requires numReduce > 0
    ensures Distinct(Strided(redcount, numReduce, reducer))
  {
    var s := Strided(redcount, numReduce, reducer);
    forall i, j | 0 <= i < j < |s| ensures s[i] != s[j] {
      Grow(i + 1, j, numReduce);
    }
  }

  /** Within one round of numReduce keys, the reducer gets its own. */
  lemma {:induction false} OneRound(done: nat, numReduce: nat, reducer: nat, k: nat)
    requires reducer < numReduce && k <= numReduce
    ensures KeysOf(Upto(done * numReduce + k), numReduce, reducer)
         == KeysOf(Upto(done * numReduce), numReduce, reducer)
             + if reducer < k then [done * numReduce + reducer] else []
  {
    var start := done * numReduce;
    if k > 0 {
      OneRound(done, numReduce, reducer, k - 1);
      var keys := Upto(start + k);
      assert keys[..start + k - 1] == Upto(start + (k - 1));
      PartitionInRound(done, numReduce, k - 1);
    }
  }

  lemma PartitionInRound(done: nat, numReduce: nat, k: nat)
    requires k < numReduce
    ensures GetPartition(done * numReduce + k, numReduce) == k
  {
    var n := done * numReduce + k;
    Division(n, numReduce);
    var q := n / numReduce;
    if q < done {
      Grow(q + 1, done, numReduce);
    } else if q > done {
      Grow(done + 1, q, numReduce);
    }
  }

  /** Every reducer gets redcount different keys of each map task, and they are the same share for all. */
  lemma {:induction false} EqualShares(redcount: nat, numReduce: nat, reducer: nat)
    requires reducer < numReduce
    ensures KeysOf(Upto(redcount * numReduce), numReduce, reducer) == Strided(redcount, numReduce, reducer)
  {
    if redcount > 0 {
      EqualShares(redcount - 1, numReduce, reducer);
      OneRound(redcount - 1, numReduce, reducer, numReduce);
      assert redcount * numReduce == (redcount - 1) * numReduce + numReduce;
      assert Strided(redcount, numReduce, reducer) == Strided(redcount - 1, numReduce, reducer)
          + [(redcount - 1) * numReduce + reducer];
    }
  }
}
