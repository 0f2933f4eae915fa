/** Where DataFileWriter ends its blocks (avro/devices/avro/datafile.py: append, sync, flush). */
module Buffering {
  import opened Basics
  import opened Schemas
  import opened Encoding
  import opened ContainerFormat

  function Size(p: Platform, lay: Layout, ds: seq<Datum>): nat
    requires Sound(p) && AllValid(lay, ds)
  {
    |Encodings(p, lay, ds)|
  }

  /** How often a caller asked for the block to be ended. */
  function Cuts(calls: seq<Call>): nat {
    if calls == [] then 0 else Cuts(calls[..|calls| - 1]) + if calls[|calls| - 1].Append? then 0 else 1
  }

  lemma OneMoreIsLarger(p: Platform, lay: Layout, ds: seq<Datum>, d: Datum)
    requires Sound(p) && AllValid(lay, ds) && Validate(lay.defs, lay.schema, d)
    ensures AllValid(lay, ds + [d])
    ensures Size(p, lay, ds + [d]) == Size(p, lay, ds) + |Write(p, lay.defs, lay.schema, d)|
  {
    EncodingsSnoc(p, lay, ds, d);
  }

  /**
   * An accepted datum stays in the buffer, and the file as it is, exactly until the buffer has reached
   * SYNC_INTERVAL.
   */
  lemma AppendBuffers(lib: Library, lay: Layout, log: Log, d: Datum)
    requires Sound(lib.p) && AllValid(lay, log.pending) && Validate(lay.defs, lay.schema, d)
    ensures AllValid(lay, log.pending + [d])
    ensures
      var pending := log.pending + [d];
      Step(lib, lay, log, Append(d)) ==
        if Size(lib.p, lay, pending) < SYNC_INTERVAL then Log(log.blocks, pending) else Log(log.blocks + [pending], [])
  {
    EncodingsSnoc(lib.p, lay, log.pending, d);
    hide Encodings, Validate, Sound;
  }

  // The number of blocks

  /** What the blocks are worth: SYNC_INTERVAL bytes of data or a call that asked for one. */
  ghost predicate Paid(lib: Library, lay: Layout, calls: seq<Call>, log: Log)
    requires Sound(lib.p) && AllValid(lay, log.pending)
  {
    var accepted := Accepted(lay, calls);
    && AllValid(lay, accepted)
    && SYNC_INTERVAL * |log.blocks| + Size(lib.p, lay, log.pending)
      <= SYNC_INTERVAL * Cuts(calls) + Size(lib.p, lay, accepted)
  }

  lemma OneBlockMore(n: nat)
    ensures SYNC_INTERVAL * (n + 1) == SYNC_INTERVAL * n + SYNC_INTERVAL
  {
  }

  lemma LastCall(lay: Layout, init: seq<Call>, call: Call)
    ensures Cuts(init + [call]) == Cuts(init) + if call.Append? then 0 else 1
    ensures Accepted(lay, init + [call]) == Accepted(lay, init)
        + if call.Append? && Validate(lay.defs, lay.schema, call.d) then [call.d] else []
  {
    var calls := init + [call];
    assert calls[..|calls| - 1] == init && calls[|calls| - 1] == call;
    assert Accepted(lay, init) + [] == Accepted(lay, init);
    hide Validate;
  }

  lemma StepPays(lib: Library, lay: Layout, init: seq<Call>, call: Call, log: Log)
    requires Sound(lib.p) && ValidLog(lib, lay, log) && Paid(lib, lay, init, log)
    ensures AllValid(lay, Step(lib, lay, log, call).pending)
    ensures Paid(lib, lay, init + [call], Step(lib, lay, log, call))
  {
    StepIsValid(lib, lay, log, call);
    hide ValidBlocks, Encodings, Validate, Sound, Write, Step;
    LastCall(lay, init, call);
    OneBlockMore(|log.blocks|);
    OneBlockMore(Cuts(init));
    if call.Append? && Validate(lay.defs, lay.schema, call.d) {
      OneMoreIsLarger(lib.p, lay, log.pending, call.d);
      OneMoreIsLarger(lib.p, lay, Accepted(lay, init), call.d);
      AppendBuffers(lib, lay, log, call.d);
      NothingPending(lib.p, lay);
      hide Size, Accepted, Cuts, AllValid;
    } else {
      assert Accepted(lay, init) + [] == Accepted(lay, init);
      OtherCalls(lib, lay, log, call);
      NothingPending(lib.p, lay);
      hide Size, Accepted, Cuts, AllValid;
    }
  }

  lemma NothingPending(p: Platform, lay: Layout)
    requires Sound(p)
    ensures AllValid(lay, []) && Size(p, lay, []) == 0
  {
  }

  lemma OtherCalls(lib: Library, lay: Layout, log: Log, call: Call)
    requires Sound(lib.p) && AllValid(lay, log.pending)
    requires !call.Append? || !Validate(lay.defs, lay.schema, call.d)
    ensures Step(lib, lay, log, call) == if call.Append? then log else Cut(log)
  {
    hide Validate;
  }

  lemma {:induction false} RunPays(lib: Library, lay: Layout, calls: seq<Call>)
    requires Sound(lib.p)
    ensures Paid(lib, lay, calls, Run(lib, lay, calls))
  {
    hide Sound, Step;
    if calls != [] {
      var init, last := calls[..|calls| - 1], calls[|calls| - 1];
      RunPays(lib, lay, init);
      StepPays(lib, lay, init, last, Run(lib, lay, init));
      assert init + [last] == calls;
      hide Paid;
    }
  }

  /**
   * After any calls the file has at most one block for each SYNC_INTERVAL bytes of data and each call
   * that asks for one.
   */
  lemma BlocksAreFew(lib: Library, lay: Layout, calls: seq<Call>)
    requires Sound(lib.p)
    ensures AllValid(lay, Accepted(lay, calls))
    ensures |Run(lib, lay, calls).blocks| <= Cuts(calls) + Size(lib.p, lay, Accepted(lay, calls)) / SYNC_INTERVAL
  {
    RunPays(lib, lay, calls);
    hide Run, Accepted, Cuts, Sound, Size, AllValid;
    var log := Run(lib, lay, calls);
    Affordable(|log.blocks|, Size(lib.p, lay, log.pending), Cuts(calls), Size(lib.p, lay, Accepted(lay, calls)));
  }

  lemma Affordable(blocks: nat, pending: nat, cuts: nat, accepted: nat)
    requires SYNC_INTERVAL * blocks + pending <= SYNC_INTERVAL * cuts + accepted
    ensures blocks <= cuts + accepted / SYNC_INTERVAL
  {
  }

  // The size of blocks

  /** Without its last datum the block is shorter than SYNC_INTERVAL; a full one is not with it. */
  ghost predicate Greedy(lib: Library, lay: Layout, block: seq<Datum>, full: bool)
    requires Sound(lib.p)
  {
    && block != [] && AllValid(lay, block) && Size(lib.p, lay, block[..|block| - 1]) < SYNC_INTERVAL
    && (full ==> Size(lib.p, lay, block) >= SYNC_INTERVAL)
  }

  /** A buffer within bounds makes a block within bounds. */
  lemma PendingIsGreedy(lib: Library, lay: Layout, pending: seq<Datum>)
    requires Sound(lib.p) && pending != [] && AllValid(lay, pending) && Size(lib.p, lay, pending) < SYNC_INTERVAL
    ensures Greedy(lib, lay, pending, false)
  {
    var init, last := pending[..|pending| - 1], pending[|pending| - 1];
    assert init + [last] == pending;
    OneMoreIsLarger(lib.p, lay, init, last);
    hide Encodings, Size, Validate, Sound, Write;
  }

  ghost predicate AllGreedy(lib: Library, lay: Layout, blocks: seq<seq<Datum>>, full: bool)
    requires Sound(lib.p)
  {
    forall i :: 0 <= i < |blocks| ==> Greedy(lib, lay, blocks[i], full)
  }

  lemma StepIsGreedy(lib: Library, lay: Layout, log: Log, call: Call, full: bool)
    requires Sound(lib.p) && ValidLog(lib, lay, log) && AllGreedy(lib, lay, log.blocks, full) && (full ==> call.Append?)
    ensures AllGreedy(lib, lay, Step(lib, lay, log, call).blocks, full)
  {
    if call.Append? {
      if Validate(lay.defs, lay.schema, call.d) {
        AppendBuffers(lib, lay, log, call.d);
        assert (log.pending + [call.d])[..|log.pending|] == log.pending;
        hide Step, Encodings, Validate, Sound;
      }
    } else if log.pending != [] {
      hide Encodings, Validate, Sound;
      PendingIsGreedy(lib, lay, log.pending);
    }
  }

  /**
   * After any calls no block could have ended sooner for its size. With nothing but appends every
   * block has reached SYNC_INTERVAL, so it is the shortest run of data that does.
   */
  lemma {:induction false} BlocksAreGreedy(lib: Library, lay: Layout, calls: seq<Call>)
    requires Sound(lib.p)
    ensures AllGreedy(lib, lay, Run(lib, lay, calls).blocks, Cuts(calls) == 0)
  {
    hide Sound, Step, AllGreedy, ValidLog;
    if calls == [] {
      NoBlocks(lib, lay, true);
    } else {
      var init, last := calls[..|calls| - 1], calls[|calls| - 1];
      BlocksAreGreedy(lib, lay, init);
      LessGreedy(lib, lay, Run(lib, lay, init).blocks);
      StepIsGreedy(lib, lay, Run(lib, lay, init), last, Cuts(calls) == 0);
    }
  }

  lemma NoBlocks(lib: Library, lay: Layout, full: bool)
    requires Sound(lib.p)
    ensures AllGreedy(lib, lay, [], full)
  {
  }

  lemma LessGreedy(lib: Library, lay: Layout, blocks: seq<seq<Datum>>)
    requires Sound(lib.p)
    ensures AllGreedy(lib, lay, blocks, true) ==> AllGreedy(lib, lay, blocks, false)
  {
  }
}
