/** Iterating over a container file as a run of so many steps, skips that move back included. */
module ContainerExecution {
  import opened Basics
  import opened Schemas
  import opened Encoding
  import opened Decoding
  import opened Execution
  import opened SkipRefinement
  import opened ReadRefinement
  import opened ContainerFormat
  import opened ContainerIteration

  /** One datum, read in k steps. */
  function ReadDatumAt(rd: Reader, cur: Cursor, k: nat): (res: Result<(Item, Cursor)>)
    requires Placed(cur)
    ensures res.Success? ==> Placed(res.value.1)
  {
    var (d, pos) :- ReadAt(rd.lib.p, rd.lay.defs, rd.lay.schema, rd.dr, rd.r, Source(rd, cur), Place(rd, cur), k);
    Success((Next(d), Delivered(rd, cur, pos)))
  }

  /** `next` */
  function NextItemAt(rd: Reader, cur: Cursor, k: nat): (res: Result<(Item, Cursor)>)
    requires Placed(cur)
    ensures res.Success? ==> Placed(res.value.1)
  {
    var (more, cur') :- Advance(rd, cur);
    if more then ReadDatumAt(rd, cur', k) else Success((Stop, cur'))
  }

  /** The outcome of calling `next` n times, each call granted k steps. */
  function ItemsAt(rd: Reader, cur: Cursor, n: nat, k: nat): Result<seq<Item>>
    requires Placed(cur)
    decreases n
  {
    if n == 0 then Success([])
    else
      var (item, cur') :- NextItemAt(rd, cur, k);
      var items :- ItemsAt(rd, cur', n - 1, k);
      Success([item] + items)
  }

  lemma SameIsAfter<T>(st: Stream, spec: Parsed<T>, run: Result<(T, nat)>)
    requires Same(st, spec, run) && (spec.Success? ==> |spec.value.1| <= |st.data|)
    ensures run == After(st, spec)
  {
  }

  /** A run either lacks steps or ends as the description says; e steps are enough. */
  ghost predicate Settles<T>(spec: Result<T>, run: Result<T>, enough: bool) {
    run == spec || (!enough && run == Failure(OutOfSteps))
  }

  lemma ReadDatumRuns(rd: Reader, cur: Cursor) returns (e: nat)
    requires Guarded(rd.lay.defs) && Placed(cur) && MovesOn(ReadDatum(rd, cur))
    ensures forall k: nat :: Settles(ReadDatum(rd, cur), ReadDatumAt(rd, cur, k), k >= e)
  {
    hide Guarded, Read, ReadAt;
    var p, lay, st, pos := rd.lib.p, rd.lay, Source(rd, cur), Place(rd, cur);
    var spec := Read(p, lay.defs, lay.schema, rd.dr, rd.r, Tail(st, pos));
    e := ReadRefines(p, lay.defs, lay.schema, rd.dr, rd.r, st, pos);
    forall k: nat ensures Settles(ReadDatum(rd, cur), ReadDatumAt(rd, cur, k), k >= e) {
      var run := ReadAt(p, lay.defs, lay.schema, rd.dr, rd.r, st, pos, k);
      assert Agrees(st, spec, run, k >= e);
      if run != Failure(OutOfSteps) || k >= e {
        SameIsAfter(st, spec, run);
      }
    }
  }

  lemma NextItemRuns(rd: Reader, cur: Cursor) returns (e: nat)
    requires Guarded(rd.lay.defs) && Placed(cur) && MovesOn(NextItem(rd, cur))
    ensures forall k: nat :: Settles(NextItem(rd, cur), NextItemAt(rd, cur, k), k >= e)
  {
    hide Guarded, ReadDatum, ReadDatumAt, Advance;
    var start := Advance(rd, cur);
    e := 0;
    if start.Success? && start.value.0 {
      e := ReadDatumRuns(rd, start.value.1);
    }
  }

  /** What iteration delivers by its description, the program delivers in finitely many steps. */
  lemma {:induction false} ItemsRun(rd: Reader, cur: Cursor, n: nat) returns (e: nat)
    requires Guarded(rd.lay.defs) && Placed(cur) && Items(rd, cur, n).Success?
    ensures forall k: nat :: k >= e ==> ItemsAt(rd, cur, n, k) == Items(rd, cur, n)
    decreases n
  {
    hide Guarded, NextItem, NextItemAt;
    e := 0;
    if n > 0 {
      var cur' := NextItem(rd, cur).value.1;
      var first := NextItemRuns(rd, cur);
      var others := ItemsRun(rd, cur', n - 1);
      e := first + others;
      forall k: nat | k >= e ensures ItemsAt(rd, cur, n, k) == Items(rd, cur, n) {
        assert Settles(NextItem(rd, cur), NextItemAt(rd, cur, k), k >= first);
        assert ItemsAt(rd, cur', n - 1, k) == Items(rd, cur', n - 1);
      }
    }
  }
}
