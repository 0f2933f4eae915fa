/**
 * Schema resolution as a function on data, and the proof that decoding what was encoded
 * computes it (the "Schema Resolution" section of the Avro specification).
 */
module Resolution {
  import opened Basics
  import opened Varint
  import opened Schemas
  import opened Encoding
  import opened Decoding
  import opened Written

  /**
   * The datum a reader with schema r is meant to see when a writer with schema w wrote d;
   * None where the two schemas do not resolve for that datum.
   */
  function Resolve(p: Platform, dw: Defs, w: Schema, dr: Defs, r: Schema, d: Datum): Option<Datum>
    requires Validate(dw, w, d)
    decreases d != Null, d, 1, w, r
  {
    if !Match(dw, w, dr, r) then None
    else if !w.Union? && r.Union? then
      var i := FirstMatch(dw, w, dr, r.branches);
      if i == |r.branches| then None else Resolve(p, dw, w, dr, r.branches[i], d)
    else
      match w
      case Prim(prim) => Some(NormPrimitive(p, prim, d))
      case Array(items) => ResolveList(p, dw, items, dr, r.items, d)
      case Map(values) => ResolveDict(p, dw, values, dr, r.values, d)
      case Union(bs) => Resolve(p, dw, bs[LastValid(dw, bs, d)], dr, r, d)
      case Named(n) =>
        match dw[n]
        case Fixed(_) => Some(d)
        case Enum(_) => if d.s in dr[r.fullname].symbols then Some(d) else None
        case Record(_, wf) => ResolveFields(p, dw, n, dr, dr[r.fullname].fields, d)
  }

  /** A list resolves if all its items do. */
  function ResolveList(p: Platform, dw: Defs, w: Schema, dr: Defs, r: Schema, d: Datum): Option<Datum>
    requires Validate(dw, Array(w), d)
    decreases true, d, 0
  {
    if forall i :: 0 <= i < |d.items| ==> Resolve(p, dw, w, dr, r, d.items[i]).Some? then
      Some(List(seq(|d.items|, i requires 0 <= i < |d.items| => Resolve(p, dw, w, dr, r, d.items[i]).value)))
    else None
  }

  /** A dict resolves if all its values do. */
  function ResolveDict(p: Platform, dw: Defs, w: Schema, dr: Defs, r: Schema, d: Datum): Option<Datum>
    requires Validate(dw, Map(w), d)
    decreases true, d, 0, 1
  {
    Together(Outcomes(p, dw, w, dr, r, d))
  }

  function Outcomes(p: Platform, dw: Defs, w: Schema, dr: Defs, r: Schema, d: Datum): map<string, Option<Datum>>
    requires Validate(dw, Map(w), d)
    decreases true, d, 0, 0
  {
    map k | k in d.entries :: Resolve(p, dw, w, dr, r, d.entries[k])
  }

  /** All values together, if none is missing. */
  function Together(outcomes: map<string, Option<Datum>>): Option<Datum> {
    if forall k :: k in outcomes ==> outcomes[k].Some? then Some(Dict(map k | k in outcomes :: outcomes[k].value))
    else None
  }

  /** A record resolves if the fields that are read do, and the others have defaults that can be decoded. */
  function ResolveFields(p: Platform, dw: Defs, n: string, dr: Defs, rf: seq<Field>, d: Datum): Option<Datum>
    requires n in dw && dw[n].Record? && Validate(dw, Named(n), d)
    decreases true, d, 0
  {
    var wf := dw[n].fields;
    if && (forall i :: 0 <= i < |wf| && FindField(rf, wf[i].name).Some? ==>
             Resolve(p, dw, wf[i].ftype, dr, FindField(rf, wf[i].name).value.ftype, Get(d.entries, wf[i].name)).Some?)
       && (forall name :: name in FieldNames(rf) && FindField(wf, name).None? ==>
             Default(p, dr, FindField(rf, name).value).Success?)
    then
      Some(Dict(map name | name in FieldNames(rf) ::
        if FindField(wf, name).Some? then
          Resolve(p, dw, FindField(wf, name).value.ftype, dr, FindField(rf, name).value.ftype,
              Get(d.entries, name)).value
        else
          Default(p, dr, FindField(rf, name).value).value))
    else None
  }

  lemma ResolvedList(p: Platform, dw: Defs, w: Schema, dr: Defs, r: Schema, d: Datum, items: seq<Datum>)
    requires Validate(dw, Array(w), d) && |items| == |d.items|
    requires forall i :: 0 <= i < |items| ==> Resolve(p, dw, w, dr, r, d.items[i]) == Some(items[i])
    ensures ResolveList(p, dw, w, dr, r, d) == Some(List(items))
  {
    hide Resolve;
    assert ResolveList(p, dw, w, dr, r, d).value.items == items;
  }

  lemma ListIsResolved(p: Platform, dw: Defs, w: Schema, dr: Defs, r: Schema, d: Datum)
    requires Validate(dw, Array(w), d) && ResolveList(p, dw, w, dr, r, d).Some?
    ensures
      var v := ResolveList(p, dw, w, dr, r, d).value;
      && v.List? && |v.items| == |d.items|
      && forall i :: 0 <= i < |v.items| ==> Resolve(p, dw, w, dr, r, d.items[i]) == Some(v.items[i])
  {
    hide Resolve;
  }

  lemma ResolvedDict(p: Platform, dw: Defs, w: Schema, dr: Defs, r: Schema, d: Datum, m: map<string, Datum>)
    requires Validate(dw, Map(w), d) && m.Keys == d.entries.Keys
    requires forall k :: k in m ==> Resolve(p, dw, w, dr, r, d.entries[k]) == Some(m[k])
    ensures ResolveDict(p, dw, w, dr, r, d) == Some(Dict(m))
  {
    OutcomesAre(p, dw, w, dr, r, d);
    hide Resolve, Outcomes, Together;
    TogetherAll(Outcomes(p, dw, w, dr, r, d), m);
  }

  lemma TogetherAll(outcomes: map<string, Option<Datum>>, m: map<string, Datum>)
    requires m.Keys == outcomes.Keys && forall k :: k in m ==> outcomes[k] == Some(m[k])
    ensures Together(outcomes) == Some(Dict(m))
  {
    assert Together(outcomes).value.entries == m;
  }

  lemma DictIsResolved(p: Platform, dw: Defs, w: Schema, dr: Defs, r: Schema, d: Datum)
    requires Validate(dw, Map(w), d) && ResolveDict(p, dw, w, dr, r, d).Some?
    ensures
      var v := ResolveDict(p, dw, w, dr, r, d).value;
      && v.Dict? && v.entries.Keys == d.entries.Keys
      && forall k :: k in v.entries ==> Resolve(p, dw, w, dr, r, d.entries[k]) == Some(v.entries[k])
  {
    OutcomesAre(p, dw, w, dr, r, d);
    hide Resolve, Outcomes;
  }

  lemma OutcomesAre(p: Platform, dw: Defs, w: Schema, dr: Defs, r: Schema, d: Datum)
    requires Validate(dw, Map(w), d)
    ensures
      var m := Outcomes(p, dw, w, dr, r, d);
      m.Keys == d.entries.Keys && forall k :: k in m ==> m[k] == Resolve(p, dw, w, dr, r, d.entries[k])
  {
    hide Resolve;
  }

  /** The outcome of a parse agrees with the datum expected in front of the suffix, if any. */
  ghost predicate Agrees<T>(res: Parsed<T>, expected: Option<T>, suffix: seq<byte>) {
    match expected
    case Some(v) => res == Success((v, suffix))
    case None => res.Failure?
  }

  /** read_data on what write_data wrote fails exactly where resolution does, and else computes it. */
  lemma {:induction false} Fusion(p: Platform, dw: Defs, w: Schema, dr: Defs, r: Schema, d: Datum, suffix: seq<byte>)
    requires Sound(p) && Guarded(dw) && Validate(dw, w, d)
    ensures Agrees(Read(p, dw, w, dr, r, Write(p, dw, w, d) + suffix), Resolve(p, dw, w, dr, r, d), suffix)
    decreases d != Null, d, 1, w, r
  {
    hide Guarded, Sound, Match, FirstMatch, ReadBlock, WriteBlock, ReadFields, WriteFields, FillDefaults, Default;
    if !Match(dw, w, dr, r) {
    } else if !w.Union? && r.Union? {
      var i := FirstMatch(dw, w, dr, r.branches);
      if i < |r.branches| {
        Fusion(p, dw, w, dr, r.branches[i], d, suffix);
      }
    } else {
      if !w.Union? {
        MatchShape(dw, w, dr, r);
      }
      match w
      case Prim(prim) => PrimitiveRoundTrip(p, prim, d, suffix);
      case Array(items) => FuseArray(p, dw, items, dr, r.items, d, suffix);
      case Map(values) => FuseMap(p, dw, values, dr, r.values, d, suffix);
      case Union(bs) =>
        var i := LastValid(dw, bs, d);
        var tail := Write(p, dw, bs[i], d) + suffix;
        assert Write(p, dw, w, d) + suffix == Long(i) + tail;
        LongRoundTrip(i, tail);
        Fusion(p, dw, bs[i], dr, r, d, suffix);
      case Named(n) =>
        match dw[n]
        case Fixed(size) => TakeExact(d.data, suffix);
        case Enum(symbols) => LongRoundTrip(IndexOf(symbols, d.s), suffix);
        case Record(_, _) => FuseRecord(p, dw, n, dr, r.fullname, d, suffix);
    }
  }

  // Arrays and maps

  /** Entries i, i+1, ... of d resolved one after another, behind the ones already resolved. */
  ghost function ResolveItems(p: Platform, dw: Defs, w: Schema, dr: Defs, r: Schema, d: Datum, i: nat,
                              acc: seq<(string, Datum)>): Option<seq<(string, Datum)>>
    requires Sound(p) && ValidEntries(p, dw, w, d) && i <= Count(p, d)
    decreases Count(p, d) - i
  {
    if i == Count(p, d) then Some(acc)
    else
      var (key, value) := (KeyAt(p, d, i), ItemAt(p, d, i));
      match Resolve(p, dw, w, dr, r, value)
      case None => None
      case Some(v) => ResolveItems(p, dw, w, dr, r, d, i + 1, acc + [(key, v)])
  }

  /** Resolution takes the entries one by one. */
  lemma ResolveOne(p: Platform, dw: Defs, w: Schema, dr: Defs, r: Schema, d: Datum, i: nat, acc: seq<(string, Datum)>)
    requires Sound(p) && ValidEntries(p, dw, w, d) && i < Count(p, d)
    ensures
      ResolveItems(p, dw, w, dr, r, d, i, acc) ==
        match Resolve(p, dw, w, dr, r, ItemAt(p, d, i))
        case None => None
        case Some(v) => ResolveItems(p, dw, w, dr, r, d, i + 1, acc + [(KeyAt(p, d, i), v)])
  {
    hide Sound, Count, KeyAt, ItemAt, Validate, Resolve;
  }

  lemma ResolveNone(p: Platform, dw: Defs, w: Schema, dr: Defs, r: Schema, d: Datum, acc: seq<(string, Datum)>)
    requires Sound(p) && ValidEntries(p, dw, w, d)
    ensures ResolveItems(p, dw, w, dr, r, d, Count(p, d), acc) == Some(acc)
  {
    hide Sound, Count, Validate;
  }

  lemma StartsWith<T>(s: seq<T>, front: seq<T>, x: T)
    requires |s| > |front| && s[..|front| + 1] == front + [x]
    ensures s[|front|] == x && s[..|front|] == front
  {
    assert s[..|front| + 1][|front|] == x;
    assert s[..|front|] == s[..|front| + 1][..|front|];
  }

  lemma {:induction false} ResolveItemsMeaning(p: Platform, dw: Defs, w: Schema, dr: Defs, r: Schema, d: Datum, i: nat,
                                               acc: seq<(string, Datum)>)
    requires Sound(p) && ValidEntries(p, dw, w, d) && i == |acc| <= Count(p, d)
    ensures
      match ResolveItems(p, dw, w, dr, r, d, i, acc)
      case None => exists j :: i <= j < Count(p, d) && Resolve(p, dw, w, dr, r, ItemAt(p, d, j)).None?
      case Some(res) =>
        && |res| == Count(p, d) && res[..i] == acc
        && forall j :: i <= j < Count(p, d) ==>
             res[j].0 == KeyAt(p, d, j) && Resolve(p, dw, w, dr, r, ItemAt(p, d, j)) == Some(res[j].1)
    decreases Count(p, d) - i
  {
    hide Sound, Count, KeyAt, ItemAt, Resolve, ResolveItems, Validate;
    if i == Count(p, d) {
      ResolveNone(p, dw, w, dr, r, d, acc);
      assert acc[..i] == acc;
    } else {
      ResolveOne(p, dw, w, dr, r, d, i, acc);
      match Resolve(p, dw, w, dr, r, ItemAt(p, d, i))
      case None =>
      case Some(v) =>
        ResolveItemsMeaning(p, dw, w, dr, r, d, i + 1, acc + [(KeyAt(p, d, i), v)]);
        var rest := ResolveItems(p, dw, w, dr, r, d, i + 1, acc + [(KeyAt(p, d, i), v)]);
        if rest.Some? {
          StartsWith(rest.value, acc, (KeyAt(p, d, i), v));
        }
    }
  }

  lemma {:induction false} FuseItem(p: Platform, keyed: bool, dw: Defs, w: Schema, dr: Defs, r: Schema, key: string,
                                    d: Datum, tail: seq<byte>)
    requires Sound(p) && Guarded(dw) && (keyed || key == "") && Validate(dw, w, d)
    ensures
      var res := ReadItem(p, keyed, dw, w, dr, r, WriteKey(p, keyed, key) + (Write(p, dw, w, d) + tail));
      match Resolve(p, dw, w, dr, r, d)
      case Some(v) => res == Success(((key, v), tail))
      case None => res.Failure?
    decreases d != Null, d, 2, w, r
  {
    hide Guarded, Sound, Read, Write, Validate, Resolve, ReadKey, WriteKey;
    KeyRoundTrip(p, keyed, key, Write(p, dw, w, d) + tail);
    Fusion(p, dw, w, dr, r, d, tail);
  }

  lemma FuseEnd(p: Platform, keyed: bool, dw: Defs, w: Schema, dr: Defs, r: Schema, d: Datum, acc: seq<(string, Datum)>,
                suffix: seq<byte>)
    requires Sound(p) && Guarded(dw) && ValidEntries(p, dw, w, d)
    ensures ReadItems(p, keyed, dw, w, dr, r, 0, WriteItems(p, dw, w, d, Count(p, d)) + suffix, acc)
      == Success((acc, suffix))
  {
    hide Guarded, Sound, Count, KeyAt, ItemAt, Read, ReadItem, Write, Validate, ReadHead, Long;
    HeadRoundTrip(0, suffix);
  }

  lemma ReadOne(p: Platform, keyed: bool, dw: Defs, w: Schema, dr: Defs, r: Schema, n: nat, bs: seq<byte>,
                acc: seq<(string, Datum)>)
    requires Guarded(dw) && n > 0
    ensures
      var item := ReadItem(p, keyed, dw, w, dr, r, bs);
      ReadItems(p, keyed, dw, w, dr, r, n, bs, acc) ==
        if item.Failure? then Failure(item.error)
        else ReadItems(p, keyed, dw, w, dr, r, n - 1, item.value.1, acc + [item.value.0])
  {
    hide Guarded, ReadItem, ReadBlock;
  }

  lemma {:induction false} FuseItems(p: Platform, keyed: bool, dw: Defs, w: Schema, dr: Defs, r: Schema, d: Datum,
                                     i: nat, acc: seq<(string, Datum)>, bs: seq<byte>, suffix: seq<byte>)
    requires Sound(p) && Guarded(dw) && keyed == d.Dict? && ValidEntries(p, dw, w, d) && i <= Count(p, d)
    requires bs == WriteItems(p, dw, w, d, i) + suffix
    ensures Agrees(ReadItems(p, keyed, dw, w, dr, r, Count(p, d) - i, bs, acc),
                   ResolveItems(p, dw, w, dr, r, d, i, acc), suffix)
    decreases true, d, 0, Count(p, d) - i
  {
    hide Guarded, Sound, Count, KeyAt, ItemAt, ReadItem, ReadItems, ResolveItems, Write, WriteItems, WriteKey, Validate,
        Resolve;
    if i == Count(p, d) {
      FuseEnd(p, keyed, dw, w, dr, r, d, acc, suffix);
      ResolveNone(p, dw, w, dr, r, d, acc);
    } else {
      var (key, value) := (KeyAt(p, d, i), ItemAt(p, d, i));
      var tail := SplitItems(p, dw, w, d, i, suffix);
      FuseItem(p, keyed, dw, w, dr, r, key, value, tail);
      ReadOne(p, keyed, dw, w, dr, r, Count(p, d) - i, bs, acc);
      ResolveOne(p, dw, w, dr, r, d, i, acc);
      match Resolve(p, dw, w, dr, r, value)
      case None =>
      case Some(v) => FuseItems(p, keyed, dw, w, dr, r, d, i + 1, acc + [(key, v)], tail, suffix);
    }
  }

  lemma {:induction false} FuseBlock(p: Platform, keyed: bool, dw: Defs, w: Schema, dr: Defs, r: Schema, d: Datum,
                                     suffix: seq<byte>)
    requires Sound(p) && Guarded(dw) && keyed == d.Dict? && ValidEntries(p, dw, w, d)
    ensures Agrees(ReadBlock(p, keyed, dw, w, dr, r, WriteBlock(p, dw, w, d) + suffix, []),
                   ResolveItems(p, dw, w, dr, r, d, 0, []), suffix)
    decreases true, d, 0, Count(p, d) + 1
  {
    hide Guarded, Sound, Count, KeyAt, ItemAt, ReadItems, WriteItems, Validate, Resolve, ReadHead;
    var n := Count(p, d);
    HeadRoundTrip(0, suffix);
    if n > 0 {
      var tail := WriteItems(p, dw, w, d, 0) + suffix;
      assert WriteBlock(p, dw, w, d) + suffix == Long(n) + tail;
      HeadRoundTrip(n, tail);
      FuseItems(p, keyed, dw, w, dr, r, d, 0, [], tail, suffix);
    }
  }

  lemma {:induction false} FuseArray(p: Platform, dw: Defs, w: Schema, dr: Defs, r: Schema, d: Datum, suffix: seq<byte>)
    requires Sound(p) && Guarded(dw) && Validate(dw, Array(w), d) && Match(dw, Array(w), dr, Array(r))
    ensures Agrees(Read(p, dw, Array(w), dr, Array(r), Write(p, dw, Array(w), d) + suffix),
                   Resolve(p, dw, Array(w), dr, Array(r), d), suffix)
    decreases true, d, 0, Count(p, d) + 2
  {
    ItemsAreValid(p, dw, w, d);
    ResolveListMeaning(p, dw, w, dr, r, d);
    hide Guarded, Sound, Match, ReadBlock, WriteBlock, ResolveItems, ResolveList, Values, Count;
    FuseBlock(p, false, dw, w, dr, r, d, suffix);
  }

  /** A list resolves item by item. */
  lemma ResolveListMeaning(p: Platform, dw: Defs, w: Schema, dr: Defs, r: Schema, d: Datum)
    requires Sound(p) && Validate(dw, Array(w), d) && ValidEntries(p, dw, w, d)
    ensures
      ResolveList(p, dw, w, dr, r, d) ==
        match ResolveItems(p, dw, w, dr, r, d, 0, [])
        case None => None
        case Some(es) => Some(List(Values(es)))
  {
    hide Sound, ResolveItems, Resolve;
    ResolveItemsMeaning(p, dw, w, dr, r, d, 0, []);
    var res := ResolveItems(p, dw, w, dr, r, d, 0, []);
    if res.Some? {
      assert forall i :: 0 <= i < |d.items| ==> ItemAt(p, d, i) == d.items[i];
      assert Values(res.value) == ResolveList(p, dw, w, dr, r, d).value.items;
    }
  }

  lemma {:induction false} FuseMap(p: Platform, dw: Defs, w: Schema, dr: Defs, r: Schema, d: Datum, suffix: seq<byte>)
    requires Sound(p) && Guarded(dw) && Validate(dw, Map(w), d) && Match(dw, Map(w), dr, Map(r))
    ensures Agrees(Read(p, dw, Map(w), dr, Map(r), Write(p, dw, Map(w), d) + suffix),
                   Resolve(p, dw, Map(w), dr, Map(r), d), suffix)
    decreases true, d, 0, Count(p, d) + 2
  {
    ItemsAreValid(p, dw, w, d);
    ResolveMapMeaning(p, dw, w, dr, r, d);
    hide Guarded, Sound, Match, ReadBlock, WriteBlock, ResolveItems, ResolveDict, ToMap, Count;
    FuseBlock(p, true, dw, w, dr, r, d, suffix);
  }

  /** Values taken together in the order of their keys. */
  lemma TogetherInOrder(keys: seq<string>, outcomes: map<string, Option<Datum>>, es: Option<seq<(string, Datum)>>)
    requires Distinct(keys) && forall k :: k in keys <==> k in outcomes
    requires es.None? ==> exists i :: 0 <= i < |keys| && outcomes[keys[i]].None?
    requires es.Some? ==>
      && |es.value| == |keys|
      && forall i :: 0 <= i < |keys| ==> es.value[i].0 == keys[i] && outcomes[keys[i]] == Some(es.value[i].1)
    ensures Together(outcomes) == if es.None? then None else Some(Dict(ToMap(es.value)))
  {
    hide ToMap;
    if es.Some? {
      forall k | k in outcomes ensures outcomes[k].Some? {
        assert k in keys;
      }
      ToMapOfEntries(keys, es.value, map k | k in outcomes :: outcomes[k].value);
    } else {
      var i :| 0 <= i < |keys| && outcomes[keys[i]].None?;
      assert keys[i] in outcomes;
    }
  }

  /** A map resolves entry by entry, in whatever order. */
  lemma ResolveMapMeaning(p: Platform, dw: Defs, w: Schema, dr: Defs, r: Schema, d: Datum)
    requires Sound(p) && Validate(dw, Map(w), d) && ValidEntries(p, dw, w, d)
    ensures
      ResolveDict(p, dw, w, dr, r, d) ==
        match ResolveItems(p, dw, w, dr, r, d, 0, [])
        case None => None
        case Some(es) => Some(Dict(ToMap(es)))
  {
    var keys := p.keys(d.entries);
    assert Enumerates(keys, d.entries) && Count(p, d) == |keys|;
    assert forall i :: 0 <= i < |keys| ==> KeyAt(p, d, i) == keys[i] && ItemAt(p, d, i) == d.entries[keys[i]];
    var outcomes := Outcomes(p, dw, w, dr, r, d);
    OutcomesAre(p, dw, w, dr, r, d);
    hide Sound, ResolveItems, Resolve, Outcomes, Together, ToMap, ValidEntries, Count, KeyAt, ItemAt;
    ResolveItemsMeaning(p, dw, w, dr, r, d, 0, []);
    TogetherInOrder(keys, outcomes, ResolveItems(p, dw, w, dr, r, d, 0, []));
  }

  /** Storing the entries of a dict in any order rebuilds the dict. */
  lemma ToMapOfEntries(keys: seq<string>, es: seq<(string, Datum)>, m: map<string, Datum>)
    requires Enumerates(keys, m) && |es| == |keys|
    requires forall i :: 0 <= i < |es| ==> es[i].0 == keys[i] && es[i].1 == m[keys[i]]
    ensures ToMap(es) == m
  {
    hide ToMap;
    ToMapOfDistinct(es);
    forall k | k in m ensures k in ToMap(es) && ToMap(es)[k] == m[k] {
      assert k in keys;
      var i :| 0 <= i < |keys| && keys[i] == k;
      assert es[i].0 == k;
    }
  }

  lemma {:induction false} ToMapOfDistinct(es: seq<(string, Datum)>)
    requires forall i, j :: 0 <= i < j < |es| ==> es[i].0 != es[j].0
    ensures forall i :: 0 <= i < |es| ==> es[i].0 in ToMap(es) && ToMap(es)[es[i].0] == es[i].1
    ensures forall k :: k in ToMap(es) ==> exists i :: 0 <= i < |es| && es[i] == (k, ToMap(es)[k])
  {
    if es != [] {
      var init, last := es[..|es| - 1], es[|es| - 1];
      ToMapOfDistinct(init);
      assert ToMap(es) == ToMap(init)[last.0 := last.1];
      hide ToMap;
      assert forall i :: 0 <= i < |init| ==> es[i] == init[i];
      forall k | k in ToMap(es)
        ensures exists i :: 0 <= i < |es| && es[i] == (k, ToMap(es)[k])
      {
        if k == last.0 {
          assert es[|es| - 1] == (k, ToMap(es)[k]);
        } else {
          var i :| 0 <= i < |init| && init[i] == (k, ToMap(init)[k]);
          assert es[i] == init[i];
        }
      }
    }
  }

  // Records

  ghost predicate FieldResolves(p: Platform, dw: Defs, n: string, dr: Defs, rf: seq<Field>, d: Datum, i: nat)
    requires n in dw && dw[n].Record? && Validate(dw, Named(n), d) && i < |dw[n].fields|
  {
    var f := dw[n].fields[i];
    FindField(rf, f.name).Some? ==>
      Resolve(p, dw, f.ftype, dr, FindField(rf, f.name).value.ftype, Get(d.entries, f.name)).Some?
  }

  /** What the dict holds under a name once the given fields have been read. */
  ghost predicate FieldSoFar(p: Platform, dw: Defs, n: string, dr: Defs, rf: seq<Field>, d: Datum, done: seq<Field>,
                             acc: map<string, Datum>, name: string)
    requires n in dw && dw[n].Record? && Validate(dw, Named(n), d) && forall f :: f in done ==> f in dw[n].fields
  {
    var (f, r) := (FindField(done, name), FindField(rf, name));
    if f.None? || r.None? then name !in acc
    else
      assert f.value in dw[n].fields;
      name in acc && Resolve(p, dw, f.value.ftype, dr, r.value.ftype, Get(d.entries, name)) == Some(acc[name])
  }

  /** The dict read_record has built after the writer's first i fields. */
  ghost predicate ReadSoFar(p: Platform, dw: Defs, n: string, dr: Defs, rf: seq<Field>, d: Datum, i: nat,
                            acc: map<string, Datum>)
    requires n in dw && dw[n].Record? && Validate(dw, Named(n), d) && i <= |dw[n].fields|
  {
    forall name :: FieldSoFar(p, dw, n, dr, rf, d, dw[n].fields[..i], acc, name)
  }

  /** The dict after field i as well: a field the reader lacks leaves no trace. */
  ghost function WithField(p: Platform, dw: Defs, n: string, dr: Defs, rf: seq<Field>, d: Datum, i: nat,
                           acc: map<string, Datum>): map<string, Datum>
    requires n in dw && dw[n].Record? && Validate(dw, Named(n), d) && i < |dw[n].fields|
    requires FieldResolves(p, dw, n, dr, rf, d, i)
  {
    var f := dw[n].fields[i];
    match FindField(rf, f.name)
    case None => acc
    case Some(rfield) => acc[f.name := Resolve(p, dw, f.ftype, dr, rfield.ftype, Get(d.entries, f.name)).value]
  }

  lemma ReadSoFarStep(p: Platform, dw: Defs, n: string, dr: Defs, rf: seq<Field>, d: Datum, i: nat,
                      acc: map<string, Datum>)
    requires n in dw && dw[n].Record? && Validate(dw, Named(n), d) && i < |dw[n].fields|
    requires ReadSoFar(p, dw, n, dr, rf, d, i, acc) && FieldResolves(p, dw, n, dr, rf, d, i)
    ensures ReadSoFar(p, dw, n, dr, rf, d, i + 1, WithField(p, dw, n, dr, rf, d, i, acc))
  {
    hide Resolve, FindField;
    var done, f := dw[n].fields[..i], dw[n].fields[i];
    assert dw[n].fields[..i + 1] == done + [f];
    forall name
      ensures FieldSoFar(p, dw, n, dr, rf, d, done + [f], WithField(p, dw, n, dr, rf, d, i, acc), name)
    {
      assert FieldSoFar(p, dw, n, dr, rf, d, done, acc, name);
      FindSnoc(done, f, name);
    }
  }

  lemma FindSnoc(fs: seq<Field>, f: Field, name: string)
    ensures FindField(fs + [f], name) == if f.name == name then Some(f) else FindField(fs, name)
  {
    assert (fs + [f])[..|fs|] == fs;
  }

  /** Field i is read if it resolves, and the other fields follow. */
  lemma {:induction false} FuseField(p: Platform, dw: Defs, n: string, dr: Defs, rf: seq<Field>, d: Datum, i: nat,
                                     acc: map<string, Datum>, tail: seq<byte>)
    requires Sound(p) && Guarded(dw) && n in dw && dw[n].Record? && Validate(dw, Named(n), d) && i < |dw[n].fields|
    ensures
      var f := dw[n].fields[i];
      var res := ReadFields(p, dw, n, dr, rf, i, Write(p, dw, f.ftype, Get(d.entries, f.name)) + tail, acc);
      if FieldResolves(p, dw, n, dr, rf, d, i) then
        res == ReadFields(p, dw, n, dr, rf, i + 1, tail, WithField(p, dw, n, dr, rf, d, i, acc))
      else res.Failure?
    decreases true, d, 0, |dw[n].fields| - i, 0
  {
    hide Guarded, Sound, Read, Write, Skip, Resolve, FindField;
    var f := dw[n].fields[i];
    var value := Get(d.entries, f.name);
    match FindField(rf, f.name)
    case Some(rfield) => Fusion(p, dw, f.ftype, dr, rfield.ftype, value, tail);
    case None => SkipWrite(p, dw, f.ftype, value, tail);
  }

  lemma {:induction false} FuseFields(p: Platform, dw: Defs, n: string, dr: Defs, rf: seq<Field>, d: Datum, i: nat,
                                      acc: map<string, Datum>, suffix: seq<byte>)
    requires Sound(p) && Guarded(dw) && n in dw && dw[n].Record? && Validate(dw, Named(n), d)
    requires i <= |dw[n].fields| && ReadSoFar(p, dw, n, dr, rf, d, i, acc)
    ensures
      var res := ReadFields(p, dw, n, dr, rf, i, WriteFields(p, dw, n, d, i) + suffix, acc);
      if forall j :: i <= j < |dw[n].fields| ==> FieldResolves(p, dw, n, dr, rf, d, j) then
        && res.Success? && res.value.1 == suffix
        && ReadSoFar(p, dw, n, dr, rf, d, |dw[n].fields|, res.value.0)
      else res.Failure?
    decreases true, d, 0, |dw[n].fields| - i, 1
  {
    hide Guarded, Sound, ReadSoFar, Read, Write, Skip, Resolve, FieldResolves, WithField, FindField;
    var fields := dw[n].fields;
    if i == |fields| {
      assert [] + suffix == suffix;
    } else {
      var tail := WriteFields(p, dw, n, d, i + 1) + suffix;
      var head := Write(p, dw, fields[i].ftype, Get(d.entries, fields[i].name));
      assert WriteFields(p, dw, n, d, i) + suffix == head + tail;
      FuseField(p, dw, n, dr, rf, d, i, acc, tail);
      hide ReadFields, WriteFields;
      if FieldResolves(p, dw, n, dr, rf, d, i) {
        ReadSoFarStep(p, dw, n, dr, rf, d, i, acc);
        FuseFields(p, dw, n, dr, rf, d, i + 1, WithField(p, dw, n, dr, rf, d, i, acc), suffix);
      }
    }
  }

  ghost predicate DefaultFills(p: Platform, dr: Defs, wf: seq<Field>, rf: seq<Field>, name: string)
    requires FindField(rf, name).Some?
  {
    FindField(wf, name).None? ==> Default(p, dr, FindField(rf, name).value).Success?
  }

  /** The names of the reader's fields i, i+1, ... that the writer lacks. */
  ghost function Missing(wf: seq<Field>, rf: seq<Field>, i: nat): set<string>
    requires i <= |rf|
  {
    set f | f in rf[i..] && FindField(wf, f.name).None? :: f.name
  }

  lemma MissingStep(wf: seq<Field>, rf: seq<Field>, i: nat)
    requires i < |rf|
    ensures Missing(wf, rf, i) == Missing(wf, rf, i + 1) + if FindField(wf, rf[i].name).None? then {rf[i].name} else {}
  {
    hide FindField;
    assert rf[i..] == [rf[i]] + rf[i + 1..];
  }

  /** Defaults are stored for exactly the reader's fields that the writer lacks. */
  lemma {:induction false} FillDefaultsMeaning(p: Platform, dr: Defs, wf: seq<Field>, rf: seq<Field>, i: nat,
                                               acc: map<string, Datum>)
    requires i <= |rf|
    ensures
      var res := FillDefaults(p, dr, wf, rf, i, acc);
      if forall j :: i <= j < |rf| ==> DefaultFills(p, dr, wf, rf, rf[j].name) then
        && res.Success? && res.value.Keys == acc.Keys + Missing(wf, rf, i)
        && forall name :: name in res.value ==>
             if name in Missing(wf, rf, i) then
               FindField(rf, name).Some? && Default(p, dr, FindField(rf, name).value) == Success(res.value[name])
             else res.value[name] == acc[name]
      else res.Failure?
    decreases |rf| - i
  {
    hide Default, FindField, Missing;
    if i == |rf| {
      assert Missing(wf, rf, i) == {} by { NoneMissing(wf, rf); }
    } else {
      MissingStep(wf, rf, i);
      var name := rf[i].name;
      if FindField(wf, name).Some? {
        FillDefaultsMeaning(p, dr, wf, rf, i + 1, acc);
      } else {
        var d := Default(p, dr, FindField(rf, name).value);
        assert DefaultFills(p, dr, wf, rf, name) <==> d.Success?;
        if d.Success? {
          FillDefaultsMeaning(p, dr, wf, rf, i + 1, acc[name := d.value]);
        }
      }
    }
  }

  lemma NoneMissing(wf: seq<Field>, rf: seq<Field>)
    ensures Missing(wf, rf, |rf|) == {}
  {
  }

  ghost predicate AllFieldsResolve(p: Platform, dw: Defs, n: string, dr: Defs, rf: seq<Field>, d: Datum)
    requires n in dw && dw[n].Record? && Validate(dw, Named(n), d)
  {
    forall i :: 0 <= i < |dw[n].fields| ==> FieldResolves(p, dw, n, dr, rf, d, i)
  }

  ghost predicate AllFill(p: Platform, dr: Defs, wf: seq<Field>, rf: seq<Field>) {
    forall j :: 0 <= j < |rf| ==> DefaultFills(p, dr, wf, rf, rf[j].name)
  }

  lemma RecordResolves(p: Platform, dw: Defs, n: string, dr: Defs, rf: seq<Field>, d: Datum)
    requires n in dw && dw[n].Record? && Validate(dw, Named(n), d)
    requires AllFieldsResolve(p, dw, n, dr, rf, d) && AllFill(p, dr, dw[n].fields, rf)
    ensures ResolveFields(p, dw, n, dr, rf, d).Some?
  {
    hide Resolve, Default, FindField;
    var wf := dw[n].fields;
    forall name | name in FieldNames(rf) ensures FindField(rf, name).Some? && DefaultFills(p, dr, wf, rf, name) {
      var f :| f in rf && f.name == name;
    }
    forall i | 0 <= i < |wf| && FindField(rf, wf[i].name).Some?
      ensures Resolve(p, dw, wf[i].ftype, dr, FindField(rf, wf[i].name).value.ftype, Get(d.entries, wf[i].name)).Some?
    {
      assert FieldResolves(p, dw, n, dr, rf, d, i);
    }
  }

  /** The fields of a resolved record: what the writer has is resolved, the others are defaults. */
  ghost predicate HasFields(p: Platform, dw: Defs, n: string, dr: Defs, rf: seq<Field>, d: Datum, v: Datum)
    requires n in dw && dw[n].Record? && Validate(dw, Named(n), d)
  {
    && v.Dict? && v.entries.Keys == FieldNames(rf)
    && forall name :: name in v.entries ==>
         var f := FindField(dw[n].fields, name);
         if f.Some? then
           assert f.value in dw[n].fields;
           Resolve(p, dw, f.value.ftype, dr, FindField(rf, name).value.ftype, Get(d.entries, name))
             == Some(v.entries[name])
         else Default(p, dr, FindField(rf, name).value) == Success(v.entries[name])
  }

  lemma ResolvedFields(p: Platform, dw: Defs, n: string, dr: Defs, rf: seq<Field>, d: Datum)
    requires n in dw && dw[n].Record? && Validate(dw, Named(n), d) && ResolveFields(p, dw, n, dr, rf, d).Some?
    ensures AllFieldsResolve(p, dw, n, dr, rf, d) && AllFill(p, dr, dw[n].fields, rf)
    ensures HasFields(p, dw, n, dr, rf, d, ResolveFields(p, dw, n, dr, rf, d).value)
  {
    hide Resolve, Default, FindField;
    forall j | 0 <= j < |rf| ensures rf[j].name in FieldNames(rf) {
      assert rf[j] in rf;
    }
  }

  /** The definition of Resolve at a record. */
  lemma ResolveRecord(p: Platform, dw: Defs, n: string, dr: Defs, rn: string, d: Datum)
    requires n in dw && dw[n].Record? && rn in dr && dr[rn].Record?
    requires Validate(dw, Named(n), d) && Match(dw, Named(n), dr, Named(rn))
    ensures
      var (wf, rf) := (dw[n].fields, dr[rn].fields);
      match Resolve(p, dw, Named(n), dr, Named(rn), d)
      case None => !AllFieldsResolve(p, dw, n, dr, rf, d) || !AllFill(p, dr, wf, rf)
      case Some(v) =>
        && AllFieldsResolve(p, dw, n, dr, rf, d) && AllFill(p, dr, wf, rf)
        && HasFields(p, dw, n, dr, rf, d, v)
  {
    hide Match, Default, FindField, ResolveFields, AllFieldsResolve, AllFill, HasFields, Validate;
    var wf, rf := dw[n].fields, dr[rn].fields;
    var v := ResolveFields(p, dw, n, dr, rf, d);
    assert Resolve(p, dw, Named(n), dr, Named(rn), d) == v;
    hide Resolve;
    if v.Some? {
      ResolvedFields(p, dw, n, dr, rf, d);
    } else if AllFieldsResolve(p, dw, n, dr, rf, d) && AllFill(p, dr, wf, rf) {
      RecordResolves(p, dw, n, dr, rf, d);
    }
  }

  lemma {:induction false} FuseRecord(p: Platform, dw: Defs, n: string, dr: Defs, rn: string, d: Datum,
                                      suffix: seq<byte>)
    requires Sound(p) && Guarded(dw) && n in dw && dw[n].Record? && rn in dr && dr[rn].Record?
    requires Validate(dw, Named(n), d) && Match(dw, Named(n), dr, Named(rn))
    ensures Agrees(Read(p, dw, Named(n), dr, Named(rn), Write(p, dw, Named(n), d) + suffix),
                   Resolve(p, dw, Named(n), dr, Named(rn), d), suffix)
    decreases true, d, 0, |dw[n].fields| + 1
  {
    hide Guarded, Sound, ReadFields, WriteFields, FillDefaults, Match, Default, FindField, Resolve;
    var wf, rf := dw[n].fields, dr[rn].fields;
    FuseFields(p, dw, n, dr, rf, d, 0, map[], suffix);
    ResolveRecord(p, dw, n, dr, rn, d);
    var res := ReadFields(p, dw, n, dr, rf, 0, WriteFields(p, dw, n, d, 0) + suffix, map[]);
    if res.Success? {
      FillDefaultsMeaning(p, dr, wf, rf, 0, res.value.0);
      var expected := Resolve(p, dw, Named(n), dr, Named(rn), d);
      if expected.Some? {
        RecordsAgree(p, dw, n, dr, rn, d, res.value.0, FillDefaults(p, dr, wf, rf, 0, res.value.0).value,
            expected.value.entries);
      }
    }
  }

  /** The dict read from the writer's fields and completed with defaults is the resolved one. */
  lemma RecordsAgree(p: Platform, dw: Defs, n: string, dr: Defs, rn: string, d: Datum, read: map<string, Datum>,
                     filled: map<string, Datum>, expected: map<string, Datum>)
    requires n in dw && dw[n].Record? && rn in dr && dr[rn].Record? && Validate(dw, Named(n), d)
    requires ReadSoFar(p, dw, n, dr, dr[rn].fields, d, |dw[n].fields|, read)
    requires
      var (wf, rf) := (dw[n].fields, dr[rn].fields);
      && filled.Keys == read.Keys + Missing(wf, rf, 0)
      && forall name :: name in filled ==>
           if name in Missing(wf, rf, 0) then
             FindField(rf, name).Some? && Default(p, dr, FindField(rf, name).value) == Success(filled[name])
           else filled[name] == read[name]
    requires HasFields(p, dw, n, dr, dr[rn].fields, d, Dict(expected))
    ensures filled == expected
  {
    hide Default, FindField, Resolve, Missing, FieldNames, Validate;
    var wf, rf := dw[n].fields, dr[rn].fields;
    assert wf[..|wf|] == wf;
    forall name ensures name in filled <==> name in expected
      ensures name in filled && name in expected ==> filled[name] == expected[name]
    {
      assert FieldSoFar(p, dw, n, dr, rf, d, wf, read, name);
      IsMissing(wf, rf, name);
    }
  }

  lemma IsMissing(wf: seq<Field>, rf: seq<Field>, name: string)
    ensures name in Missing(wf, rf, 0) <==> FindField(rf, name).Some? && FindField(wf, name).None?
    ensures name in FieldNames(rf) <==> FindField(rf, name).Some?
  {
    hide FindField;
    assert rf[0..] == rf;
    if name in FieldNames(rf) {
      var f :| f in rf && f.name == name;
    }
  }
}
