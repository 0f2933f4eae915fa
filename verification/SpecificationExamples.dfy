/** The examples of the "Binary Encoding" section of the Avro specification, and a whole block of a container file. */
module SpecificationExamples {
  import opened Basics
  import opened Varint
  import opened Schemas
  import opened Encoding
  import C = ContainerFormat
  import opened HandshakeWire
  import H = Handshake

  const TEST_FIELDS := [Field("a", Prim(PLong), None), Field("b", Prim(PString), None)]
  const TEST_DEFS: Defs := map["test" := Record(KRecord, TEST_FIELDS)]

  /** The fields in declared order, nothing between them; a string is its length and its bytes. */
  lemma RecordExample(p: Platform, d: Datum)
    requires Sound(p) && p.encodeText("foo") == [0x66, 0x6f, 0x6f]
    requires d == Dict(map["a" := Int(27), "b" := Text("foo")])
    ensures Validate(TEST_DEFS, Named("test"), d)
    ensures Write(p, TEST_DEFS, Named("test"), d) == [0x36, 0x06, 0x66, 0x6f, 0x6f]
  {
    hide Sound;
    var defs := TEST_DEFS;
    assert TEST_FIELDS[0].name == "a" && TEST_FIELDS[1].name == "b";
    assert Validate(defs, Prim(PLong), Int(27)) && Validate(defs, Prim(PString), Text("foo"));
    assert Validate(defs, Named("test"), d);
    assert WriteFields(p, defs, "test", d, 2) == [];
    assert Write(p, defs, Prim(PString), Text("foo")) == [0x06] + [0x66, 0x6f, 0x6f];
    assert WriteFields(p, defs, "test", d, 1) == Write(p, defs, Prim(PString), Text("foo")) + [];
    assert Write(p, defs, Prim(PLong), Int(27)) == [0x36];
    assert WriteFields(p, defs, "test", d, 0) == [0x36] + WriteFields(p, defs, "test", d, 1);
  }

  /** One block: a count, the items, and a zero count. */
  lemma ArrayExample(p: Platform, defs: Defs, d: Datum)
    requires Sound(p) && d == List([Int(3), Int(27)])
    ensures Validate(defs, Array(Prim(PLong)), d)
    ensures Write(p, defs, Array(Prim(PLong)), d) == [0x04, 0x06, 0x36, 0x00]
  {
    hide Sound;
    var s := Prim(PLong);
    assert Count(p, d) == 2 && ItemAt(p, d, 0) == Int(3) && ItemAt(p, d, 1) == Int(27);
    assert ValidEntries(p, defs, s, d);
    assert WriteItems(p, defs, s, d, 2) == [0x00];
    assert Write(p, defs, s, Int(27)) == [0x36] && Write(p, defs, s, Int(3)) == [0x06];
    assert WriteItems(p, defs, s, d, 1) == [] + ([0x36] + [0x00]);
    assert WriteItems(p, defs, s, d, 0) == [] + ([0x06] + ([0x36] + [0x00]));
    assert WriteBlock(p, defs, s, d) == [0x04] + WriteItems(p, defs, s, d, 0);
  }

  /** The position of the branch, and then the datum. */
  lemma UnionExample(p: Platform, defs: Defs)
    requires Sound(p) && p.encodeText("a") == [0x61]
    ensures
      var s := Union([Prim(PString), Prim(PNull)]);
      && Validate(defs, s, Null) && Write(p, defs, s, Null) == [0x02]
      && Validate(defs, s, Text("a")) && Write(p, defs, s, Text("a")) == [0x00, 0x02, 0x61]
  {
    hide Sound;
    var bs := [Prim(PString), Prim(PNull)];
    assert bs[..1] == [Prim(PString)];
    assert Validate(defs, bs[1], Null) && !Validate(defs, bs[1], Text("a")) && Validate(defs, bs[0], Text("a"));
    assert LastValid(defs, bs, Null) == 1 && LastValid(defs, bs, Text("a")) == 0;
    assert Write(p, defs, Union(bs), Null) == [0x02] + [];
    assert Write(p, defs, bs[0], Text("a")) == [0x02] + [0x61];
    assert Write(p, defs, Union(bs), Text("a")) == [0x00] + ([0x02] + [0x61]);
  }

  /** The position of the symbol. */
  lemma EnumExample(p: Platform, defs: Defs)
    requires Sound(p) && "Foo" in defs && defs["Foo"] == Enum(["A", "B", "C", "D"])
    ensures Validate(defs, Named("Foo"), Text("D")) && Write(p, defs, Named("Foo"), Text("D")) == [0x06]
  {
    hide Sound;
    var symbols := ["A", "B", "C", "D"];
    assert symbols[3] == "D";
    assert IndexOf(symbols, "D") == 3;
  }

  /** The number of data, the number of their bytes, the bytes, the marker. */
  lemma BlockExample(lib: C.Library, lay: C.Layout)
    requires Sound(lib.p) && lay.codec == C.NULL_CODEC && lay.schema == Prim(PBoolean)
    ensures C.AllValid(lay, [Bool(true)])
    ensures C.BlockBytes(lib, lay, [Bool(true)]) == [0x02, 0x02, 0x01] + lay.sync
  {
    hide Sound;
    assert [Bool(true)][1..] == [];
    assert Write(lib.p, lay.defs, lay.schema, Bool(true)) == [0x01];
    assert C.Encodings(lib.p, lay, [Bool(true)]) == [0x01] + C.Encodings(lib.p, lay, []);
    assert lay.codec != C.DEFLATE_CODEC;
    assert [0x02] + ([0x02] + ([0x01] + lay.sync)) == [0x02, 0x02, 0x01] + lay.sync;
  }

  // Whole records

  lemma FieldStep(p: Platform, defs: Defs, n: string, d: Datum, i: nat)
    requires Sound(p) && n in defs && defs[n].Record? && i < |defs[n].fields| && Validate(defs, Named(n), d)
    ensures
      var f := defs[n].fields[i];
      && Validate(defs, f.ftype, Get(d.entries, f.name))
      && WriteFields(p, defs, n, d, i) ==
           Write(p, defs, f.ftype, Get(d.entries, f.name)) + WriteFields(p, defs, n, d, i + 1)
  {
    hide Sound;
  }

  /** `null` or something else: the position of the branch, and then the datum. */
  lemma NullOrLayout(p: Platform, defs: Defs, s: Schema, d: Datum)
    requires Sound(p) && !Validate(defs, s, Null) && (d == Null || Validate(defs, s, d))
    ensures Validate(defs, NullOr(s), d)
    ensures Write(p, defs, NullOr(s), d) == if d == Null then [0x00] else [0x02] + Write(p, defs, s, d)
  {
    var bs := NullOr(s).branches;
    assert bs[0] == Prim(PNull) && bs[1] == s && bs[..1] == [Prim(PNull)];
    assert Validate(defs, bs[0], d) <==> d == Null;
    var i := LastValid(defs, bs, d);
    assert i == if d == Null then 0 else 1;
    assert Write(p, defs, NullOr(s), d) == Long(i) + Write(p, defs, bs[i], d);
    assert Long(0) == [0x00] && Long(1) == [0x02] && [0x00] + [] == [0x00];
  }

  /** The header of a file: 'Obj' and the version, the metadata, the marker. */
  lemma HeaderLayout(p: Platform, meta: map<string, Datum>, sync: seq<byte>)
    requires Sound(p) && (forall k :: k in meta ==> meta[k].Bytes?) && |sync| == C.SYNC_SIZE
    ensures Validate(C.HEADER_DEFS, Map(Prim(PBytes)), Dict(meta))
    ensures
      C.HeaderBytes(p, meta, sync) ==
        [0x4f, 0x62, 0x6a, 0x01] + (Write(p, C.HEADER_DEFS, Map(Prim(PBytes)), Dict(meta)) + sync)
  {
    C.HeaderIsExact(p, meta, sync);
    var d := C.HeaderDatum(meta, sync);
    hide Sound, WriteBlock, WriteFields, Validate;
    FieldStep(p, C.HEADER_DEFS, C.HEADER, d, 0);
    FieldStep(p, C.HEADER_DEFS, C.HEADER, d, 1);
    FieldStep(p, C.HEADER_DEFS, C.HEADER, d, 2);
    NoFields(p, C.HEADER_DEFS, C.HEADER, d);
    assert sync + [] == sync;
  }

  lemma NoFields(p: Platform, defs: Defs, n: string, d: Datum)
    requires Sound(p) && n in defs && defs[n].Record? && Validate(defs, Named(n), d)
    ensures WriteFields(p, defs, n, d, |defs[n].fields|) == []
  {
  }

  lemma FourFields(p: Platform, defs: Defs, n: string, d: Datum)
    requires Sound(p) && n in defs && defs[n].Record? && |defs[n].fields| == 4 && Validate(defs, Named(n), d)
    ensures forall f :: f in defs[n].fields ==> Validate(defs, f.ftype, Get(d.entries, f.name))
    ensures
      var f := defs[n].fields;
      Write(p, defs, Named(n), d) ==
        Write(p, defs, f[0].ftype, Get(d.entries, f[0].name)) +
        (Write(p, defs, f[1].ftype, Get(d.entries, f[1].name)) +
         (Write(p, defs, f[2].ftype, Get(d.entries, f[2].name)) +
          Write(p, defs, f[3].ftype, Get(d.entries, f[3].name))))
  {
    assert Write(p, defs, Named(n), d) == WriteFields(p, defs, n, d, 0);
    hide Sound, WriteFields, Write, Get;
    FieldStep(p, defs, n, d, 0);
    FieldStep(p, defs, n, d, 1);
    FieldStep(p, defs, n, d, 2);
    FieldStep(p, defs, n, d, 3);
    NoFields(p, defs, n, d);
    var last := Write(p, defs, defs[n].fields[3].ftype, Get(d.entries, defs[n].fields[3].name));
    assert last + [] == last;
  }

  function TextBytes(p: Platform, t: Option<H.Protocol>): seq<byte> {
    if t.None? then [0x00] else [0x02] + WriteBytes(p.encodeText(t.value))
  }

  function HashBytes(h: Option<H.Hash>): seq<byte> {
    if h.None? then [0x00] else [0x02] + h.value
  }

  /** A handshake request: hash, protocol if it is sent, hash, no metadata. */
  lemma RequestLayout(p: Platform, req: H.Request)
    requires Sound(p) && GoodRequest(p, req)
    ensures RequestBytes(p, req) ==
      req.clientHash + (TextBytes(p, req.clientProtocol) + (req.serverHash + [0x00]))
  {
    RequestIsKept(p, req);
    RequestEntries(req);
    assert REQUEST_FIELDS[0] == Field("clientHash", Named(MD5), None);
    assert REQUEST_FIELDS[1] == Field("clientProtocol", NullOr(Prim(PString)), None);
    assert REQUEST_FIELDS[2] == Field("serverHash", Named(MD5), None);
    assert REQUEST_FIELDS[3] == Field("meta", NullOr(Map(Prim(PBytes))), None);
    hide Sound, Validate, NullOr, RequestDatum, Write, Get, TextBytes;
    FourFields(p, REQUEST_DEFS, REQUEST, RequestDatum(req));
    Md5Layout(p, REQUEST_DEFS, req.clientHash);
    Md5Layout(p, REQUEST_DEFS, req.serverHash);
    TextLayout(p, REQUEST_DEFS, req.clientProtocol);
  }

  /** A handshake response: BOTH, CLIENT or NONE, the server's protocol and hash if they are sent, no metadata. */
  lemma ResponseLayout(p: Platform, resp: H.Response)
    requires Sound(p) && GoodResponse(p, resp)
    ensures
      var answer := match resp.answer case BOTH => 0x00 case CLIENT => 0x02 case NONE => 0x04;
      ResponseBytes(p, resp) ==
        [answer] + (TextBytes(p, resp.serverProtocol) + (HashBytes(resp.serverHash) + [0x00]))
  {
    ResponseIsKept(p, resp);
    ResponseEntries(resp);
    assert RESPONSE_FIELDS[0] == Field("match", Named(MATCH), None);
    assert RESPONSE_FIELDS[1] == Field("serverProtocol", NullOr(Prim(PString)), None);
    assert RESPONSE_FIELDS[2] == Field("serverHash", NullOr(Named(MD5)), None);
    assert RESPONSE_FIELDS[3] == Field("meta", NullOr(Map(Prim(PBytes))), None);
    hide Sound, Validate, NullOr, ResponseDatum, Write, Get, TextBytes, HashBytes, MatchName;
    FourFields(p, RESPONSE_DEFS, RESPONSE, ResponseDatum(resp));
    MatchLayout(p, resp.answer);
    TextLayout(p, RESPONSE_DEFS, resp.serverProtocol);
    HashLayout(p, resp.serverHash);
  }

  lemma Md5Layout(p: Platform, defs: Defs, hash: H.Hash)
    requires Sound(p) && MD5 in defs && defs[MD5] == Fixed(H.HASH_SIZE) && |hash| == H.HASH_SIZE
    ensures Validate(defs, Named(MD5), Bytes(hash)) && Write(p, defs, Named(MD5), Bytes(hash)) == hash
  {
  }

  /** The protocol, and the metadata that are never sent. */
  lemma TextLayout(p: Platform, defs: Defs, text: Option<H.Protocol>)
    requires Sound(p)
    ensures Validate(defs, NullOr(Prim(PString)), TextOrNull(text))
    ensures Write(p, defs, NullOr(Prim(PString)), TextOrNull(text)) == TextBytes(p, text)
    ensures Validate(defs, NullOr(Map(Prim(PBytes))), Null)
    ensures Write(p, defs, NullOr(Map(Prim(PBytes))), Null) == [0x00]
  {
    NullOrLayout(p, defs, Prim(PString), TextOrNull(text));
    NullOrLayout(p, defs, Map(Prim(PBytes)), Null);
    hide NullOr, WriteBytes;
  }

  lemma HashLayout(p: Platform, hash: Option<H.Hash>)
    requires Sound(p) && (hash.Some? ==> |hash.value| == H.HASH_SIZE)
    ensures Validate(RESPONSE_DEFS, NullOr(Named(MD5)), BytesOrNull(hash))
    ensures Write(p, RESPONSE_DEFS, NullOr(Named(MD5)), BytesOrNull(hash)) == HashBytes(hash)
  {
    NullOrLayout(p, RESPONSE_DEFS, Named(MD5), BytesOrNull(hash));
  }

  lemma MatchLayout(p: Platform, answer: H.Match)
    requires Sound(p)
    ensures Validate(RESPONSE_DEFS, Named(MATCH), Text(MatchName(answer)))
    ensures
      Write(p, RESPONSE_DEFS, Named(MATCH), Text(MatchName(answer))) ==
        [match answer case BOTH => 0x00 case CLIENT => 0x02 case NONE => 0x04]
  {
    hide Sound;
    var symbols := RESPONSE_DEFS[MATCH].symbols;
    assert symbols[0] == "BOTH" && symbols[1] == "CLIENT" && symbols[2] == "NONE";
    assert IndexOf(symbols, MatchName(answer)) == match answer case BOTH => 0 case CLIENT => 1 case NONE => 2;
  }
}
