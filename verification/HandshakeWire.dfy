/** The handshake records as bytes (the handshake schemas of avro/devices/avro/ipc.py). */
module HandshakeWire {
  import opened Basics
  import opened Varint
  import opened Schemas
  import opened Encoding
  import opened Decoding
  import opened DatumWriting
  import opened RoundTrip
  import opened Handshake

  const MD5 := "org.apache.avro.ipc.MD5"
  const REQUEST := "org.apache.avro.ipc.HandshakeRequest"
  const RESPONSE := "org.apache.avro.ipc.HandshakeResponse"
  const MATCH := "org.apache.avro.ipc.HandshakeMatch"

  function NullOr(s: Schema): Schema {
    Union([Prim(PNull), s])
  }

  const REQUEST_FIELDS := [Field("clientHash", Named(MD5), None), Field("clientProtocol", NullOr(Prim(PString)), None),
                           Field("serverHash", Named(MD5), None), Field("meta", NullOr(Map(Prim(PBytes))), None)]
  const REQUEST_DEFS: Defs := map[REQUEST := Record(KRecord, REQUEST_FIELDS), MD5 := Fixed(HASH_SIZE)]

  const RESPONSE_FIELDS := [Field("match", Named(MATCH), None), Field("serverProtocol", NullOr(Prim(PString)), None),
                            Field("serverHash", NullOr(Named(MD5)), None),
                            Field("meta", NullOr(Map(Prim(PBytes))), None)]
  const RESPONSE_DEFS: Defs :=
    map[RESPONSE := Record(KRecord, RESPONSE_FIELDS), MATCH := Enum(["BOTH", "CLIENT", "NONE"]),
        MD5 := Fixed(HASH_SIZE)]

  lemma NullOrIsFine(defs: Defs, s: Schema)
    requires WellFormedSchema(defs, s) && !s.Union? && TypeOf(defs, s) != TPrim(PNull)
    requires TypeOf(defs, s) != TRecord(KRequest)
    ensures WellFormedSchema(defs, NullOr(s))
  {
    var bs := NullOr(s).branches;
    assert bs[0] == Prim(PNull) && bs[1] == s;
  }

  lemma RequestDefsAreFine()
    ensures WellFormed(REQUEST_DEFS) && Guarded(REQUEST_DEFS) && WellFormedSchema(REQUEST_DEFS, Named(REQUEST))
  {
    NullOrIsFine(REQUEST_DEFS, Prim(PString));
    NullOrIsFine(REQUEST_DEFS, Map(Prim(PBytes)));
    hide NullOr;
    assert IsRanking(REQUEST_DEFS, map[REQUEST := 1, MD5 := 0]) by { NullOrIsNotNamed(); }
  }

  lemma ResponseDefsAreFine()
    ensures WellFormed(RESPONSE_DEFS) && Guarded(RESPONSE_DEFS) && WellFormedSchema(RESPONSE_DEFS, Named(RESPONSE))
  {
    NullOrIsFine(RESPONSE_DEFS, Prim(PString));
    NullOrIsFine(RESPONSE_DEFS, Map(Prim(PBytes)));
    NullOrIsFine(RESPONSE_DEFS, Named(MD5));
    hide NullOr;
    assert IsRanking(RESPONSE_DEFS, map[RESPONSE := 1, MATCH := 0, MD5 := 0]) by { NullOrIsNotNamed(); }
  }

  lemma NullOrIsNotNamed()
    ensures forall s :: !NullOr(s).Named?
  {
  }

  /** A value that is written and read back unchanged. */
  ghost predicate Kept(p: Platform, defs: Defs, s: Schema, d: Datum)
    requires Sound(p)
  {
    Validate(defs, s, d) && Sized(p, defs, s, d) && Norm(p, defs, s, d) == d
  }

  lemma NullOrIsKept(p: Platform, defs: Defs, s: Schema, d: Datum)
    requires Sound(p) && !Validate(defs, s, Null) && (d == Null || Kept(p, defs, s, d))
    ensures Kept(p, defs, NullOr(s), d)
  {
    var bs := NullOr(s).branches;
    assert bs[0] == Prim(PNull) && bs[1] == s && bs[..1] == [Prim(PNull)];
    assert Validate(defs, bs[0], d) || Validate(defs, bs[1], d);
    assert LastValid(defs, bs, d) == if d == Null then 0 else 1;
  }

  lemma FieldsAreKept(p: Platform, defs: Defs, n: string, fields: seq<Field>, d: Datum)
    requires Sound(p) && n in defs && defs[n] == Record(KRecord, fields) && DistinctFields(fields) && d.Dict?
    requires forall i :: 0 <= i < |fields| ==> Kept(p, defs, fields[i].ftype, Get(d.entries, fields[i].name))
    ensures Validate(defs, Named(n), d) && Sized(p, defs, Named(n), d)
    ensures
      var v := Norm(p, defs, Named(n), d);
      v.Dict? && forall i :: 0 <= i < |fields| ==> Get(v.entries, fields[i].name) == Get(d.entries, fields[i].name)
  {
    NormFields(p, defs, n, d);
  }

  lemma RecordIsKept(p: Platform, defs: Defs, n: string, a: Field, b: Field, c: Field, e: Field, d: Datum)
    requires Sound(p) && n in defs && defs[n] == Record(KRecord, [a, b, c, e]) && DistinctFields([a, b, c, e])
    requires d.Dict?
    requires Kept(p, defs, a.ftype, Get(d.entries, a.name)) && Kept(p, defs, b.ftype, Get(d.entries, b.name))
    requires Kept(p, defs, c.ftype, Get(d.entries, c.name)) && Kept(p, defs, e.ftype, Get(d.entries, e.name))
    ensures Validate(defs, Named(n), d) && Sized(p, defs, Named(n), d)
    ensures
      var v := Norm(p, defs, Named(n), d);
      && v.Dict? && Get(v.entries, a.name) == Get(d.entries, a.name) && Get(v.entries, b.name) == Get(d.entries, b.name)
      && Get(v.entries, c.name) == Get(d.entries, c.name)
  {
    hide Sound, Norm, Validate, Sized, Kept, Get;
    var fields := [a, b, c, e];
    assert forall i :: 0 <= i < |fields| ==> Kept(p, defs, fields[i].ftype, Get(d.entries, fields[i].name));
    FieldsAreKept(p, defs, n, fields, d);
    assert fields[0] == a && fields[1] == b && fields[2] == c;
  }

  function TextOrNull(t: Option<string>): Datum {
    if t.Some? then Text(t.value) else Null
  }

  function BytesOrNull(h: Option<Hash>): Datum {
    if h.Some? then Bytes(h.value) else Null
  }

  /** The dict write_handshake_request builds: clientProtocol only when it is sent, meta never. */
  function RequestDatum(req: Request): Datum {
    var m := map["clientHash" := Bytes(req.clientHash), "serverHash" := Bytes(req.serverHash)];
    Dict(if req.clientProtocol.Some? then m["clientProtocol" := Text(req.clientProtocol.value)] else m)
  }

  function MatchName(m: Match): string {
    match m
    case BOTH => "BOTH"
    case CLIENT => "CLIENT"
    case NONE => "NONE"
  }

  /** The dict process_handshake builds: serverProtocol and serverHash only unless the answer is BOTH. */
  function ResponseDatum(resp: Response): Datum {
    var m0 := map["match" := Text(MatchName(resp.answer))];
    var m1 := if resp.serverProtocol.Some? then m0["serverProtocol" := Text(resp.serverProtocol.value)] else m0;
    Dict(if resp.serverHash.Some? then m1["serverHash" := Bytes(resp.serverHash.value)] else m1)
  }

  function OptionalText(d: Datum): Option<string> {
    if d.Text? then Some(d.s) else None
  }

  function OptionalBytes(d: Datum): Option<Hash> {
    if d.Bytes? then Some(d.data) else None
  }

  /** What the responder takes from the record it has read. */
  function RequestOf(d: Datum): Result<Request> {
    if d.Dict? && Get(d.entries, "clientHash").Bytes? && Get(d.entries, "serverHash").Bytes? then
      Success(Request(d.entries["clientHash"].data, OptionalText(Get(d.entries, "clientProtocol")),
          d.entries["serverHash"].data))
    else Failure(AvroType)
  }

  /** What the requestor takes from the record it has read; any other match is refused. */
  function ResponseOf(d: Datum): Result<Response> {
    if !d.Dict? || !Get(d.entries, "match").Text? then Failure(AvroType)
    else
      var name := d.entries["match"].s;
      var text, hash := OptionalText(Get(d.entries, "serverProtocol")), OptionalBytes(Get(d.entries, "serverHash"));
      if name == "BOTH" then Success(Response(BOTH, text, hash))
      else if name == "CLIENT" then Success(Response(CLIENT, text, hash))
      else if name == "NONE" then Success(Response(NONE, text, hash))
      else Failure(AvroType)
  }

  /** The protocol text has an encoding no longer than sys.maxsize. */
  predicate FitsText(p: Platform, t: Option<Protocol>) {
    t.Some? ==> |p.encodeText(t.value)| <= LONG_MAX
  }

  ghost predicate GoodRequest(p: Platform, req: Request) {
    |req.clientHash| == HASH_SIZE && |req.serverHash| == HASH_SIZE && FitsText(p, req.clientProtocol)
  }

  ghost predicate GoodResponse(p: Platform, resp: Response) {
    (resp.serverHash.Some? ==> |resp.serverHash.value| == HASH_SIZE) && FitsText(p, resp.serverProtocol)
  }

  lemma LeavesAreKept(p: Platform, defs: Defs, text: Option<Protocol>, hash: Option<Hash>)
    requires Sound(p) && MD5 in defs && defs[MD5] == Fixed(HASH_SIZE)
    requires FitsText(p, text) && (hash.Some? ==> |hash.value| == HASH_SIZE)
    ensures hash.Some? ==> Kept(p, defs, Named(MD5), BytesOrNull(hash))
    ensures Kept(p, defs, NullOr(Named(MD5)), BytesOrNull(hash))
    ensures Kept(p, defs, NullOr(Prim(PString)), TextOrNull(text))
    ensures Kept(p, defs, NullOr(Map(Prim(PBytes))), Null)
  {
    NullOrIsKept(p, defs, Named(MD5), BytesOrNull(hash));
    NullOrIsKept(p, defs, Prim(PString), TextOrNull(text));
    NullOrIsKept(p, defs, Map(Prim(PBytes)), Null);
  }

  lemma MatchIsKept(p: Platform, m: Match)
    requires Sound(p)
    ensures Kept(p, RESPONSE_DEFS, Named(MATCH), Text(MatchName(m)))
  {
    var symbols := RESPONSE_DEFS[MATCH].symbols;
    assert symbols[0] == "BOTH" && symbols[1] == "CLIENT" && symbols[2] == "NONE";
  }

  lemma RequestEntries(req: Request)
    ensures
      var m := RequestDatum(req).entries;
      && Get(m, "clientHash") == Bytes(req.clientHash) && Get(m, "clientProtocol") == TextOrNull(req.clientProtocol)
      && Get(m, "serverHash") == Bytes(req.serverHash) && Get(m, "meta") == Null
  {
  }

  lemma ResponseEntries(resp: Response)
    ensures
      var m := ResponseDatum(resp).entries;
      && Get(m, "match") == Text(MatchName(resp.answer)) && Get(m, "serverProtocol") == TextOrNull(resp.serverProtocol)
      && Get(m, "serverHash") == BytesOrNull(resp.serverHash) && Get(m, "meta") == Null
  {
  }

  lemma RequestFieldNames()
    ensures DistinctFields(REQUEST_FIELDS)
    ensures REQUEST_FIELDS == [REQUEST_FIELDS[0], REQUEST_FIELDS[1], REQUEST_FIELDS[2], REQUEST_FIELDS[3]]
  {
  }

  lemma ResponseFieldNames()
    ensures DistinctFields(RESPONSE_FIELDS)
    ensures RESPONSE_FIELDS == [RESPONSE_FIELDS[0], RESPONSE_FIELDS[1], RESPONSE_FIELDS[2], RESPONSE_FIELDS[3]]
  {
  }

  lemma RequestIsKept(p: Platform, req: Request)
    requires Sound(p) && GoodRequest(p, req)
    ensures Validate(REQUEST_DEFS, Named(REQUEST), RequestDatum(req))
    ensures Sized(p, REQUEST_DEFS, Named(REQUEST), RequestDatum(req))
    ensures RequestOf(Norm(p, REQUEST_DEFS, Named(REQUEST), RequestDatum(req))) == Success(req)
  {
    var m := RequestDatum(req).entries;
    RequestEntries(req);
    LeavesAreKept(p, REQUEST_DEFS, req.clientProtocol, Some(req.clientHash));
    LeavesAreKept(p, REQUEST_DEFS, req.clientProtocol, Some(req.serverHash));
    hide NullOr, Sound, Norm, Validate, Sized, Kept, RequestDatum, Get;
    var f := REQUEST_FIELDS;
    RequestFieldNames();
    RecordIsKept(p, REQUEST_DEFS, REQUEST, f[0], f[1], f[2], f[3], RequestDatum(req));
    var v := Norm(p, REQUEST_DEFS, Named(REQUEST), RequestDatum(req)).entries;
    RequestOfEntries(v);
  }

  /** There are no numbers in the handshake. */
  lemma RequestPacks(p: Platform, req: Request)
    requires Validate(REQUEST_DEFS, Named(REQUEST), RequestDatum(req))
    ensures Packs(p, REQUEST_DEFS, Named(REQUEST), RequestDatum(req))
  {
    hide Validate, Packs, RequestDatum;
    var f := REQUEST_FIELDS;
    assert FloatFree(f[0].ftype) && FloatFree(f[1].ftype) && FloatFree(f[2].ftype) && FloatFree(f[3].ftype);
    FloatFreePacks(p, REQUEST_DEFS, Named(REQUEST), RequestDatum(req));
  }

  lemma ResponsePacks(p: Platform, resp: Response)
    requires Validate(RESPONSE_DEFS, Named(RESPONSE), ResponseDatum(resp))
    ensures Packs(p, RESPONSE_DEFS, Named(RESPONSE), ResponseDatum(resp))
  {
    hide Validate, Packs, ResponseDatum;
    var f := RESPONSE_FIELDS;
    assert FloatFree(f[0].ftype) && FloatFree(f[1].ftype) && FloatFree(f[2].ftype) && FloatFree(f[3].ftype);
    FloatFreePacks(p, RESPONSE_DEFS, Named(RESPONSE), ResponseDatum(resp));
  }

  /** RequestOf in terms of get. */
  lemma RequestOfEntries(v: map<string, Datum>)
    requires Get(v, "clientHash").Bytes? && Get(v, "serverHash").Bytes?
    ensures
      RequestOf(Dict(v)) ==
        Success(Request(Get(v, "clientHash").data, OptionalText(Get(v, "clientProtocol")), Get(v, "serverHash").data))
  {
  }

  lemma ResponseIsKept(p: Platform, resp: Response)
    requires Sound(p) && GoodResponse(p, resp)
    ensures Validate(RESPONSE_DEFS, Named(RESPONSE), ResponseDatum(resp))
    ensures Sized(p, RESPONSE_DEFS, Named(RESPONSE), ResponseDatum(resp))
    ensures ResponseOf(Norm(p, RESPONSE_DEFS, Named(RESPONSE), ResponseDatum(resp))) == Success(resp)
  {
    var m := ResponseDatum(resp).entries;
    ResponseEntries(resp);
    LeavesAreKept(p, RESPONSE_DEFS, resp.serverProtocol, resp.serverHash);
    MatchIsKept(p, resp.answer);
    hide NullOr, Sound, Norm, Validate, Sized, Kept, ResponseDatum, Get, MatchName;
    var f := RESPONSE_FIELDS;
    ResponseFieldNames();
    RecordIsKept(p, RESPONSE_DEFS, RESPONSE, f[0], f[1], f[2], f[3], ResponseDatum(resp));
    var v := Norm(p, RESPONSE_DEFS, Named(RESPONSE), ResponseDatum(resp)).entries;
    ResponseOfEntries(v, resp);
  }

  lemma ResponseOfEntries(v: map<string, Datum>, resp: Response)
    requires Get(v, "match") == Text(MatchName(resp.answer))
    requires Get(v, "serverProtocol") == TextOrNull(resp.serverProtocol)
    requires Get(v, "serverHash") == BytesOrNull(resp.serverHash)
    ensures ResponseOf(Dict(v)) == Success(resp)
  {
  }

  ghost function RequestBytes(p: Platform, req: Request): seq<byte>
    requires Sound(p) && GoodRequest(p, req)
  {
    RequestIsKept(p, req);
    Write(p, REQUEST_DEFS, Named(REQUEST), RequestDatum(req))
  }

  ghost function ResponseBytes(p: Platform, resp: Response): seq<byte>
    requires Sound(p) && GoodResponse(p, resp)
  {
    ResponseIsKept(p, resp);
    Write(p, RESPONSE_DEFS, Named(RESPONSE), ResponseDatum(resp))
  }

  /** `HANDSHAKE_RESPONDER_READER.read` and the gets that follow it. */
  ghost function ReadRequest(p: Platform, bs: seq<byte>): Parsed<Request> {
    RequestDefsAreFine();
    var (d, rest) :- Read(p, REQUEST_DEFS, Named(REQUEST), REQUEST_DEFS, Named(REQUEST), bs);
    var req :- RequestOf(d);
    Success((req, rest))
  }

  /** `HANDSHAKE_REQUESTOR_READER.read` and the gets that follow it. */
  ghost function ReadResponse(p: Platform, bs: seq<byte>): Parsed<Response> {
    ResponseDefsAreFine();
    var (d, rest) :- Read(p, RESPONSE_DEFS, Named(RESPONSE), RESPONSE_DEFS, Named(RESPONSE), bs);
    var resp :- ResponseOf(d);
    Success((resp, rest))
  }

  /** A handshake request reaches the server as it was meant, and the call request behind it is untouched. */
  lemma RequestOnTheWire(p: Platform, req: Request, suffix: seq<byte>)
    requires Sound(p) && GoodRequest(p, req)
    ensures ReadRequest(p, RequestBytes(p, req) + suffix) == Success((req, suffix))
  {
    RequestIsKept(p, req);
    RequestDefsAreFine();
    hide Sound, Guarded, WellFormed, WellFormedSchema, Read, Write, Norm, Validate, RequestOf, RequestDatum;
    DatumRoundTrip(p, REQUEST_DEFS, Named(REQUEST), RequestDatum(req), suffix);
  }

  lemma ResponseOnTheWire(p: Platform, resp: Response, suffix: seq<byte>)
    requires Sound(p) && GoodResponse(p, resp)
    ensures ReadResponse(p, ResponseBytes(p, resp) + suffix) == Success((resp, suffix))
  {
    ResponseIsKept(p, resp);
    ResponseDefsAreFine();
    hide Sound, Guarded, WellFormed, WellFormedSchema, Read, Write, Norm, Validate, ResponseOf, ResponseDatum;
    DatumRoundTrip(p, RESPONSE_DEFS, Named(RESPONSE), ResponseDatum(resp), suffix);
  }
}
