/** Requestor and Responder as objects that exchange bytes (avro/devices/avro/ipc.py). */
module RemoteCalls {
  import opened Basics
  import opened Varint
  import opened Schemas
  import opened Encoding
  import opened Decoding
  import opened BinaryStreams
  import opened DatumWriting
  import opened DatumReading
  import opened HandshakeWire
  import H = Handshake
  import M = HandshakeMemory

  /** The hash and the text of every protocol spoken fit into a handshake. */
  ghost predicate Speakable(p: Platform, setting: H.Setting) {
    Sound(p) && H.NoCollisions(setting) && forall a :: a in setting.spoken ==> |p.encodeText(a)| <= LONG_MAX
  }

  /** REMOTE_HASHES */
  class RemoteHashes {
    var hashes: map<string, H.Hash>

    constructor ()
      ensures hashes == map[]
    {
      hashes := map[];
    }
  }

  class Responder {
    const p: Platform
    const setting: H.Setting
    /** The rest of respond: decode with a protocol, invoke, encode. */
    const answer: (H.Protocol, seq<byte>) -> seq<byte>
    var protocolCache: map<H.Hash, H.Protocol>
    ghost var invoked: seq<(H.Protocol, seq<byte>)>

    ghost predicate Valid()
      reads this
    {
      Speakable(p, setting) && H.TrueCache(setting, protocolCache)
    }

    constructor (platform: Platform, given: H.Setting, logic: (H.Protocol, seq<byte>) -> seq<byte>)
      requires Speakable(platform, given)
      ensures Valid() && p == platform && setting == given && answer == logic
      ensures protocolCache == map[given.md5(given.server) := given.server] && invoked == []
    {
      p, setting, answer := platform, given, logic;
      protocolCache := map[given.md5(given.server) := given.server];
      invoked := [];
    }

    /** The cache loses entries. */
    method Lose(kept: set<H.Hash>)
      requires Valid()
      modifies this`protocolCache
      ensures Valid() && protocolCache == H.Lose(old(protocolCache), kept)
    {
      protocolCache := map h | h in protocolCache && h in kept :: protocolCache[h];
    }

    method ProcessHandshake(decoder: BinaryDecoder, encoder: BinaryEncoder) returns (res: Result<Option<H.Protocol>>)
      requires Speakable(p, setting) && decoder.Valid()
      modifies this`protocolCache, decoder, encoder
      ensures decoder.Valid()
      ensures
        var read := ReadRequest(p, old(decoder.Rest()));
        if read.Failure? then
          res == Failure(read.error) && protocolCache == old(protocolCache) && encoder.written == old(encoder.written)
        else
          var done := H.ProcessHandshake(setting, old(protocolCache), read.value.0);
          && GoodResponse(p, done.response)
          && res == Success(done.remote) && protocolCache == done.cache && decoder.Rest() == read.value.1
          && encoder.written == old(encoder.written) + ResponseBytes(p, done.response)
    {
      RequestDefsAreFine();
      hide Sound, Guarded, WellFormed, WellFormedSchema, Read, RequestOf;
      var reader := new DatumReader(p, REQUEST_DEFS, REQUEST_DEFS);
      var handshakeRequest :- reader.ReadOwn(Named(REQUEST), decoder);
      var req :- RequestOf(handshakeRequest);

      var remote: Option<H.Protocol> := None;
      if req.clientHash in protocolCache {
        remote := Some(protocolCache[req.clientHash]);
      } else if req.clientProtocol.Some? {
        remote := req.clientProtocol;
        protocolCache := protocolCache[req.clientHash := req.clientProtocol.value];
      }

      var localHash := setting.md5(setting.server);
      var answer: H.Match;
      if localHash == req.serverHash {
        answer := if remote.None? then H.NONE else H.BOTH;
      } else {
        answer := if remote.None? then H.NONE else H.CLIENT;
      }
      var response := H.Response(answer, None, None);
      if answer != H.BOTH {
        response := H.Response(answer, Some(setting.server), Some(localHash));
      }
      WriteResponse(response, encoder);
      return Success(remote);
    }

    method WriteResponse(response: H.Response, encoder: BinaryEncoder)
      requires Sound(p) && GoodResponse(p, response)
      modifies encoder
      ensures encoder.written == old(encoder.written) + ResponseBytes(p, response)
    {
      ResponseIsKept(p, response);
      ResponsePacks(p, response);
      hide Sound, Validate, Sized, Packs, Encoding.Write;
      var writer := new DatumWriter(p, RESPONSE_DEFS, Named(RESPONSE));
      var written := writer.WriteData(Named(RESPONSE), ResponseDatum(response), encoder);
    }

    /** A request the server cannot decode ends after the handshake; otherwise the server logic runs, once. */
    method Respond(callRequest: seq<byte>) returns (res: Result<seq<byte>>)
      requires Speakable(p, setting)
      modifies this
      ensures
        var read := ReadRequest(p, callRequest);
        if read.Failure? then
          res == Failure(read.error) && protocolCache == old(protocolCache) && invoked == old(invoked)
        else
          var done := H.ProcessHandshake(setting, old(protocolCache), read.value.0);
          && protocolCache == done.cache && GoodResponse(p, done.response)
          && invoked == (if done.remote.None? then old(invoked) else old(invoked) + [(done.remote.value, read.value.1)])
          && res == Success(ResponseBytes(p, done.response)
                            + if done.remote.None? then [] else answer(done.remote.value, read.value.1))
    {
      var decoder := new BinaryDecoder(callRequest, true);
      var encoder := new BinaryEncoder();
      hide ReadRequest, ResponseBytes, GoodResponse, H.ProcessHandshake;
      var remote :- ProcessHandshake(decoder, encoder);
      ghost var rest := decoder.Rest();
      ghost var head: seq<byte> := encoder.written;
      assert rest[..|rest|] == rest && head + [] == head;
      assert head == ResponseBytes(p,
          H.ProcessHandshake(setting, old(protocolCache), ReadRequest(p, callRequest).value.0).response);
      if remote.None? {
        return Success(encoder.written);
      }
      var body := decoder.Read(-1);
      invoked := invoked + [(remote.value, body)];
      encoder.Write(answer(remote.value, body));
      return Success(encoder.written);
    }
  }

  /** A connection to a server that may lose cache entries before each exchange. */
  class Transceiver {
    const remoteName: string
    const responder: Responder
    const kept: nat -> set<H.Hash>
    var exchanges: nat
    ghost var log: seq<(H.Request, H.Response)>

    constructor (name: string, server: Responder, keeps: nat -> set<H.Hash>)
      ensures remoteName == name && responder == server && kept == keeps && exchanges == 0
      ensures log == []
    {
      remoteName, responder, kept, exchanges, log := name, server, keeps, 0, [];
    }

    method Transceive(callRequest: seq<byte>) returns (res: Result<seq<byte>>)
      requires responder.Valid()
      modifies this, responder
      ensures exchanges == old(exchanges) + 1
      ensures
        var cache := H.Lose(old(responder.protocolCache), kept(old(exchanges)));
        var read := ReadRequest(responder.p, callRequest);
        if read.Failure? then res.Failure?
        else
          var done := H.ProcessHandshake(responder.setting, cache, read.value.0);
          && log == old(log) + [(read.value.0, done.response)]
          && responder.protocolCache == done.cache && GoodResponse(responder.p, done.response)
          && responder.invoked ==
               (if done.remote.None? then old(responder.invoked)
                else old(responder.invoked) + [(done.remote.value, read.value.1)])
          && res == Success(ResponseBytes(responder.p, done.response)
                            + if done.remote.None? then [] else responder.answer(done.remote.value, read.value.1))
    {
      hide ReadRequest, ResponseBytes, GoodResponse, H.ProcessHandshake, H.Lose;
      responder.Lose(kept(exchanges));
      exchanges := exchanges + 1;
      ghost var read := ReadRequest(responder.p, callRequest);
      if read.Success? {
        log := log +
          [(read.value.0, H.ProcessHandshake(responder.setting, responder.protocolCache, read.value.0).response)];
      }
      res := responder.Respond(callRequest);
    }
  }

  class Requestor {
    const p: Platform
    const setting: H.Setting
    const local: H.Protocol
    const transceiver: Transceiver
    const remoteHashes: RemoteHashes
    var remoteProtocol: Option<H.Protocol>
    var sendProtocol: bool

    ghost function Fields(): H.Requestor
      reads this
    {
      H.Requestor(local, remoteProtocol, sendProtocol)
    }

    /** REMOTE_HASHES.get(remote_name) */
    ghost function Known(): Option<H.Hash>
      reads remoteHashes
    {
      if transceiver.remoteName in remoteHashes.hashes then Some(remoteHashes.hashes[transceiver.remoteName]) else None
    }

    /** The server has this requestor's protocol when the next message arrives. */
    ghost predicate ServerRemembers()
      reads transceiver, transceiver.responder
    {
      setting.md5(local) in H.Lose(transceiver.responder.protocolCache, transceiver.kept(transceiver.exchanges))
    }

    /** The exchange between a requestor and a server that remember each other. */
    ghost function HashesOnly(): (H.Request, H.Response) {
      (H.Request(setting.md5(local), None, setting.md5(setting.server)), H.Response(H.BOTH, None, None))
    }

    ghost predicate Valid()
      reads this, remoteHashes, transceiver.responder
    {
      && transceiver.responder.Valid() && transceiver.responder.p == p && transceiver.responder.setting == setting
      && H.RequestorOk(setting, Fields(), Known())
    }

    constructor (platform: Platform, given: H.Setting, protocol: H.Protocol, connection: Transceiver,
                 known: RemoteHashes)
      requires connection.responder.Valid()
      requires connection.responder.p == platform && connection.responder.setting == given
      requires protocol in given.spoken
      requires connection.remoteName in known.hashes ==> known.hashes[connection.remoteName] == given.md5(given.server)
      ensures Valid() && Fields() == H.Requestor(protocol, None, false)
      ensures transceiver == connection && remoteHashes == known
    {
      p, setting, local, transceiver, remoteHashes := platform, given, protocol, connection, known;
      remoteProtocol, sendProtocol := None, false;
    }

    method WriteHandshakeRequest(encoder: BinaryEncoder) returns (ghost req: H.Request)
      requires Valid()
      modifies this`remoteProtocol, encoder
      ensures (req, Fields()) == H.WriteHandshakeRequest(setting, old(Fields()), Known()) && GoodRequest(p, req)
      ensures encoder.written == old(encoder.written) + RequestBytes(p, req)
    {
      var localHash := setting.md5(local);
      var remoteHash := localHash;
      if transceiver.remoteName in remoteHashes.hashes {
        remoteHash := remoteHashes.hashes[transceiver.remoteName];
      } else {
        remoteProtocol := Some(local);
      }
      var request := H.Request(localHash, if sendProtocol then Some(local) else None, remoteHash);
      RequestIsKept(p, request);
      RequestPacks(p, request);
      req := request;
      hide Sound, Validate, Sized, Packs, Encoding.Write;
      var writer := new DatumWriter(p, REQUEST_DEFS, Named(REQUEST));
      var written := writer.WriteData(Named(REQUEST), RequestDatum(request), encoder);
    }

    /** Whether a call response follows. */
    method ReadHandshakeResponse(decoder: BinaryDecoder) returns (res: Result<bool>)
      requires decoder.Valid()
      modifies this, remoteHashes, decoder
      ensures decoder.Valid()
      ensures
        var read := ReadResponse(p, old(decoder.Rest()));
        if read.Failure? then
          res == Failure(read.error) && Fields() == old(Fields()) && remoteHashes.hashes == old(remoteHashes.hashes)
        else
          decoder.Rest() == read.value.1 &&
          var outcome := H.ReadHandshakeResponse(old(Fields()), read.value.0);
          if outcome.None? then
            && res == Failure(HandshakeFailure) && Fields() == old(Fields())
            && remoteHashes.hashes == old(remoteHashes.hashes)
          else
            && res == Success(outcome.value.callResponse) && Fields() == outcome.value.rq
            && remoteHashes.hashes ==
                 if outcome.value.learnt.None? then old(remoteHashes.hashes)
                 else old(remoteHashes.hashes)[transceiver.remoteName := outcome.value.learnt.value]
    {
      ResponseDefsAreFine();
      hide Guarded, WellFormed, WellFormedSchema, Read, ResponseOf;
      var reader := new DatumReader(p, RESPONSE_DEFS, RESPONSE_DEFS);
      var handshakeResponse :- reader.ReadOwn(Named(RESPONSE), decoder);
      var response :- ResponseOf(handshakeResponse);
      if response.answer == H.BOTH {
        sendProtocol := false;
        return Success(true);
      }
      if sendProtocol {
        return Failure(HandshakeFailure);
      }
      remoteProtocol := response.serverProtocol;
      if response.serverHash.Some? {
        remoteHashes.hashes := remoteHashes.hashes[transceiver.remoteName := response.serverHash.value];
      }
      sendProtocol := response.answer == H.NONE;
      return Success(response.answer == H.CLIENT);
    }

    /**
     * A request ends after at most two exchanges, whatever the server forgets before each of them.
     * The server has run it once, decoded with this requestor's own protocol. The response is
     * read with the server's protocol, unless the remote hash came from another requestor of
     * the same remote name and the server did not have to ask for the protocol. Afterwards the
     * server's hash is known and the server knows the protocol, so that another request to a server
     * that has not forgotten it takes one exchange, of hashes only.
     */
    method Request(body: seq<byte>) returns (res: Result<(Option<H.Protocol>, seq<byte>)>)
      requires Valid()
      modifies this, remoteHashes, transceiver, transceiver.responder
      ensures Valid() && !sendProtocol
      ensures transceiver.exchanges ==
        old(transceiver.exchanges) + if old(sendProtocol || ServerRemembers()) then 1 else 2
      ensures M.KnowsServer(setting, local, Known()) && setting.md5(local) in transceiver.responder.protocolCache
      ensures old(M.KnowsServer(setting, local, Known()) && !sendProtocol && ServerRemembers()) ==>
        transceiver.log == old(transceiver.log) + [HashesOnly()]
      ensures transceiver.responder.invoked == old(transceiver.responder.invoked) + [(local, body)]
      ensures res == Success((remoteProtocol, transceiver.responder.answer(local, body)))
      ensures remoteProtocol == Some(setting.server) <==>
        old(Known()).None? || old(remoteProtocol) == Some(setting.server) || !old(ServerRemembers())
      decreases if sendProtocol then 0 else 1, 1
    {
      hide H.NoCollisions, H.TrueCache, H.RequestorOk, H.WriteHandshakeRequest, RequestBytes, GoodRequest,
          H.ProcessHandshake, H.Lose, Sound;
      var encoder := new BinaryEncoder();
      var req := WriteHandshakeRequest(encoder);
      ghost var head := encoder.written;
      assert head == RequestBytes(p, req);
      encoder.Write(body);
      res := IssueRequest(encoder.written, body, old(Fields()), req);
    }

    method IssueRequest(callRequest: seq<byte>, body: seq<byte>, ghost before: H.Requestor, ghost req: H.Request)
      returns (res: Result<(Option<H.Protocol>, seq<byte>)>)
      requires transceiver.responder.Valid() && transceiver.responder.p == p && transceiver.responder.setting == setting
      requires before.local == local && H.RequestorOk(setting, before, Known()) && GoodRequest(p, req)
      requires (req, Fields()) == H.WriteHandshakeRequest(setting, before, Known())
      requires Sound(p)
      requires callRequest == RequestBytes(p, req) + body
      modifies this, remoteHashes, transceiver, transceiver.responder
      ensures Valid() && !sendProtocol
      ensures
        transceiver.exchanges ==
          old(transceiver.exchanges) + if before.sendProtocol || old(ServerRemembers()) then 1 else 2
      ensures M.KnowsServer(setting, local, Known()) && setting.md5(local) in transceiver.responder.protocolCache
      ensures old(M.KnowsServer(setting, local, Known())) && !before.sendProtocol && old(ServerRemembers()) ==>
        transceiver.log == old(transceiver.log) + [HashesOnly()]
      ensures transceiver.responder.invoked == old(transceiver.responder.invoked) + [(local, body)]
      ensures res == Success((remoteProtocol, transceiver.responder.answer(local, body)))
      ensures remoteProtocol == Some(setting.server) <==>
        old(Known()).None? || before.remoteProtocol == Some(setting.server) || !old(ServerRemembers())
      decreases if sendProtocol then 0 else 1, 0
    {
      assert before.sendProtocol == sendProtocol;
      assert before.sendProtocol ==> before.remoteProtocol == Some(setting.server);
      hide Sound, H.NoCollisions, H.TrueCache, H.RequestorOk, H.WriteHandshakeRequest, RequestBytes, GoodRequest,
          H.ProcessHandshake, H.Lose;
      var decoder, callResponseExists := Exchange(callRequest, body, before, req);
      if callResponseExists.value {
        ghost var suffix := decoder.Rest();
        var rest := decoder.Read(-1);
        assert suffix[..|suffix|] == suffix;
        return Success((remoteProtocol, rest));
      }
      res := Request(body);
    }

    /** The first part of issue_request: one exchange, up to the handshake response. */
    method Exchange(callRequest: seq<byte>, body: seq<byte>, ghost before: H.Requestor, ghost req: H.Request)
      returns (decoder: BinaryDecoder, res: Result<bool>)
      requires transceiver.responder.Valid() && transceiver.responder.p == p && transceiver.responder.setting == setting
      requires before.local == local && H.RequestorOk(setting, before, Known()) && GoodRequest(p, req)
      requires (req, Fields()) == H.WriteHandshakeRequest(setting, before, Known())
      requires Sound(p)
      requires callRequest == RequestBytes(p, req) + body
      modifies this, remoteHashes, transceiver, transceiver.responder
      ensures Valid() && fresh(decoder) && decoder.Valid() && res.Success?
      ensures transceiver.exchanges == old(transceiver.exchanges) + 1
      ensures res.value <==> before.sendProtocol || old(ServerRemembers())
      ensures M.KnowsServer(setting, local, Known())
      ensures res.value ==> setting.md5(local) in transceiver.responder.protocolCache
      ensures old(M.KnowsServer(setting, local, Known())) && !before.sendProtocol && old(ServerRemembers()) ==>
        transceiver.log == old(transceiver.log) + [HashesOnly()]
      ensures res.value ==>
        && !sendProtocol && decoder.Rest() == transceiver.responder.answer(local, body)
        && transceiver.responder.invoked == old(transceiver.responder.invoked) + [(local, body)]
        && (remoteProtocol == Some(setting.server) <==>
              old(Known()).None? || before.remoteProtocol == Some(setting.server))
      ensures !res.value ==>
        && sendProtocol && Known().Some? && remoteProtocol == Some(setting.server)
        && transceiver.responder.invoked == old(transceiver.responder.invoked)
    {
      ghost var cache := H.Lose(transceiver.responder.protocolCache, transceiver.kept(transceiver.exchanges));
      ghost var done := H.ProcessHandshake(setting, cache, req);
      hide Sound, H.NoCollisions, H.TrueCache, H.RequestorOk, H.WriteHandshakeRequest, RequestBytes, GoodRequest,
          H.ProcessHandshake, H.Lose, ReadRequest, ReadResponse, ResponseBytes, GoodResponse;
      H.LosingKeepsTruth(setting, transceiver.responder.protocolCache, transceiver.kept(transceiver.exchanges));
      H.ExchangeOutcome(setting, before, Known(), cache);
      M.ExchangeTeaches(setting, before, Known(), cache);
      if M.KnowsServer(setting, local, Known()) && !before.sendProtocol && ServerRemembers() {
        M.KnownExchange(setting, before, Known(), cache);
      }
      decoder := Transmit(callRequest, body, req);
      res := ReadHandshakeResponse(decoder);
    }

    /** The server gets the request, handshake and call, and its answer comes back whole. */
    method Transmit(callRequest: seq<byte>, body: seq<byte>, ghost req: H.Request) returns (decoder: BinaryDecoder)
      requires transceiver.responder.Valid() && transceiver.responder.p == p && transceiver.responder.setting == setting
      requires Sound(p) && GoodRequest(p, req) && callRequest == RequestBytes(p, req) + body
      modifies transceiver, transceiver.responder
      ensures fresh(decoder) && decoder.Valid() && transceiver.exchanges == old(transceiver.exchanges) + 1
      ensures
        var cache := H.Lose(old(transceiver.responder.protocolCache), transceiver.kept(old(transceiver.exchanges)));
        var done := H.ProcessHandshake(setting, cache, req);
        && transceiver.responder.protocolCache == done.cache
        && transceiver.log == old(transceiver.log) + [(req, done.response)]
        && transceiver.responder.invoked == old(transceiver.responder.invoked)
             + (if done.remote.None? then [] else [(done.remote.value, body)])
        && ReadResponse(p, decoder.Rest()) == Success((done.response,
             if done.remote.None? then [] else transceiver.responder.answer(done.remote.value, body)))
    {
      hide Sound, RequestBytes, GoodRequest, H.TrueCache, H.ProcessHandshake, H.Lose, ReadRequest, ReadResponse,
          ResponseBytes, GoodResponse;
      ghost var cache := H.Lose(transceiver.responder.protocolCache, transceiver.kept(transceiver.exchanges));
      ghost var done := H.ProcessHandshake(setting, cache, req);
      RequestOnTheWire(p, req, body);
      var callResponse := transceiver.Transceive(callRequest);
      ResponseOnTheWire(p, done.response,
          if done.remote.None? then [] else transceiver.responder.answer(done.remote.value, body));
      decoder := new BinaryDecoder(callResponse.value, true);
    }
  }
}
