/**
 * The RPC handshake (avro/devices/avro/ipc.py and the "Handshake" section of the Avro
 * specification) as a state machine: many clients, one server, caches on both sides.
 * A protocol is identified with the text str(protocol) prints.
 */
module Handshake {
  import opened Basics

  type Protocol = string
  type Hash = seq<byte>

  datatype Request = Request(clientHash: Hash, clientProtocol: Option<Protocol>, serverHash: Hash)

  datatype Match = BOTH | CLIENT | NONE

  datatype Response = Response(answer: Match, serverProtocol: Option<Protocol>, serverHash: Option<Hash>)

  const HASH_SIZE := 16

  /** The hash function, the protocol the server speaks, and all the protocols anybody speaks. */
  datatype Setting = Setting(md5: Protocol -> Hash, server: Protocol, spoken: set<Protocol>)

  /** No two of the protocols spoken have the same hash. */
  ghost predicate NoCollisions(setting: Setting) {
    && setting.server in setting.spoken
    && (forall a :: a in setting.spoken ==> |setting.md5(a)| == HASH_SIZE)
    && forall a, b :: a in setting.spoken && b in setting.spoken && setting.md5(a) == setting.md5(b) ==> a == b
  }

  /** A requestor's own fields; send_protocol starts as None, which counts as false. */
  datatype Requestor = Requestor(local: Protocol, remoteProtocol: Option<Protocol>, sendProtocol: bool)

  /** `write_handshake_request`, where known is REMOTE_HASHES.get(remote_name). */
  function WriteHandshakeRequest(setting: Setting, rq: Requestor, known: Option<Hash>): (Request, Requestor) {
    var rq' := if known.None? then rq.(remoteProtocol := Some(rq.local)) else rq;
    var serverHash := if known.None? then setting.md5(rq.local) else known.value;
    (Request(setting.md5(rq.local), if rq.sendProtocol then Some(rq.local) else None, serverHash), rq')
  }

  /** What `process_handshake` answers, and the protocol it takes the client to speak. */
  datatype Processed = Processed(response: Response, cache: map<Hash, Protocol>, remote: Option<Protocol>)

  function ProcessHandshake(setting: Setting, cache: map<Hash, Protocol>, req: Request): Processed {
    var remote :=
      if req.clientHash in cache then Some(cache[req.clientHash])
      else req.clientProtocol;
    var cache' :=
      if req.clientHash !in cache && req.clientProtocol.Some? then cache[req.clientHash := req.clientProtocol.value]
      else cache;
    var answer :=
      if remote.None? then NONE else if setting.md5(setting.server) == req.serverHash then BOTH else CLIENT;
    var response :=
      if answer == BOTH then Response(BOTH, None, None)
      else Response(answer, Some(setting.server), Some(setting.md5(setting.server)));
    Processed(response, cache', remote)
  }

  /** The cache with only the kept entries. */
  function Lose(cache: map<Hash, Protocol>, kept: set<Hash>): map<Hash, Protocol> {
    map h | h in cache && h in kept :: cache[h]
  }

  /** The outcome of `read_handshake_response`: whether a call response follows, and what it stores. */
  datatype Outcome = Outcome(callResponse: bool, rq: Requestor, learnt: Option<Hash>)

  /** None stands for the exception 'Handshake failure.'. */
  function ReadHandshakeResponse(rq: Requestor, resp: Response): Option<Outcome> {
    match resp.answer
    case BOTH => Some(Outcome(true, rq.(sendProtocol := false), None))
    case CLIENT =>
      if rq.sendProtocol then None
      else Some(Outcome(true, rq.(remoteProtocol := resp.serverProtocol, sendProtocol := false), resp.serverHash))
    case NONE =>
      if rq.sendProtocol then None
      else Some(Outcome(false, rq.(remoteProtocol := resp.serverProtocol, sendProtocol := true), resp.serverHash))
  }

  // The state machine

  /** Where a client is with its request; `decoded` lists the protocols with which the server decoded and ran it. */
  datatype Phase =
    | Idle
    | Waiting(req: Request, exchanges: nat, decoded: seq<Protocol>)
    | Answered(resp: Response, exchanges: nat, decoded: seq<Protocol>)
    | Done(exchanges: nat, decoded: seq<Protocol>)
    | Raised

  datatype Client = Client(name: string, rq: Requestor, phase: Phase)

  datatype World = World(clients: map<nat, Client>, hashes: map<string, Hash>, cache: map<Hash, Protocol>)

  datatype Event =
    | Start(c: nat)                  // the client sends a new request
    | Serve(c: nat)                  // the server answers the client's message
    | Receive(c: nat)                  // the client reads the answer
    | Abort(c: nat)                  // the exchange is lost
    | Forget(kept: set<Hash>)        // the server loses cache entries

  function Known(w: World, name: string): Option<Hash> {
    if name in w.hashes then Some(w.hashes[name]) else None
  }

  function Send(setting: Setting, w: World, c: nat, rq: Requestor, exchanges: nat, decoded: seq<Protocol>): World
    requires c in w.clients
  {
    var (req, rq') := WriteHandshakeRequest(setting, rq, Known(w, w.clients[c].name));
    w.(clients := w.clients[c := Client(w.clients[c].name, rq', Waiting(req, exchanges, decoded))])
  }

  /** The next state; an event that is not possible changes nothing. */
  function Next(setting: Setting, w: World, e: Event): World {
    match e
    case Start(c) =>
      if c in w.clients && (w.clients[c].phase.Idle? || w.clients[c].phase.Done?) then
        Send(setting, w, c, w.clients[c].rq, 1, [])
      else w
    case Serve(c) =>
      if c in w.clients && w.clients[c].phase.Waiting? then
        var client := w.clients[c];
        var res := ProcessHandshake(setting, w.cache, client.phase.req);
        var decoded := client.phase.decoded + if res.remote.Some? then [res.remote.value] else [];
        World(w.clients[c := client.(phase := Answered(res.response, client.phase.exchanges, decoded))], w.hashes,
            res.cache)
      else w
    case Receive(c) =>
      if c in w.clients && w.clients[c].phase.Answered? then
        var client := w.clients[c];
        match ReadHandshakeResponse(client.rq, client.phase.resp)
        case None => w.(clients := w.clients[c := client.(phase := Raised)])
        case Some(out) =>
          var w' := if out.learnt.None? then w else w.(hashes := w.hashes[client.name := out.learnt.value]);
          if out.callResponse then
            w'.(clients := w.clients[c := client.(rq := out.rq,
                phase := Done(client.phase.exchanges, client.phase.decoded))])
          else
            Send(setting, w', c, out.rq, client.phase.exchanges + 1, client.phase.decoded)
      else w
    case Abort(c) =>
      if c in w.clients && (w.clients[c].phase.Waiting? || w.clients[c].phase.Answered?) then
        w.(clients := w.clients[c := w.clients[c].(phase := Idle)])
      else w
    case Forget(kept) => w.(cache := Lose(w.cache, kept))
  }

  function Run(setting: Setting, w: World, events: seq<Event>): World {
    if events == [] then w
    else Next(setting, Run(setting, w, events[..|events| - 1]), events[|events| - 1])
  }

  /** New requestors, nothing in REMOTE_HASHES, and a server that knows its own protocol. */
  ghost predicate Initial(setting: Setting, w: World) {
    && (forall c :: c in w.clients ==>
          && w.clients[c].phase == Idle && w.clients[c].rq == Requestor(w.clients[c].rq.local, None, false)
          && w.clients[c].rq.local in setting.spoken)
    && w.hashes == map[] && w.cache == map[setting.md5(setting.server) := setting.server]
  }

  ghost predicate UniqueNames(w: World) {
    forall c, d :: c in w.clients && d in w.clients && w.clients[c].name == w.clients[d].name ==> c == d
  }

  // Invariants

  ghost predicate TrueCache(setting: Setting, cache: map<Hash, Protocol>) {
    forall h :: h in cache ==> cache[h] in setting.spoken && setting.md5(cache[h]) == h
  }

  /** What holds of a requestor's fields between calls, where known is REMOTE_HASHES.get(remote_name). */
  ghost predicate RequestorOk(setting: Setting, rq: Requestor, known: Option<Hash>) {
    && rq.local in setting.spoken && (known.Some? ==> known.value == setting.md5(setting.server))
    && (rq.sendProtocol ==> known.Some? && rq.remoteProtocol == Some(setting.server))
  }

  /** Caches hold only true facts: every known hash is the server's, every cached protocol has its key as hash. */
  ghost predicate TrueCaches(setting: Setting, w: World) {
    && (forall name :: name in w.hashes ==> w.hashes[name] == setting.md5(setting.server))
    && TrueCache(setting, w.cache)
  }

  ghost predicate ClientOk(setting: Setting, w: World, client: Client) {
    var rq := client.rq;
    && RequestorOk(setting, rq, Known(w, client.name))
    && match client.phase
       case Idle => true
       case Waiting(req, exchanges, decoded) =>
         && req.clientHash == setting.md5(rq.local) && decoded == []
         && req.clientProtocol == (if rq.sendProtocol then Some(rq.local) else None)
         && (rq.sendProtocol ==> req.serverHash == setting.md5(setting.server))
         && (exchanges == 1 || (exchanges == 2 && rq.sendProtocol))
       case Answered(resp, exchanges, decoded) =>
         && (resp.answer != BOTH ==>
               && !rq.sendProtocol && exchanges == 1
               && resp.serverProtocol == Some(setting.server) && resp.serverHash == Some(setting.md5(setting.server)))
         && (exchanges == 1 || exchanges == 2)
         && decoded == (if resp.answer == NONE then [] else [rq.local])
       case Done(exchanges, decoded) => 1 <= exchanges <= 2 && decoded == [rq.local]
       case Raised => false
  }

  ghost predicate Inv(setting: Setting, w: World) {
    TrueCaches(setting, w) && forall c :: c in w.clients ==> ClientOk(setting, w, w.clients[c])
  }

  /** With one requestor per remote name, a stored hash comes with the server's protocol. */
  ghost predicate ClientAgrees(setting: Setting, w: World, client: Client) {
    && (client.name in w.hashes ==> client.rq.remoteProtocol == Some(setting.server))
    && match client.phase
       case Waiting(req, _, _) =>
         if client.name in w.hashes then req.serverHash == setting.md5(setting.server)
         else req.serverHash == setting.md5(client.rq.local) && client.rq.remoteProtocol == Some(client.rq.local)
       case Answered(resp, _, _) =>
         resp.answer == BOTH ==> client.rq.remoteProtocol == Some(setting.server)
       case Done(_, _) => client.rq.remoteProtocol == Some(setting.server)
       case _ => true
  }

  ghost predicate Agreement(setting: Setting, w: World) {
    UniqueNames(w) && forall c :: c in w.clients ==> ClientAgrees(setting, w, w.clients[c])
  }

  /**
   * One exchange of a requestor whose remote hash, if known, is right, with a server whose cache is
   * true: the handshake does not fail; the server either runs the request with the requestor's own
   * protocol or asks for that protocol, once; and the requestor ends up without the server's protocol
   * exactly if it took the hash from another requestor and the server asked for nothing.
   */
  lemma ExchangeOutcome(setting: Setting, rq: Requestor, known: Option<Hash>, cache: map<Hash, Protocol>)
    requires NoCollisions(setting) && TrueCache(setting, cache) && RequestorOk(setting, rq, known)
    ensures
      var (req, rq') := WriteHandshakeRequest(setting, rq, known);
      var done := ProcessHandshake(setting, cache, req);
      var read := ReadHandshakeResponse(rq', done.response);
      && TrueCache(setting, done.cache) && read.Some?
      && RequestorOk(setting, read.value.rq, if read.value.learnt.Some? then read.value.learnt else known)
      && read.value.callResponse == done.remote.Some?
      && (done.remote.Some? ==>
            && done.remote.value == rq.local
            && (read.value.rq.remoteProtocol == Some(setting.server) <==>
                  known.None? || rq.remoteProtocol == Some(setting.server)))
      && (done.remote.None? <==> !rq.sendProtocol && setting.md5(rq.local) !in cache)
      && (done.remote.None? ==> read.value.rq.sendProtocol && read.value.learnt.Some?)
  {
  }

  lemma LosingKeepsTruth(setting: Setting, cache: map<Hash, Protocol>, kept: set<Hash>)
    requires TrueCache(setting, cache)
    ensures TrueCache(setting, Lose(cache, kept))
  {
  }

  lemma ServeKeeps(setting: Setting, w: World, c: nat)
    requires NoCollisions(setting) && Inv(setting, w)
    ensures Inv(setting, Next(setting, w, Serve(c)))
  {
    if c in w.clients && w.clients[c].phase.Waiting? {
      var client := w.clients[c];
      assert ClientOk(setting, w, client);
      var res := ProcessHandshake(setting, w.cache, client.phase.req);
      var w' := Next(setting, w, Serve(c));
      assert res.remote.Some? ==> setting.md5(res.remote.value) == setting.md5(client.rq.local);
      assert ClientOk(setting, w', w'.clients[c]);
      forall d | d in w'.clients && d != c ensures ClientOk(setting, w', w'.clients[d]) {
        assert ClientOk(setting, w, w.clients[d]);
      }
    }
  }

  lemma ReceiveKeepsItself(setting: Setting, w: World, c: nat)
    requires TrueCaches(setting, w) && c in w.clients && ClientOk(setting, w, w.clients[c])
    ensures TrueCaches(setting, Next(setting, w, Receive(c)))
    ensures var w' := Next(setting, w, Receive(c)); ClientOk(setting, w', w'.clients[c])
  {
  }

  lemma ReceiveKeepsOthers(setting: Setting, w: World, c: nat, d: nat)
    requires c in w.clients && d in w.clients && c != d
    requires ClientOk(setting, w, w.clients[c]) && ClientOk(setting, w, w.clients[d])
    ensures var w' := Next(setting, w, Receive(c)); d in w'.clients && ClientOk(setting, w', w'.clients[d])
  {
  }

  lemma ReceiveKeeps(setting: Setting, w: World, c: nat)
    requires Inv(setting, w)
    ensures Inv(setting, Next(setting, w, Receive(c)))
  {
    if c in w.clients {
      ReceiveKeepsItself(setting, w, c);
      var w' := Next(setting, w, Receive(c));
      assert w'.clients.Keys == w.clients.Keys;
      hide ClientOk, TrueCaches, Next;
      forall d | d in w'.clients ensures ClientOk(setting, w', w'.clients[d]) {
        if d != c {
          ReceiveKeepsOthers(setting, w, c, d);
        }
      }
    }
  }

  lemma NextKeeps(setting: Setting, w: World, e: Event)
    requires NoCollisions(setting) && Inv(setting, w)
    ensures Inv(setting, Next(setting, w, e))
  {
    match e
    case Serve(c) => ServeKeeps(setting, w, c);
    case Receive(c) => ReceiveKeeps(setting, w, c);
    case _ =>
      var w' := Next(setting, w, e);
      forall d | d in w'.clients ensures ClientOk(setting, w', w'.clients[d]) {
        assert ClientOk(setting, w, w.clients[d]);
      }
  }

  lemma StartAgrees(setting: Setting, w: World, c: nat)
    requires Inv(setting, w) && Agreement(setting, w) && c in w.clients
    ensures ClientAgrees(setting, Next(setting, w, Start(c)), Next(setting, w, Start(c)).clients[c])
  {
    assert ClientAgrees(setting, w, w.clients[c]);
  }

  lemma ServeAgrees(setting: Setting, w: World, c: nat)
    requires NoCollisions(setting) && Inv(setting, w) && Agreement(setting, w) && c in w.clients
    ensures ClientAgrees(setting, Next(setting, w, Serve(c)), Next(setting, w, Serve(c)).clients[c])
  {
    assert ClientOk(setting, w, w.clients[c]) && ClientAgrees(setting, w, w.clients[c]);
  }

  lemma ReceiveAgrees(setting: Setting, w: World, c: nat)
    requires Inv(setting, w) && Agreement(setting, w) && c in w.clients
    ensures ClientAgrees(setting, Next(setting, w, Receive(c)), Next(setting, w, Receive(c)).clients[c])
  {
    assert ClientOk(setting, w, w.clients[c]) && ClientAgrees(setting, w, w.clients[c]);
  }

  /** What one client does leaves all others, and what is known about their remote names, alone. */
  lemma OthersUnchanged(setting: Setting, w: World, e: Event, d: nat)
    requires UniqueNames(w) && d in w.clients && !e.Forget? && !e.Abort? && e.c != d
    ensures
      var w' := Next(setting, w, e);
      && d in w'.clients && w'.clients[d] == w.clients[d]
      && (w.clients[d].name in w'.hashes <==> w.clients[d].name in w.hashes)
  {
    if e.c in w.clients {
      assert w.clients[e.c].name != w.clients[d].name;
    }
  }

  lemma NamesAreKept(setting: Setting, w: World, e: Event)
    ensures Next(setting, w, e).clients.Keys == w.clients.Keys
    ensures forall d :: d in w.clients ==> Next(setting, w, e).clients[d].name == w.clients[d].name
  {
  }

  lemma EachAgrees(setting: Setting, w: World, e: Event, d: nat)
    requires NoCollisions(setting) && Inv(setting, w) && Agreement(setting, w) && d in w.clients
    ensures d in Next(setting, w, e).clients
    ensures ClientAgrees(setting, Next(setting, w, e), Next(setting, w, e).clients[d])
  {
    assert UniqueNames(w) && ClientAgrees(setting, w, w.clients[d]);
    if e.Abort? || e.Forget? {
    } else if e.c == d {
      hide Inv, NoCollisions, Agreement, Next, ClientAgrees;
      NamesAreKept(setting, w, e);
      match e
      case Start(c) => StartAgrees(setting, w, c);
      case Serve(c) => ServeAgrees(setting, w, c);
      case Receive(c) => ReceiveAgrees(setting, w, c);
    } else {
      hide Inv, NoCollisions, Agreement, Next;
      OthersUnchanged(setting, w, e, d);
    }
  }

  lemma NextAgrees(setting: Setting, w: World, e: Event)
    requires NoCollisions(setting) && Inv(setting, w) && Agreement(setting, w)
    ensures Agreement(setting, Next(setting, w, e))
  {
    hide Inv, NoCollisions, Next, ClientAgrees;
    var w' := Next(setting, w, e);
    NamesAreKept(setting, w, e);
    forall d | d in w'.clients ensures ClientAgrees(setting, w', w'.clients[d]) {
      EachAgrees(setting, w, e, d);
    }
  }

  lemma {:induction false} RunKeeps(setting: Setting, w: World, events: seq<Event>)
    requires NoCollisions(setting) && Initial(setting, w)
    ensures Inv(setting, Run(setting, w, events))
    ensures UniqueNames(w) ==> Agreement(setting, Run(setting, w, events))
  {
    if events != [] {
      var init := events[..|events| - 1];
      RunKeeps(setting, w, init);
      NextKeeps(setting, Run(setting, w, init), events[|events| - 1]);
      if UniqueNames(w) {
        NextAgrees(setting, Run(setting, w, init), events[|events| - 1]);
      }
    }
  }

  /**
   * Over every interleaving of requests, lost exchanges and lost cache entries, and however the
   * clients share remote names: 'Handshake failure.' is never raised; a request takes at most two
   * exchanges; and when it ends, the server has run it exactly once, decoded with the client's own protocol.
   */
  lemma TwoExchanges(setting: Setting, w: World, events: seq<Event>, c: nat)
    requires NoCollisions(setting) && Initial(setting, w) && c in Run(setting, w, events).clients
    ensures
      var client := Run(setting, w, events).clients[c];
      match client.phase
      case Raised => false
      case Idle => true
      case Waiting(_, exchanges, decoded) => exchanges <= 2 && decoded == []
      case Answered(_, exchanges, decoded) => exchanges <= 2 && decoded <= [client.rq.local]
      case Done(exchanges, decoded) => exchanges <= 2 && decoded == [client.rq.local]
  {
    RunKeeps(setting, w, events);
    assert ClientOk(setting, Run(setting, w, events), Run(setting, w, events).clients[c]);
  }

  /** With one requestor per remote name, a client reads the call response with the server's protocol. */
  lemma ResponseIsReadWithTheServersProtocol(setting: Setting, w: World, events: seq<Event>, c: nat)
    requires NoCollisions(setting) && Initial(setting, w) && UniqueNames(w)
    requires c in Run(setting, w, events).clients && Run(setting, w, events).clients[c].phase.Done?
    ensures Run(setting, w, events).clients[c].rq.remoteProtocol == Some(setting.server)
  {
    RunKeeps(setting, w, events);
    assert ClientAgrees(setting, Run(setting, w, events), Run(setting, w, events).clients[c]);
  }

  lemma RunSnoc(setting: Setting, w: World, events: seq<Event>, e: Event)
    ensures Run(setting, w, events + [e]) == Next(setting, Run(setting, w, events), e)
  {
    assert (events + [e])[..|events|] == events;
  }

  function TwoRequestors(setting: Setting, name: string, a: Protocol): World {
    World(map[0 := Client(name, Requestor(a, None, false), Idle), 1 := Client(name, Requestor(a, None, false), Idle)],
          map[], map[setting.md5(setting.server) := setting.server])
  }

  /** The second requestor has done nothing yet. */
  ghost predicate OtherIdle(name: string, a: Protocol, w: World) {
    && w.clients.Keys == {0, 1} && w.clients[0].name == name && w.clients[0].rq.local == a
    && w.clients[1] == Client(name, Requestor(a, None, false), Idle)
  }

  /** The server does not know the first requestor's protocol and says so. */
  lemma FirstExchange(setting: Setting, name: string, a: Protocol)
    requires NoCollisions(setting) && a in setting.spoken && a != setting.server
    ensures
      var w := Run(setting, TwoRequestors(setting, name, a), [Start(0), Serve(0)]);
      && OtherIdle(name, a, w) && w.hashes == map[]
      && w.clients[0] == Client(name, Requestor(a, Some(a), false),
                                Answered(Response(NONE, Some(setting.server), Some(setting.md5(setting.server))), 1,
                                         []))
  {
    var w0 := TwoRequestors(setting, name, a);
    assert setting.md5(a) != setting.md5(setting.server);
    var none: seq<Event> := [];
    assert none + [Start(0)] == [Start(0)] && [Start(0)] + [Serve(0)] == [Start(0), Serve(0)];
    RunSnoc(setting, w0, none, Start(0));
    RunSnoc(setting, w0, [Start(0)], Serve(0));
    var nobody: seq<Protocol> := [];
    assert nobody + nobody == nobody;
  }

  /** The protocol is sent, and the server's hash becomes known under the shared name. */
  lemma SendsProtocol(setting: Setting, name: string, a: Protocol, w: World)
    requires OtherIdle(name, a, w) && w.clients[0].phase.Answered? && !w.clients[0].rq.sendProtocol
    requires w.clients[0].phase.resp == Response(NONE, Some(setting.server), Some(setting.md5(setting.server)))
    ensures
      var w' := Next(setting, w, Receive(0));
      && OtherIdle(name, a, w') && w'.clients[0].phase.Waiting? && w'.clients[0].rq.sendProtocol
      && w'.clients[0].phase.req == Request(setting.md5(a), Some(a), setting.md5(setting.server))
      && name in w'.hashes && w'.hashes[name] == setting.md5(setting.server)
  {
  }

  /** The server now knows the protocol, and both sides agree. */
  lemma LearnsProtocol(setting: Setting, name: string, a: Protocol, w: World)
    requires OtherIdle(name, a, w) && w.clients[0].phase.Waiting?
    requires w.clients[0].phase.req == Request(setting.md5(a), Some(a), setting.md5(setting.server))
    ensures
      var w' := Next(setting, Next(setting, w, Serve(0)), Receive(0));
      && OtherIdle(name, a, w') && w'.hashes == w.hashes && setting.md5(a) in w'.cache
  {
    var w1 := Next(setting, w, Serve(0));
    assert w1.clients[0].phase.resp.answer == BOTH && setting.md5(a) in w1.cache;
  }

  /** The second requestor takes over the server's hash, but has no protocol to go with it. */
  lemma TakesOver(setting: Setting, name: string, a: Protocol, w: World)
    requires OtherIdle(name, a, w) && setting.md5(a) in w.cache
    requires name in w.hashes && w.hashes[name] == setting.md5(setting.server)
    ensures
      var w' := Next(setting, Next(setting, Next(setting, w, Start(1)), Serve(1)), Receive(1));
      1 in w'.clients && w'.clients[1].phase.Done? && w'.clients[1].rq.remoteProtocol == None
  {
    var w1 := Next(setting, w, Start(1));
    assert w1.clients[1].phase.req == Request(setting.md5(a), None, setting.md5(setting.server));
    var w2 := Next(setting, w1, Serve(1));
    assert w2.clients[1].phase.resp.answer == BOTH;
  }

  /** Two requestors behind one remote name: the second ends its request without any remote protocol. */
  lemma SharedNameFails(setting: Setting, name: string, a: Protocol)
    requires NoCollisions(setting) && a in setting.spoken && a != setting.server
    ensures
      var w := TwoRequestors(setting, name, a);
      var w' := Run(setting, w, [Start(0), Serve(0), Receive(0), Serve(0), Receive(0), Start(1), Serve(1), Receive(1)]);
      Initial(setting, w) && 1 in w'.clients && w'.clients[1].phase.Done? && w'.clients[1].rq.remoteProtocol == None
  {
    var w0 := TwoRequestors(setting, name, a);
    assert Initial(setting, w0);
    FirstExchange(setting, name, a);
    hide Next, Run, TwoRequestors, Initial, NoCollisions;
    var w2 := Run(setting, w0, [Start(0), Serve(0)]);
    var w3 := Next(setting, w2, Receive(0));
    var w5 := Next(setting, Next(setting, w3, Serve(0)), Receive(0));
    SendsProtocol(setting, name, a, w2);
    LearnsProtocol(setting, name, a, w3);
    TakesOver(setting, name, a, w5);
    hide OtherIdle;
    RunSix(setting, w0, [Start(0), Serve(0)], Receive(0), Serve(0), Receive(0), Start(1), Serve(1), Receive(1));
    EightEvents();
  }

  lemma EightEvents()
    ensures [Start(0), Serve(0)] + [Receive(0), Serve(0), Receive(0), Start(1), Serve(1), Receive(1)]
      == [Start(0), Serve(0), Receive(0), Serve(0), Receive(0), Start(1), Serve(1), Receive(1)]
  {
  }

  lemma RunSix(setting: Setting, w: World, es: seq<Event>, e1: Event, e2: Event, e3: Event, e4: Event, e5: Event,
               e6: Event)
    ensures Run(setting, w, es + [e1, e2, e3, e4, e5, e6]) ==
      Next(setting, Next(setting, Next(setting, Next(setting, Next(setting, Next(setting, Run(setting, w, es), e1), e2),
          e3), e4), e5), e6)
  {
    hide Next, Run;
    RunSnoc(setting, w, es, e1);
    RunSnoc(setting, w, es + [e1], e2);
    RunSnoc(setting, w, es + [e1] + [e2], e3);
    RunSnoc(setting, w, es + [e1] + [e2] + [e3], e4);
    RunSnoc(setting, w, es + [e1] + [e2] + [e3] + [e4], e5);
    RunSnoc(setting, w, es + [e1] + [e2] + [e3] + [e4] + [e5], e6);
    assert es + [e1] + [e2] + [e3] + [e4] + [e5] + [e6] == es + [e1, e2, e3, e4, e5, e6];
  }
}
