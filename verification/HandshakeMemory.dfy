/** What a client remembers of its server, and what that saves it (avro/devices/avro/ipc.py). */
module HandshakeMemory {
  import opened Basics
  import opened Handshake

  /** The next request names the server's hash: it is known, or it is the client's own, which is sent in its place. */
  ghost predicate KnowsServer(setting: Setting, local: Protocol, known: Option<Hash>) {
    if known.Some? then known.value == setting.md5(setting.server) else local == setting.server
  }

  /**
   * One exchange. The server's hash is known afterwards unless nothing was known before and the
   * client's own hash, sent in its place, was the right one. The server remembers a client it understood.
   */
  lemma ExchangeTeaches(setting: Setting, rq: Requestor, known: Option<Hash>, cache: map<Hash, Protocol>)
    requires NoCollisions(setting) && TrueCache(setting, cache) && RequestorOk(setting, rq, known)
    ensures
      var (req, rq') := WriteHandshakeRequest(setting, rq, known);
      var done := ProcessHandshake(setting, cache, req);
      var read := ReadHandshakeResponse(rq', done.response);
      && read.Some?
      && (var after := if read.value.learnt.Some? then read.value.learnt else known;
         && KnowsServer(setting, rq.local, after)
         && (after.Some? <==> known.Some? || rq.local != setting.server || done.remote.None?))
      && (done.remote.Some? <==> setting.md5(rq.local) in done.cache)
  {
  }

  /** Where both sides remember each other, the request carries hashes only and is answered BOTH. */
  lemma KnownExchange(setting: Setting, rq: Requestor, known: Option<Hash>, cache: map<Hash, Protocol>)
    requires KnowsServer(setting, rq.local, known) && !rq.sendProtocol && setting.md5(rq.local) in cache
    ensures
      var (req, rq') := WriteHandshakeRequest(setting, rq, known);
      var done := ProcessHandshake(setting, cache, req);
      && req == Request(setting.md5(rq.local), None, setting.md5(setting.server))
      && done.response == Response(BOTH, None, None)
      && ReadHandshakeResponse(rq', done.response) == Some(Outcome(true, rq', None))
  {
  }

  /**
   * Whatever the server has cached and the client remembers, true or not: the handshake fails exactly
   * if the client was asked for its protocol and the hash it sends along is not the server's.
   */
  lemma HandshakeFailsExactly(setting: Setting, rq: Requestor, known: Option<Hash>, cache: map<Hash, Protocol>)
    ensures
      var (req, rq') := WriteHandshakeRequest(setting, rq, known);
      var done := ProcessHandshake(setting, cache, req);
      ReadHandshakeResponse(rq', done.response).None? <==>
        rq.sendProtocol && (if known.Some? then known.value else setting.md5(rq.local)) != setting.md5(setting.server)
  {
  }

  /**
   * Whatever a client sends, true or not: no entry of the server's cache changes, the client's own is
   * added if there is none, and the request is decoded with the protocol that the cache then holds.
   */
  lemma EntriesNeverChange(setting: Setting, cache: map<Hash, Protocol>, req: Request)
    ensures
      var done := ProcessHandshake(setting, cache, req);
      && (forall h :: h in cache ==> h in done.cache && done.cache[h] == cache[h])
      && done.cache.Keys == cache.Keys + (if req.clientProtocol.Some? then {req.clientHash} else {})
      && done.remote == (if req.clientHash in done.cache then Some(done.cache[req.clientHash]) else None)
      && (req.clientHash !in cache && req.clientProtocol.Some? ==> done.remote == req.clientProtocol)
  {
  }

  // The same over the runs of the state machine

  ghost predicate Remembers(setting: Setting, w: World, client: Client) {
    client.name in w.hashes || client.rq.local == setting.server
  }

  /** A client whose request was answered, or will be answered BOTH, knows the server's hash. */
  ghost predicate ClientLearns(setting: Setting, w: World, client: Client) {
    match client.phase
    case Idle => true
    case Waiting(req, _, _) => req.serverHash == setting.md5(setting.server) ==> Remembers(setting, w, client)
    case Answered(resp, _, _) => resp.answer == BOTH ==> Remembers(setting, w, client)
    case Done(_, _) => Remembers(setting, w, client) && !client.rq.sendProtocol
    case Raised => true
  }

  ghost predicate Learning(setting: Setting, w: World) {
    forall c :: c in w.clients ==> ClientLearns(setting, w, w.clients[c])
  }

  lemma ActorLearns(setting: Setting, w: World, e: Event)
    requires NoCollisions(setting) && Inv(setting, w) && Learning(setting, w)
    requires !e.Forget? && e.c in w.clients
    ensures var w' := Next(setting, w, e); e.c in w'.clients && ClientLearns(setting, w', w'.clients[e.c])
  {
    assert ClientOk(setting, w, w.clients[e.c]) && ClientLearns(setting, w, w.clients[e.c]);
  }

  /** No step forgets a hash, and only the acting client changes. */
  lemma OthersKeepLearning(setting: Setting, w: World, e: Event, d: nat)
    requires Learning(setting, w) && d in w.clients && (e.Forget? || e.c != d)
    ensures
      var w' := Next(setting, w, e);
      && d in w'.clients && w'.clients[d] == w.clients[d] && ClientLearns(setting, w', w'.clients[d])
  {
    assert ClientLearns(setting, w, w.clients[d]);
  }

  lemma NextLearns(setting: Setting, w: World, e: Event)
    requires NoCollisions(setting) && Inv(setting, w) && Learning(setting, w)
    ensures Learning(setting, Next(setting, w, e))
  {
    var w' := Next(setting, w, e);
    NamesAreKept(setting, w, e);
    hide Next, ClientLearns, NoCollisions, Inv;
    forall d | d in w'.clients ensures ClientLearns(setting, w', w'.clients[d]) {
      if e.Forget? || e.c != d {
        OthersKeepLearning(setting, w, e, d);
      } else {
        ActorLearns(setting, w, e);
      }
    }
  }

  lemma {:induction false} RunLearns(setting: Setting, w: World, events: seq<Event>)
    requires NoCollisions(setting) && Initial(setting, w)
    ensures Learning(setting, Run(setting, w, events))
  {
    if events != [] {
      var init := events[..|events| - 1];
      RunLearns(setting, w, init);
      RunKeeps(setting, w, init);
      hide Next, Initial, NoCollisions, Learning, Inv;
      NextLearns(setting, Run(setting, w, init), events[|events| - 1]);
    }
  }

  /**
   * However the requests interleave, share remote names and are lost: a client whose request has
   * ended knows the server's hash, unless its own protocol is the server's.
   */
  lemma AnsweredClientsKnow(setting: Setting, w: World, events: seq<Event>, c: nat)
    requires NoCollisions(setting) && Initial(setting, w)
    requires c in Run(setting, w, events).clients && Run(setting, w, events).clients[c].phase.Done?
    ensures
      var w' := Run(setting, w, events);
      KnowsServer(setting, w'.clients[c].rq.local, Known(w', w'.clients[c].name)) && !w'.clients[c].rq.sendProtocol
  {
    RunLearns(setting, w, events);
    RunKeeps(setting, w, events);
    var w' := Run(setting, w, events);
    hide Run, Initial, NoCollisions;
    assert ClientLearns(setting, w', w'.clients[c]) && ClientOk(setting, w', w'.clients[c]);
  }

  /** Client c and the server remember each other, and c's request, if any, is in its only exchange. */
  ghost predicate Settled(setting: Setting, w: World, c: nat) {
    c in w.clients &&
    var client := w.clients[c];
    var hash := setting.md5(client.rq.local);
    && Remembers(setting, w, client) && !client.rq.sendProtocol && hash in w.cache
    && match client.phase
       case Idle => true
       case Waiting(req, exchanges, _) =>
         req == Request(hash, None, setting.md5(setting.server)) && exchanges == 1
       case Answered(resp, exchanges, _) => resp == Response(BOTH, None, None) && exchanges == 1
       case Done(exchanges, _) => exchanges == 1
       case Raised => false
  }

  /** The server loses entries, but not this one. */
  predicate Spares(events: seq<Event>, hash: Hash) {
    forall e :: e in events && e.Forget? ==> hash in e.kept
  }

  lemma ActorStaysSettled(setting: Setting, w: World, e: Event)
    requires Inv(setting, w) && !e.Forget? && Settled(setting, w, e.c)
    ensures
      var w' := Next(setting, w, e);
      Settled(setting, w', e.c) && w'.clients[e.c].rq.local == w.clients[e.c].rq.local
  {
    assert ClientOk(setting, w, w.clients[e.c]);
  }

  lemma OthersStaySettled(setting: Setting, w: World, e: Event, c: nat)
    requires Settled(setting, w, c) && (if e.Forget? then setting.md5(w.clients[c].rq.local) in e.kept else e.c != c)
    ensures var w' := Next(setting, w, e); Settled(setting, w', c) && w'.clients[c].rq.local == w.clients[c].rq.local
  {
  }

  lemma {:induction false} StaysSettled(setting: Setting, w: World, events: seq<Event>, c: nat)
    requires NoCollisions(setting) && Inv(setting, w) && Settled(setting, w, c)
    requires Spares(events, setting.md5(w.clients[c].rq.local))
    ensures Inv(setting, Run(setting, w, events)) && Settled(setting, Run(setting, w, events), c)
    ensures Run(setting, w, events).clients[c].rq.local == w.clients[c].rq.local
  {
    hide Inv, Settled, NoCollisions, Next;
    if events != [] {
      var init, e := events[..|events| - 1], events[|events| - 1];
      StaysSettled(setting, w, init, c);
      var w' := Run(setting, w, init);
      NextKeeps(setting, w', e);
      if !e.Forget? && e.c == c {
        ActorStaysSettled(setting, w', e);
      } else {
        OthersStaySettled(setting, w', e, c);
      }
    }
  }

  lemma StartSettles(setting: Setting, w: World, c: nat)
    requires NoCollisions(setting) && Inv(setting, w) && Learning(setting, w) && c in w.clients
    requires w.clients[c].phase.Done? && setting.md5(w.clients[c].rq.local) in w.cache
    ensures
      var w' := Next(setting, w, Start(c));
      && Settled(setting, w', c) && w'.clients[c].phase.Waiting? && w'.clients[c].rq.local == w.clients[c].rq.local
  {
    assert ClientLearns(setting, w, w.clients[c]) && ClientOk(setting, w, w.clients[c]);
  }

  /**
   * A client that has had one request answered sends its next, and all further ones, without its
   * protocol and with the server's hash, has them answered BOTH and needs one exchange for each,
   * as long as the server does not forget the client's protocol, whatever all others do meanwhile.
   */
  lemma FromThenOnOneExchange(setting: Setting, w: World, before: seq<Event>, after: seq<Event>, c: nat)
    requires NoCollisions(setting) && Initial(setting, w) && c in Run(setting, w, before).clients
    requires
      var client := Run(setting, w, before).clients[c];
      var hash := setting.md5(client.rq.local);
      client.phase.Done? && hash in Run(setting, w, before).cache && Spares(after, hash)
    ensures Settled(setting, Run(setting, Run(setting, w, before + [Start(c)]), after), c)
  {
    RunLearns(setting, w, before);
    RunKeeps(setting, w, before);
    RunSnoc(setting, w, before, Start(c));
    hide Inv, Learning, Settled, NoCollisions, Initial, Next, Run;
    StartSettles(setting, Run(setting, w, before), c);
    NextKeeps(setting, Run(setting, w, before), Start(c));
    StaysSettled(setting, Run(setting, w, before + [Start(c)]), after, c);
  }

  /** And the exchange leads to the end of the request when nobody interferes. */
  lemma OneExchangeIsEnough(setting: Setting, w: World, c: nat)
    requires Settled(setting, w, c) && w.clients[c].phase.Waiting?
    ensures
      var w' := Next(setting, Next(setting, w, Serve(c)), Receive(c));
      c in w'.clients && w'.clients[c].phase.Done? && w'.clients[c].phase.exchanges == 1
  {
  }
}
