/** The invariant of an honest session: what each stage of it looks like. */
module ChannelInvariant {
  import opened Wrappers
  import opened Bytes
  import opened Framing
  import opened Pipes
  import opened Protocol
  import opened HonestChannel
  import Texts
  import ReplayGuard
  import RL = RecordLayer
  import S = ServerConnection
  import C = ClientConnection
  import ClientRuns

  // ---------- What the messages contain ----------

  /** The channel key that the client derives from the pinned key. */
  function Key(p: Params, t: Terms): bytes {
    var u := p.Suite();
    u.channelKey(u.encapsulate(u.kemPair(t.kem).publicKey, t.coin).1, t.correlationId)
  }

  function Channel(p: Params, t: Terms): RL.Layer {
    RL.Layer(None, None).SetChannel(Key(p, t), t.correlationId, p.server.imperial)
  }

  function ClientKey(p: Params, t: Terms): bytes {
    p.Suite().sigPair(t.sigIndex).publicKey
  }

  predicate Addressed(w: Wire, kind: Kind, correlationId: string) {
    w.kind == kind && ValidSchema(w) && w.correlationId == Some(correlationId) && w.protocolVersion == Some(1)
  }

  predicate IsHello(p: Params, t: Terms, w: Wire) {
    Addressed(w, ClientHello, t.correlationId)
  }

  predicate IsServerHello(p: Params, t: Terms, w: Wire) {
    && Addressed(w, ServerHello, t.correlationId)
    && w.kemPublicKey == Some(p.Suite().kemPair(t.kem).publicKey)
    && w.sigPublicKey == Some(p.server.sigKeys.publicKey)
    && w.certificate.value.kemPublicKey == w.kemPublicKey.value
    && w.certificate.value.sigPublicKey == w.sigPublicKey.value
  }

  predicate IsAuth(p: Params, t: Terms, w: Wire) {
    && Addressed(w, ClientAuthResponse, t.correlationId)
    && w.encapsulatedKey == Some(p.Suite().encapsulate(p.Suite().kemPair(t.kem).publicKey, t.coin).0)
    && w.clientPublicKeySig == Some(ClientKey(p, t))
    && w.kemPublicKey == Some(t.kemPublicKey)
    && w.signature.value != []
    && S.SignedKeys(p.server, w, ClientKey(p, t), t.correlationId)
  }

  /** The ticket opens to this channel, its key and its client, and lives as long as configured from its issue on. */
  predicate GoodTicket(p: Params, t: Terms, ticket: string) {
    && ticket != ""
    && var payload := p.Suite().tickets.parse(ticket);
    && payload.Some?
    && payload.value.correlationId == t.correlationId
    && payload.value.aesKey == Key(p, t)
    && payload.value.clientSigPublicKey == ClientKey(p, t)
    && payload.value.expiresAt == t.issuedAt + p.server.sessionTtlMs
  }

  predicate IsServerAuth(p: Params, t: Terms, w: Wire) {
    && Addressed(w, ServerAuthResponse, t.correlationId)
    && w.sigPublicKey == Some(p.server.sigKeys.publicKey)
    && w.signature.value != []
    && ClientRuns.SignedAnswer(p.client, w, p.server.sigKeys.publicKey, t.correlationId)
    && w.sessionTicket.Some? && GoodTicket(p, t, w.sessionTicket.value)
  }

  /** The n-th record of one direction, opening to this body for this service. */
  predicate IsRecord(p: Params, t: Terms, w: Wire, n: nat, d: Delivery) {
    && Addressed(w, EncryptedData, t.correlationId)
    && w.sequence == Some(n)
    && var r := Channel(p, t).Open(p.Suite().sealing, Key(p, t), RecordIn(w), w.timestamp.value, RL.Application);
    && r.Ok? && r.value.recordType == RL.Application && r.value.serviceId == d.serviceId && r.value.body == d.body
  }

  /** The wires carry what is listed from position `from` on. */
  predicate Records(p: Params, t: Terms, wires: seq<Wire>, list: seq<Delivery>, from: nat) {
    && |wires| + from == |list|
    && forall i :: 0 <= i < |wires| ==> IsRecord(p, t, wires[i], from + i + 1, list[from + i])
  }

  /** Every reply is for the service of the request in its place, and so is the one the router still works on. */
  predicate Answers(replied: seq<Delivery>, routed: seq<Delivery>, c: S.Conn) {
    && |replied| + S.Busy(c) == |routed|
    && (forall i :: 0 <= i < |replied| ==> replied[i].serviceId == routed[i].serviceId)
    && (c.routing.Some? ==> c.routing.value.serviceId == routed[|replied|].serviceId)
  }

  // ---------- The stages of a session ----------

  /** The messages that matter: handshake errors change nothing at the client. */
  function Core(wires: seq<Wire>): seq<Wire> {
    if wires == [] then []
    else (if wires[0].kind == HandshakeError then [] else [wires[0]]) + Core(wires[1..])
  }

  predicate NoErrors(wires: seq<Wire>) {
    forall i :: 0 <= i < |wires| ==> wires[i].kind != HandshakeError
  }

  predicate Identity(p: Params, t: Terms, c: C.Client) {
    && c.correlationId == t.correlationId && t.correlationId != ""
    && c.sigKeys == p.Suite().sigPair(t.sigIndex)
    && c.kemPublicKey == t.kemPublicKey && t.kemPublicKey != []
  }

  /** No record has been exchanged. */
  predicate Untouched(s: Session) {
    && s.conn.sendSequence == 0 && s.conn.recvSequence == 0 && s.conn.routing.None?
    && s.client.sendSequence == 0 && s.client.recvSequence == 0 && !s.client.handshakeComplete
    && s.log.sent == [] && s.log.routed == [] && s.log.replied == [] && s.log.handled == []
  }

  predicate Keyless(c: C.Client) {
    c.aesKey.None? && c.serverSigPublicKey.None? && c.sessionTicket.None? && c.layer == RL.Layer(None, None)
  }

  /** An endpoint holds the channel key until it closes. */
  predicate Holds(p: Params, t: Terms, key: Option<bytes>, clean: bool) {
    key == Some(Key(p, t)) || (key.None? && !clean)
  }

  predicate ClientKeyed(p: Params, t: Terms, c: C.Client, clean: bool) {
    Holds(p, t, c.aesKey, clean) && c.layer == Channel(p, t) && c.serverSigPublicKey == Some(p.server.sigKeys.publicKey)
  }

  predicate ServerWaiting(p: Params, t: Terms, c: S.Conn) {
    && c.phase == S.ServerHelloSent
    && c.correlationId == Some(t.correlationId)
    && c.pinnedKem == Some(p.Suite().kemPair(t.kem))
    && c.layer == RL.Layer(None, None)
  }

  predicate ServerKeyed(p: Params, t: Terms, c: S.Conn, clean: bool) {
    && c.phase == S.Established
    && c.correlationId == Some(t.correlationId)
    && c.clientKey == Some(ClientKey(p, t))
    && Holds(p, t, c.aesKey, clean)
    && c.layer == Channel(p, t)
  }

  predicate AtStart(p: Params, s: Session) {
    && s.client.phase == C.Unconnected && Keyless(s.client) && s.conn == S.FRESH
    && s.up.pending == [] && Core(s.down.pending) == [] && Untouched(s)
  }

  predicate HelloInFlight(p: Params, s: Session) {
    && s.client.phase == C.ClientHelloSent && Keyless(s.client) && s.conn == S.FRESH
    && |s.up.pending| == 1 && IsHello(p, s.terms, s.up.pending[0])
    && Core(s.down.pending) == [] && Untouched(s)
  }

  predicate HelloAnswered(p: Params, s: Session) {
    && s.client.phase == C.ClientHelloSent && Keyless(s.client) && ServerWaiting(p, s.terms, s.conn)
    && s.up.pending == []
    && |Core(s.down.pending)| == 1 && IsServerHello(p, s.terms, Core(s.down.pending)[0]) && Untouched(s)
  }

  predicate AuthInFlight(p: Params, s: Session) {
    && s.client.phase == C.ClientAuthSent && ClientKeyed(p, s.terms, s.client, s.log.clean) && s.client.sessionTicket.None?
    && ServerWaiting(p, s.terms, s.conn)
    && |s.up.pending| == 1 && IsAuth(p, s.terms, s.up.pending[0])
    && Core(s.down.pending) == [] && Untouched(s)
  }

  predicate AuthAnswered(p: Params, s: Session) {
    && s.client.phase == C.ClientAuthSent && ClientKeyed(p, s.terms, s.client, s.log.clean)
    && ServerKeyed(p, s.terms, s.conn, s.log.clean)
    && s.up.pending == []
    && |Core(s.down.pending)| == 1 && IsServerAuth(p, s.terms, Core(s.down.pending)[0]) && Untouched(s)
  }

  /** Both ends have finished; without outside failures the records are in order. */
  predicate Running(p: Params, s: Session) {
    && s.client.phase == C.Established && ClientKeyed(p, s.terms, s.client, s.log.clean)
    && ServerKeyed(p, s.terms, s.conn, s.log.clean)
    && s.client.sessionTicket.Some? && GoodTicket(p, s.terms, s.client.sessionTicket.value)
    && (s.log.clean ==> InOrder(p, s))
  }

  /** Something from outside went wrong before both ends had finished. */
  predicate Stalled(p: Params, s: Session) {
    && (s.client.phase == C.ClientHelloSent || s.client.phase == C.ClientAuthSent)
    && !s.client.handshakeComplete && !s.log.clean && s.up.pending == [] && Core(s.down.pending) == [] && s.conn.routing.None?
  }

  predicate Stage(p: Params, s: Session) {
    AtStart(p, s) || HelloInFlight(p, s) || HelloAnswered(p, s) || AuthInFlight(p, s) || AuthAnswered(p, s)
    || Running(p, s) || Stalled(p, s)
  }

  /** Sequence numbers count records, and what is pending is exactly what has not been handled. */
  predicate InOrder(p: Params, s: Session) {
    && s.client.sendSequence == |s.log.sent| && s.conn.recvSequence == |s.log.routed|
    && s.conn.sendSequence == |s.log.replied| && s.client.recvSequence == |s.log.handled|
    && Answers(s.log.replied, s.log.routed, s.conn)
    && (s.conn.routing.Some? ==> s.conn.routing.value.timestamp >= 0)
    && s.log.routed <= s.log.sent && s.log.handled <= s.log.replied
    && Records(p, s.terms, s.up.pending, s.log.sent, |s.log.routed|)
    && Records(p, s.terms, s.down.pending, s.log.replied, |s.log.handled|)
  }

  function Encoded(p: Params, wires: seq<Wire>): (r: seq<bytes>)
    ensures |r| == |wires| && forall i :: 0 <= i < |r| ==> r[i] == p.Suite().encode(wires[i])
  {
    seq(|wires|, i requires 0 <= i < |wires| => p.Suite().encode(wires[i]))
  }

  /** The stream carries exactly the pending messages. */
  ghost predicate LinkOk(p: Params, l: Link) {
    Carries(l.pipe, Encoded(p, l.pending), p.Max())
  }

  predicate Unrepeated(nonces: seq<string>) {
    forall i, j :: 0 <= i < j < |nonces| ==> nonces[i] != nonces[j]
  }

  /** The guard knows a nonce of some message handled before. */
  ghost predicate Known(correlationId: string, handled: seq<string>, e: ReplayGuard.Entry) {
    exists nonce :: nonce in handled && e.key == correlationId + ":" + nonce
  }

  /** No nonce was used twice, and the receiving guard remembers only nonces of messages handled before. */
  ghost predicate Fresh(correlationId: string, l: Link, guard: seq<ReplayGuard.Entry>) {
    && Unrepeated(l.nonces) && |l.pending| <= |l.nonces|
    && (forall i :: 0 <= i < |l.pending| ==>
          l.pending[i].correlationId == Some(correlationId) && l.pending[i].nonce == Some(l.nonces[|l.nonces| - |l.pending| + i]))
    && (forall e :: e in guard ==> Known(correlationId, l.nonces[..|l.nonces| - |l.pending|], e))
  }

  /** As long as nothing from outside went wrong, nothing has failed and no message repeats. */
  ghost predicate Undisturbed(s: Session) {
    && s.log.failures == [] && NoErrors(s.down.pending)
    && Fresh(s.terms.correlationId, s.up, s.conn.guard) && Fresh(s.terms.correlationId, s.down, s.client.guard)
  }

  ghost predicate SessionInv(p: Params, s: Session) {
    && Identity(p, s.terms, s.client) && LinkOk(p, s.up) && LinkOk(p, s.down) && Stage(p, s)
    && (s.log.clean ==> Undisturbed(s))
  }

  // ---------- Links ----------

  lemma PutKeeps(p: Params, l: Link, send: Option<Wire>)
    requires p.Valid() && LinkOk(p, l)
    ensures LinkOk(p, Put(p, l, send))
  {
    hide Carries, Frame;
    if send.Some? && Frame(p.Suite().encode(send.value), p.Max()).Ok? {
      var m := p.Suite().encode(send.value);
      assert m != [];
      WriteCarries(l.pipe, Encoded(p, l.pending), m, p.Max());
      assert Encoded(p, l.pending) + [m] == Encoded(p, l.pending + [send.value]);
    }
  }

  /** However many bytes arrive, the messages on the way stay the same. */
  lemma ArrivedKeeps(p: Params, l: Link, n: nat)
    requires LinkOk(p, l) && n <= |l.pipe.inflight|
    ensures LinkOk(p, Arrived(p, l, n))
  {
    hide Carries, Encoded;
    ArriveCarries(l.pipe, Encoded(p, l.pending), n, p.Max());
  }

  /** The first queued message is the first pending one. */
  lemma TakenKeeps(p: Params, l: Link)
    requires LinkOk(p, l) && l.pipe.queue != []
    ensures l.pending != [] && l.pipe.queue[0] == p.Suite().encode(l.pending[0]) && LinkOk(p, Taken(l))
  {
    hide Carries;
    PopCarries(l.pipe, Encoded(p, l.pending), p.Max());
    assert Encoded(p, l.pending)[1..] == Encoded(p, l.pending[1..]);
  }

  // ---------- Nonces ----------

  /** A message under a new nonce joins the stream. */
  lemma FreshPut(p: Params, correlationId: string, l: Link, guard: seq<ReplayGuard.Entry>, w: Wire)
    requires Fresh(correlationId, l, guard) && Fits(p.Suite(), p.Max(), w)
    requires w.correlationId == Some(correlationId) && w.nonce.Some? && w.nonce.value !in l.nonces
    ensures Fresh(correlationId, Put(p, l, Some(w)), guard)
  {
    hide Known, Frame;
    var m := Put(p, l, Some(w));
    assert m.nonces[..|m.nonces| - |m.pending|] == l.nonces[..|l.nonces| - |l.pending|];
  }

  /** A guard that knows only earlier nonces admits a new one within the skew, and then knows it too. */
  lemma GuardAdmits(correlationId: string, earlier: seq<string>, guard: seq<ReplayGuard.Entry>, call: ReplayGuard.Call)
    requires call.correlationId == correlationId && call.nonce !in earlier
    requires forall e :: e in guard ==> Known(correlationId, earlier, e)
    ensures ReplayGuard.InSkew(ReplayGuard.DEFAULTS, call) ==> ReplayGuard.Accepts(ReplayGuard.DEFAULTS, guard, call)
    ensures forall e :: e in ReplayGuard.After(ReplayGuard.DEFAULTS, guard, call) ==> Known(correlationId, earlier + [call.nonce], e)
  {
    hide ReplayGuard.InSkew, ReplayGuard.Purged;
    var kept := ReplayGuard.Kept(ReplayGuard.DEFAULTS, guard, call);
    forall e | e in kept ensures e.key != call.Key() && Known(correlationId, earlier + [call.nonce], e) {
      assert e in guard;
      var nonce :| nonce in earlier && e.key == correlationId + ":" + nonce;
      Texts.SamePrefix(correlationId + ":", nonce, call.nonce);
      assert nonce in earlier + [call.nonce];
    }
    assert call.nonce in earlier + [call.nonce];
  }

  /** A message that is the next one on a fresh stream, handled within the skew, is admitted and remembered. */
  lemma FreshTaken(correlationId: string, l: Link, guard: seq<ReplayGuard.Entry>, purgeTime: int, now: int)
    requires Fresh(correlationId, l, guard) && l.pending != [] && l.pipe.queue != []
    ensures Timely(l, purgeTime, now) ==> Admits(guard, l.pending[0], purgeTime, now)
    ensures Fresh(correlationId, Taken(l), Consulted(guard, l.pending[0], purgeTime, now))
  {
    hide Pipe.Pop, ReplayGuard.InSkew, ReplayGuard.Accepts, ReplayGuard.After, Known;
    var w := l.pending[0];
    var h := |l.nonces| - |l.pending|;
    assert l.nonces[..h + 1] == l.nonces[..h] + [l.nonces[h]];
    if Guarded(w) {
      GuardAdmits(correlationId, l.nonces[..h], guard, CallOf(w, purgeTime, now));
    } else {
      forall e | e in guard ensures Known(correlationId, l.nonces[..h + 1], e) {
        KnownLater(correlationId, l.nonces[..h], l.nonces[h], e);
      }
    }
  }

  lemma KnownLater(correlationId: string, earlier: seq<string>, nonce: string, e: ReplayGuard.Entry)
    requires Known(correlationId, earlier, e)
    ensures Known(correlationId, earlier + [nonce], e)
  {
    var other :| other in earlier && e.key == correlationId + ":" + other;
    assert other in earlier + [nonce];
  }

  // ---------- The messages that matter ----------

  lemma {:induction false} CorePut(wires: seq<Wire>, w: Wire)
    ensures Core(wires + [w]) == Core(wires) + if w.kind == HandshakeError then [] else [w]
    decreases |wires|
  {
    if wires == [] {
      assert [] + [w] == [w] && [w][1..] == [];
    } else {
      CorePut(wires[1..], w);
      assert (wires + [w])[1..] == wires[1..] + [w];
    }
  }

  lemma {:induction false} CoreOfClean(wires: seq<Wire>)
    requires NoErrors(wires)
    ensures Core(wires) == wires
    decreases |wires|
  {
    if wires != [] {
      CoreOfClean(wires[1..]);
      assert wires == [wires[0]] + wires[1..];
    }
  }

  /** Taking the first message takes the first one that matters, unless it is an error. */
  lemma CoreTaken(l: Link)
    requires l.pending != [] && l.pipe.queue != []
    ensures Core(l.pending) == (if l.pending[0].kind == HandshakeError then [] else [l.pending[0]]) + Core(Taken(l).pending)
  {
  }
}
