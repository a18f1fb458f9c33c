/** Wire messages, their schema, and the foreign cryptography of the handshake. */
module Protocol {
  import opened Wrappers
  import opened Bytes
  import opened Encoding
  import opened Framing
  import RecordLayer
  import ReplayGuard
  import SessionStore

  datatype Kind =
    | ClientHello | ServerHello | ClientAuthResponse | ServerAuthResponse | EncryptedData
    | HandshakeError | HeartbeatPing | HeartbeatPong | SessionResume | CloseNotify | UnknownKind

  datatype Certificate = Certificate(kemPublicKey: bytes, sigPublicKey: bytes, rest: bytes)

  /**
   * A parsed message. A text field is None when absent; a binary field
   * holds what its text decodes to, which may be nothing.
   */
  datatype Wire = Wire(
    kind: Kind,
    protocolVersion: Option<int>,
    correlationId: Option<string>,
    nonce: Option<string>,
    timestamp: Option<int>,
    sequence: Option<int>,
    sessionTicket: Option<string>,
    kemPublicKey: Option<bytes>,
    sigPublicKey: Option<bytes>,
    certificate: Option<Certificate>,
    encapsulatedKey: Option<bytes>,
    signature: Option<bytes>,
    clientPublicKeySig: Option<bytes>,
    data: Option<bytes>,
    iv: Option<bytes>,
    authTag: Option<bytes>,
    error: Option<string>,
    errorCode: Option<string>,
    unknownFields: bool
  )

  /** A message with its security fields attached and nothing else. */
  function Attach(kind: Kind, correlationId: string, nonce: string, timestamp: int): Wire {
    Wire(kind, Some(1), Some(correlationId), Some(nonce), Some(timestamp), None, None, None, None, None, None, None, None,
         None, None, None, None, None, false)
  }

  predicate Present(s: Option<string>) {
    s.Some? && s.value != ""
  }

  predicate Natural(n: Option<int>) {
    n.Some? && n.value >= 0
  }

  /** The fields that each kind of message must have. */
  predicate ValidSchema(w: Wire) {
    && w.kind != UnknownKind
    && (w.protocolVersion.Some? ==> w.protocolVersion.value == 1)
    && (w.kind != HandshakeError ==> Present(w.correlationId) && Present(w.nonce) && Natural(w.timestamp))
    && (w.kind == SessionResume ==> Present(w.sessionTicket))
    && (w.kind == ServerHello ==> w.kemPublicKey.Some? && w.sigPublicKey.Some? && w.certificate.Some?)
    && (w.kind == ClientAuthResponse ==>
          w.encapsulatedKey.Some? && w.signature.Some? && w.clientPublicKeySig.Some? && w.kemPublicKey.Some?)
    && (w.kind == ServerAuthResponse ==> w.signature.Some? && w.sigPublicKey.Some?)
    && (w.kind == EncryptedData ==> w.data.Some? && w.iv.Some? && w.authTag.Some? && Natural(w.sequence))
    && (w.kind == HeartbeatPing || w.kind == HeartbeatPong ==> Natural(w.sequence))
    && (w.kind == HandshakeError ==> Present(w.error) || Present(w.errorCode))
    && !w.unknownFields
  }

  /** Whether the replay guard is consulted at all. */
  predicate Guarded(w: Wire) {
    Present(w.nonce) && w.timestamp.Some? && w.timestamp.value != 0 && Present(w.correlationId)
  }

  /** The guard's view of a message, with the two clock readings of the call. */
  function CallOf(w: Wire, purgeTime: int, now: int): ReplayGuard.Call
    requires Guarded(w)
  {
    ReplayGuard.Call(purgeTime, now, w.nonce.value, w.timestamp.value, w.correlationId.value)
  }

  predicate Admits(guard: seq<ReplayGuard.Entry>, w: Wire, purgeTime: int, now: int) {
    Guarded(w) ==> ReplayGuard.Accepts(ReplayGuard.DEFAULTS, guard, CallOf(w, purgeTime, now))
  }

  /** The guard's memory once the message has been checked, admitted or not. */
  function Consulted(guard: seq<ReplayGuard.Entry>, w: Wire, purgeTime: int, now: int): seq<ReplayGuard.Entry> {
    if Guarded(w) then ReplayGuard.After(ReplayGuard.DEFAULTS, guard, CallOf(w, purgeTime, now)) else guard
  }

  // ---------- The same tests from the outside ----------

  /**
   * The message names a channel, a nonce and a time, and a guard of one minute's skew, two
   * minutes' memory and 10000 entries refuses them.
   */
  predicate Replayed(guard: seq<ReplayGuard.Entry>, w: Wire, purgeTime: int, now: int) {
    && w.nonce.GetOr("") != "" && w.correlationId.GetOr("") != "" && w.timestamp.GetOr(0) != 0
    && !ReplayGuard.Accepts(ReplayGuard.Options(60_000, 120_000, 10_000), guard,
                            ReplayGuard.Call(purgeTime, now, w.nonce.value, w.timestamp.value, w.correlationId.value))
  }

  lemma ReplayedExactly(guard: seq<ReplayGuard.Entry>, w: Wire, purgeTime: int, now: int)
    ensures Replayed(guard, w, purgeTime, now) <==> !Admits(guard, w, purgeTime, now)
  {
    hide ReplayGuard.Accepts;
  }

  /** The guard's memory after these bytes, which it sees only if they are a well-formed message that names all three. */
  function Recalled(suite: Suite, guard: seq<ReplayGuard.Entry>, raw: bytes, purgeTime: int, now: int): seq<ReplayGuard.Entry> {
    var parsed := suite.decode(raw);
    if parsed.None? || !ValidSchema(parsed.value) then guard
    else
      var w := parsed.value;
      if w.nonce.GetOr("") == "" || w.correlationId.GetOr("") == "" || w.timestamp.GetOr(0) == 0 then guard
      else ReplayGuard.After(ReplayGuard.Options(60_000, 120_000, 10_000), guard,
                             ReplayGuard.Call(purgeTime, now, w.nonce.value, w.timestamp.value, w.correlationId.value))
  }

  datatype Field =
    | CorrelationId | Nonce | Timestamp | Sequence | SessionTicket | KemPublicKey | SigPublicKey | CertificateField
    | EncapsulatedKey | Signature | ClientPublicKeySig | Data | Iv | AuthTag

  /** A text is there when it is not empty, a number when it is not negative. */
  predicate Has(w: Wire, f: Field) {
    match f
    case CorrelationId => w.correlationId.GetOr("") != ""
    case Nonce => w.nonce.GetOr("") != ""
    case Timestamp => w.timestamp.GetOr(-1) >= 0
    case Sequence => w.sequence.GetOr(-1) >= 0
    case SessionTicket => w.sessionTicket.GetOr("") != ""
    case KemPublicKey => w.kemPublicKey.Some?
    case SigPublicKey => w.sigPublicKey.Some?
    case CertificateField => w.certificate.Some?
    case EncapsulatedKey => w.encapsulatedKey.Some?
    case Signature => w.signature.Some?
    case ClientPublicKeySig => w.clientPublicKeySig.Some?
    case Data => w.data.Some?
    case Iv => w.iv.Some?
    case AuthTag => w.authTag.Some?
  }

  /** Which kinds of message need a field; an error needs a text or a code instead. */
  predicate Needs(kind: Kind, f: Field) {
    match f
    case CorrelationId => kind != HandshakeError
    case Nonce => kind != HandshakeError
    case Timestamp => kind != HandshakeError
    case Sequence => kind == EncryptedData || kind == HeartbeatPing || kind == HeartbeatPong
    case SessionTicket => kind == SessionResume
    case KemPublicKey => kind == ServerHello || kind == ClientAuthResponse
    case SigPublicKey => kind == ServerHello || kind == ServerAuthResponse
    case CertificateField => kind == ServerHello
    case EncapsulatedKey => kind == ClientAuthResponse
    case Signature => kind == ClientAuthResponse || kind == ServerAuthResponse
    case ClientPublicKeySig => kind == ClientAuthResponse
    case Data => kind == EncryptedData
    case Iv => kind == EncryptedData
    case AuthTag => kind == EncryptedData
  }

  predicate Given(w: Wire, f: Field) {
    Needs(w.kind, f) ==> Has(w, f)
  }

  predicate Complete(w: Wire) {
    forall f :: Given(w, f)
  }

  lemma ValidIsComplete(w: Wire, f: Field)
    requires ValidSchema(w)
    ensures Given(w, f)
  {
  }

  lemma CompleteIsValid(w: Wire)
    requires Complete(w) && w.kind != UnknownKind && w.protocolVersion in {None, Some(1)} && !w.unknownFields
    requires w.kind == HandshakeError ==> w.error.GetOr("") != "" || w.errorCode.GetOr("") != ""
    ensures ValidSchema(w)
  {
    assert Given(w, CorrelationId) && Given(w, Nonce) && Given(w, Timestamp) && Given(w, Sequence) && Given(w, SessionTicket);
    assert Given(w, KemPublicKey) && Given(w, SigPublicKey) && Given(w, CertificateField);
    assert Given(w, EncapsulatedKey) && Given(w, Signature) && Given(w, ClientPublicKeySig);
    assert Given(w, Data) && Given(w, Iv) && Given(w, AuthTag);
  }

  /** The tests pass exactly on messages of a known kind and version with every field their kind needs and no unknown one. */
  lemma SchemaExactly(w: Wire)
    ensures ValidSchema(w) <==>
      && w.kind != UnknownKind && w.protocolVersion in {None, Some(1)} && !w.unknownFields && Complete(w)
      && (w.kind == HandshakeError ==> w.error.GetOr("") != "" || w.errorCode.GetOr("") != "")
  {
    if ValidSchema(w) {
      forall f ensures Given(w, f) {
        ValidIsComplete(w, f);
      }
    } else if w.kind != UnknownKind && w.protocolVersion in {None, Some(1)} && !w.unknownFields && Complete(w)
      && (w.kind == HandshakeError ==> w.error.GetOr("") != "" || w.errorCode.GetOr("") != "")
    {
      CompleteIsValid(w);
    }
  }

  datatype KeyPair = KeyPair(publicKey: bytes, privateKey: bytes)

  /** Key encapsulation, signatures, channel key derivation and the text form of messages. */
  datatype Suite = Suite(
    kemPair: nat -> KeyPair,
    encapsulate: (bytes, nat) -> (bytes, bytes),
    decapsulate: (bytes, bytes) -> Option<bytes>,
    channelKey: (bytes, string) -> bytes,
    sigPair: nat -> KeyPair,
    sign: (bytes, bytes) -> bytes,
    verify: (bytes, bytes, bytes) -> bool,
    clientAuthData: (bytes, bytes, string, string, int) -> bytes,
    serverAuthData: (bytes, string, string, int, Option<string>) -> bytes,
    resumeData: (string, bytes, string, string, int) -> bytes,
    certify: (bytes, bytes) -> bytes,
    encode: Wire -> bytes,
    decode: bytes -> Option<Wire>,
    sealing: RecordLayer.Sealing,
    tickets: SessionStore.TicketCodec
  )
  {
    /** Matching keys work, keys and signatures are not empty, and parsing undoes printing. */
    ghost predicate Sound() {
      && sealing.Sound() && tickets.Sound()
      && (forall k, coin :: decapsulate(kemPair(k).privateKey, encapsulate(kemPair(k).publicKey, coin).0)
            == Some(encapsulate(kemPair(k).publicKey, coin).1))
      && (forall k, coin :: encapsulate(kemPair(k).publicKey, coin).0 != [])
      && (forall k, m :: verify(sigPair(k).publicKey, m, sign(sigPair(k).privateKey, m)))
      && (forall k :: sigPair(k).publicKey != [] && kemPair(k).publicKey != [])
      && (forall sk, m :: sign(sk, m) != [])
      && (forall w :: encode(w) != [] && decode(encode(w)) == Some(w))
      && (forall p, iv :: tickets.make(p, iv) != "")
    }
  }

  /** A message whose frame the sender can write. */
  predicate Fits(s: Suite, max: nat, w: Wire) {
    Frame(s.encode(w), max).Ok?
  }

  /** Why an endpoint gives up on a message. */
  datatype Failure =
    | Malformed | SchemaViolation | ReplayRejected | CorrelationMismatch | InvalidPhase | MissingField | EmptyBinary
    | SessionExpired | ResumeKeyMismatch | AllowlistRejected | SignatureInvalid | DecapsulationFailed
    | SequenceReplay | SequenceGap | DecryptFailed | RouteFailed | KeyMissing | FrameTooLong | SealFailed
    | UnexpectedMessage | CertInvalid | ServerKeyMismatch | VersionMismatch | PeerError | TimedOut

  /** A record handed to the router or to the application. */
  datatype Delivery = Delivery(serviceId: string, body: bytes)

  /**
   * What one handler does besides changing its connection: it writes, reports, accepts
   * and hands on at most one thing, and may draw on the server's keys and tickets.
   */
  datatype Output = Output(
    send: Option<Wire>,
    failure: Option<Failure>,
    accepted: Option<nat>,
    delivered: Option<Delivery>,
    activated: bool,
    redeemed: Option<string>,
    closing: bool)

  const SILENT := Output(None, None, None, None, false, None, false)

  /** The application record inside an encrypted_data message, with what the sender encrypted. */
  function DataMessage(correlationId: string, nonce: string, timestamp: int, r: RecordLayer.EncryptedRecord): Wire {
    Attach(EncryptedData, correlationId, nonce, timestamp).(
      sequence := Some(r.sequence), data := Some(r.ciphertext), iv := Some(r.iv), authTag := Some(r.authTag))
  }

  /** What the receiver hands to the record layer. */
  function RecordIn(w: Wire): RecordLayer.EncryptedRecord
    requires w.kind == EncryptedData && ValidSchema(w)
  {
    RecordLayer.EncryptedRecord(w.data.value, w.iv.value, w.authTag.value, w.sequence.value)
  }
}
