/** Records: serialisation, then the cipher stack, then authenticated encryption bound to channel and sequence. */
module RecordLayer {
  import opened Wrappers
  import opened Bytes
  import opened Primitives
  import Texts
  import Egyptian
  import Chaos
  import ImperialStack

  datatype RecordType = Application | HeartbeatPing | HeartbeatPong | CloseNotify

  datatype RecordPayload = RecordPayload(recordType: RecordType, serviceId: string, body: bytes, imperialTimestamp: int)

  datatype EncryptedRecord = EncryptedRecord(ciphertext: bytes, iv: bytes, authTag: bytes, sequence: nat)

  datatype RecordError = MissingCorrelationId | Cipher(cipher: ImperialStack.CipherError) | DecryptionFailed | MalformedRecord

  function TypeName(t: RecordType): string {
    match t
    case Application => "application"
    case HeartbeatPing => "heartbeat_ping"
    case HeartbeatPong => "heartbeat_pong"
    case CloseNotify => "close_notify"
  }

  /** AES-256-GCM and the JSON form of records. */
  datatype Sealing = Sealing(
    prims: Primitives,
    encrypt: (bytes, bytes, bytes, bytes) -> (bytes, bytes),
    decrypt: (bytes, bytes, bytes, bytes, bytes) -> Option<bytes>,
    encodeRecord: RecordPayload -> bytes,
    decodeRecord: bytes -> Option<RecordPayload>
  )
  {
    /** Opening undoes sealing under the same key, nonce and additional data. */
    ghost predicate Sound() {
      && prims.Sound()
      && (forall key, iv, aad, plaintext ::
            decrypt(key, iv, aad, encrypt(key, iv, aad, plaintext).0, encrypt(key, iv, aad, plaintext).1) == Some(plaintext))
      && (forall r :: decodeRecord(encodeRecord(r)) == Some(r))
    }

    /** What was sealed opens under no other key, nonce or additional data. */
    ghost predicate Binds() {
      forall key, iv, aad, plaintext, key', iv', aad' ::
        key != key' || iv != iv' || aad != aad' ==>
          decrypt(key', iv', aad', encrypt(key, iv, aad, plaintext).0, encrypt(key, iv, aad, plaintext).1) == None
    }

    function Aad(correlationId: string, sequence: nat, recordType: RecordType): bytes {
      prims.utf8(correlationId + ":" + prims.decimal(sequence) + ":" + TypeName(recordType))
    }
  }

  /** The channel that the cipher stack was last set up for. */
  datatype Stack = Stack(masterKey: bytes, correlationId: string, config: ImperialStack.Config) {
    function SlotOf(prims: Primitives, timestampMs: int, sequence: nat): Slot {
      Slot(prims, masterKey, correlationId, sequence, timestampMs)
    }
  }

  datatype Layer = Layer(stack: Option<Stack>, correlationId: Option<string>) {

    /** A disabled configuration leaves an earlier stack in place. */
    function SetChannel(masterKey: bytes, channel: string, config: ImperialStack.Config): Layer {
      Layer(if config.enabled then Some(Stack(masterKey, channel, config)) else stack, Some(channel))
    }

    function Seal(s: Sealing, aesKey: bytes, payload: RecordPayload, sequence: nat, iv: bytes, noise: Chaos.Noise):
      Result<EncryptedRecord, RecordError>
    {
      if correlationId.None? || correlationId.value == "" then Err(MissingCorrelationId)
      else
        var serialized := s.encodeRecord(payload);
        var enciphered :=
          if stack.None? then Ok(serialized)
          else ImperialStack.Enciphered(stack.value.config, stack.value.SlotOf(s.prims, payload.imperialTimestamp, sequence), serialized, noise);
        if enciphered.Err? then Err(Cipher(enciphered.error))
        else
          var sealed := s.encrypt(aesKey, iv, s.Aad(correlationId.value, sequence, payload.recordType), enciphered.value);
          Ok(EncryptedRecord(sealed.0, iv, sealed.1, sequence))
    }

    function Open(s: Sealing, aesKey: bytes, record: EncryptedRecord, imperialTimestamp: int, recordType: RecordType):
      Result<RecordPayload, RecordError>
    {
      if correlationId.None? || correlationId.value == "" then Err(MissingCorrelationId)
      else
        var aad := s.Aad(correlationId.value, record.sequence, recordType);
        var plaintext := s.decrypt(aesKey, record.iv, aad, record.ciphertext, record.authTag);
        if plaintext.None? then Err(DecryptionFailed)
        else
          var deciphered :=
            if stack.None? then Ok(plaintext.value)
            else ImperialStack.Deciphered(stack.value.config, stack.value.SlotOf(s.prims, imperialTimestamp, record.sequence), plaintext.value);
          if deciphered.Err? then Err(Cipher(deciphered.error))
          else
            var payload := s.decodeRecord(deciphered.value);
            if payload.None? then Err(MalformedRecord) else Ok(payload.value)
    }

    /** The cartouche header of a record is short enough to be accepted back. */
    predicate HeaderFits(s: Sealing, payload: RecordPayload, sequence: nat) {
      stack.Some? && stack.value.config.enabled ==>
        |ImperialStack.HeaderOf(stack.value.config, stack.value.SlotOf(s.prims, payload.imperialTimestamp, sequence), s.encodeRecord(payload))|
          <= Egyptian.MAX_CARTOUCHE_HEADER
    }
  }

  /**
   * A layer set up for the same channel opens what was sealed, at the same timestamp and
   * record type, exactly when the cartouche header fits.
   */
  lemma OpenUndoesSeal(layer: Layer, s: Sealing, aesKey: bytes, payload: RecordPayload, sequence: nat, iv: bytes, noise: Chaos.Noise)
    requires s.Sound()
    requires layer.Seal(s, aesKey, payload, sequence, iv, noise).Ok?
    ensures
      layer.Open(s, aesKey, layer.Seal(s, aesKey, payload, sequence, iv, noise).value, payload.imperialTimestamp, payload.recordType) ==
        if layer.HeaderFits(s, payload, sequence) then Ok(payload)
        else Err(Cipher(ImperialStack.Cartouche(Egyptian.InvalidHeaderLength)))
  {
    hide ImperialStack.Enciphered, ImperialStack.Deciphered, ImperialStack.HeaderOf;
    if layer.stack.Some? {
      ImperialStack.DecipherUndoesEncipher(layer.stack.value.config,
        layer.stack.value.SlotOf(s.prims, payload.imperialTimestamp, sequence), s.encodeRecord(payload), noise);
    }
  }

  /** The additional data differ whenever channel, sequence number or record type differ. */
  lemma AadsSeparate(s: Sealing, channel: string, n: nat, recordType: RecordType, channel': string, n': nat, recordType': RecordType)
    requires s.prims.Legible()
    ensures s.Aad(channel, n, recordType) == s.Aad(channel', n', recordType') <==>
      channel == channel' && n == n' && recordType == recordType'
  {
    var p := s.prims;
    assert s.Aad(channel, n, recordType) == s.Aad(channel', n', recordType') <==>
      channel + ":" + p.decimal(n) + ":" + TypeName(recordType) == channel' + ":" + p.decimal(n') + ":" + TypeName(recordType');
    Texts.SplitAtLast(channel + ":" + p.decimal(n), TypeName(recordType), channel' + ":" + p.decimal(n'), TypeName(recordType'));
    Texts.SplitAtLast(channel, p.decimal(n), channel', p.decimal(n'));
    assert p.decimal(n) == p.decimal(n') <==> n == n';
    NamesDiffer(recordType, recordType');
  }

  lemma NamesDiffer(t: RecordType, t': RecordType)
    ensures TypeName(t) == TypeName(t') <==> t == t'
  {
    assert |TypeName(Application)| == 11 && |TypeName(CloseNotify)| == 12;
    assert |TypeName(HeartbeatPing)| == |TypeName(HeartbeatPong)| == 14;
    assert TypeName(HeartbeatPing)[11] == 'i' && TypeName(HeartbeatPong)[11] == 'o';
  }

  /**
   * Presented under another number, as another type, on another channel or under another
   * key, a sealed record fails to decrypt, and presented as it was sealed it does not.
   */
  lemma BoundToPosition(layer: Layer, other: Layer, s: Sealing, aesKey: bytes, aesKey': bytes, payload: RecordPayload, n: nat, iv: bytes,
                        noise: Chaos.Noise, n': nat, timestamp: int, recordType: RecordType)
    requires s.Sound() && s.Binds() && s.prims.Legible()
    requires layer.Seal(s, aesKey, payload, n, iv, noise).Ok?
    requires other.correlationId.Some? && other.correlationId.value != ""
    ensures
      var relabelled := layer.Seal(s, aesKey, payload, n, iv, noise).value.(sequence := n');
      other.Open(s, aesKey', relabelled, timestamp, recordType) == Err(DecryptionFailed) <==>
        !(aesKey' == aesKey && other.correlationId == layer.correlationId && n' == n && recordType == payload.recordType)
  {
    hide ImperialStack.Enciphered, ImperialStack.Deciphered, Sealing.Aad;
    AadsSeparate(s, layer.correlationId.value, n, payload.recordType, other.correlationId.value, n', recordType);
    hide Primitives.Legible;
    var aad := s.Aad(layer.correlationId.value, n, payload.recordType);
    var aad' := s.Aad(other.correlationId.value, n', recordType);
    var text := s.encodeRecord(payload);
    var body := if layer.stack.None? then Ok(text)
                else ImperialStack.Enciphered(layer.stack.value.config, layer.stack.value.SlotOf(s.prims, payload.imperialTimestamp, n), text, noise);
    var sealed := s.encrypt(aesKey, iv, aad, body.value);
    assert s.decrypt(aesKey', iv, aad', sealed.0, sealed.1) ==
      if aesKey' == aesKey && aad' == aad then Some(body.value) else None;
  }

  /** On its own channel a sealed record opens under one number and as one type only, exactly when its header fits. */
  lemma OpensInPlaceOnly(layer: Layer, s: Sealing, aesKey: bytes, payload: RecordPayload, n: nat, iv: bytes, noise: Chaos.Noise,
                         n': nat, recordType: RecordType)
    requires s.Sound() && s.Binds() && s.prims.Legible()
    requires layer.Seal(s, aesKey, payload, n, iv, noise).Ok?
    ensures
      var relabelled := layer.Seal(s, aesKey, payload, n, iv, noise).value.(sequence := n');
      layer.Open(s, aesKey, relabelled, payload.imperialTimestamp, recordType) == Ok(payload) <==>
        n' == n && recordType == payload.recordType && layer.HeaderFits(s, payload, n)
  {
    BoundToPosition(layer, layer, s, aesKey, aesKey, payload, n, iv, noise, n', payload.imperialTimestamp, recordType);
    if n' == n && recordType == payload.recordType {
      OpenUndoesSeal(layer, s, aesKey, payload, n, iv, noise);
      SealKeepsSequence(layer, s, aesKey, payload, n, iv, noise);
    }
    hide Layer.Seal, Layer.Open, Layer.HeaderFits, Sealing.Sound, Sealing.Binds, Primitives.Legible;
  }

  lemma SealKeepsSequence(layer: Layer, s: Sealing, aesKey: bytes, payload: RecordPayload, n: nat, iv: bytes, noise: Chaos.Noise)
    requires layer.Seal(s, aesKey, payload, n, iv, noise).Ok?
    ensures layer.Seal(s, aesKey, payload, n, iv, noise).value.sequence == n
  {
  }

  /** The record is what this layer seals from the payload, with a header short enough. */
  ghost predicate SealedAs(layer: Layer, s: Sealing, aesKey: bytes, payload: RecordPayload, iv: bytes, noise: Chaos.Noise, record: EncryptedRecord) {
    layer.Seal(s, aesKey, payload, record.sequence, iv, noise) == Ok(record) && layer.HeaderFits(s, payload, record.sequence)
  }

  lemma SealedOpens(layer: Layer, s: Sealing, aesKey: bytes, payload: RecordPayload, iv: bytes, noise: Chaos.Noise, record: EncryptedRecord)
    requires s.Sound() && SealedAs(layer, s, aesKey, payload, iv, noise, record)
    ensures layer.Open(s, aesKey, record, payload.imperialTimestamp, payload.recordType) == Ok(payload)
  {
    hide Layer.Seal, Layer.Open, Layer.HeaderFits, Sealing.Sound;
    OpenUndoesSeal(layer, s, aesKey, payload, record.sequence, iv, noise);
  }

  /** The endpoint's record layer. */
  class RecordProtector {
    const sealing: Sealing
    var stack: ImperialStack.ImperialCipherStack?
    var correlationId: Option<string>

    ghost function View(): Layer
      reads this
    {
      Layer(if stack == null then None else Some(Stack(stack.masterKey, stack.correlationId, stack.config)), correlationId)
    }

    ghost predicate Valid()
      reads this
    {
      stack != null ==> stack.prims == sealing.prims
    }

    constructor (sealing: Sealing)
      ensures this.sealing == sealing && Valid() && View() == Layer(None, None)
    {
      this.sealing := sealing;
      stack := null;
      correlationId := None;
    }

    method SetImperialChannel(masterKey: bytes, channel: string, config: ImperialStack.Config)
      requires Valid()
      modifies this
      ensures Valid() && View() == old(View()).SetChannel(masterKey, channel, config)
      ensures correlationId == Some(channel)
      ensures !config.enabled ==> stack == old(stack)
      ensures config.enabled ==>
        stack != null && stack.masterKey == masterKey && stack.correlationId == channel && stack.config == config
    {
      correlationId := Some(channel);
      if config.enabled {
        stack := new ImperialStack.ImperialCipherStack(sealing.prims, masterKey, channel, config);
      }
    }

    method Seal(aesKey: bytes, payload: RecordPayload, sequence: nat, iv: bytes, noise: Chaos.Noise)
      returns (r: Result<EncryptedRecord, RecordError>)
      requires Valid()
      ensures r == View().Seal(sealing, aesKey, payload, sequence, iv, noise)
      ensures r == Err(MissingCorrelationId) <==> correlationId.None? || correlationId.value == ""
      ensures r.Ok? ==>
        var p, text := sealing.prims, sealing.encodeRecord(payload);
        var body :=
          if stack == null then Ok(text)
          else
            var slot := Slot(p, stack.masterKey, stack.correlationId, sequence, payload.imperialTimestamp);
            ImperialStack.Enciphered(stack.config, slot, text, noise);
        && body.Ok?
        && (r.value.ciphertext, r.value.authTag) ==
             sealing.encrypt(aesKey, iv, p.utf8(correlationId.value + ":" + p.decimal(sequence) + ":" + TypeName(payload.recordType)), body.value)
        && r.value.sequence == sequence && r.value.iv == iv
      ensures sealing.Sound() && r.Ok? ==>
        View().Open(sealing, aesKey, r.value, payload.imperialTimestamp, payload.recordType) ==
          if View().HeaderFits(sealing, payload, sequence) then Ok(payload)
          else Err(Cipher(ImperialStack.Cartouche(Egyptian.InvalidHeaderLength)))
    {
      hide ImperialStack.Enciphered, ImperialStack.Deciphered, ImperialStack.HeaderOf, Layer.Open, Layer.HeaderFits, Sealing.Sound;
      if sealing.Sound() && View().Seal(sealing, aesKey, payload, sequence, iv, noise).Ok? {
        OpenUndoesSeal(View(), sealing, aesKey, payload, sequence, iv, noise);
      }
      if correlationId.None? || correlationId.value == "" {
        return Err(MissingCorrelationId);
      }
      var serialized := sealing.encodeRecord(payload);
      if stack != null {
        var enciphered := stack.Encipher(serialized, payload.imperialTimestamp, sequence, noise);
        if enciphered.Err? {
          return Err(Cipher(enciphered.error));
        }
        serialized := enciphered.value;
      }
      var sealed := sealing.encrypt(aesKey, iv, sealing.Aad(correlationId.value, sequence, payload.recordType), serialized);
      r := Ok(EncryptedRecord(sealed.0, iv, sealed.1, sequence));
    }

    method Open(aesKey: bytes, record: EncryptedRecord, imperialTimestamp: int, recordType: RecordType)
      returns (r: Result<RecordPayload, RecordError>)
      requires Valid()
      ensures r == View().Open(sealing, aesKey, record, imperialTimestamp, recordType)
      ensures r == Err(MissingCorrelationId) <==> correlationId.None? || correlationId.value == ""
      ensures r == Err(DecryptionFailed) <==>
        && correlationId.Some? && correlationId.value != ""
        && var p := sealing.prims;
           var aad := p.utf8(correlationId.value + ":" + p.decimal(record.sequence) + ":" + TypeName(recordType));
           sealing.decrypt(aesKey, record.iv, aad, record.ciphertext, record.authTag) == None
      ensures sealing.Sound() ==> forall payload, iv, noise ::
        (SealedAs(View(), sealing, aesKey, payload, iv, noise, record) &&
         payload.imperialTimestamp == imperialTimestamp && payload.recordType == recordType) ==> r == Ok(payload)
    {
      hide ImperialStack.Deciphered, SealedAs, Sealing.Sound;
      forall payload, iv, noise |
        sealing.Sound() && SealedAs(View(), sealing, aesKey, payload, iv, noise, record)
        && payload.imperialTimestamp == imperialTimestamp && payload.recordType == recordType
        ensures View().Open(sealing, aesKey, record, imperialTimestamp, recordType) == Ok(payload)
      {
        SealedOpens(View(), sealing, aesKey, payload, iv, noise, record);
      }
      if correlationId.None? || correlationId.value == "" {
        return Err(MissingCorrelationId);
      }
      var aad := sealing.Aad(correlationId.value, record.sequence, recordType);
      var plain := sealing.decrypt(aesKey, record.iv, aad, record.ciphertext, record.authTag);
      if plain.None? {
        return Err(DecryptionFailed);
      }
      var plaintext := plain.value;
      if stack != null {
        var deciphered := stack.Decipher(plaintext, imperialTimestamp, record.sequence);
        if deciphered.Err? {
          return Err(Cipher(deciphered.error));
        }
        plaintext := deciphered.value;
      }
      var payload := sealing.decodeRecord(plaintext);
      r := if payload.None? then Err(MalformedRecord) else Ok(payload.value);
    }
  }
}
