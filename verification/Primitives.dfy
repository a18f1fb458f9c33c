/** The foreign primitives of the cipher stack, and what identifies one message. */
module Primitives {
  import opened Wrappers
  import opened Bytes
  import Texts

  /** A 32-byte output of HMAC or HKDF with SHA-256. */
  type Digest = d: bytes | |d| == 32 witness seq(32, i => 0)

  datatype Header = Header(subject: string, correlationId: string, seal: bytes)

  /**
   * Keyed hashing, text encoding and the JSON form of the cartouche header,
   * with the seal in hexadecimal.
   */
  datatype Primitives = Primitives(
    hmac: (bytes, bytes) -> Digest,
    hkdf: (bytes, bytes, bytes) -> Digest,
    utf8: string -> bytes,
    decimal: int -> string,
    encodeHeader: Header -> bytes,
    decodeHeader: bytes -> Option<Header>,
    veilSalt: (string, int) -> bytes
  )
  {
    /** Parsing undoes printing, and no header prints as nothing. */
    ghost predicate Sound() {
      forall h :: encodeHeader(h) != [] && decodeHeader(encodeHeader(h)) == Some(h)
    }

    /** Texts and numbers are written without loss, and numbers without colons. */
    ghost predicate Legible() {
      && (forall a, b :: utf8(a) == utf8(b) ==> a == b)
      && (forall m, n :: decimal(m) == decimal(n) ==> m == n)
      && (forall n :: ':' !in decimal(n))
    }
  }

  /** The channel and the position in it that every key of one message derives from. */
  datatype Slot = Slot(prims: Primitives, masterKey: bytes, correlationId: string, sequence: nat, timestampMs: int) {

    function Suffix(): string {
      correlationId + ":" + prims.decimal(sequence) + ":" + prims.decimal(timestampMs)
    }

    function LayerKey(layer: string): Digest {
      var salt := prims.hmac(masterKey,
        prims.utf8("aureon-imperial-salt") + prims.utf8(correlationId) + prims.utf8(prims.decimal(sequence)));
      prims.hkdf(masterKey, salt, prims.utf8("nomad-imperial:" + layer + ":" + Suffix()))
    }

    /** The number of scytale columns. */
    function RodDiameter(): (d: nat)
      ensures 8 <= d <= 16
    {
      var h := prims.hmac(masterKey, prims.utf8("scytale:" + Suffix()));
      8 + h[0] as int % 9
    }

    function TorchKey(): Digest {
      prims.hmac(masterKey, prims.utf8("aeneas-torch") + prims.utf8(correlationId) +
                            prims.utf8(prims.decimal(timestampMs / 3_600_000)))
    }

    function VeilKey(): Digest {
      prims.hkdf(masterKey, prims.veilSalt(correlationId, timestampMs), prims.utf8("aureon-veil:" + correlationId))
    }

    function Salt(): Digest {
      prims.hkdf(masterKey, prims.utf8(prims.decimal(timestampMs)) + prims.utf8(prims.decimal(sequence)),
                 prims.utf8("nomad-chaos-salt:" + correlationId + ":" + prims.decimal(sequence)))
    }

    function ShuffleSeed(shuffle: string): Digest {
      prims.hmac(masterKey, prims.utf8("chaos-order:" + shuffle + ":" + Suffix()))
    }

    function Fingerprint(): (f: bytes)
      ensures |f| == 8
    {
      prims.hmac(masterKey, prims.utf8("chaos-fingerprint") + prims.utf8(correlationId) +
                            prims.utf8(prims.decimal(sequence)) + prims.utf8(prims.decimal(timestampMs)))[..8]
    }
  }

  /** The text that a layer key is derived from. */
  function KeyInfo(s: Slot, layer: string): string {
    "nomad-imperial:" + layer + ":" + s.correlationId + ":" + s.prims.decimal(s.sequence) + ":" + s.prims.decimal(s.timestampMs)
  }

  /** A layer key is derived from the master key, a salt for channel and sequence number, and that text. */
  lemma KeyText(s: Slot, layer: string)
    ensures
      var p, key := s.prims, s.masterKey;
      s.LayerKey(layer) ==
        p.hkdf(key, p.hmac(key, p.utf8("aureon-imperial-salt") + p.utf8(s.correlationId) + p.utf8(p.decimal(s.sequence))),
               p.utf8(KeyInfo(s, layer)))
  {
    var suffix := s.correlationId + ":" + s.prims.decimal(s.sequence) + ":" + s.prims.decimal(s.timestampMs);
    assert "nomad-imperial:" + layer + ":" + suffix == KeyInfo(s, layer);
  }

  /** The texts differ whenever layer, channel, sequence number or timestamp differ. */
  lemma KeyInfosSeparate(a: Slot, b: Slot, layer: string, other: string)
    requires a.prims == b.prims && a.masterKey == b.masterKey && a.prims.Legible()
    requires ':' !in layer && ':' !in other
    ensures KeyInfo(a, layer) == KeyInfo(b, other) <==> layer == other && a == b
  {
    var p := a.prims;
    assert p.decimal(a.sequence) == p.decimal(b.sequence) <==> a.sequence == b.sequence;
    assert p.decimal(a.timestampMs) == p.decimal(b.timestampMs) <==> a.timestampMs == b.timestampMs;
    assert ':' !in p.decimal(a.sequence) + p.decimal(b.sequence) + p.decimal(a.timestampMs) + p.decimal(b.timestampMs);
    hide Primitives.Legible;
    Texts.FourParts("nomad-imperial:", layer, a.correlationId, p.decimal(a.sequence), p.decimal(a.timestampMs),
                    other, b.correlationId, p.decimal(b.sequence), p.decimal(b.timestampMs));
  }

  /** The other values drawn from the master key, each from a text of its own; the torch changes by the hour. */
  lemma SecretsOf(slot: Slot)
    ensures
      var p, key, channel := slot.prims, slot.masterKey, slot.correlationId;
      var n, t := p.decimal(slot.sequence), p.decimal(slot.timestampMs);
      && slot.RodDiameter() == 8 + p.hmac(key, p.utf8("scytale:" + channel + ":" + n + ":" + t))[0] as int % 9
      && slot.TorchKey() == p.hmac(key, p.utf8("aeneas-torch") + p.utf8(channel) + p.utf8(p.decimal(slot.timestampMs / 3_600_000)))
      && slot.VeilKey() == p.hkdf(key, p.veilSalt(channel, slot.timestampMs), p.utf8("aureon-veil:" + channel))
      && slot.Salt() == p.hkdf(key, p.utf8(t) + p.utf8(n), p.utf8("nomad-chaos-salt:" + channel + ":" + n))
      && slot.Fingerprint() == p.hmac(key, p.utf8("chaos-fingerprint") + p.utf8(channel) + p.utf8(n) + p.utf8(t))[..8]
      && (forall order :: slot.ShuffleSeed(order) == p.hmac(key, p.utf8("chaos-order:" + order + ":" + channel + ":" + n + ":" + t)))
  {
    var p, channel := slot.prims, slot.correlationId;
    var n, t := p.decimal(slot.sequence), p.decimal(slot.timestampMs);
    assert "scytale:" + (channel + ":" + n + ":" + t) == "scytale:" + channel + ":" + n + ":" + t;
    forall order ensures slot.ShuffleSeed(order) == p.hmac(slot.masterKey, p.utf8("chaos-order:" + order + ":" + channel + ":" + n + ":" + t)) {
      assert "chaos-order:" + order + ":" + (channel + ":" + n + ":" + t) == "chaos-order:" + order + ":" + channel + ":" + n + ":" + t;
    }
  }
}
