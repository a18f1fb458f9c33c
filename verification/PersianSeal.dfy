/** The keyed seal over a body. */
module PersianSeal {
  import opened Wrappers
  import opened Bytes
  import opened Primitives

  /** The four letters NOMD. */
  const MAGIC: bytes := [78, 79, 77, 68]

  const SEAL_BYTES := 32

  datatype SealError = FrameTooShort | MagicMissing | SealBroken

  function SealOf(p: Primitives, body: bytes, key: Digest): Digest {
    p.hmac(key, p.utf8("persian-seal") + body)
  }

  function ApplySeal(p: Primitives, body: bytes, key: Digest): (r: bytes)
    ensures |r| == |body| + 36
  {
    MAGIC + SealOf(p, body, key) + body
  }

  function VerifySeal(p: Primitives, sealed: bytes, key: Digest): Result<bytes, SealError> {
    if |sealed| < |MAGIC| + SEAL_BYTES then Err(FrameTooShort)
    else if sealed[..4] != MAGIC then Err(MagicMissing)
    else if sealed[4..36] != SealOf(p, sealed[36..], key) then Err(SealBroken)
    else Ok(sealed[36..])
  }

  /** A frame verifies exactly when it is the sealed form of the body it yields. */
  lemma SealedExactly(p: Primitives, sealed: bytes, key: Digest, body: bytes)
    ensures VerifySeal(p, sealed, key) == Ok(body) <==> sealed == ApplySeal(p, body, key)
  {
    var made := ApplySeal(p, body, key);
    assert made[..4] == MAGIC && made[4..36] == SealOf(p, body, key) && made[36..] == body;
    if VerifySeal(p, sealed, key) == Ok(body) {
      assert sealed == sealed[..4] + sealed[4..36] + sealed[36..];
    }
  }

  /** The sealed form: the letters NOMD, the keyed digest of the body under its label, and the body. */
  lemma SealedLayout(p: Primitives, body: bytes, key: Digest)
    ensures ApplySeal(p, body, key) == [78, 79, 77, 68] + p.hmac(key, p.utf8("persian-seal") + body) + body
  {
  }

  /** A body put under the seal of another one is refused, unless the two digests are the same. */
  lemma AlteredBodyRefused(p: Primitives, body: bytes, other: bytes, key: Digest)
    ensures
      var altered := ApplySeal(p, body, key)[..36] + other;
      VerifySeal(p, altered, key) ==
        if p.hmac(key, p.utf8("persian-seal") + other) == p.hmac(key, p.utf8("persian-seal") + body) then Ok(other) else Err(SealBroken)
  {
    var altered := ApplySeal(p, body, key)[..36] + other;
    assert altered[..4] == MAGIC && altered[4..36] == SealOf(p, body, key) && altered[36..] == other;
  }

  /** What is refused before any digest is compared. */
  lemma NotASealedForm(p: Primitives, frame: bytes, key: Digest)
    ensures VerifySeal(p, frame, key) == Err(FrameTooShort) <==> |frame| < 36
    ensures VerifySeal(p, frame, key) == Err(MagicMissing) <==> |frame| >= 36 && frame[..4] != [78, 79, 77, 68]
  {
  }
}
