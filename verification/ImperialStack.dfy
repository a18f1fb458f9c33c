/** The layered cipher stack: enciphering folds a key-derived order of layers, deciphering folds it back. */
module ImperialStack {
  import opened Wrappers
  import opened Bytes
  import opened Encoding
  import opened Primitives
  import Scytale
  import Egyptian
  import Masks
  import PersianSeal
  import Chaos

  datatype Config = Config(enabled: bool, occultVeilEnabled: bool, chaosModeEnabled: bool, subject: string)

  datatype MutableLayer = Hieroglyph | Augustan | Transposition

  datatype TailLayer = Torch | Veil

  const MUTABLE_LAYERS := [Hieroglyph, Augustan, Transposition]

  datatype CipherError =
    | Cartouche(cartouche: Egyptian.CartoucheError)
    | Rod(rod: Scytale.ScytaleError)
    | Wax(wax: PersianSeal.SealError)
    | Padding(padding: Chaos.PaddingError)
    | FingerprintMismatch

  // ---------- Specification ----------

  function Lift(r: Result<bytes, Scytale.ScytaleError>): Result<bytes, CipherError> {
    if r.Ok? then Ok(r.value) else Err(Rod(r.error))
  }

  function ApplyLayer(layer: MutableLayer, body: bytes, slot: Slot): Result<bytes, CipherError> {
    match layer
    case Hieroglyph => Ok(Egyptian.Substitute(body, Egyptian.Sbox(slot.LayerKey("hieroglyph"))))
    case Augustan => Ok(Masks.Rotate(body, slot.LayerKey("augustan")))
    case Transposition => Lift(Scytale.Encipher(body, slot.RodDiameter()))
  }

  function UndoLayer(layer: MutableLayer, body: bytes, slot: Slot): Result<bytes, CipherError> {
    match layer
    case Hieroglyph => Ok(Egyptian.Unsubstitute(body, Egyptian.Sbox(slot.LayerKey("hieroglyph"))))
    case Augustan => Ok(Masks.Unrotate(body, slot.LayerKey("augustan")))
    case Transposition => Lift(Scytale.Decipher(body, slot.RodDiameter()))
  }

  /** The layers in order, first to last. */
  function ApplyLayers(order: seq<MutableLayer>, body: bytes, slot: Slot): Result<bytes, CipherError> {
    if order == [] then Ok(body)
    else
      var before := ApplyLayers(order[..|order| - 1], body, slot);
      if before.Err? then before else ApplyLayer(order[|order| - 1], before.value, slot)
  }

  /** The layers undone, last to first. */
  function UndoLayers(order: seq<MutableLayer>, body: bytes, slot: Slot): Result<bytes, CipherError> {
    if order == [] then Ok(body)
    else
      var after := UndoLayer(order[|order| - 1], body, slot);
      if after.Err? then after else UndoLayers(order[..|order| - 1], after.value, slot)
  }

  function TailMask(layer: TailLayer, slot: Slot): nat -> byte {
    match layer
    case Torch => Masks.TorchByte(slot.TorchKey())
    case Veil => Masks.VeilByte(slot.VeilKey())
  }

  function ApplyTail(order: seq<TailLayer>, body: bytes, slot: Slot): (r: bytes)
    ensures |r| == |body|
  {
    if order == [] then body
    else Masks.Masked(ApplyTail(order[..|order| - 1], body, slot), TailMask(order[|order| - 1], slot))
  }

  function UndoTail(order: seq<TailLayer>, body: bytes, slot: Slot): bytes {
    if order == [] then body
    else UndoTail(order[..|order| - 1], Masks.Masked(body, TailMask(order[|order| - 1], slot)), slot)
  }

  function LayerOrder(config: Config, slot: Slot): seq<MutableLayer> {
    if config.chaosModeEnabled then Chaos.Shuffled(MUTABLE_LAYERS, slot.ShuffleSeed("mutable")) else MUTABLE_LAYERS
  }

  function TailOrder(config: Config, slot: Slot): seq<TailLayer> {
    var layers := if config.occultVeilEnabled then [Torch, Veil] else [Torch];
    if config.chaosModeEnabled then Chaos.Shuffled(layers, slot.ShuffleSeed("tail")) else layers
  }

  function Enciphered(config: Config, slot: Slot, plaintext: bytes, noise: Chaos.Noise): Result<bytes, CipherError> {
    if !config.enabled then Ok(plaintext)
    else
      var wrapped := Egyptian.WrapCartouche(slot.prims, plaintext, config.subject, slot.correlationId, slot.LayerKey("cartouche"));
      if wrapped.Err? then Err(Cartouche(wrapped.error))
      else
        var body := ApplyLayers(LayerOrder(config, slot), wrapped.value, slot);
        if body.Err? then body
        else
          var sealed := PersianSeal.ApplySeal(slot.prims, body.value, slot.LayerKey("persian-seal"));
          var masked := ApplyTail(TailOrder(config, slot), sealed, slot);
          Ok(if config.chaosModeEnabled then Chaos.Pad(slot.Fingerprint() + masked, slot, noise) else masked)
  }

  /** Strips the padding and the fingerprint of chaos mode. */
  function Unpad(config: Config, slot: Slot, ciphertext: bytes): Result<bytes, CipherError> {
    if !config.chaosModeEnabled then Ok(ciphertext)
    else
      var stripped := Chaos.Strip(ciphertext, slot);
      if stripped.Err? then Err(Padding(stripped.error))
      else if |stripped.value| < 8 || stripped.value[..8] != slot.Fingerprint() then Err(FingerprintMismatch)
      else Ok(stripped.value[8..])
  }

  function Deciphered(config: Config, slot: Slot, ciphertext: bytes): Result<bytes, CipherError> {
    if !config.enabled then Ok(ciphertext)
    else
      var masked := Unpad(config, slot, ciphertext);
      if masked.Err? then masked
      else
        var sealed := UndoTail(TailOrder(config, slot), masked.value, slot);
        var body := PersianSeal.VerifySeal(slot.prims, sealed, slot.LayerKey("persian-seal"));
        if body.Err? then Err(Wax(body.error))
        else
          var wrapped := UndoLayers(LayerOrder(config, slot), body.value, slot);
          if wrapped.Err? then wrapped
          else
            var plaintext := Egyptian.UnwrapCartouche(slot.prims, wrapped.value, slot.LayerKey("cartouche"));
            if plaintext.Err? then Err(Cartouche(plaintext.error)) else Ok(plaintext.value)
  }

  function HeaderOf(config: Config, slot: Slot, plaintext: bytes): bytes {
    Egyptian.CartoucheHeader(slot.prims, plaintext, config.subject, slot.correlationId, slot.LayerKey("cartouche"))
  }

  // ---------- Round trip ----------

  lemma LayerRoundTrip(layer: MutableLayer, body: bytes, slot: Slot)
    requires ApplyLayer(layer, body, slot).Ok?
    ensures UndoLayer(layer, ApplyLayer(layer, body, slot).value, slot) == Ok(body)
  {
    match layer
    case Hieroglyph => Egyptian.SubstitutionRoundTrip(body, slot.LayerKey("hieroglyph"));
    case Augustan => Masks.RotationRoundTrip(body, slot.LayerKey("augustan"));
    case Transposition => Scytale.RoundTrip(body, slot.RodDiameter());
  }

  /** Undoing the layers in reverse restores the body, for every order and repetition of layers. */
  lemma {:induction false} LayersRoundTrip(order: seq<MutableLayer>, body: bytes, slot: Slot)
    requires ApplyLayers(order, body, slot).Ok?
    ensures UndoLayers(order, ApplyLayers(order, body, slot).value, slot) == Ok(body)
  {
    hide ApplyLayer, UndoLayer;
    if order != [] {
      var before := ApplyLayers(order[..|order| - 1], body, slot);
      LayerRoundTrip(order[|order| - 1], before.value, slot);
      LayersRoundTrip(order[..|order| - 1], body, slot);
    }
  }

  lemma {:induction false} TailRoundTrip(order: seq<TailLayer>, body: bytes, slot: Slot)
    ensures UndoTail(order, ApplyTail(order, body, slot), slot) == body
  {
    hide TailMask;
    if order != [] {
      Masks.MaskInvolution(ApplyTail(order[..|order| - 1], body, slot), TailMask(order[|order| - 1], slot));
      TailRoundTrip(order[..|order| - 1], body, slot);
    }
  }

  lemma UnpadRoundTrip(config: Config, slot: Slot, masked: bytes, noise: Chaos.Noise)
    ensures
      Unpad(config, slot, if config.chaosModeEnabled then Chaos.Pad(slot.Fingerprint() + masked, slot, noise) else masked)
        == Ok(masked)
  {
    hide Chaos.Pad, Chaos.Strip;
    var marked := slot.Fingerprint() + masked;
    Chaos.PaddingRoundTrip(marked, slot, noise);
    assert marked[..8] == slot.Fingerprint() && marked[8..] == masked;
  }

  /**
   * Deciphering with the same slot gives the plaintext back for every key, order,
   * configuration and noise, exactly when the cartouche header has at most 4096 bytes.
   */
  lemma DecipherUndoesEncipher(config: Config, slot: Slot, plaintext: bytes, noise: Chaos.Noise)
    requires slot.prims.Sound()
    requires Enciphered(config, slot, plaintext, noise).Ok?
    ensures
      Deciphered(config, slot, Enciphered(config, slot, plaintext, noise).value) ==
        if !config.enabled || |HeaderOf(config, slot, plaintext)| <= 4096 then Ok(plaintext)
        else Err(Cartouche(Egyptian.InvalidHeaderLength))
  {
    hide ApplyLayers, UndoLayers, ApplyTail, UndoTail, LayerOrder, TailOrder, Unpad, Chaos.Pad,
         PersianSeal.ApplySeal, PersianSeal.VerifySeal, Egyptian.UnwrapCartouche, Egyptian.WrapCartouche;
    if config.enabled {
      var key := slot.LayerKey("cartouche");
      var wrapped := Egyptian.WrapCartouche(slot.prims, plaintext, config.subject, slot.correlationId, key).value;
      var order, tail := LayerOrder(config, slot), TailOrder(config, slot);
      var body := ApplyLayers(order, wrapped, slot).value;
      var sealed := PersianSeal.ApplySeal(slot.prims, body, slot.LayerKey("persian-seal"));
      UnpadRoundTrip(config, slot, ApplyTail(tail, sealed, slot), noise);
      TailRoundTrip(tail, sealed, slot);
      PersianSeal.SealedExactly(slot.prims, sealed, slot.LayerKey("persian-seal"), body);
      LayersRoundTrip(order, wrapped, slot);
      Egyptian.CartoucheRoundTrip(slot.prims, plaintext, config.subject, slot.correlationId, key);
    }
  }

  // ---------- Which layers are applied ----------

  /** All three body layers are applied once, the torch always and the veil when it is on; without chaos in the fixed order. */
  lemma LayersUsed(config: Config, slot: Slot)
    ensures multiset(LayerOrder(config, slot)) == multiset{Hieroglyph, Augustan, Transposition}
    ensures multiset(TailOrder(config, slot)) == if config.occultVeilEnabled then multiset{Torch, Veil} else multiset{Torch}
    ensures !config.chaosModeEnabled ==> LayerOrder(config, slot) == [Hieroglyph, Augustan, Transposition]
    ensures !config.chaosModeEnabled ==> TailOrder(config, slot) == if config.occultVeilEnabled then [Torch, Veil] else [Torch]
    ensures config.chaosModeEnabled ==>
      LayerOrder(config, slot) == Chaos.Shuffled([Hieroglyph, Augustan, Transposition], slot.ShuffleSeed("mutable"))
    ensures config.chaosModeEnabled ==>
      TailOrder(config, slot) == Chaos.Shuffled(if config.occultVeilEnabled then [Torch, Veil] else [Torch], slot.ShuffleSeed("tail"))
  {
    hide Chaos.Shuffled;
    var layers := [Hieroglyph, Augustan, Transposition];
    var tail := if config.occultVeilEnabled then [Torch, Veil] else [Torch];
    assert multiset(layers) == multiset{Hieroglyph, Augustan, Transposition};
    assert multiset(tail) == if config.occultVeilEnabled then multiset{Torch, Veil} else multiset{Torch};
    Chaos.OrderPermutes(layers, slot.ShuffleSeed("mutable"));
    Chaos.OrderPermutes(tail, slot.ShuffleSeed("tail"));
  }

  /** One layer more, unless an earlier one failed. */
  function Then(r: Result<bytes, CipherError>, layer: MutableLayer, slot: Slot): Result<bytes, CipherError> {
    if r.Err? then r
    else
      match layer
      case Hieroglyph => Ok(Egyptian.Substitute(r.value, Egyptian.Sbox(slot.LayerKey("hieroglyph"))))
      case Augustan => Ok(Masks.Rotate(r.value, slot.LayerKey("augustan")))
      case Transposition =>
        var grid := Scytale.Encipher(r.value, slot.RodDiameter());
        if grid.Err? then Err(Rod(grid.error)) else Ok(grid.value)
  }

  lemma ThreeLayers(a: MutableLayer, b: MutableLayer, c: MutableLayer, body: bytes, slot: Slot)
    ensures ApplyLayers([a, b, c], body, slot) == Then(Then(Then(Ok(body), a, slot), b, slot), c, slot)
  {
    hide Egyptian.Substitute, Egyptian.Sbox, Masks.Rotate, Scytale.Encipher, Slot.LayerKey, Slot.RodDiameter;
    assert [a, b, c][..2] == [a, b] && [a, b][..1] == [a] && [a][..0] == [];
    assert ApplyLayers([a], body, slot) == Then(Ok(body), a, slot);
    assert ApplyLayers([a, b], body, slot) == Then(Then(Ok(body), a, slot), b, slot);
  }

  lemma TailLayers(config: Config, slot: Slot, body: bytes)
    ensures
      var t := TailOrder(config, slot);
      && |t| == (if config.occultVeilEnabled then 2 else 1)
      && ApplyTail(t, body, slot) ==
           (if |t| == 1 then Masks.Masked(body, TailMask(t[0], slot))
            else Masks.Masked(Masks.Masked(body, TailMask(t[0], slot)), TailMask(t[1], slot)))
  {
    hide Chaos.Shuffled, Masks.Masked, TailMask;
    var t := TailOrder(config, slot);
    if |t| == 1 {
      assert t[..0] == [];
    } else {
      assert t[..1] == [t[0]] && [t[0]][..0] == [];
      assert ApplyTail([t[0]], body, slot) == Masks.Masked(body, TailMask(t[0], slot));
    }
  }

  /**
   * Enciphering is the envelope, then substitution, rotation and transposition in the derived
   * order, then the seal over all that, then the masks, and in chaos mode the fingerprint
   * and the padding around everything.
   */
  lemma EncipheredForm(config: Config, slot: Slot, plaintext: bytes, noise: Chaos.Noise)
    requires config.enabled
    ensures
      var o, t := LayerOrder(config, slot), TailOrder(config, slot);
      var wrapped := Egyptian.WrapCartouche(slot.prims, plaintext, config.subject, slot.correlationId, slot.LayerKey("cartouche"));
      |o| == 3 && Enciphered(config, slot, plaintext, noise) ==
        if wrapped.Err? then Err(Cartouche(wrapped.error))
        else
          var body := Then(Then(Then(Ok(wrapped.value), o[0], slot), o[1], slot), o[2], slot);
          if body.Err? then body
          else
            var sealed := PersianSeal.ApplySeal(slot.prims, body.value, slot.LayerKey("persian-seal"));
            var masked := ApplyTail(t, sealed, slot);
            Ok(if config.chaosModeEnabled then Chaos.Pad(slot.Fingerprint() + masked, slot, noise) else masked)
  {
    hide Then, ApplyLayers, ApplyTail, TailOrder, LayerOrder, Chaos.Pad, PersianSeal.ApplySeal, Egyptian.WrapCartouche, Slot.LayerKey;
    LayersUsed(config, slot);
    var o := LayerOrder(config, slot);
    assert |multiset(o)| == 3;
    assert o == [o[0], o[1], o[2]];
    var wrapped := Egyptian.WrapCartouche(slot.prims, plaintext, config.subject, slot.correlationId, slot.LayerKey("cartouche"));
    if wrapped.Ok? {
      ThreeLayers(o[0], o[1], o[2], wrapped.value, slot);
    }
  }

  /** Without chaos: the masked seal of the transposed, rotated and substituted envelope. */
  lemma EncipheredWithoutChaos(config: Config, slot: Slot, plaintext: bytes, noise: Chaos.Noise)
    requires config.enabled && !config.chaosModeEnabled
    ensures
      var wrapped := Egyptian.WrapCartouche(slot.prims, plaintext, config.subject, slot.correlationId, slot.LayerKey("cartouche"));
      Enciphered(config, slot, plaintext, noise) ==
        if wrapped.Err? then Err(Cartouche(wrapped.error))
        else
          var substituted := Egyptian.Substitute(wrapped.value, Egyptian.Sbox(slot.LayerKey("hieroglyph")));
          var grid := Scytale.Encipher(Masks.Rotate(substituted, slot.LayerKey("augustan")), slot.RodDiameter());
          if grid.Err? then Err(Rod(grid.error))
          else
            var sealed := PersianSeal.ApplySeal(slot.prims, grid.value, slot.LayerKey("persian-seal"));
            var torched := Masks.Masked(sealed, Masks.TorchByte(slot.TorchKey()));
            Ok(if config.occultVeilEnabled then Masks.Masked(torched, Masks.VeilByte(slot.VeilKey())) else torched)
  {
    hide Egyptian.Substitute, Egyptian.Sbox, Masks.Rotate, Masks.Masked, Masks.TorchByte, Masks.VeilByte, Scytale.Encipher, Slot.LayerKey,
         Slot.RodDiameter, PersianSeal.ApplySeal, Egyptian.WrapCartouche, Enciphered, LayerOrder, TailOrder, ApplyTail;
    LayersUsed(config, slot);
    EncipheredForm(config, slot, plaintext, noise);
    var wrapped := Egyptian.WrapCartouche(slot.prims, plaintext, config.subject, slot.correlationId, slot.LayerKey("cartouche"));
    if wrapped.Ok? {
      var body := Then(Then(Then(Ok(wrapped.value), Hieroglyph, slot), Augustan, slot), Transposition, slot);
      if body.Ok? {
        TailLayers(config, slot, PersianSeal.ApplySeal(slot.prims, body.value, slot.LayerKey("persian-seal")));
      }
    }
  }

  // ---------- What is accepted back ----------

  /** The ciphertext holds this body under its seal, its masks and, in chaos mode, its fingerprint and padding. */
  ghost predicate Carries(config: Config, slot: Slot, ciphertext: bytes, body: bytes) {
    var masked := ApplyTail(TailOrder(config, slot), PersianSeal.ApplySeal(slot.prims, body, slot.LayerKey("persian-seal")), slot);
    if config.chaosModeEnabled then Chaos.Strip(ciphertext, slot) == Ok(slot.Fingerprint() + masked) else ciphertext == masked
  }

  lemma {:induction false} TailUndone(order: seq<TailLayer>, body: bytes, slot: Slot)
    ensures ApplyTail(order, UndoTail(order, body, slot), slot) == body
    decreases |order|
  {
    hide TailMask;
    if order != [] {
      var mask := TailMask(order[|order| - 1], slot);
      TailUndone(order[..|order| - 1], Masks.Masked(body, mask), slot);
      Masks.MaskInvolution(body, mask);
    }
  }

  lemma UnpadExactly(config: Config, slot: Slot, ciphertext: bytes, masked: bytes)
    ensures Unpad(config, slot, ciphertext) == Ok(masked) <==>
      if config.chaosModeEnabled then Chaos.Strip(ciphertext, slot) == Ok(slot.Fingerprint() + masked) else ciphertext == masked
    ensures Unpad(config, slot, ciphertext) == Err(FingerprintMismatch) <==>
      && config.chaosModeEnabled && Chaos.Strip(ciphertext, slot).Ok?
      && !(slot.Fingerprint() <= Chaos.Strip(ciphertext, slot).value)
  {
    hide Chaos.Strip;
    if config.chaosModeEnabled && Chaos.Strip(ciphertext, slot).Ok? {
      var stripped := Chaos.Strip(ciphertext, slot).value;
      assert (slot.Fingerprint() + masked)[..8] == slot.Fingerprint() && (slot.Fingerprint() + masked)[8..] == masked;
      if |stripped| >= 8 && stripped[..8] == slot.Fingerprint() {
        assert stripped == slot.Fingerprint() + stripped[8..];
      }
    }
  }

  /**
   * Deciphering yields a plaintext exactly when the ciphertext carries, under the seal, the masks, the
   * fingerprint and the padding of its slot, a body whose layers undo to an envelope of it.
   */
  lemma DeciphersExactly(config: Config, slot: Slot, ciphertext: bytes, plaintext: bytes)
    requires config.enabled
    ensures Deciphered(config, slot, ciphertext) == Ok(plaintext) <==>
      exists body :: Carries(config, slot, ciphertext, body) && Yields(config, slot, body, plaintext)
  {
    hide ApplyTail, UndoTail, TailOrder, LayerOrder, Unpad, UndoLayers, PersianSeal.ApplySeal, PersianSeal.VerifySeal, Chaos.Strip, Slot.LayerKey,
         Egyptian.UnwrapCartouche, Slot.Fingerprint;
    var key, tail := slot.LayerKey("persian-seal"), TailOrder(config, slot);
    var masked := Unpad(config, slot, ciphertext);
    if masked.Ok? {
      var sealed := UndoTail(tail, masked.value, slot);
      TailUndone(tail, masked.value, slot);
      UnpadExactly(config, slot, ciphertext, masked.value);
      var body := PersianSeal.VerifySeal(slot.prims, sealed, key);
      if body.Ok? {
        PersianSeal.SealedExactly(slot.prims, sealed, key, body.value);
        assert Carries(config, slot, ciphertext, body.value);
      }
    }
    forall body | Carries(config, slot, ciphertext, body)
      ensures masked.Ok? && PersianSeal.VerifySeal(slot.prims, UndoTail(tail, masked.value, slot), key) == Ok(body)
    {
      var sealed := PersianSeal.ApplySeal(slot.prims, body, key);
      UnpadExactly(config, slot, ciphertext, ApplyTail(tail, sealed, slot));
      TailRoundTrip(tail, sealed, slot);
      PersianSeal.SealedExactly(slot.prims, sealed, key, body);
    }
  }

  /** The layers of the body undo to an envelope of the plaintext. */
  ghost predicate Yields(config: Config, slot: Slot, body: bytes, plaintext: bytes) {
    var wrapped := UndoLayers(LayerOrder(config, slot), body, slot);
    wrapped.Ok? && Egyptian.UnwrapCartouche(slot.prims, wrapped.value, slot.LayerKey("cartouche")) == Ok(plaintext)
  }

  // ---------- Length ----------

  /** The length of a body of n bytes after one transposition, in any order of layers. */
  function TransposedLength(n: nat, slot: Slot): nat {
    4 + Scytale.Rows(n, slot.RodDiameter()) * slot.RodDiameter()
  }

  /** Only the transposition changes the length or can fail, wherever it stands. */
  lemma {:induction false} LayersLength(order: seq<MutableLayer>, body: bytes, slot: Slot)
    requires multiset(order)[Transposition] <= 1
    ensures
      var r := ApplyLayers(order, body, slot);
      if Transposition !in order then r.Ok? && |r.value| == |body|
      else (r.Ok? <==> |body| < U32_LIMIT) && (r.Ok? ==> |r.value| == TransposedLength(|body|, slot))
  {
    if order != [] {
      var prefix, last := order[..|order| - 1], order[|order| - 1];
      assert order == prefix + [last];
      assert multiset(order) == multiset(prefix) + multiset{last};
      hide Scytale.Transposed, Egyptian.Substitute, Masks.Rotate;
      LayersLength(prefix, body, slot);
      if last == Transposition {
        assert multiset(prefix)[Transposition] == 0;
        assert Transposition !in prefix;
      }
    }
  }

  lemma OneTransposition(config: Config, slot: Slot)
    ensures multiset(LayerOrder(config, slot))[Transposition] == 1
  {
    hide Chaos.Shuffled;
    assert multiset(MUTABLE_LAYERS) == multiset{Hieroglyph, Augustan, Transposition};
    Chaos.OrderPermutes(MUTABLE_LAYERS, slot.ShuffleSeed("mutable"));
  }

  /** Enciphering fails exactly for a header over 65535 bytes or an envelope of 2^32 bytes or more. */
  lemma EncipherSucceeds(config: Config, slot: Slot, plaintext: bytes, noise: Chaos.Noise)
    requires config.enabled
    ensures
      var h := |HeaderOf(config, slot, plaintext)|;
      Enciphered(config, slot, plaintext, noise).Ok? <==> h < U16_LIMIT && 2 + h + |plaintext| < U32_LIMIT
  {
    hide ApplyLayers, LayerOrder, TailOrder, ApplyTail, Chaos.Pad;
    OneTransposition(config, slot);
    var wrapped := Egyptian.WrapCartouche(slot.prims, plaintext, config.subject, slot.correlationId, slot.LayerKey("cartouche"));
    if wrapped.Ok? {
      LayersLength(LayerOrder(config, slot), wrapped.value, slot);
    }
  }

  /** The ciphertext length, which the layer order does not affect, and its bounds. */
  lemma CiphertextLength(config: Config, slot: Slot, plaintext: bytes, noise: Chaos.Noise)
    requires config.enabled && Enciphered(config, slot, plaintext, noise).Ok?
    ensures
      var h := |HeaderOf(config, slot, plaintext)|;
      var n := |Enciphered(config, slot, plaintext, noise).value|;
      var p := |plaintext|;
      && n == TransposedLength(2 + h + p, slot) + 36 +
           (if config.chaosModeEnabled then 12 + Chaos.PadLength(slot) + Chaos.SuffixLength(slot) else 0)
      && (if config.chaosModeEnabled then p + h + 78 <= n <= p + h + 467 else p + h + 42 <= n <= p + h + 57)
  {
    hide ApplyLayers, LayerOrder, TailOrder, ApplyTail, Chaos.Pad, Chaos.PadLength, Chaos.SuffixLength, Scytale.Rows,
         PersianSeal.ApplySeal;
    OneTransposition(config, slot);
    var wrapped := Egyptian.WrapCartouche(slot.prims, plaintext, config.subject, slot.correlationId, slot.LayerKey("cartouche"));
    LayersLength(LayerOrder(config, slot), wrapped.value, slot);
    Scytale.RowsCover(|wrapped.value|, slot.RodDiameter());
  }

  // ---------- Implementation ----------

  class ImperialCipherStack {
    const prims: Primitives
    const masterKey: bytes
    const correlationId: string
    const config: Config

    constructor (prims: Primitives, masterKey: bytes, correlationId: string, config: Config)
      ensures this.prims == prims && this.masterKey == masterKey
      ensures this.correlationId == correlationId && this.config == config
    {
      this.prims := prims;
      this.masterKey := masterKey;
      this.correlationId := correlationId;
      this.config := config;
    }

    function SlotOf(timestampMs: int, sequence: nat): Slot {
      Slot(prims, masterKey, correlationId, sequence, timestampMs)
    }

    method Encipher(plaintext: bytes, timestampMs: int, sequence: nat, noise: Chaos.Noise) returns (r: Result<bytes, CipherError>)
      ensures r == Enciphered(config, Slot(prims, masterKey, correlationId, sequence, timestampMs), plaintext, noise)
    {
      hide Chaos.Shuffled, Egyptian.Sbox, Chaos.PadLength, Chaos.SuffixLength, Masks.Masked, Egyptian.Substitute, Masks.Rotate;
      if !config.enabled {
        return Ok(plaintext);
      }
      var slot := SlotOf(timestampMs, sequence);
      var wrapped := Egyptian.WrapCartouche(prims, plaintext, config.subject, correlationId, slot.LayerKey("cartouche"));
      if wrapped.Err? {
        return Err(Cartouche(wrapped.error));
      }
      var order := MUTABLE_LAYERS;
      if config.chaosModeEnabled {
        order := Chaos.DeriveShuffledOrder(MUTABLE_LAYERS, slot.ShuffleSeed("mutable"));
      }
      var body := EncipherLayers(order, wrapped.value, slot);
      if body.Err? {
        return body;
      }
      var sealed := PersianSeal.ApplySeal(prims, body.value, slot.LayerKey("persian-seal"));
      var tail := DeriveTailOrder(slot);
      var masked := EncipherTail(tail, sealed, slot);
      if config.chaosModeEnabled {
        return Ok(Chaos.Pad(slot.Fingerprint() + masked, slot, noise));
      }
      r := Ok(masked);
    }

    method DeriveTailOrder(slot: Slot) returns (tail: seq<TailLayer>)
      ensures tail == TailOrder(config, slot)
    {
      tail := [Torch];
      if config.occultVeilEnabled {
        tail := tail + [Veil];
        assert tail == [Torch, Veil];
      }
      if config.chaosModeEnabled {
        tail := Chaos.DeriveShuffledOrder(tail, slot.ShuffleSeed("tail"));
      }
    }

    method EncipherLayers(order: seq<MutableLayer>, start: bytes, slot: Slot) returns (r: Result<bytes, CipherError>)
      ensures r == ApplyLayers(order, start, slot)
    {
      hide Egyptian.Sbox, Egyptian.Substitute, Masks.Rotate, Scytale.Encipher;
      var sbox := Egyptian.BuildHieroglyphSbox(slot.LayerKey("hieroglyph"));
      var body := start;
      for i := 0 to |order|
        invariant ApplyLayers(order[..i], start, slot) == Ok(body)
        invariant sbox[..] == Egyptian.Sbox(slot.LayerKey("hieroglyph"))
      {
        assert order[..i + 1][..i] == order[..i];
        match order[i] {
          case Hieroglyph =>
            body := Egyptian.HieroglyphEncipher(body, sbox);
          case Augustan =>
            body := Masks.AugustanEncipher(body, slot.LayerKey("augustan"));
          case Transposition =>
            var columns := Scytale.ScytaleEncipher(body, slot.RodDiameter());
            if columns.Err? {
              ErrorStays(order, i + 1, start, slot);
              return Err(Rod(columns.error));
            }
            body := columns.value;
        }
      }
      assert order[..|order|] == order;
      r := Ok(body);
    }

    method EncipherTail(order: seq<TailLayer>, start: bytes, slot: Slot) returns (body: bytes)
      ensures body == ApplyTail(order, start, slot)
    {
      hide Masks.Masked;
      body := start;
      for i := 0 to |order|
        invariant ApplyTail(order[..i], start, slot) == body
      {
        assert order[..i + 1][..i] == order[..i];
        if order[i] == Torch {
          body := Masks.TorchMask(body, slot.TorchKey());
        } else {
          body := Masks.OccultVeilTransform(body, slot.VeilKey());
        }
      }
      assert order[..|order|] == order;
    }

    method Decipher(ciphertext: bytes, timestampMs: int, sequence: nat) returns (r: Result<bytes, CipherError>)
      ensures r == Deciphered(config, Slot(prims, masterKey, correlationId, sequence, timestampMs), ciphertext)
    {
      hide Chaos.Shuffled, Egyptian.Sbox, Chaos.PadLength, Chaos.SuffixLength, Masks.Masked, PersianSeal.VerifySeal, Egyptian.UnwrapCartouche;
      if !config.enabled {
        return Ok(ciphertext);
      }
      var slot := SlotOf(timestampMs, sequence);
      var masked := ciphertext;
      if config.chaosModeEnabled {
        var stripped := Chaos.Strip(masked, slot);
        if stripped.Err? {
          return Err(Padding(stripped.error));
        }
        masked := stripped.value;
        if |masked| < 8 || masked[..8] != slot.Fingerprint() {
          return Err(FingerprintMismatch);
        }
        masked := masked[8..];
      }
      var tail := DeriveTailOrder(slot);
      var sealed := DecipherTail(tail, masked, slot);
      var body := PersianSeal.VerifySeal(prims, sealed, slot.LayerKey("persian-seal"));
      if body.Err? {
        return Err(Wax(body.error));
      }
      var order := MUTABLE_LAYERS;
      if config.chaosModeEnabled {
        order := Chaos.DeriveShuffledOrder(MUTABLE_LAYERS, slot.ShuffleSeed("mutable"));
      }
      var wrapped := DecipherLayers(order, body.value, slot);
      if wrapped.Err? {
        return wrapped;
      }
      var plaintext := Egyptian.UnwrapCartouche(prims, wrapped.value, slot.LayerKey("cartouche"));
      r := if plaintext.Err? then Err(Cartouche(plaintext.error)) else Ok(plaintext.value);
    }

    method DecipherLayers(order: seq<MutableLayer>, start: bytes, slot: Slot) returns (r: Result<bytes, CipherError>)
      ensures r == UndoLayers(order, start, slot)
    {
      hide Egyptian.Sbox, Egyptian.Unsubstitute, Masks.Unrotate, Scytale.Decipher;
      var body := start;
      assert order[..|order|] == order;
      for i := |order| downto 0
        invariant UndoLayers(order[..i], body, slot) == UndoLayers(order, start, slot)
      {
        assert order[..i + 1][..i] == order[..i];
        match order[i] {
          case Hieroglyph =>
            var sbox := Egyptian.BuildHieroglyphSbox(slot.LayerKey("hieroglyph"));
            body := Egyptian.HieroglyphDecipher(body, sbox);
          case Augustan =>
            body := Masks.AugustanDecipher(body, slot.LayerKey("augustan"));
          case Transposition =>
            var grid := Scytale.ScytaleDecipher(body, slot.RodDiameter());
            if grid.Err? {
              return Err(Rod(grid.error));
            }
            body := grid.value;
        }
      }
      r := Ok(body);
    }

    method DecipherTail(order: seq<TailLayer>, start: bytes, slot: Slot) returns (body: bytes)
      ensures body == UndoTail(order, start, slot)
    {
      hide Masks.Masked;
      body := start;
      assert order[..|order|] == order;
      for i := |order| downto 0
        invariant UndoTail(order[..i], body, slot) == UndoTail(order, start, slot)
      {
        assert order[..i + 1][..i] == order[..i];
        if order[i] == Veil {
          body := Masks.OccultVeilTransform(body, slot.VeilKey());
        } else {
          body := Masks.TorchMask(body, slot.TorchKey());
        }
      }
    }
  }

  lemma {:induction false} ErrorStays(order: seq<MutableLayer>, i: nat, start: bytes, slot: Slot)
    requires i <= |order| && ApplyLayers(order[..i], start, slot).Err?
    ensures ApplyLayers(order, start, slot) == ApplyLayers(order[..i], start, slot)
    decreases |order|
  {
    hide ApplyLayer;
    if i < |order| {
      var prefix := order[..|order| - 1];
      assert prefix[..i] == order[..i];
      ErrorStays(prefix, i, start, slot);
    } else {
      assert order[..i] == order;
    }
  }
}
