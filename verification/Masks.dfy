/** The byte-wise layers: rotation, torch mask and veil. */
module Masks {
  import opened Bytes
  import opened Primitives

  // ---------- Augustan rotation ----------

  function Shift(key: Digest, i: nat): (s: nat)
    ensures 1 <= s <= 127
  {
    1 + key[i % |key|] as int % 127
  }

  function Rotate(data: bytes, key: Digest): (r: bytes)
    ensures |r| == |data|
  {
    seq(|data|, i requires 0 <= i < |data| => (data[i] as int + Shift(key, i)) % 256)
  }

  function Unrotate(data: bytes, key: Digest): (r: bytes)
    ensures |r| == |data|
  {
    seq(|data|, i requires 0 <= i < |data| => (data[i] as int - Shift(key, i) + 256) % 256)
  }

  lemma RotationRoundTrip(data: bytes, key: Digest)
    ensures Unrotate(Rotate(data, key), key) == data
  {
    hide Shift;
    var r := Rotate(data, key);
    forall i | 0 <= i < |data| ensures Unrotate(r, key)[i] == data[i] {
      RotateByte(data[i], Shift(key, i));
    }
  }

  lemma RotateByte(b: byte, s: nat)
    requires 1 <= s <= 127
    ensures ((b as int + s) % 256 - s + 256) % 256 == b
  {
  }

  method AugustanEncipher(data: bytes, key: Digest) returns (out: bytes)
    ensures out == Rotate(data, key)
    ensures |out| == |data| && forall i :: 0 <= i < |data| ==> out[i] == (data[i] as int + 1 + key[i % 32] as int % 127) % 256
  {
    var buffer := new byte[|data|];
    for i := 0 to |data|
      invariant forall k :: 0 <= k < i ==> buffer[k] == Rotate(data, key)[k]
    {
      var shift := 1 + key[i % |key|] as int % 127;
      buffer[i] := (data[i] as int + shift) % 256;
    }
    out := buffer[..];
  }

  method AugustanDecipher(data: bytes, key: Digest) returns (out: bytes)
    ensures out == Unrotate(data, key)
    ensures |out| == |data| && forall i :: 0 <= i < |data| ==> data[i] == (out[i] as int + 1 + key[i % 32] as int % 127) % 256
  {
    var buffer := new byte[|data|];
    for i := 0 to |data|
      invariant forall k :: 0 <= k < i ==> buffer[k] == Unrotate(data, key)[k]
    {
      var shift := 1 + key[i % |key|] as int % 127;
      buffer[i] := (data[i] as int - shift + 256) % 256;
    }
    out := buffer[..];
  }

  // ---------- Torch and veil ----------

  /** The data masked byte by byte. */
  function Masked(data: bytes, mask: nat -> byte): (r: bytes)
    ensures |r| == |data|
  {
    seq<byte>(|data|, i requires 0 <= i < |data| => Xor(data[i], mask(i)))
  }

  function TorchByte(maskKey: Digest): nat -> byte {
    i => maskKey[i % |maskKey|]
  }

  /** The temporal anchor, derived from the golden ratio. */
  const TCAP_ANCHOR := 2407

  function VeilByte(veilKey: Digest): nat -> byte {
    i => Xor(veilKey[i % |veilKey|], (i * TCAP_ANCHOR + veilKey[0] as int) % 256)
  }

  /** A mask undoes itself. */
  lemma MaskInvolution(data: bytes, mask: nat -> byte)
    ensures Masked(Masked(data, mask), mask) == data
  {
    hide Xor;
    var once := Masked(data, mask);
    forall i | 0 <= i < |data| ensures Masked(once, mask)[i] == data[i] {
      XorCancel(data[i], mask(i));
    }
  }

  method TorchMask(data: bytes, maskKey: Digest) returns (out: bytes)
    ensures out == Masked(data, TorchByte(maskKey))
    ensures |out| == |data| && forall i :: 0 <= i < |data| ==> out[i] == Xor(data[i], maskKey[i % 32])
  {
    hide Xor;
    var buffer := new byte[|data|];
    for i := 0 to |data|
      invariant forall k :: 0 <= k < i ==> buffer[k] == Masked(data, TorchByte(maskKey))[k]
    {
      buffer[i] := Xor(data[i], maskKey[i % |maskKey|]);
    }
    out := buffer[..];
  }

  method OccultVeilTransform(data: bytes, veilKey: Digest) returns (out: bytes)
    ensures out == Masked(data, VeilByte(veilKey))
    ensures |out| == |data| && forall i :: 0 <= i < |data| ==>
      out[i] == Xor(data[i], Xor(veilKey[i % 32], (2407 * i + veilKey[0] as int) % 256))
  {
    hide Xor;
    var buffer := new byte[|data|];
    for i := 0 to |data|
      invariant forall k :: 0 <= k < i ==> buffer[k] == Masked(data, VeilByte(veilKey))[k]
    {
      var occultByte := Xor(veilKey[i % |veilKey|], (i * TCAP_ANCHOR + veilKey[0] as int) % 256);
      buffer[i] := Xor(data[i], occultByte);
    }
    out := buffer[..];
  }
}
