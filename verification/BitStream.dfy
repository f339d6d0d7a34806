/** Bit strings, most significant bit first: what qrcodegen.py's _BitBuffer holds, and the
    packing of bits into codewords. */
module BitStream {
  import opened Bits

  function ToBits(v: nat, n: nat): (bits: seq<bool>)
    ensures |bits| == n
  {
    if n == 0 then [] else ToBits(v / 2, n - 1) + [v % 2 == 1]
  }

  function FromBits(bits: seq<bool>): nat {
    if bits == [] then 0
    else 2 * FromBits(bits[..|bits| - 1]) + (if bits[|bits| - 1] then 1 else 0)
  }

  lemma {:induction false} ValueOfBits(v: nat, n: nat)
    requires v < Pow2(n)
    ensures FromBits(ToBits(v, n)) == v
  {
    if n > 0 {
      ValueOfBits(v / 2, n - 1);
      assert ToBits(v, n)[..n - 1] == ToBits(v / 2, n - 1);
    }
  }

  lemma {:induction false} BitsOfValue(bits: seq<bool>)
    ensures FromBits(bits) < Pow2(|bits|) && ToBits(FromBits(bits), |bits|) == bits
  {
    if bits != [] {
      BitsOfValue(bits[..|bits| - 1]);
      assert bits == bits[..|bits| - 1] + [bits[|bits| - 1]];
    }
  }

  lemma {:induction false} BitAt(v: nat, n: nat, i: nat)
    requires i < n
    ensures ToBits(v, n)[i] == (Bit(v, n - 1 - i) == 1)
  {
    if i < n - 1 { BitAt(v / 2, n - 1, i); }
  }

  function Unpack(data: seq<Byte>): (bits: seq<bool>)
    ensures |bits| == 8 * |data|
  {
    if data == [] then [] else Unpack(data[..|data| - 1]) + ToBits(data[|data| - 1], 8)
  }

  function Pack(bits: seq<bool>): (data: seq<Byte>)
    requires |bits| % 8 == 0
    ensures |data| == |bits| / 8
  {
    if bits == [] then []
    else
      ByteFits(bits[|bits| - 8..]);
      Pack(bits[..|bits| - 8]) + [FromBits(bits[|bits| - 8..])]
  }

  lemma ByteFits(bits: seq<bool>)
    requires |bits| == 8
    ensures FromBits(bits) < 256
  {
    BitsOfValue(bits);
    assert Pow2(8) == 256;
  }

  lemma PackLast(bits: seq<bool>, last: seq<bool>)
    requires |bits| % 8 == 0 && |last| == 8
    ensures FromBits(last) < 256 && Pack(bits + last) == Pack(bits) + [FromBits(last)]
  {
    assert (bits + last)[..|bits + last| - 8] == bits && (bits + last)[|bits + last| - 8..] == last;
    ByteFits(last);
  }

  lemma {:induction false} PackUnpack(data: seq<Byte>)
    ensures Pack(Unpack(data)) == data
  {
    if data != [] {
      hide Pack, Unpack, ToBits, FromBits;
      var n := |data| - 1;
      PackUnpack(data[..n]);
      PackByte(data[..n], data[n]);
      assert data == data[..n] + [data[n]];
    }
  }

  lemma PackByte(data: seq<Byte>, b: Byte)
    ensures Pack(Unpack(data + [b])) == Pack(Unpack(data)) + [b]
  {
    assert Pow2(8) == 256;
    ValueOfBits(b, 8);
    PackLast(Unpack(data), ToBits(b, 8));
    assert (data + [b])[..|data|] == data;
  }

  lemma {:induction false} UnpackPack(bits: seq<bool>)
    requires |bits| % 8 == 0
    ensures Unpack(Pack(bits)) == bits
  {
    if bits != [] {
      hide Pack, Unpack, ToBits, FromBits;
      var n := |bits| - 8;
      UnpackPack(bits[..n]);
      UnpackByte(bits[..n], bits[n..]);
      assert bits == bits[..n] + bits[n..];
    }
  }

  lemma UnpackByte(bits: seq<bool>, last: seq<bool>)
    requires |bits| % 8 == 0 && |last| == 8
    ensures Unpack(Pack(bits + last)) == Unpack(Pack(bits)) + last
  {
    hide Pack, FromBits, ToBits;
    PackLast(bits, last);
    BitsOfValue(last);
    assert (Pack(bits) + [FromBits(last)])[..|Pack(bits)|] == Pack(bits);
  }

  /** Bit k of a codeword sequence, as the drawing loop picks it. */
  lemma {:induction false} UnpackAt(data: seq<Byte>, k: nat)
    requires k < 8 * |data|
    ensures Unpack(data)[k] == (Bit(data[k / 8], 7 - k % 8) == 1)
  {
    var n := |data| - 1;
    if k < 8 * n {
      UnpackAt(data[..n], k);
    } else {
      BitAt(data[n], 8, k - 8 * n);
    }
  }
}
