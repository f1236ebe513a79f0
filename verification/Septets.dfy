/**
 Bits, octets and the packing of 7-bit septets after a user data header
 (section 6.1.2.1 of 3GPP TS 23.038; section 9.2.3.24 of 3GPP TS 23.040).
 */
module Septets {
  type Octet = n: nat | n < 256
  type Septet = n: nat | n < 128

  function Exp2(k: nat): nat {
    if k == 0 then 1 else 2 * Exp2(k - 1)
  }

  /** Bit `k` of `n`: `(n >> k) & 1`. */
  predicate Bit(n: nat, k: nat) {
    if k == 0 then n % 2 == 1 else Bit(n / 2, k - 1)
  }

  /** `n | (v << k)`. */
  function OrBit(n: nat, k: nat, v: bool): nat {
    if k == 0 then n / 2 * 2 + (if v || n % 2 == 1 then 1 else 0)
    else n % 2 + 2 * OrBit(n / 2, k - 1, v)
  }

  /** The number whose bits 0..width-1 are `bit(from)`, `bit(from + 1)`, ... */
  function FromBits(width: nat, bit: nat -> bool, from: nat): (n: nat) {
    if width == 0 then 0
    else (if bit(from) then 1 else 0) + 2 * FromBits(width - 1, bit, from + 1)
  }

  lemma {:induction false} OrBitBit(n: nat, k: nat, v: bool, j: nat)
    ensures Bit(OrBit(n, k, v), j) <==> Bit(n, j) || (j == k && v)
  {
    if k > 0 && j > 0 {
      OrBitBit(n / 2, k - 1, v, j - 1);
    } else if k == 0 && j > 0 {
      assert OrBit(n, k, v) / 2 == n / 2;
    }
  }

  lemma {:induction false} OrBitRange(n: nat, k: nat, v: bool, width: nat)
    requires k < width && n < Exp2(width)
    ensures OrBit(n, k, v) < Exp2(width)
  {
    assert n / 2 < Exp2(width - 1);
    if k > 0 {
      OrBitRange(n / 2, k - 1, v, width - 1);
    }
  }

  lemma {:induction false} FromBitsBit(width: nat, bit: nat -> bool, from: nat, k: nat)
    requires k < width
    ensures Bit(FromBits(width, bit, from), k) <==> bit(from + k)
  {
    if k > 0 {
      FromBitsBit(width - 1, bit, from + 1, k - 1);
    }
  }

  lemma {:induction false} FromBitsRange(width: nat, bit: nat -> bool, from: nat)
    ensures FromBits(width, bit, from) < Exp2(width)
  {
    if width > 0 {
      FromBitsRange(width - 1, bit, from + 1);
    }
  }

  /** Numbers of the same width with the same bits are equal. */
  lemma {:induction false} SameBits(a: nat, b: nat, width: nat)
    requires a < Exp2(width) && b < Exp2(width)
    requires forall k :: 0 <= k < width ==> (Bit(a, k) <==> Bit(b, k))
    ensures a == b
  {
    if width > 0 {
      assert Bit(a, 0) <==> Bit(b, 0);
      forall k | 0 <= k < width - 1 ensures Bit(a / 2, k) <==> Bit(b / 2, k) {
        assert Bit(a, k + 1) <==> Bit(b, k + 1);
      }
      SameBits(a / 2, b / 2, width - 1);
    }
  }

  lemma Widths()
    ensures Exp2(7) == 128 && Exp2(8) == 256
  {
    assert Exp2(4) == 16;
  }

  /** Bit `p` of an octet string, counted from the low end of the first octet. */
  predicate StreamBit(octets: seq<Octet>, p: nat)
    requires p < 8 * |octets|
  {
    Bit(octets[p / 8], p % 8)
  }

  /** Septets the header occupies, with the fill bits that align the text: `(len * 8).div_ceil(7)`. */
  function Skip(header: nat): nat {
    (header * 8 + 6) / 7
  }

  /** Octets that hold `septets` septets: `(septets * 7).div_ceil(8)`. */
  function OctetsFor(septets: nat): nat {
    (septets * 7 + 7) / 8
  }

  /** What bit `p` of the packed user data must be: the header, zero fill, the septets, zero fill. */
  predicate PackedBit(header: seq<Octet>, text: seq<Septet>, p: nat) {
    if p < 8 * |header| then StreamBit(header, p)
    else
      var skip := Skip(|header|);
      skip <= p / 7 < skip + |text| && Bit(text[p / 7 - skip], p % 7)
  }

  function PackedOctet(header: seq<Octet>, text: seq<Septet>, k: nat): Octet {
    var bits := (p: nat) => PackedBit(header, text, p);
    FromBitsRange(8, bits, 8 * k);
    Widths();
    FromBits(8, bits, 8 * k)
  }

  /** The user data octets of a header followed by packed septets. */
  function Packed(header: seq<Octet>, text: seq<Septet>): (user: seq<Octet>)
    ensures |user| == OctetsFor(Skip(|header|) + |text|)
  {
    seq(OctetsFor(Skip(|header|) + |text|), (k: nat) => PackedOctet(header, text, k))
  }

  lemma PackedStream(header: seq<Octet>, text: seq<Septet>, p: nat)
    requires p < 8 * |Packed(header, text)|
    ensures StreamBit(Packed(header, text), p) <==> PackedBit(header, text, p)
  {
    var bits := (q: nat) => PackedBit(header, text, q);
    FromBitsBit(8, bits, 8 * (p / 8), p % 8);
    assert Packed(header, text)[p / 8] == PackedOctet(header, text, p / 8);
  }

  /** Two octet strings with the same bits are the same. */
  lemma SameStream(a: seq<Octet>, b: seq<Octet>)
    requires |a| == |b|
    requires forall p :: 0 <= p < 8 * |a| ==> (StreamBit(a, p) <==> StreamBit(b, p))
    ensures a == b
  {
    forall i | 0 <= i < |a| ensures a[i] == b[i] {
      forall k | 0 <= k < 8 ensures Bit(a[i], k) <==> Bit(b[i], k) {
        assert StreamBit(a, 8 * i + k) <==> StreamBit(b, 8 * i + k);
      }
      Widths();
      SameBits(a[i], b[i], 8);
    }
  }

  /** Packing leaves every header octet as it was. */
  lemma PackedKeepsHeader(header: seq<Octet>, text: seq<Septet>)
    ensures |header| <= |Packed(header, text)| && Packed(header, text)[..|header|] == header
  {
    var user := Packed(header, text);
    var kept := user[..|header|];
    forall p | 0 <= p < 8 * |header| ensures StreamBit(kept, p) <==> StreamBit(header, p) {
      PackedStream(header, text, p);
      assert StreamBit(user, p) <==> StreamBit(kept, p);
    }
    SameStream(kept, header);
  }

  function SeptetAt(octets: seq<Octet>, i: nat): (n: Septet)
    requires i * 7 + 7 <= 8 * |octets|
  {
    var bits := (p: nat) => p < 8 * |octets| && StreamBit(octets, p);
    FromBitsRange(7, bits, 7 * i);
    Widths();
    FromBits(7, bits, 7 * i)
  }

  lemma SeptetAtBit(octets: seq<Octet>, i: nat, k: nat)
    requires i * 7 + 7 <= 8 * |octets| && k < 7
    ensures Bit(SeptetAt(octets, i), k) <==> StreamBit(octets, 7 * i + k)
  {
    FromBitsBit(7, (p: nat) => p < 8 * |octets| && StreamBit(octets, p), 7 * i, k);
  }

  /** The septets read from position `skip` on: `count` of them, or as many as there are. */
  function Unpacked(octets: seq<Octet>, skip: nat, count: nat): (text: seq<Septet>)
    decreases count
  {
    if count == 0 || skip * 7 + 7 > 8 * |octets| then []
    else [SeptetAt(octets, skip)] + Unpacked(octets, skip + 1, count - 1)
  }

  /** Reading stops at `count` or at the first septet that is no longer complete. */
  lemma {:induction false} UnpackedLength(octets: seq<Octet>, skip: nat, count: nat)
    ensures var n := |Unpacked(octets, skip, count)|;
      && n <= count
      && (n < count ==> (skip + n) * 7 + 7 > 8 * |octets|)
      && (n > 0 ==> (skip + n - 1) * 7 + 7 <= 8 * |octets|)
    decreases count
  {
    if count > 0 && skip * 7 + 7 <= 8 * |octets| {
      UnpackedLength(octets, skip + 1, count - 1);
    }
  }

  lemma {:induction false} UnpackedAt(octets: seq<Octet>, skip: nat, count: nat, i: nat)
    requires i < count && (skip + i) * 7 + 7 <= 8 * |octets|
    ensures i < |Unpacked(octets, skip, count)| && Unpacked(octets, skip, count)[i] == SeptetAt(octets, skip + i)
    decreases count
  {
    if i > 0 {
      UnpackedAt(octets, skip + 1, count - 1, i - 1);
    }
  }

  lemma PackedSeptet(header: seq<Octet>, text: seq<Septet>, i: nat)
    requires i < |text|
    ensures (Skip(|header|) + i) * 7 + 7 <= 8 * |Packed(header, text)|
    ensures SeptetAt(Packed(header, text), Skip(|header|) + i) == text[i]
  {
    hide SeptetAt, StreamBit, Bit, FromBits, PackedOctet;
    var user := Packed(header, text);
    var at := Skip(|header|) + i;
    assert at * 7 + 7 <= 8 * |user|;
    forall k | 0 <= k < 7 ensures Bit(SeptetAt(user, at), k) <==> Bit(text[i], k) {
      SeptetAtBit(user, at, k);
      PackedStream(header, text, 7 * at + k);
      assert (7 * at + k) / 7 == at && (7 * at + k) % 7 == k;
    }
    Widths();
    SameBits(SeptetAt(user, at), text[i], 7);
  }

  /** Reading back what was packed. */
  lemma UnpackedPacked(header: seq<Octet>, text: seq<Septet>)
    ensures Unpacked(Packed(header, text), Skip(|header|), |text|) == text
  {
    UnpackedSuffix(header, text, 0);
  }

  lemma {:induction false} UnpackedSuffix(header: seq<Octet>, text: seq<Septet>, i: nat)
    requires i <= |text|
    ensures Unpacked(Packed(header, text), Skip(|header|) + i, |text| - i) == text[i..]
    decreases |text| - i
  {
    hide SeptetAt, Packed;
    if i < |text| {
      PackedSeptet(header, text, i);
      UnpackedSuffix(header, text, i + 1);
    }
  }

  /** The packing loop of `submit`: extends `header` by zero octets and ORs the septets in bit by bit. */
  method Pack(header: seq<Octet>, text: seq<Septet>) returns (user: seq<Octet>, udl: nat)
    ensures user == Packed(header, text)
    ensures udl == Skip(|header|) + |text|
  {
    var skip := (|header| * 8 + 6) / 7;
    udl := skip + |text|;
    var size := (udl * 7 + 7) / 8;
    var buffer := new Octet[size](i => if 0 <= i < |header| then header[i] else 0);
    var offset := 0;
    forall p | 0 <= p < 8 * size
      ensures StreamBit(buffer[..], p) <==> p < 7 * skip && PackedBit(header, text, p)
    {
      ZeroBits(p % 8);
    }
    while offset < |text|
      invariant 0 <= offset <= |text|
      invariant forall p :: 0 <= p < 8 * size ==>
        (StreamBit(buffer[..], p) <==> p < 7 * (skip + offset) && PackedBit(header, text, p))
    {
      var bit := 0;
      while bit < 7
        invariant 0 <= bit <= 7
        invariant forall p :: 0 <= p < 8 * size ==>
          (StreamBit(buffer[..], p) <==> p < 7 * (skip + offset) + bit && PackedBit(header, text, p))
      {
        var position := (skip + offset) * 7 + bit;
        ghost var before := buffer[..];
        OrBitRange(buffer[position / 8], position % 8, Bit(text[offset], bit), 8);
        Widths();
        buffer[position / 8] := OrBit(buffer[position / 8], position % 8, Bit(text[offset], bit));
        forall p | 0 <= p < 8 * size
          ensures StreamBit(buffer[..], p) <==> p < position + 1 && PackedBit(header, text, p)
        {
          assert StreamBit(before, p) <==> p < position && PackedBit(header, text, p);
          OrBitBit(before[position / 8], position % 8, Bit(text[offset], bit), p % 8);
          if p == position {
            assert position / 7 == skip + offset && position % 7 == bit;
          } else if p / 8 == position / 8 {
            assert p % 8 != position % 8;
          }
        }
        bit := bit + 1;
      }
      offset := offset + 1;
    }
    user := buffer[..];
    forall p | 0 <= p < 8 * size ensures StreamBit(user, p) <==> StreamBit(Packed(header, text), p) {
      PackedStream(header, text, p);
    }
    SameStream(user, Packed(header, text));
  }

  lemma {:induction false} ZeroBits(k: nat)
    ensures !Bit(0, k)
  {
    if k > 0 {
      ZeroBits(k - 1);
    }
  }
}
