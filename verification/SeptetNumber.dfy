/**
 Packing as arithmetic: the packed octets are the number, to the base 256, that the septets are to the base 128.
 This says nothing of bits, which the packing loop is about.
 */
module SeptetNumber {
  import opened Septets

  /** The number whose digits to the base `base` these are, lowest first. */
  function Number(base: nat, digits: seq<nat>): nat {
    if digits == [] then 0 else digits[0] + base * Number(base, digits[1..])
  }

  lemma Twice(a: nat, b: nat)
    ensures (2 * a) * b == 2 * (a * b)
  {
  }

  lemma {:induction false} FromBitsSplit(low: nat, high: nat, bit: nat -> bool, from: nat)
    ensures FromBits(low + high, bit, from) == FromBits(low, bit, from) + Exp2(low) * FromBits(high, bit, from + low)
  {
    var rest := FromBits(high, bit, from + low);
    if low == 0 {
      assert Exp2(0) * rest == rest;
    } else {
      FromBitsSplit(low - 1, high, bit, from + 1);
      Twice(Exp2(low - 1), rest);
    }
  }

  lemma {:induction false} NoBits(width: nat, bit: nat -> bool, from: nat)
    requires forall p :: from <= p < from + width ==> !bit(p)
    ensures FromBits(width, bit, from) == 0
  {
    if width > 0 {
      NoBits(width - 1, bit, from + 1);
    }
  }

  /** The bits from `from` on are those of the digits, `width` bits each. */
  predicate Shows(width: nat, digits: seq<nat>, bit: nat -> bool, from: nat) {
    digits != [] ==>
      && digits[0] < Exp2(width)
      && (forall k :: 0 <= k < width ==> (bit(from + k) <==> Bit(digits[0], k)))
      && Shows(width, digits[1..], bit, from + width)
  }

  /** The bits of digits make up the number of these digits. */
  lemma {:induction false} BitsOfDigits(width: nat, size: nat, digits: seq<nat>, bit: nat -> bool, from: nat)
    requires Shows(width, digits, bit, from) && size == width * |digits|
    ensures FromBits(size, bit, from) == Number(Exp2(width), digits)
  {
    if digits == [] {
      assert size == 0;
    } else {
      var rest := digits[1..];
      assert size - width == width * |rest|;
      BitsOfDigits(width, size - width, rest, bit, from + width);
      FromBitsSplit(width, size - width, bit, from);
      FirstDigit(width, digits[0], bit, from);
    }
  }

  lemma FirstDigit(width: nat, digit: nat, bit: nat -> bool, from: nat)
    requires digit < Exp2(width)
    requires forall k :: 0 <= k < width ==> (bit(from + k) <==> Bit(digit, k))
    ensures FromBits(width, bit, from) == digit
  {
    hide Bit, FromBits, Exp2;
    FromBitsRange(width, bit, from);
    forall k | 0 <= k < width
      ensures Bit(FromBits(width, bit, from), k) <==> Bit(digit, k)
    {
      FromBitsBit(width, bit, from, k);
    }
    SameBits(FromBits(width, bit, from), digit, width);
  }

  /** The bits of the packed user data. */
  function Bits(header: seq<Octet>, text: seq<Septet>): nat -> bool {
    (p: nat) => PackedBit(header, text, p)
  }

  lemma {:induction false} UserShows(header: seq<Octet>, text: seq<Septet>, i: nat)
    requires i <= |Packed(header, text)|
    ensures Shows(8, Packed(header, text)[i..], Bits(header, text), 8 * i)
    decreases |Packed(header, text)| - i
  {
    hide Bit, PackedBit, PackedOctet;
    var user := Packed(header, text);
    if i < |user| {
      UserShows(header, text, i + 1);
      Widths();
      forall k | 0 <= k < 8
        ensures Bits(header, text)(8 * i + k) <==> Bit(user[i], k)
      {
        PackedStream(header, text, 8 * i + k);
      }
      assert user[i..][1..] == user[i + 1..];
    }
  }

  lemma {:induction false} HeaderShows(header: seq<Octet>, text: seq<Septet>, i: nat)
    requires i <= |header|
    ensures Shows(8, header[i..], Bits(header, text), 8 * i)
    decreases |header| - i
  {
    hide Bit;
    if i < |header| {
      HeaderShows(header, text, i + 1);
      Widths();
      assert header[i..][1..] == header[i + 1..];
      hide Shows;
      forall k | 0 <= k < 8
        ensures Bits(header, text)(8 * i + k) <==> Bit(header[i], k)
      {
        assert (8 * i + k) / 8 == i && (8 * i + k) % 8 == k;
      }
      ShowsFirst(8, header[i..], Bits(header, text), 8 * i);
    }
  }

  lemma ShowsFirst(width: nat, digits: seq<nat>, bit: nat -> bool, from: nat)
    requires digits != [] && digits[0] < Exp2(width) && Shows(width, digits[1..], bit, from + width)
    requires forall k :: 0 <= k < width ==> (bit(from + k) <==> Bit(digits[0], k))
    ensures Shows(width, digits, bit, from)
  {
  }

  lemma {:induction false} TextShows(header: seq<Octet>, text: seq<Septet>, i: nat)
    requires i <= |text|
    ensures Shows(7, text[i..], Bits(header, text), 7 * (Skip(|header|) + i))
    decreases |text| - i
  {
    hide Bit;
    if i < |text| {
      TextShows(header, text, i + 1);
      Widths();
      var at := Skip(|header|) + i;
      assert text[i..][1..] == text[i + 1..];
      hide Shows;
      forall k | 0 <= k < 7
        ensures Bits(header, text)(7 * at + k) <==> Bit(text[i], k)
      {
        assert (7 * at + k) / 7 == at && (7 * at + k) % 7 == k;
      }
      ShowsFirst(7, text[i..], Bits(header, text), 7 * at);
    }
  }

  lemma GapsAreEmpty(header: seq<Octet>, text: seq<Septet>)
    ensures 8 * |header| <= 7 * Skip(|header|) < 8 * |header| + 7
    ensures var bits := 7 * (Skip(|header|) + |text|); bits <= 8 * |Packed(header, text)| < bits + 8
    ensures forall p :: 8 * |header| <= p < 7 * Skip(|header|) ==> !PackedBit(header, text, p)
    ensures forall p :: 7 * (Skip(|header|) + |text|) <= p ==> !PackedBit(header, text, p)
  {
    hide Bit;
  }

  /**
   The packed octets of a header and septets, read as a number to the base 256, are the header's number and,
   shifted to the next septet, the number to the base 128 that the septets make. They take no more octets than
   that needs.
   */
  lemma PackedIsNumber(header: seq<Octet>, text: seq<Septet>)
    ensures 8 * |header| <= 7 * Skip(|header|) < 8 * |header| + 7
    ensures var bits := 7 * (Skip(|header|) + |text|); bits <= 8 * |Packed(header, text)| < bits + 8
    ensures Number(256, Packed(header, text)) == Number(256, header) + Exp2(7 * Skip(|header|)) * Number(128, text)
  {
    hide PackedBit, Packed, Skip, FromBits, Number, Shows;
    GapsAreEmpty(header, text);
    var bit, user, skip := Bits(header, text), Packed(header, text), Skip(|header|);
    var h, t := 8 * |header|, 7 * |text|;
    var fill: nat, rest: nat := 7 * skip - h, 8 * |user| - 7 * skip - t;
    Widths();
    assert user[0..] == user && header[0..] == header && text[0..] == text;
    UserShows(header, text, 0);
    BitsOfDigits(8, 8 * |user|, user, bit, 0);
    HeaderShows(header, text, 0);
    BitsOfDigits(8, h, header, bit, 0);
    TextShows(header, text, 0);
    BitsOfDigits(7, t, text, bit, 7 * skip);
    NoBits(fill, bit, h);
    NoBits(rest, bit, 7 * skip + t);
    Joined(h, fill, t, rest, bit);
  }

  /** Four stretches of bits, of which the second and the last are empty. */
  lemma Joined(h: nat, fill: nat, t: nat, rest: nat, bit: nat -> bool)
    requires FromBits(fill, bit, h) == 0 && FromBits(rest, bit, h + fill + t) == 0
    ensures FromBits(h + fill + t + rest, bit, 0)
      == FromBits(h, bit, 0) + Exp2(h + fill) * FromBits(t, bit, h + fill)
  {
    hide FromBits, Exp2;
    FromBitsSplit(h + fill, t + rest, bit, 0);
    FromBitsSplit(h, fill, bit, 0);
    FromBitsSplit(t, rest, bit, h + fill);
    assert Exp2(h) * FromBits(fill, bit, h) == 0;
    assert Exp2(t) * FromBits(rest, bit, h + fill + t) == 0;
  }
}
