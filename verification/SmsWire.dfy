/**
 What stands where in the octets: each field of a submitted PDU and of a delivered one by its position, in
 the terms of sections 9.1.2 and 9.2.3 of 3GPP TS 23.040 and of 3GPP TS 23.038, and not by the functions that
 write or read it.
 */
module SmsWire {
  import opened Common
  import opened Inbox
  import opened Septets
  import opened Sms
  import opened SmsRoundTrip
  import Decimal

  // ----- Destination

  /** The digits of a number are its characters from '0' to '9', in order. */
  lemma {:induction false} DigitsAreThose(a: string, c: char)
    ensures Digits(a + [c]) == Digits(a) + (if '0' <= c <= '9' then [c] else [])
  {
    if a == [] {
      assert [] + [c] == [c] && [c][1..] == [];
    } else {
      assert (a + [c])[0] == a[0] && (a + [c])[1..] == a[1..] + [c];
      DigitsAreThose(a[1..], c);
    }
  }

  /** Half an octet: the low one for even `k`, the high one for odd. */
  function Half(octets: seq<Octet>, k: nat): nat
    requires k < 2 * |octets|
  {
    if k % 2 == 0 then octets[k / 2] % 16 else octets[k / 2] / 16
  }

  /** Digit `k` is in half-octet `k`, and 1111 fills the last octet of an odd number of digits. */
  predicate Spells(octets: seq<Octet>, digits: string) {
    && |octets| == (|digits| + 1) / 2
    && (forall k :: 0 <= k < |digits| ==> Half(octets, k) == digits[k] as int - '0' as int)
    && (|digits| % 2 == 1 ==> Half(octets, |digits|) == 15)
  }

  lemma SpellsCons(low: nat, high: nat, octets: seq<Octet>, first: char, second: char, digits: string)
    requires low < 10 && high < 10 && Spells(octets, digits)
    requires first as int == '0' as int + low && second as int == '0' as int + high
    ensures Spells([high * 16 + low] + octets, [first, second] + digits)
  {
    var longer, all := [high * 16 + low] + octets, [first, second] + digits;
    assert Half(longer, 0) == low && Half(longer, 1) == high;
    assert forall k :: 0 <= k < 2 * |octets| ==> Half(longer, k + 2) == Half(octets, k);
    forall k | 0 <= k < |all|
      ensures Half(longer, k) == all[k] as int - '0' as int
    {
      if k >= 2 {
        assert Half(longer, k) == Half(octets, k - 2) && all[k] == digits[k - 2];
      }
    }
  }

  lemma {:induction false} SemiOctetsSpell(digits: string)
    requires forall k :: 0 <= k < |digits| ==> Decimal.IsDigit(digits[k])
    ensures Spells(SemiOctets(digits), digits)
  {
    if |digits| > 1 {
      SemiOctetsSpell(digits[2..]);
      var low, high := Decimal.DigitValue(digits[0]), Decimal.DigitValue(digits[1]);
      SpellsCons(low, high, SemiOctets(digits[2..]), digits[0], digits[1], digits[2..]);
      assert digits == [digits[0], digits[1]] + digits[2..];
      hide Spells;
    }
  }

  /** The octets of part `i` of `total`, up to the user data. */
  predicate Addressed(pdu: seq<Octet>, number: string, total: nat, i: nat) {
    && |pdu| >= 8 && pdu[3] == |Digits(number)| && |pdu| >= 8 + (pdu[3] as int + 1) / 2
    && pdu[0] == 0 && pdu[1] == (if total > 1 then 0x41 else 0x01) && pdu[2] == i + 1
    && pdu[4] == (if number != [] && number[0] == '+' then 0x91 else 0x81)
    && Spells(pdu[5..5 + (pdu[3] as int + 1) / 2], Digits(number))
    && pdu[5 + (pdu[3] as int + 1) / 2] == 0
  }

  /** The five octets before the destination, and the destination. */
  lemma DestinationStands(number: string, total: nat, i: nat, coding: Coding, user: seq<Octet>, udl: nat)
    requires i < 255 && |Digits(number)| <= 20
    ensures forall k :: 0 <= k < |Digits(number)| ==> Decimal.IsDigit(Digits(number)[k])
    ensures var pdu := Pdu(number, total, i + 1, coding, user, udl);
      var at := 5 + (|Digits(number)| + 1) / 2;
      && |pdu| == at + 3 + |user| && pdu[3] == |Digits(number)|
      && pdu[0] == 0 && pdu[1] == (if total > 1 then 0x41 else 0x01) && pdu[2] == i + 1
      && pdu[4] == (if number != [] && number[0] == '+' then 0x91 else 0x81)
      && pdu[5..at] == SemiOctets(Digits(number)) && pdu[at] == 0
  {
    DigitsAreDigits(number);
    SemiOctetsLength(Digits(number));
    hide SemiOctets, Digits, Decimal.IsDigit;
    var head := [0, if total > 1 then 0x41 else 0x01, i + 1, |Digits(number)|, if "+" <= number then 0x91 else 0x81];
    var to := SemiOctets(Digits(number));
    var rest := [0, if coding == Gsm7 then 0 else 8, udl % 256] + user;
    assert Pdu(number, total, i + 1, coding, user, udl) == head + (to + rest);
  }

  lemma PduIsAddressed(table: seq<char>, number: string, total: nat, i: nat, coding: Coding, user: seq<Octet>, udl: nat)
    requires |table| == 128 && i < 255 && 0 < |Digits(number)| <= 20
    ensures var pdu := Pdu(number, total, i + 1, coding, user, udl);
      && Addressed(pdu, number, total, i)
      && Address(table, pdu[5..5 + (pdu[3] as int + 1) / 2], pdu[3], pdu[4]) == Called(number)
  {
    hide Digits, SemiOctets, Pdu, Address, Decimal.IsDigit;
    DestinationStands(number, total, i, coding, user, udl);
    SemiOctetsSpell(Digits(number));
    AddressRoundTrip(table, number);
  }

  lemma LengthIsAnnounced(table: seq<char>, number: string, message: string, reference: Octet, i: nat)
    requires |table| == 128
    requires var r := Submitted(table, number, message, reference); r.Ok? && i < |r.value|
    ensures var part := Submitted(table, number, message, reference).value[i]; part.1 == |part.0| - 1
    ensures |Digits(number)| > 0
  {
    hide Groups, CodingOf, SegmentOf, UserData, Pdu, Digits;
  }

  /** A number as it is shown: its digits, with the plus sign it came with. */
  function Called(number: string): string {
    if number != [] && number[0] == '+' then "+" + Digits(number) else Digits(number)
  }

  /**
   Every part goes to the number that was given: its digits stand in the octets of the PDU, each in its half,
   with the type of number the plus sign calls for, and reading the address back gives the number. The part
   is a SUBMIT without a validity period, and its length is announced without the empty service centre.
   */
  lemma SubmitIsAddressed(table: seq<char>, number: string, message: string, reference: Octet, i: nat)
    requires |table| == 128
    requires var r := Submitted(table, number, message, reference); r.Ok? && i < |r.value|
    ensures var r := Submitted(table, number, message, reference).value;
      var (pdu, length) := r[i];
      && Addressed(pdu, number, |r|, i) && length == |pdu| - 1
      && Address(table, pdu[5..5 + (pdu[3] as int + 1) / 2], pdu[3], pdu[4]) == Called(number)
  {
    hide *;
    SubmittedPdu(table, number, message, reference, i);
    var coding, total := CodingOf(table, message), |Groups(table, message)|;
    var data := UserData(coding, HeaderOf(table, message, reference, i), SegmentOf(table, message, i));
    LengthIsAnnounced(table, number, message, reference, i);
    PduIsAddressed(table, number, total, i, coding, data.0, data.1);
  }

  // ----- The header of a delivered message

  /** An information element of a user data header. */
  datatype Element = Element(kind: Octet, data: seq<Octet>)

  /** The octets of a header without its length: kind, length and data of each element. */
  function HeaderOctets(elements: seq<Element>): seq<Octet>
    requires forall e :: e in elements ==> |e.data| < 256
  {
    if elements == [] then []
    else [elements[0].kind, |elements[0].data|] + elements[0].data + HeaderOctets(elements[1..])
  }

  /** An element that tells the place in a message: with an 8-bit reference or with a 16-bit one. */
  predicate TellsPlace(e: Element) {
    (e.kind == 0 && |e.data| == 3) || (e.kind == 8 && |e.data| == 4)
  }

  /** The last two octets are the number of parts and the number of this part, the reference is before them. */
  predicate Told(c: Concat, e: Element)
    requires TellsPlace(e)
  {
    && c.total == e.data[|e.data| - 2] && c.sequence == e.data[|e.data| - 1]
    && (if e.kind == 0 then c.reference == Ref8(e.data[0])
        else c.reference.Ref16? && c.reference.high == e.data[0] && c.reference.low == e.data[1])
  }

  /** What is left after the elements is too short for another, or for the data it announces. */
  predicate Remainder(tail: seq<Octet>) {
    |tail| < 2 || tail[1] > |tail| - 2
  }

  /** Every header is elements and a remainder. */
  lemma {:induction false} HeaderSplits(udh: seq<Octet>) returns (elements: seq<Element>, tail: seq<Octet>)
    ensures forall e :: e in elements ==> |e.data| < 256
    ensures udh == HeaderOctets(elements) + tail && Remainder(tail)
  {
    if Remainder(udh) {
      elements, tail := [], udh;
    } else {
      var n: nat := udh[1];
      var rest;
      rest, tail := HeaderSplits(udh[2 + n..]);
      var e := Element(udh[0], udh[2..2 + n]);
      elements := [e] + rest;
      assert udh == [udh[0], n] + e.data + udh[2 + n..];
      assert elements[1..] == rest;
    }
  }

  lemma ReadElement(e: Element, rest: seq<Octet>, found: Option<Concat>)
    requires |e.data| < 256
    ensures exists next: Option<Concat> ::
      && ReadHeader([e.kind, |e.data|] + e.data + rest, found) == ReadHeader(rest, next)
      && (if TellsPlace(e) then next.Some? && Told(next.value, e) else next == found)
  {
    var udh := [e.kind, |e.data|] + e.data + rest;
    assert udh[2..2 + |e.data|] == e.data && udh[2 + |e.data|..] == rest;
    var data := udh[2..2 + udh[1]];
    var next := if udh[0] == 0 && udh[1] == 3 then Some(Concat(Ref8(data[0]), data[1], data[2]))
      else if udh[0] == 8 && udh[1] == 4 then Some(Concat(Ref16(data[0], data[1]), data[2], data[3]))
      else found;
    assert ReadHeader(udh, found) == ReadHeader(rest, next);
  }

  lemma {:induction false} ElementsAreRead(elements: seq<Element>, tail: seq<Octet>, found: Option<Concat>)
    requires forall e :: e in elements ==> |e.data| < 256
    requires |tail| < 2
    ensures var r := ReadHeader(HeaderOctets(elements) + tail, found);
      && r.Some?
      && ((forall e :: e in elements ==> !TellsPlace(e)) ==> r.value == found)
      && forall k :: IsLastPlace(elements, k) ==> r.value.Some? && Told(r.value.value, elements[k])
  {
    hide ReadHeader, TellsPlace, Told;
    if elements == [] {
      assert HeaderOctets(elements) + tail == tail;
      NothingToRead(tail, found);
    } else {
      var e, rest := elements[0], HeaderOctets(elements[1..]) + tail;
      ReadElement(e, rest, found);
      assert HeaderOctets(elements) + tail == [e.kind, |e.data|] + e.data + rest;
      var next :| ReadHeader(HeaderOctets(elements) + tail, found) == ReadHeader(rest, next)
        && (if TellsPlace(e) then next.Some? && Told(next.value, e) else next == found);
      ElementsAreRead(elements[1..], tail, next);
      forall k | IsLastPlace(elements, k)
        ensures var r := ReadHeader(HeaderOctets(elements) + tail, found);
          r.value.Some? && Told(r.value.value, elements[k])
      {
        if k > 0 {
          assert IsLastPlace(elements[1..], k - 1);
        } else {
          assert forall x :: x in elements[1..] ==> !TellsPlace(x);
        }
      }
    }
  }

  lemma NothingToRead(tail: seq<Octet>, found: Option<Concat>)
    requires |tail| < 2
    ensures ReadHeader(tail, found) == Some(found)
  {
  }

  /** Element `k` tells the place in the message, and none after it does. */
  predicate IsLastPlace(elements: seq<Element>, k: int) {
    0 <= k < |elements| && TellsPlace(elements[k]) && forall j :: k < j < |elements| ==> !TellsPlace(elements[j])
  }

  /** A header whose last element is cut short is not read at all. */
  lemma {:induction false} CutElementFails(elements: seq<Element>, tail: seq<Octet>, found: Option<Concat>)
    requires forall e :: e in elements ==> |e.data| < 256
    requires |tail| >= 2 && tail[1] > |tail| - 2
    ensures ReadHeader(HeaderOctets(elements) + tail, found) == None
  {
    if elements == [] {
      assert HeaderOctets(elements) + tail == tail;
    } else {
      var e, rest := elements[0], HeaderOctets(elements[1..]) + tail;
      ReadElement(e, rest, found);
      assert HeaderOctets(elements) + tail == [e.kind, |e.data|] + e.data + rest;
      hide ReadHeader;
      var next :| ReadHeader(HeaderOctets(elements) + tail, found) == ReadHeader(rest, next);
      CutElementFails(elements[1..], tail, next);
    }
  }

  /**
   For every header: it is read if and only if no element is cut short, and then what it says of the place in
   the message is what its last such element says, octet by octet, or nothing if it has none.
   */
  lemma HeaderIsRead(udh: seq<Octet>) returns (elements: seq<Element>, tail: seq<Octet>)
    ensures forall e :: e in elements ==> |e.data| < 256
    ensures udh == HeaderOctets(elements) + tail && Remainder(tail)
    ensures var r := ReadHeader(udh, None);
      && (r.Some? <==> |tail| < 2)
      && (r.Some? && (forall e :: e in elements ==> !TellsPlace(e)) ==> r.value == None)
      && (r.Some? ==> forall k :: IsLastPlace(elements, k) ==> r.value.Some? && Told(r.value.value, elements[k]))
  {
    hide ReadHeader, TellsPlace, Told;
    elements, tail := HeaderSplits(udh);
    if |tail| < 2 {
      ElementsAreRead(elements, tail, None);
    } else {
      CutElementFails(elements, tail, None);
    }
  }

  /**
   A part that another phone sent, with its header: the entry carries what the last place element of the header
   says, with an 8-bit or a 16-bit reference, and nothing if there is none.
   */
  lemma PlaceIsDelivered(table: seq<char>, route: Route, elements: seq<Element>, content: seq<Octet>, dcs: Octet,
                         udl: Octet, index: int)
    requires |table| == 128 && ValidRoute(route)
    requires (forall e :: e in elements ==> |e.data| < 256) && |HeaderOctets(elements)| < 256
    requires 1 + |HeaderOctets(elements)| + |content| == if dcs / 4 % 4 == 0 then OctetsFor(udl) else udl
    ensures var udh := HeaderOctets(elements);
      var user := [|udh|] + udh + content;
      var got := Deliver(table, DeliverPdu(route, true, dcs, udl, user), index);
      && got.Some? && got.value.0.text == ReadText(table, dcs, udl, user, 1 + |udh|)
      && ((forall e :: e in elements ==> !TellsPlace(e)) ==> got.value.0.concat == None)
      && forall k :: IsLastPlace(elements, k) ==>
          got.value.0.concat.Some? && Told(got.value.0.concat.value, elements[k])
  {
    hide ReadHeader, TellsPlace, Told, Deliver, ReadText, IsLastPlace, DeliverPdu, OctetsFor;
    var udh := HeaderOctets(elements);
    var user := [|udh|] + udh + content;
    assert udh + [] == udh;
    ElementsAreRead(elements, [], None);
    var concat := ReadHeader(udh, None).value;
    assert user[1..|udh| + 1] == udh;
    assert ReadStart(true, user) == Some((|udh| + 1, concat));
    DeliverIs(table, route, true, dcs, udl, user, |udh| + 1, concat, index);
  }

  /** A header that is cut short, or has a cut element, makes the message unreadable. */
  lemma CutHeaderIsRefused(table: seq<char>, route: Route, user: seq<Octet>, dcs: Octet, udl: Octet, index: int)
    requires |table| == 128 && ValidRoute(route)
    requires |user| == if dcs / 4 % 4 == 0 then OctetsFor(udl) else udl
    requires user == [] || user[0] as int + 1 > |user| || ReadHeader(user[1..user[0] as int + 1], None).None?
    ensures Deliver(table, DeliverPdu(route, true, dcs, udl, user), index) == None
  {
    hide ReadHeader, DeliverPdu, OctetsFor, Cut, Address, ReadText, Timestamp;
    CutReads(route, true, dcs, udl, user);
  }

  /** The user data of part `i` of several begins with its header: 05 00 03, the reference, total and number. */
  lemma PartsAreNumbered(table: seq<char>, message: string, reference: Octet, i: nat)
    requires |table| == 128 && i < |Groups(table, message)| < 256
    ensures var total := |Groups(table, message)|;
      var user := UserData(CodingOf(table, message), HeaderOf(table, message, reference, i),
                           SegmentOf(table, message, i)).0;
      total > 1 ==>
        && |user| >= 6 && user[0] == 5 && user[1] == 0 && user[2] == 3
        && user[3] == (if reference == 0 then 1 else reference) && user[4] == total && user[5] == i + 1
  {
    hide Packed, CodingOf, Groups, SegmentOf, ToBigEndian;
    var header, units := HeaderOf(table, message, reference, i), SegmentOf(table, message, i);
    if |Groups(table, message)| > 1 {
      if CodingOf(table, message) == Gsm7 {
        PackedKeepsHeader(header, units);
        var user := Packed(header, units);
        assert forall k :: 0 <= k < 6 ==> user[k] == user[..6][k];
      }
    }
  }
}
