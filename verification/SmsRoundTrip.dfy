/** What the SMS codec guarantees: messages survive the trip, and segmentation is tight. */
module SmsRoundTrip {
  import opened Common
  import opened Inbox
  import opened Septets
  import opened Sms
  import Decimal
  import Greedy

  // ----- One character, one text

  /** A character is found where it first stands. */
  lemma {:induction false} PositionIsFirst(table: seq<char>, k: nat)
    requires k < |table| && table[k] !in table[..k]
    ensures Position(table, table[k]) == Some(k)
  {
    if k > 0 {
      assert table[0] in table[..k];
      assert forall c :: c in table[1..][..k - 1] ==> c in table[..k];
      PositionIsFirst(table[1..], k - 1);
    }
  }

  lemma ExtensionInverse(c: char)
    ensures Extension(c).Some? ==> Extended(Extension(c).value) == c
  {
  }

  /** No character of the text is lost. */
  predicate Kept(table: seq<char>, text: string)
    requires |table| == 128
  {
    forall c :: c in text ==> !Lost(table, c)
  }

  /** A text of the alphabet of which no character is lost decodes to itself. */
  lemma {:induction false} DecodeEncode(table: seq<char>, text: string)
    requires |table| == 128 && Carries(table, Gsm7, text) && Kept(table, text)
    ensures forall k :: 0 <= k < |Encode(table, Gsm7, text)| ==> Encode(table, Gsm7, text)[k] < 128
    ensures Decode(table, Encode(table, Gsm7, text), false) == text
  {
    EncodeIsSeptets(table, Gsm7, text);
    if text != [] {
      DecodeEncode(table, text[1..]);
      DecodeFirst(table, text[0], Encode(table, Gsm7, text[1..]));
    }
  }

  lemma DecodeFirst(table: seq<char>, c: char, rest: seq<Septet>)
    requires |table| == 128 && Gsm7Character(table, c).Some? && !Lost(table, c)
    ensures Decode(table, Gsm7Character(table, c).value + rest, false) == [c] + Decode(table, rest, false)
  {
    var septets := Gsm7Character(table, c).value;
    assert (septets + rest)[|septets|..] == rest;
    if |septets| == 2 {
      assert (septets + rest)[1..][1..] == rest;
      ExtensionInverse(c);
    }
  }

  /** After an escape a character decodes to others; a lost character leaves an escape behind. */
  lemma DecodeAfterEscape(table: seq<char>, c: char, rest: seq<Septet>)
    requires |table| == 128 && Gsm7Character(table, c).Some?
    ensures var septets := Gsm7Character(table, c).value;
      Decode(table, septets + rest, true)
        == [Extended(septets[0])] + (if |septets| == 2 then [table[septets[1]]] else []) + Decode(table, rest, false)
    ensures |Gsm7Character(table, c).value| == 2 ==> c !in table
    ensures Lost(table, c) ==> Decode(table, Gsm7Character(table, c).value + rest, false) == Decode(table, rest, true)
  {
    var septets := Gsm7Character(table, c).value;
    assert (septets + rest)[|septets|..] == rest;
    if |septets| == 2 {
      assert (septets + rest)[1..][1..] == rest;
    }
  }

  /** A text never decodes to more characters than it has, but for one after an escape. */
  lemma {:induction false} DecodeIsNoLonger(table: seq<char>, text: string)
    requires |table| == 128 && Carries(table, Gsm7, text)
    ensures forall k :: 0 <= k < |Encode(table, Gsm7, text)| ==> Encode(table, Gsm7, text)[k] < 128
    ensures |Decode(table, Encode(table, Gsm7, text), false)| <= |text|
    ensures |Decode(table, Encode(table, Gsm7, text), true)| <= |text| + 1
  {
    EncodeIsSeptets(table, Gsm7, text);
    if text != [] {
      DecodeIsNoLonger(table, text[1..]);
      EncodeIsSeptets(table, Gsm7, text[1..]);
      var rest := Encode(table, Gsm7, text[1..]);
      assert Encode(table, Gsm7, text) == Gsm7Character(table, text[0]).value + rest;
      hide Encode, Gsm7Character, Decode;
      DecodeAfterEscape(table, text[0], rest);
      if !Lost(table, text[0]) {
        DecodeFirst(table, text[0], rest);
      }
    }
  }

  /** What comes after a lost character cannot make up for it. */
  lemma LostIsNotMadeUp(table: seq<char>, lost: char, text: string)
    requires |table| == 128 && Carries(table, Gsm7, text)
    ensures forall k :: 0 <= k < |Encode(table, Gsm7, text)| ==> Encode(table, Gsm7, text)[k] < 128
    ensures Decode(table, Encode(table, Gsm7, text), true) != [lost] + text
  {
    EncodeIsSeptets(table, Gsm7, text);
    if text != [] {
      DecodeIsNoLonger(table, text[1..]);
      var rest := Encode(table, Gsm7, text[1..]);
      var septets := Gsm7Character(table, text[0]).value;
      assert Encode(table, Gsm7, text) == septets + rest;
      DecodeAfterEscape(table, text[0], rest);
      var got := Decode(table, Encode(table, Gsm7, text), true);
      if |septets| == 2 {
        assert got[1] == table[septets[1]];
        assert ([lost] + text)[1] == text[0];
      }
    }
  }

  /** A text of the alphabet decodes to itself if and only if none of its characters is lost. */
  lemma {:induction false} DecodesToItself(table: seq<char>, text: string)
    requires |table| == 128 && Carries(table, Gsm7, text)
    ensures forall k :: 0 <= k < |Encode(table, Gsm7, text)| ==> Encode(table, Gsm7, text)[k] < 128
    ensures Decode(table, Encode(table, Gsm7, text), false) == text <==> Kept(table, text)
  {
    EncodeIsSeptets(table, Gsm7, text);
    if text != [] {
      var rest := Encode(table, Gsm7, text[1..]);
      assert Encode(table, Gsm7, text) == Gsm7Character(table, text[0]).value + rest;
      assert [text[0]] + text[1..] == text;
      hide Encode, Gsm7Character, Decode;
      if Lost(table, text[0]) {
        LostIsNotMadeUp(table, text[0], text[1..]);
        DecodeAfterEscape(table, text[0], rest);
      } else {
        DecodesToItself(table, text[1..]);
        DecodeFirst(table, text[0], rest);
      }
    }
  }

  lemma {:induction false} Utf16RoundTrip(text: string)
    ensures FromUtf16(FlatMap(Utf16, text)) == text
  {
    if text != [] {
      Utf16RoundTrip(text[1..]);
      Utf16First(text[0], FlatMap(Utf16, text[1..]));
    }
  }

  lemma Utf16First(c: char, rest: seq<Unit>)
    ensures FromUtf16(Utf16(c) + rest) == [c] + FromUtf16(rest)
  {
    var units := Utf16(c);
    assert (units + rest)[|units|..] == rest;
    var n := c as int;
    if n >= 0x10000 {
      assert Supplementary(units[0], units[1]) == c;
    }
  }

  lemma {:induction false} BigEndianRoundTrip(units: seq<Unit>)
    ensures FromBigEndian(ToBigEndian(units)) == units
  {
    if units != [] {
      BigEndianRoundTrip(units[1..]);
      assert ToBigEndian(units)[2..] == ToBigEndian(units[1..]);
    }
  }

  lemma {:induction false} SameFlatMap<A, B>(f: A -> seq<B>, g: A -> seq<B>, xs: seq<A>)
    requires forall x :: f(x) == g(x)
    ensures FlatMap(f, xs) == FlatMap(g, xs)
  {
    if xs != [] {
      SameFlatMap(f, g, xs[1..]);
    }
  }

  // ----- Segmentation

  /** What holds of every segment of a message with more than none. */
  lemma SegmentFits(table: seq<char>, message: string, i: nat)
    requires |table| == 128 && i < |Groups(table, message)|
    ensures Flatten(Groups(table, message)) == message
    ensures var coding := CodingOf(table, message);
      var units := Encode(table, coding, Groups(table, message)[i]);
      0 < |units| <= (if |Groups(table, message)| == 1 then if coding == Gsm7 then 160 else 70
                      else if coding == Gsm7 then 153 else 67)
  {
    var coding := CodingOf(table, message);
    var code := Code(table, coding);
    var limit := Limit(coding, |Encode(table, coding, message)|);
    var groups := Groups(table, message);
    Greedy.CutKeepsItems(Cost(code), [], message, limit);
    assert [] + message == message;
    assert forall k :: 0 <= k < |message| ==> Cost(code)(message[k]) <= 2;
    Greedy.CutFits(Cost(code), [], message, limit);
    Greedy.CutIsSingle(Cost(code), message, limit);
    WeightIsLength(code, message);
    WeightIsLength(code, groups[i]);
    assert groups[i] != [] && code(groups[i][0]) != [];
    assert Greedy.Weight(Cost(code), groups[i]) <= limit;
    assert message == [] ==> groups == [];
  }

  /** One segment exactly when the message fits 160 septets or 70 UTF-16 units. */
  lemma SingleSegment(table: seq<char>, message: string)
    requires |table| == 128
    ensures var coding := CodingOf(table, message);
      |Groups(table, message)| == 1 <==>
      message != [] && |Encode(table, coding, message)| <= if coding == Gsm7 then 160 else 70
  {
    var coding := CodingOf(table, message);
    var code := Code(table, coding);
    WeightIsLength(code, message);
    assert forall k :: 0 <= k < |message| ==> Cost(code)(message[k]) <= 2;
    Greedy.CutIsSingle(Cost(code), message, Limit(coding, |Encode(table, coding, message)|));
  }

  /** No split of the message into texts within the limit, cutting no character, has fewer segments. */
  lemma SegmentationIsMinimal(table: seq<char>, message: string, rival: seq<string>)
    requires |table| == 128
    requires Flatten(rival) == message
    requires var coding := CodingOf(table, message);
      forall k :: 0 <= k < |rival| ==>
        |Encode(table, coding, rival[k])| <= Limit(coding, |Encode(table, coding, message)|)
    ensures |Groups(table, message)| <= |rival|
  {
    var coding := CodingOf(table, message);
    var code := Code(table, coding);
    var limit := Limit(coding, |Encode(table, coding, message)|);
    forall k | 0 <= k < |rival| ensures Greedy.Weight(Cost(code), rival[k]) <= limit {
      WeightIsLength(code, rival[k]);
    }
    Greedy.CutIsMinimal(Cost(code), message, limit, rival);
  }

  // ----- User data

  function HeaderOf(table: seq<char>, message: string, reference: Octet, i: nat): seq<Octet>
    requires |table| == 128 && i < |Groups(table, message)| < 256
  {
    Header(reference, |Groups(table, message)|, i + 1)
  }

  /** The concatenation element part `i` announces. */
  function Announced(reference: Octet, total: nat, i: nat): Option<Concat> {
    if total > 1 then Some(Concat(Ref8(if reference == 0 then 1 else reference), total, i + 1)) else None
  }

  function Dcs(coding: Coding): Octet {
    if coding == Gsm7 then 0 else 8
  }

  lemma HeaderSize(reference: Octet, total: nat, sequence: nat)
    requires sequence <= total < 256
    ensures var h := |Header(reference, total, sequence)|;
      if total > 1 then h == 6 && Skip(h) == 7 else h == 0 && Skip(h) == 0
  {
  }

  /** The user data of every part fits 140 octets with a length of at most 160, header included. */
  lemma UserDataFits(table: seq<char>, message: string, reference: Octet, i: nat)
    requires |table| == 128 && i < |Groups(table, message)| < 256
    ensures var data := UserData(CodingOf(table, message), HeaderOf(table, message, reference, i),
                                 SegmentOf(table, message, i));
      |data.0| <= 140 && data.1 <= 160
      && |data.0| == if CodingOf(table, message) == Gsm7 then OctetsFor(data.1) else data.1
  {
    HeaderSize(reference, |Groups(table, message)|, i + 1);
    SegmentFits(table, message, i);
  }

  lemma ReadOwnHeader(reference: Octet, total: nat, sequence: nat)
    requires 1 < total < 256 && sequence <= total
    ensures var h := Header(reference, total, sequence);
      |h| == 6 && h[0] == 5
      && ReadHeader(h[1..], None) == Some(Some(Concat(Ref8(if reference == 0 then 1 else reference), total, sequence)))
  {
    var udh := Header(reference, total, sequence)[1..];
    assert udh[2..5] == [if reference == 0 then 1 else reference, total, sequence];
    assert udh[5..] == [];
  }

  /** A header in front of the text is found again, with what it announces. */
  lemma StartAfterHeader(header: seq<Octet>, user: seq<Octet>, found: Option<Concat>)
    requires |header| <= |user| && user[..|header|] == header
    requires header != [] ==> header[0] == |header| - 1 && ReadHeader(header[1..], None) == Some(found)
    requires header == [] ==> found == None
    ensures ReadStart(header != [], user) == Some((|header|, found))
  {
    if header != [] {
      assert user[..|header|][0] == user[0];
      assert user[1..|header|] == user[..|header|][1..];
    }
  }

  lemma ReadSeptets(table: seq<char>, header: seq<Octet>, units: seq<Septet>)
    requires |table| == 128 && Skip(|header|) + |units| < 256
    ensures |header| <= |Packed(header, units)| && Packed(header, units)[..|header|] == header
    ensures ReadText(table, 0, Skip(|header|) + |units|, Packed(header, units), |header|) == Decode(table, units, false)
  {
    PackedKeepsHeader(header, units);
    UnpackedPacked(header, units);
  }

  lemma ReadUnits(table: seq<char>, header: seq<Octet>, text: string)
    requires |table| == 128 && |header| + 2 * |FlatMap(Utf16, text)| < 256
    ensures var user := header + ToBigEndian(FlatMap(Utf16, text));
      user[..|header|] == header && ReadText(table, 8, |user|, user, |header|) == text
  {
    hide Decode, Unpacked, HexUpper, ToBigEndian, FromBigEndian, FromUtf16, Utf16, FlatMap;
    var units := FlatMap(Utf16, text);
    var user := header + ToBigEndian(units);
    assert user[|header|..] == ToBigEndian(units);
    BigEndianRoundTrip(units);
    Utf16RoundTrip(text);
  }

  /** The text a part decodes to: itself, except that the placeholder does not survive GSM 7-bit. */
  function Heard(table: seq<char>, message: string, i: nat): string
    requires |table| == 128 && i < |Groups(table, message)|
  {
    if CodingOf(table, message) == Gsm7 then Decode(table, SegmentOf(table, message, i), false)
    else Groups(table, message)[i]
  }

  lemma SegmentUnits(table: seq<char>, message: string, i: nat)
    requires |table| == 128 && i < |Groups(table, message)| && CodingOf(table, message) == Ucs2
    ensures SegmentOf(table, message, i) == FlatMap(Utf16, Groups(table, message)[i])
  {
    SameFlatMap(Utf16, Code(table, Ucs2), Groups(table, message)[i]);
  }

  /** Reading the user data of a part yields its septets or units decoded, and its place in the message. */
  lemma ReadBack(table: seq<char>, message: string, reference: Octet, i: nat)
    requires |table| == 128 && i < |Groups(table, message)| < 256
    ensures var coding := CodingOf(table, message);
      var total := |Groups(table, message)|;
      var header := HeaderOf(table, message, reference, i);
      var data := UserData(coding, header, SegmentOf(table, message, i));
      data.1 < 256 && |header| <= |data.0|
      && ReadStart(total > 1, data.0) == Some((|header|, Announced(reference, total, i)))
      && ReadText(table, Dcs(coding), data.1, data.0, |header|) == Heard(table, message, i)
  {
    hide Groups, CodingOf, ReadText, ReadStart, ReadHeader, Packed, OctetsFor, Decode, Encode;
    var total := |Groups(table, message)|;
    var units := SegmentOf(table, message, i);
    var header := HeaderOf(table, message, reference, i);
    var user := UserData(CodingOf(table, message), header, units).0;
    UserDataFits(table, message, reference, i);
    if total > 1 {
      ReadOwnHeader(reference, total, i + 1);
    }
    if CodingOf(table, message) == Gsm7 {
      ReadSeptets(table, header, units);
    } else {
      SegmentUnits(table, message, i);
      ReadUnits(table, header, Groups(table, message)[i]);
    }
    StartAfterHeader(header, user, Announced(reference, total, i));
  }

  // ----- From SUBMIT to DELIVER

  /**
   What the network adds when it turns a submitted part into a delivered one; `flags` are the bits of the first
   octet but for the message type and the mark of a header.
   */
  datatype Route = Route(smsc: seq<Octet>, flags: Octet, count: Octet, toa: Octet, address: seq<Octet>, protocol: Octet,
                         stamp: seq<Octet>)

  predicate ValidRoute(route: Route) {
    && |route.smsc| < 256 && route.flags % 4 == 0 && route.flags / 64 % 2 == 0
    && |route.address| == (route.count as int + 1) / 2 && |route.stamp| == 7
  }

  function FirstOctet(route: Route, udhi: bool): Octet
    requires ValidRoute(route)
  {
    if udhi then route.flags + 0x40 else route.flags
  }

  lemma FirstOctetIs(route: Route, udhi: bool)
    requires ValidRoute(route)
    ensures FirstOctet(route, udhi) % 4 == 0 && (FirstOctet(route, udhi) / 64 % 2 == 1 <==> udhi)
  {
  }

  /** A DELIVER PDU (section 9.2.2.1 of 3GPP TS 23.040). */
  function DeliverPdu(route: Route, udhi: bool, dcs: Octet, udl: Octet, user: seq<Octet>): seq<Octet>
    requires ValidRoute(route)
  {
    [|route.smsc|] + (route.smsc + ([FirstOctet(route, udhi)] + ([route.count, route.toa] + (route.address
    + ([route.protocol, dcs] + (route.stamp + ([udl] + (user + []))))))))
  }

  /** The network passes the coding, the length and the user data of a SUBMIT PDU on unchanged. */
  function Relay(route: Route, submitted: seq<Octet>): seq<Octet>
    requires ValidRoute(route)
  {
    if |submitted| < 8 || |submitted| < 8 + (submitted[3] as int + 1) / 2 then []
    else
      var at := 5 + (submitted[3] as int + 1) / 2;
      DeliverPdu(route, submitted[1] / 64 % 2 == 1, submitted[at + 1], submitted[at + 2], submitted[at + 3..])
  }

  lemma TakeFront(a: seq<Octet>, rest: seq<Octet>)
    ensures Take(a + rest, |a|) == Some((a, rest))
  {
  }

  lemma CutReads(route: Route, udhi: bool, dcs: Octet, udl: Octet, user: seq<Octet>)
    requires ValidRoute(route)
    requires |user| == if dcs / 4 % 4 == 0 then OctetsFor(udl) else udl
    ensures Cut(DeliverPdu(route, udhi, dcs, udl, user))
         == Some(Frame(route.smsc, FirstOctet(route, udhi), route.count, route.toa, route.address, dcs,
                       route.stamp, udl, user))
  {
    FirstOctetIs(route, udhi);
    hide FirstOctet, OctetsFor;
    var r8 := user + [];
    var r7 := [udl] + r8;
    var r6 := route.stamp + r7;
    var r5 := [route.protocol, dcs] + r6;
    var r4 := route.address + r5;
    var r3 := [route.count, route.toa] + r4;
    var r2 := [FirstOctet(route, udhi)] + r3;
    var r1 := route.smsc + r2;
    TakeFront([|route.smsc|], r1);
    TakeFront(route.smsc, r2);
    TakeFront([FirstOctet(route, udhi)], r3);
    TakeFront([route.count, route.toa], r4);
    TakeFront(route.address, r5);
    TakeFront([route.protocol, dcs], r6);
    TakeFront(route.stamp, r7);
    TakeFront([udl], r8);
    TakeFront(user, []);
  }

  lemma {:induction false} SemiOctetsLength(digits: string)
    requires forall k :: 0 <= k < |digits| ==> Decimal.IsDigit(digits[k])
    ensures |SemiOctets(digits)| == (|digits| + 1) / 2
  {
    if |digits| > 1 {
      SemiOctetsLength(digits[2..]);
    }
  }

  /** The fields the network reads from a SUBMIT PDU are the ones that were written. */
  lemma PduFields(number: string, total: nat, sequence: nat, coding: Coding, user: seq<Octet>, udl: nat)
    requires sequence < 256 && |Digits(number)| <= 20
    ensures var pdu := Pdu(number, total, sequence, coding, user, udl);
      |pdu| >= 8 && pdu[3] == |Digits(number)|
      && var at := 5 + (pdu[3] as int + 1) / 2;
      |pdu| == at + 3 + |user| && pdu[1] / 64 % 2 == (if total > 1 then 1 else 0)
      && pdu[at + 1] == Dcs(coding) && pdu[at + 2] == udl % 256 && pdu[at + 3..] == user
  {
    DigitsAreDigits(number);
    SemiOctetsLength(Digits(number));
  }

  /** The inbox entry part `i` becomes when the network delivers it along `route`. */
  function Arrived(table: seq<char>, message: string, reference: Octet, i: nat, route: Route, index: int): Entry
    requires |table| == 128 && ValidRoute(route) && i < |Groups(table, message)|
  {
    Entry(Address(table, route.address, route.count, route.toa), Timestamp(route.stamp), Heard(table, message, i),
          [index], Announced(reference, |Groups(table, message)|, i), false, ME)
  }

  lemma RelayIs(route: Route, number: string, total: nat, sequence: nat, coding: Coding, user: seq<Octet>, udl: nat)
    requires ValidRoute(route) && sequence < 256 && |Digits(number)| <= 20 && udl < 256
    ensures var pdu := Pdu(number, total, sequence, coding, user, udl);
      Relay(route, pdu) == DeliverPdu(route, total > 1, Dcs(coding), udl, user)
  {
    hide Pdu, DeliverPdu, Digits;
    PduFields(number, total, sequence, coding, user, udl);
  }

  lemma InterpretIs(table: seq<char>, f: Frame, start: nat, concat: Option<Concat>, index: int)
    requires |table| == 128 && |f.stamp| == 7
    requires ReadStart(f.first / 64 % 2 == 1, f.user) == Some((start, concat))
    ensures var got := Interpret(table, f, index);
      got.Some? && got.value.0
      == Entry(Address(table, f.address, f.count, f.toa), Timestamp(f.stamp),
               ReadText(table, f.dcs, f.udl, f.user, start), [index], concat, false, ME)
  {
  }

  lemma DeliverFrame(table: seq<char>, bytes: seq<Octet>, f: Frame, index: int)
    requires |table| == 128 && |f.stamp| == 7 && Cut(bytes) == Some(f)
    ensures Deliver(table, bytes, index) == Interpret(table, f, index)
  {
  }

  lemma DeliverIs(table: seq<char>, route: Route, udhi: bool, dcs: Octet, udl: Octet, user: seq<Octet>, start: nat,
                  concat: Option<Concat>, index: int)
    requires |table| == 128 && ValidRoute(route)
    requires |user| == if dcs / 4 % 4 == 0 then OctetsFor(udl) else udl
    requires ReadStart(udhi, user) == Some((start, concat))
    ensures var got := Deliver(table, DeliverPdu(route, udhi, dcs, udl, user), index);
      got.Some? && got.value.0
      == Entry(Address(table, route.address, route.count, route.toa), Timestamp(route.stamp),
               ReadText(table, dcs, udl, user, start), [index], concat, false, ME)
  {
    hide *;
    FirstOctetIs(route, udhi);
    CutReads(route, udhi, dcs, udl, user);
    var f := Frame(route.smsc, FirstOctet(route, udhi), route.count, route.toa, route.address, dcs,
                   route.stamp, udl, user);
    DeliverFrame(table, DeliverPdu(route, udhi, dcs, udl, user), f, index);
    InterpretIs(table, f, start, concat, index);
  }

  lemma SubmittedPdu(table: seq<char>, number: string, message: string, reference: Octet, i: nat)
    requires |table| == 128
    requires var r := Submitted(table, number, message, reference); r.Ok? && i < |r.value|
    ensures |Groups(table, message)| == |Submitted(table, number, message, reference).value| < 256
    ensures |Digits(number)| <= 20
    ensures var data := UserData(CodingOf(table, message), HeaderOf(table, message, reference, i),
                                 SegmentOf(table, message, i));
      Submitted(table, number, message, reference).value[i].0
      == Pdu(number, |Groups(table, message)|, i + 1, CodingOf(table, message), data.0, data.1)
  {
  }

  /** Every submitted part, relayed by the network, is decoded to its own text and place. */
  lemma PartArrives(table: seq<char>, number: string, message: string, reference: Octet, i: nat,
                    route: Route, index: int)
    requires |table| == 128 && ValidRoute(route)
    requires var r := Submitted(table, number, message, reference); r.Ok? && i < |r.value|
    ensures |Groups(table, message)| == |Submitted(table, number, message, reference).value|
    ensures var pdu := Submitted(table, number, message, reference).value[i].0;
      var got := Deliver(table, Relay(route, pdu), index);
      got.Some? && got.value.0 == Arrived(table, message, reference, i, route, index)
  {
    hide Submitted, Groups, SegmentOf, CodingOf, UserData, Relay, Deliver, Pdu, ReadStart, ReadText, Address, Timestamp;
    SubmittedPdu(table, number, message, reference, i);
    var coding := CodingOf(table, message);
    var total := |Groups(table, message)|;
    var header := HeaderOf(table, message, reference, i);
    var data := UserData(coding, header, SegmentOf(table, message, i));
    UserDataFits(table, message, reference, i);
    ReadBack(table, message, reference, i);
    RelayIs(route, number, total, i + 1, coding, data.0, data.1);
    DeliverIs(table, route, total > 1, Dcs(coding), data.1, data.0, |header|, Announced(reference, total, i), index);
  }

  /** The message goes out in GSM 7-bit only if none of its characters is lost there. */
  predicate Survives(table: seq<char>, message: string)
    requires |table| == 128
  {
    CodingOf(table, message) == Gsm7 ==> Kept(table, message)
  }

  /** Each part decodes to its own text if and only if it survives, and never to more characters. */
  lemma HeardIsGroup(table: seq<char>, message: string, i: nat)
    requires |table| == 128 && i < |Groups(table, message)|
    ensures |Heard(table, message, i)| <= |Groups(table, message)[i]|
    ensures Heard(table, message, i) == Groups(table, message)[i] <==>
      (CodingOf(table, message) == Gsm7 ==> Kept(table, Groups(table, message)[i]))
  {
    if CodingOf(table, message) == Gsm7 {
      var group := Groups(table, message)[i];
      SegmentFits(table, message, i);
      FlattenContains(Groups(table, message), i);
      forall k | 0 <= k < |group|
        ensures Gsm7Character(table, group[k]).Some?
      {
        hide Groups, Gsm7Character;
        assert group[k] in message;
        var j :| 0 <= j < |message| && message[j] == group[k];
      }
      hide Groups, Gsm7Character, Encode, Decode, Kept;
      DecodesToItself(table, group);
      DecodeIsNoLonger(table, group);
    }
  }

  /** Every element of a part is an element of the whole. */
  lemma {:induction false} FlattenContains<T>(parts: seq<seq<T>>, i: nat)
    requires i < |parts|
    ensures forall x :: x in parts[i] ==> x in Flatten(parts)
  {
    if i > 0 {
      FlattenContains(parts[1..], i - 1);
    }
  }

  /** Every element of the whole is an element of a part. */
  lemma {:induction false} FlattenFinds<T>(parts: seq<seq<T>>, x: T) returns (i: nat)
    requires x in Flatten(parts)
    ensures i < |parts| && x in parts[i]
  {
    if x in parts[0] {
      i := 0;
    } else {
      var k := FlattenFinds(parts[1..], x);
      i := k + 1;
    }
  }

  /** Parts that are no longer than others make up the same whole only if they are the same. */
  lemma {:induction false} ShorterPartsDiffer<T>(a: seq<seq<T>>, b: seq<seq<T>>)
    requires |a| == |b| && forall i :: 0 <= i < |a| ==> |a[i]| <= |b[i]|
    ensures |Flatten(a)| <= |Flatten(b)|
    ensures Flatten(a) == Flatten(b) <==> a == b
  {
    if a != [] {
      ShorterPartsDiffer(a[1..], b[1..]);
      assert a == [a[0]] + a[1..] && b == [b[0]] + b[1..];
      if Flatten(a) == Flatten(b) {
        SameSplit(a[0], Flatten(a[1..]), b[0], Flatten(b[1..]));
      }
    }
  }

  lemma SameSplit<T>(a: seq<T>, restA: seq<T>, b: seq<T>, restB: seq<T>)
    requires a + restA == b + restB && |a| <= |b| && |restA| <= |restB|
    ensures a == b && restA == restB
  {
    assert |a + restA| == |b + restB|;
    assert a == (a + restA)[..|a|] && b == (b + restB)[..|b|];
    assert restA == (a + restA)[|a|..] && restB == (b + restB)[|b|..];
  }

  /** The decoded texts of all parts, in order of their sequence numbers. */
  function Transcript(table: seq<char>, message: string): seq<string>
    requires |table| == 128
  {
    seq(|Groups(table, message)|, i requires 0 <= i < |Groups(table, message)| => Heard(table, message, i))
  }

  /**
   The round trip. The texts of the delivered parts, put together in order, are the message again if and
   only if the message did not go out in GSM 7-bit with a character that is sent as the escape septet.
   */
  lemma MessageRoundTrip(table: seq<char>, number: string, message: string, reference: Octet,
                         routes: seq<Route>, indices: seq<int>)
    requires |table| == 128
    requires var r := Submitted(table, number, message, reference);
      r.Ok? && |routes| == |indices| == |r.value|
    requires forall i :: 0 <= i < |routes| ==> ValidRoute(routes[i])
    ensures |Transcript(table, message)| == |routes|
    ensures forall i :: 0 <= i < |routes| ==>
      var got := Deliver(table, Relay(routes[i], Submitted(table, number, message, reference).value[i].0), indices[i]);
      got.Some? && got.value.0.text == Transcript(table, message)[i]
      && got.value.0.concat == Announced(reference, |routes|, i)
    ensures Flatten(Transcript(table, message)) == message <==> Survives(table, message)
  {
    hide Deliver, Relay;
    assert |routes| == |Groups(table, message)| by {
      hide *;
      SubmittedPdu(table, number, message, reference, 0);
    }
    forall i | 0 <= i < |routes|
      ensures var pdu := Submitted(table, number, message, reference).value[i].0;
        var got := Deliver(table, Relay(routes[i], pdu), indices[i]);
        got.Some? && got.value.0.text == Transcript(table, message)[i]
        && got.value.0.concat == Announced(reference, |routes|, i)
    {
      PartArrives(table, number, message, reference, i, routes[i], indices[i]);
    }
    TranscriptIsMessage(table, message);
  }

  lemma TranscriptIsMessage(table: seq<char>, message: string)
    requires |table| == 128
    ensures Flatten(Transcript(table, message)) == message <==> Survives(table, message)
  {
    var groups, heard := Groups(table, message), Transcript(table, message);
    GroupsMakeMessage(table, message);
    GroupsSurvive(table, message);
    hide Groups, CodingOf, Kept, Heard, Survives;
    forall i | 0 <= i < |groups|
      ensures |heard[i]| <= |groups[i]|
      ensures heard[i] == groups[i] <==> (CodingOf(table, message) == Gsm7 ==> Kept(table, groups[i]))
    {
      HeardIsGroup(table, message, i);
    }
    ShorterPartsDiffer(heard, groups);
    assert heard == groups <==> forall i :: 0 <= i < |groups| ==> heard[i] == groups[i];
  }

  lemma GroupsMakeMessage(table: seq<char>, message: string)
    requires |table| == 128
    ensures Flatten(Groups(table, message)) == message
  {
    if message == [] {
      assert Groups(table, message) == [];
    } else {
      MessageHasGroups(table, message);
      SegmentFits(table, message, 0);
    }
  }

  lemma GroupsSurvive(table: seq<char>, message: string)
    requires |table| == 128
    ensures Survives(table, message) <==>
      (CodingOf(table, message) == Gsm7 ==>
        forall i :: 0 <= i < |Groups(table, message)| ==> Kept(table, Groups(table, message)[i]))
  {
    var groups := Groups(table, message);
    GroupsMakeMessage(table, message);
    hide Groups, CodingOf, Lost;
    forall i | 0 <= i < |groups| && Kept(table, message)
      ensures Kept(table, groups[i])
    {
      FlattenContains(groups, i);
    }
    if forall i :: 0 <= i < |groups| ==> Kept(table, groups[i]) {
      forall c | c in message
        ensures !Lost(table, c)
      {
        var i := FlattenFinds(groups, c);
      }
    }
  }

  lemma MessageHasGroups(table: seq<char>, message: string)
    requires |table| == 128 && message != []
    ensures Groups(table, message) != []
  {
    var coding := CodingOf(table, message);
    var cost := Cost(Code(table, coding));
    Greedy.CutKeepsItems(cost, [], message, Limit(coding, |Encode(table, coding, message)|));
  }

  // ----- The table of the code

  /** With the table of the code, the character that is lost is the space, and no other. */
  lemma SpaceIsLost(c: char)
    ensures |GSM7_TABLE| == 128
    ensures Lost(GSM7_TABLE, c) <==> c == ' '
  {
    hide Position, Extension;
    TableHasSpace();
    PositionIsFirst(GSM7_TABLE, ESCAPE);
  }

  lemma TableHasSpace()
    ensures |GSM7_TABLE| == 128 && GSM7_TABLE[ESCAPE] == ' ' && GSM7_TABLE[32] == ' '
    ensures ' ' !in GSM7_TABLE[..ESCAPE]
  {
  }

  /**
   The round trip with the table of the code: a message comes back if and only if it does not go out in
   GSM 7-bit with a space in it.
   */
  lemma MessageWithSpaceIsLost(number: string, message: string, reference: Octet, routes: seq<Route>, indices: seq<int>)
    requires var r := Submitted(GSM7_TABLE, number, message, reference);
      r.Ok? && |routes| == |indices| == |r.value|
    requires forall i :: 0 <= i < |routes| ==> ValidRoute(routes[i])
    ensures |Transcript(GSM7_TABLE, message)| == |routes|
    ensures forall i :: 0 <= i < |routes| ==>
      var pdu := Submitted(GSM7_TABLE, number, message, reference).value[i].0;
      var got := Deliver(GSM7_TABLE, Relay(routes[i], pdu), indices[i]);
      got.Some? && got.value.0.text == Transcript(GSM7_TABLE, message)[i]
    ensures Flatten(Transcript(GSM7_TABLE, message)) == message <==>
      (CodingOf(GSM7_TABLE, message) == Gsm7 ==> ' ' !in message)
  {
    hide Submitted, Transcript, CodingOf, Lost, Deliver, Relay;
    MessageRoundTrip(GSM7_TABLE, number, message, reference, routes, indices);
    SurvivesWithoutSpace(message);
  }

  lemma SurvivesWithoutSpace(message: string)
    ensures |GSM7_TABLE| == 128
    ensures Survives(GSM7_TABLE, message) <==> (CodingOf(GSM7_TABLE, message) == Gsm7 ==> ' ' !in message)
  {
    hide CodingOf, Lost;
    TableHasSpace();
    forall c
      ensures Lost(GSM7_TABLE, c) <==> c == ' '
    {
      SpaceIsLost(c);
    }
  }

  lemma TableHasLetters()
    ensures |GSM7_TABLE| == 128 && GSM7_TABLE[97] == 'a' && GSM7_TABLE[98] == 'b'
    ensures forall n: Septet :: GSM7_TABLE[n] == 'b' ==> Extended(n) == ' '
  {
    assert GSM7_TABLE[10] != 'b' && GSM7_TABLE[20] != 'b' && GSM7_TABLE[40] != 'b' && GSM7_TABLE[41] != 'b';
    assert GSM7_TABLE[47] != 'b' && GSM7_TABLE[60] != 'b' && GSM7_TABLE[61] != 'b' && GSM7_TABLE[62] != 'b';
    assert GSM7_TABLE[64] != 'b' && GSM7_TABLE[101] != 'b';
  }

  lemma OneSeptet(table: seq<char>, c: char)
    requires |table| == 128 && c in table
    ensures Gsm7Character(table, c).Some? && |Gsm7Character(table, c).value| == 1
    ensures table[Gsm7Character(table, c).value[0]] == c
  {
  }

  lemma EncodeCons(table: seq<char>, c: char, rest: string)
    requires |table| == 128 && Gsm7Character(table, c).Some?
    ensures Encode(table, Gsm7, [c] + rest) == Gsm7Character(table, c).value + Encode(table, Gsm7, rest)
  {
    assert ([c] + rest)[1..] == rest;
  }

  /** A lost character takes the next one along: it is read as one of the extension table, or as a space. */
  lemma LostTakesNext(table: seq<char>, first: char, lost: char, next: char)
    requires |table| == 128 && Gsm7Character(table, first).Some? && !Lost(table, first)
    requires Lost(table, lost) && next in table
    ensures |Gsm7Character(table, next).value| == 1
    ensures var sent := Encode(table, Gsm7, [first] + ([lost] + [next]));
      && (forall k :: 0 <= k < |sent| ==> sent[k] < 128)
      && Decode(table, sent, false) == [first] + [Extended(Gsm7Character(table, next).value[0])]
  {
    EncodeIsSeptets(table, Gsm7, [first] + ([lost] + [next]));
    EncodeIsSeptets(table, Gsm7, [lost] + [next]);
    EncodeIsSeptets(table, Gsm7, [next] + "");
    OneSeptet(table, next);
    NothingIsNothing(table);
    assert Gsm7Character(table, lost).Some?;
    hide Gsm7Character, Encode, Decode, Extended;
    EncodeCons(table, first, [lost] + [next]);
    EncodeCons(table, lost, [next]);
    EncodeCons(table, next, "");
    assert [next] + "" == [next];
    DecodeFirst(table, first, Encode(table, Gsm7, [lost] + [next]));
    DecodeAfterEscape(table, lost, Encode(table, Gsm7, [next]));
    DecodeAfterEscape(table, next, []);
  }

  /** For one: "a b" is read as "a ". */
  lemma SpaceTakesNextLetter()
    ensures |GSM7_TABLE| == 128
    ensures var sent := Encode(GSM7_TABLE, Gsm7, "a b");
      && (forall k :: 0 <= k < |sent| ==> sent[k] < 128)
      && Decode(GSM7_TABLE, sent, false) == "a "
  {
    TableHasLetters();
    assert 'a' in GSM7_TABLE && 'b' in GSM7_TABLE;
    OneSeptet(GSM7_TABLE, 'a');
    OneSeptet(GSM7_TABLE, 'b');
    hide Gsm7Character, Encode, Decode, Extended, Lost;
    SpaceIsLost('a');
    SpaceIsLost(' ');
    LostTakesNext(GSM7_TABLE, 'a', ' ', 'b');
    assert "a b" == ['a'] + ([' '] + ['b']) && "a " == ['a'] + [' '];
  }

  lemma NothingIsNothing(table: seq<char>)
    requires |table| == 128
    ensures Encode(table, Gsm7, "") == [] && Decode(table, [], false) == ""
  {
  }

  // ----- Addresses

  lemma NibblesOfPair(low: char, high: char, rest: seq<Octet>)
    requires Decimal.IsDigit(low) && Decimal.IsDigit(high)
    ensures var b := Decimal.DigitValue(high) * 16 + Decimal.DigitValue(low);
      b < 256 && Nibbles([b] + rest) == [low, high] + Nibbles(rest)
  {
    var b := Decimal.DigitValue(high) * 16 + Decimal.DigitValue(low);
    assert ([b] + rest)[1..] == rest;
    assert b % 16 == Decimal.DigitValue(low) && b / 16 == Decimal.DigitValue(high);
    assert Decimal.Digit(Decimal.DigitValue(low)) == low && Decimal.Digit(Decimal.DigitValue(high)) == high;
  }

  lemma NibblesOfSingle(low: char)
    requires Decimal.IsDigit(low)
    ensures Nibbles([0xF0 + Decimal.DigitValue(low)]) == [low]
  {
    var b := 0xF0 + Decimal.DigitValue(low);
    assert b % 16 == Decimal.DigitValue(low) && b / 16 == 15;
    assert Decimal.Digit(Decimal.DigitValue(low)) == low;
  }

  lemma {:induction false} NibblesOfSemiOctets(digits: string)
    requires forall k :: 0 <= k < |digits| ==> Decimal.IsDigit(digits[k])
    ensures Nibbles(SemiOctets(digits)) == digits
  {
    hide Nibbles, Decimal.DigitValue;
    if |digits| == 0 {
      NoNibbles();
    } else if |digits| == 1 {
      NibblesOfSingle(digits[0]);
    } else {
      NibblesOfSemiOctets(digits[2..]);
      NibblesOfPair(digits[0], digits[1], SemiOctets(digits[2..]));
    }
  }

  lemma NoNibbles()
    ensures Nibbles([]) == []
  {
  }

  /** A number written as a destination reads back as its digits, with the plus sign it came with. */
  lemma AddressRoundTrip(table: seq<char>, number: string)
    requires |table| == 128 && 0 < |Digits(number)| <= 20
    ensures forall k :: 0 <= k < |Digits(number)| ==> Decimal.IsDigit(Digits(number)[k])
    ensures Address(table, SemiOctets(Digits(number)), |Digits(number)|, if "+" <= number then 0x91 else 0x81)
         == (if "+" <= number then "+" + Digits(number) else Digits(number))
  {
    hide Nibbles, Decode, Unpacked, SemiOctets, Digits, Decimal.IsDigit;
    DigitsAreDigits(number);
    NibblesOfSemiOctets(Digits(number));
    assert Digits(number)[..|Digits(number)|] == Digits(number);
  }
}
