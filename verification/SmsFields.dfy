/**
 What single fields of the codec mean, in the terms of their standards: the alphabets (section 6.2.1 of 3GPP TS
 23.038, and Unicode), times (section 9.2.3.11 of 3GPP TS 23.040), addresses (section 9.1.2.5 of it) and data.
 */
module SmsFields {
  import opened Common
  import opened Septets
  import opened Sms
  import opened SmsRoundTrip
  import opened SmsWire
  import Decimal

  // ----- UTF-16

  /** A character outside the basic plane is a high and a low surrogate, ten bits each, above 0x10000. */
  lemma SurrogatesMakeCharacter(c: char)
    ensures var n, units := c as int, Utf16(c);
      if n < 0x10000 then units == [n]
      else
        && |units| == 2 && 0xD800 <= units[0] < 0xDC00 && 0xDC00 <= units[1] < 0xE000
        && n - 0x10000 == 0x400 * (units[0] as int - 0xD800) + (units[1] as int - 0xDC00)
  {
  }

  /** The high octet of each unit comes first. */
  lemma {:induction false} HighOctetFirst(units: seq<Unit>, k: nat)
    requires k < |units|
    ensures |ToBigEndian(units)| == 2 * |units|
    ensures 256 * ToBigEndian(units)[2 * k] as int + ToBigEndian(units)[2 * k + 1] as int == units[k]
  {
    if k > 0 {
      HighOctetFirst(units[1..], k - 1);
      assert ToBigEndian(units)[2..] == ToBigEndian(units[1..]);
      assert ToBigEndian(units)[2 * k] == ToBigEndian(units)[2..][2 * (k - 1)];
      assert ToBigEndian(units)[2 * k + 1] == ToBigEndian(units)[2..][2 * (k - 1) + 1];
    }
  }

  // ----- GSM 7-bit

  /** The Unicode code points of the first 32 positions of the default alphabet; 27 is the escape. */
  const FIRST: seq<int> := [
    0x40, 0xA3, 0x24, 0xA5, 0xE8, 0xE9, 0xF9, 0xEC, 0xF2, 0xC7, 0x0A, 0xD8, 0xF8, 0x0D, 0xC5, 0xE5,
    0x394, 0x5F, 0x3A6, 0x393, 0x39B, 0x3A9, 0x3A0, 0x3A8, 0x3A3, 0x398, 0x39E, 0x20, 0xC6, 0xE6, 0xDF, 0xC9]

  /** Positions from 32 on at which the default alphabet differs from ASCII, and the code points there. */
  const NATIONAL: seq<(nat, int)> := [
    (36, 0xA4), (64, 0xA1), (91, 0xC4), (92, 0xD6), (93, 0xD1), (94, 0xDC), (95, 0xA7), (96, 0xBF),
    (123, 0xE4), (124, 0xF6), (125, 0xF1), (126, 0xFC), (127, 0xE0)]

  /** The escaped characters of the extension table, each with its septet and code point. */
  const ESCAPED: seq<(Septet, int)> := [
    (10, 0x0C), (20, 0x5E), (40, 0x7B), (41, 0x7D), (47, 0x5C), (60, 0x5B), (61, 0x7E), (62, 0x5D), (64, 0x7C),
    (101, 0x20AC)]

  predicate IsNational(n: nat) {
    n == 36 || n == 64 || 91 <= n <= 96 || 123 <= n
  }

  lemma LowAsciiIsInPlace(n: nat)
    requires 32 <= n < 80 && !IsNational(n)
    ensures |GSM7_TABLE| == 128 && GSM7_TABLE[n] == n as char
  {
  }

  lemma HighAsciiIsInPlace(n: nat)
    requires 80 <= n < 123 && !IsNational(n)
    ensures |GSM7_TABLE| == 128 && GSM7_TABLE[n] == n as char
  {
  }

  /** Where the default alphabet has no character of its own, a character stands at its ASCII code. */
  lemma AsciiIsInPlace(n: nat)
    requires 32 <= n < 128 && !IsNational(n)
    ensures |GSM7_TABLE| == 128 && GSM7_TABLE[n] == n as char
  {
    hide GSM7_TABLE;
    if n < 80 {
      LowAsciiIsInPlace(n);
    } else {
      HighAsciiIsInPlace(n);
    }
  }

  lemma FirstAreInPlace(n: nat)
    requires n < 32
    ensures |GSM7_TABLE| == 128 && GSM7_TABLE[n] as int == FIRST[n]
  {
  }

  lemma NationalIsInPlace(i: nat)
    requires i < |NATIONAL|
    ensures |GSM7_TABLE| == 128 && NATIONAL[i].0 < 128
    ensures IsNational(NATIONAL[i].0) && GSM7_TABLE[NATIONAL[i].0] as int == NATIONAL[i].1
  {
  }

  /** No ASCII character in place stands anywhere before, but for the space. */
  lemma NothingBefore(n: nat, k: nat)
    requires 32 < n < 128 && !IsNational(n) && k < n
    ensures |GSM7_TABLE| == 128 && GSM7_TABLE[k] != n as char
  {
    hide GSM7_TABLE;
    if k < 32 {
      FirstAreInPlace(k);
    } else if IsNational(k) {
      var i := if k == 36 then 0 else if k == 64 then 1 else if k < 97 then k - 89 else k - 115;
      assert NATIONAL[i].0 == k;
      NationalIsInPlace(i);
    } else {
      AsciiIsInPlace(k);
    }
  }

  /** Letters, digits and the other ASCII characters in place are sent as their ASCII code. */
  lemma AsciiIsSent(n: nat)
    requires 32 < n < 128 && !IsNational(n)
    ensures |GSM7_TABLE| == 128 && Gsm7Character(GSM7_TABLE, n as char) == Some([n])
  {
    AsciiIsInPlace(n);
    forall k | 0 <= k < n
      ensures GSM7_TABLE[k] != n as char
    {
      NothingBefore(n, k);
    }
    PositionIsFirst(GSM7_TABLE, n);
  }

  /** An escaped septet is read as its character of the extension table, and as a space if it has none. */
  lemma EscapedIsRead(n: Septet)
    ensures forall i :: 0 <= i < |ESCAPED| && ESCAPED[i].0 == n ==> Extended(n) as int == ESCAPED[i].1
    ensures (forall i :: 0 <= i < |ESCAPED| ==> ESCAPED[i].0 != n) ==> Extended(n) == ' '
  {
    assert ESCAPED[0].0 == 10 && ESCAPED[1].0 == 20 && ESCAPED[2].0 == 40 && ESCAPED[3].0 == 41 && ESCAPED[4].0 == 47;
    assert ESCAPED[5].0 == 60 && ESCAPED[6].0 == 61 && ESCAPED[7].0 == 62 && ESCAPED[8].0 == 64 && ESCAPED[9].0 == 101;
  }

  /** A character outside the table is sent as the escape and its septet there, and not at all if it has none. */
  lemma EscapedIsSent(table: seq<char>, c: char)
    requires |table| == 128 && c !in table
    ensures forall i :: 0 <= i < |ESCAPED| && ESCAPED[i].1 == c as int ==>
      Gsm7Character(table, c) == Some([27, ESCAPED[i].0])
    ensures (forall i :: 0 <= i < |ESCAPED| ==> ESCAPED[i].1 != c as int) ==> Gsm7Character(table, c) == None
  {
    assert ESCAPED[0].1 == 0x0C && ESCAPED[1].1 == 0x5E && ESCAPED[2].1 == 0x7B && ESCAPED[3].1 == 0x7D;
    assert ESCAPED[4].1 == 0x5C && ESCAPED[5].1 == 0x5B && ESCAPED[6].1 == 0x7E && ESCAPED[7].1 == 0x5D;
    assert ESCAPED[8].1 == 0x7C && ESCAPED[9].1 == 0x20AC;
  }

  // ----- Data, times and addresses

  /** The hexadecimal digit of a number below 16. */
  predicate IsHexDigit(c: char, n: nat) {
    if n < 10 then c as int == '0' as int + n else c as int == 'A' as int + n - 10
  }

  /** 8-bit data is shown as two hexadecimal digits an octet, the high one first. */
  lemma {:induction false} HexIsRead(octets: seq<Octet>, k: nat)
    requires k < |octets|
    ensures |HexUpper(octets)| == 2 * |octets|
    ensures IsHexDigit(HexUpper(octets)[2 * k], octets[k] / 16)
    ensures IsHexDigit(HexUpper(octets)[2 * k + 1], octets[k] % 16)
  {
    var head := [HexDigit(octets[0] / 16), HexDigit(octets[0] % 16)];
    if k > 0 {
      HexIsRead(octets[1..], k - 1);
      assert HexUpper(octets) == head + HexUpper(octets[1..]);
    } else {
      HexLength(octets);
    }
  }

  lemma {:induction false} HexLength(octets: seq<Octet>)
    ensures |HexUpper(octets)| == 2 * |octets|
  {
    if octets != [] {
      HexLength(octets[1..]);
    }
  }

  /** The two characters are the decimal digits of an octet of semi-octets, the low half first. */
  predicate Shows(s: string, at: nat, octet: nat) {
    at + 1 < |s| && s[at] as int == '0' as int + octet % 16 && s[at + 1] as int == '0' as int + octet / 16
  }

  lemma TwoDigitsShow(low: nat, high: nat)
    requires low < 10 && high < 10
    ensures |TwoDigits(low * 10 + high)| == 2
    ensures TwoDigits(low * 10 + high)[0] as int == '0' as int + low
    ensures TwoDigits(low * 10 + high)[1] as int == '0' as int + high
  {
    var n := low * 10 + high;
    assert n / 10 == low && n % 10 == high;
    assert low > 0 ==> Decimal.Print(n) == Decimal.Print(low) + [Decimal.Digit(high)];
  }

  /** The time zone's octet without the bit of its sign. */
  function Zone(octet: Octet): Octet {
    if octet / 8 % 2 == 1 then octet - 8 else octet
  }

  /**
   A service centre time in decimal semi-octets is shown as yy/MM/dd,hh:mm:ss and the time zone in quarters of
   an hour, which bit 3 of its octet makes negative.
   */
  lemma TimeIsShown(raw: seq<Octet>)
    requires |raw| == 7 && raw[6] / 16 < 10
    requires forall k :: 0 <= k < 6 ==> raw[k] % 16 < 10 && raw[k] / 16 < 10
    ensures var s := Timestamp(raw);
      && |s| == 20 && s[2] == s[5] == '/' && s[8] == ',' && s[11] == s[14] == ':'
      && s[17] == (if raw[6] / 8 % 2 == 1 then '-' else '+')
      && (forall k :: 0 <= k < 6 ==> Shows(s, 3 * k, raw[k])) && Shows(s, 18, Zone(raw[6]))
  {
    TimePieces(raw);
    var s, zone := Timestamp(raw), Zone(raw[6]);
    hide *;
    forall k | 0 <= k < 6
      ensures Shows(s, 3 * k, raw[k])
    {
      PieceShows(s, 3 * k, raw[k]);
    }
    PieceShows(s, 18, zone);
  }

  lemma PieceShows(s: string, at: nat, octet: nat)
    requires octet % 16 < 10 && octet / 16 < 10 && |Piece(octet)| == 2
    requires at + 1 < |s| && s[at] == Piece(octet)[0] && s[at + 1] == Piece(octet)[1]
    ensures Shows(s, at, octet)
  {
    hide TwoDigits;
    TwoDigitsShow(octet % 16, octet / 16);
  }

  function Piece(octet: nat): string {
    TwoDigits(octet % 16 * 10 + octet / 16)
  }

  lemma PieceLength(octet: nat)
    requires octet % 16 < 10 && octet / 16 < 10
    ensures |Piece(octet)| == 2
  {
    TwoDigitsShow(octet % 16, octet / 16);
  }

  lemma ZoneIsDecimal(octet: Octet)
    ensures Zone(octet) % 16 < 8 && Zone(octet) / 16 == octet / 16
  {
  }

  /** `p` stands in `s` from position `at` on. */
  predicate Stands(s: string, at: nat, p: string) {
    |p| == 2 && at + 1 < |s| && s[at] == p[0] && s[at + 1] == p[1]
  }

  lemma TimePieces(raw: seq<Octet>)
    requires |raw| == 7 && raw[6] / 16 < 10
    requires forall k :: 0 <= k < 6 ==> raw[k] % 16 < 10 && raw[k] / 16 < 10
    ensures Zone(raw[6]) % 16 < 10 && Zone(raw[6]) / 16 < 10
    ensures var s := Timestamp(raw);
      && |s| == 20 && s[2] == s[5] == '/' && s[8] == ',' && s[11] == s[14] == ':'
      && s[17] == (if raw[6] / 8 % 2 == 1 then '-' else '+')
      && (forall k :: 0 <= k < 6 ==> Stands(s, 3 * k, Piece(raw[k]))) && Stands(s, 18, Piece(Zone(raw[6])))
  {
    hide *;
    TimeIs(raw);
    ZoneIsDecimal(raw[6]);
    var zone := Zone(raw[6]);
    forall k | 0 <= k < 6
      ensures |Piece(raw[k])| == 2
    {
      PieceLength(raw[k]);
    }
    PieceLength(zone);
    var sign := if raw[6] / 8 % 2 == 1 then "-" else "+";
    TimeJoined(Piece(raw[0]), Piece(raw[1]), Piece(raw[2]), Piece(raw[3]), Piece(raw[4]), Piece(raw[5]), sign,
               Piece(zone));
  }

  lemma TimeJoined(a: string, b: string, c: string, d: string, e: string, f: string, sign: string, zone: string)
    requires |a| == |b| == |c| == |d| == |e| == |f| == |zone| == 2 && |sign| == 1
    ensures var s := a + "/" + b + "/" + c + "," + d + ":" + e + ":" + f + sign + zone;
      && |s| == 20 && s[2] == s[5] == '/' && s[8] == ',' && s[11] == s[14] == ':' && s[17] == sign[0]
      && Stands(s, 0, a) && Stands(s, 3, b) && Stands(s, 6, c) && Stands(s, 9, d) && Stands(s, 12, e)
      && Stands(s, 15, f) && Stands(s, 18, zone)
  {
    hide Stands;
    var date := a + "/" + b + "/" + c;
    var time := date + "," + d + ":" + e + ":" + f;
    var s := time + sign + zone;
    DateStands(a, b, c);
    TimeStands(date, d, e, f);
    ZoneStands(time, sign, zone);
    assert date <= time <= s;
    StandsLonger(date, s, 0, a);
    StandsLonger(date, s, 3, b);
    StandsLonger(date, s, 6, c);
    StandsLonger(time, s, 9, d);
    StandsLonger(time, s, 12, e);
    StandsLonger(time, s, 15, f);
    assert s[2] == date[2] && s[5] == date[5] && s[8] == time[8] && s[11] == time[11] && s[14] == time[14];
  }

  lemma TimeIs(raw: seq<Octet>)
    requires |raw| == 7
    ensures Timestamp(raw)
      == Piece(raw[0]) + "/" + Piece(raw[1]) + "/" + Piece(raw[2]) + "," + Piece(raw[3]) + ":" + Piece(raw[4]) + ":"
        + Piece(raw[5]) + (if raw[6] / 8 % 2 == 1 then "-" else "+") + Piece(Zone(raw[6]))
  {
    hide TwoDigits;
  }

  lemma DateStands(a: string, b: string, c: string)
    requires |a| == |b| == |c| == 2
    ensures var s := a + "/" + b + "/" + c;
      && |s| == 8 && s[2] == s[5] == '/' && Stands(s, 0, a) && Stands(s, 3, b) && Stands(s, 6, c)
  {
  }

  lemma TimeStands(date: string, d: string, e: string, f: string)
    requires |date| == 8 && |d| == |e| == |f| == 2
    ensures var s := date + "," + d + ":" + e + ":" + f;
      && |s| == 17 && s[8] == ',' && s[11] == s[14] == ':' && Stands(s, 9, d) && Stands(s, 12, e) && Stands(s, 15, f)
      && s[..8] == date
  {
  }

  lemma ZoneStands(time: string, sign: string, zone: string)
    requires |time| == 17 && |sign| == 1 && |zone| == 2
    ensures var s := time + sign + zone;
      && |s| == 20 && s[17] == sign[0] && Stands(s, 18, zone) && s[..17] == time
  {
  }

  lemma StandsLonger(s: string, longer: string, at: nat, p: string)
    requires Stands(s, at, p) && s <= longer
    ensures Stands(longer, at, p)
  {
  }

  /** Two octet strings that spell the same digits are the same. */
  lemma SpellingIsUnique(a: seq<Octet>, b: seq<Octet>, digits: string)
    requires Spells(a, digits) && Spells(b, digits)
    ensures a == b
  {
    forall i | 0 <= i < |a|
      ensures a[i] == b[i]
    {
      assert Half(a, 2 * i) == Half(b, 2 * i);
      assert Half(a, 2 * i + 1) == Half(b, 2 * i + 1);
    }
  }

  /** The type of an address says that it is an international number. */
  predicate International(toa: Octet) {
    toa >= 128 && toa / 16 % 2 == 1
  }

  /**
   A number is read as the digits its half-octets spell, with a plus sign if it is international, whether its
   length is that of the digits, as a sender's is, or that of the octets, as a service centre's is.
   */
  lemma NumberIsRead(table: seq<char>, octets: seq<Octet>, digits: string, count: nat, toa: Octet)
    requires |table| == 128 && toa / 16 % 8 != 5 && Spells(octets, digits) && count >= |digits|
    requires forall k :: 0 <= k < |digits| ==> '0' <= digits[k] <= '9'
    ensures Address(table, octets, count, toa) == (if International(toa) && digits != [] then "+" + digits else digits)
  {
    SemiOctetsSpell(digits);
    SpellingIsUnique(octets, SemiOctets(digits), digits);
    NibblesOfSemiOctets(digits);
    hide Spells, SemiOctets, Nibbles, Decode;
    assert digits[..|digits|] == digits;
  }

  /** A name of `n` septets, whose length is given in half-octets, is read in full and no further. */
  lemma NameIsRead(table: seq<char>, name: seq<Septet>, toa: Octet)
    requires |table| == 128 && toa / 16 % 8 == 5
    ensures var count := (7 * |name| + 3) / 4;
      && |Packed([], name)| == (count + 1) / 2
      && Address(table, Packed([], name), count, toa) == Decode(table, name, false)
  {
    hide Packed, Unpacked, Decode, Nibbles;
    UnpackedPacked([], name);
    assert (7 * |name| + 3) / 4 * 4 / 7 == |name|;
  }

  /** The service centre stands before the message: its type and its digits. */
  function Centre(table: seq<char>, smsc: seq<Octet>): string
    requires |table| == 128
  {
    if smsc == [] then "" else Address(table, smsc[1..], 2 * (|smsc| - 1), smsc[0])
  }

  /** A delivered message without a header: who sent it, when, through whom, and its text by the coding's bits. */
  lemma PlainIsDelivered(table: seq<char>, route: Route, dcs: Octet, udl: Octet, user: seq<Octet>, index: int)
    requires |table| == 128 && ValidRoute(route)
    requires |user| == if dcs / 4 % 4 == 0 then OctetsFor(udl) else udl
    ensures var got := Deliver(table, DeliverPdu(route, false, dcs, udl, user), index);
      && got.Some? && got.value.1 == Centre(table, route.smsc)
      && var e := got.value.0;
      && e.sender == Address(table, route.address, route.count, route.toa) && e.date == Timestamp(route.stamp)
      && e.indices == [index] && e.concat == None
      && (dcs / 4 % 4 == 1 ==> e.text == HexUpper(user))
      && (dcs / 4 % 4 == 2 ==> e.text == FromUtf16(FromBigEndian(user)))
      && (dcs / 4 % 4 == 0 || dcs / 4 % 4 == 3 ==> e.text == Decode(table, Unpacked(user, 0, udl), false))
  {
    hide DeliverPdu, Address, Timestamp, Decode, HexUpper, FromUtf16, FromBigEndian, Unpacked, OctetsFor, Cut;
    CutReads(route, false, dcs, udl, user);
    assert user[0..] == user;
    assert Skip(0) == 0;
  }

  // ----- Cut messages

  /** The octets that the fields of a frame take. */
  function Size(f: Frame): nat {
    14 + |f.smsc| + |f.address| + |f.user|
  }

  lemma TakeMore(a: seq<Octet>, x: seq<Octet>, count: nat)
    requires Take(a, count).Some?
    ensures Take(a + x, count) == Some((Take(a, count).value.0, Take(a, count).value.1 + x))
    ensures |a| == count + |Take(a, count).value.1|
  {
    assert (a + x)[..count] == a[..count] && (a + x)[count..] == a[count..] + x;
  }

  /** What is read does not depend on what follows it, and is all there. */
  lemma CutIsPrefix(a: seq<Octet>, x: seq<Octet>)
    requires Cut(a).Some?
    ensures Cut(a + x) == Cut(a) && |a| >= Size(Cut(a).value)
  {
    hide Take, OctetsFor;
    var f := Cut(a).value;
    var r1 := Take(a, 1).value;
    var r2 := Take(r1.1, r1.0[0]).value;
    var r3 := Take(r2.1, 1).value;
    var r4 := Take(r3.1, 2).value;
    var r5 := Take(r4.1, (r4.0[0] as int + 1) / 2).value;
    var r6 := Take(r5.1, 2).value;
    var r7 := Take(r6.1, 7).value;
    var r8 := Take(r7.1, 1).value;
    TakeMore(a, x, 1);
    TakeMore(r1.1, x, r1.0[0]);
    TakeMore(r2.1, x, 1);
    TakeMore(r3.1, x, 2);
    TakeMore(r4.1, x, (r4.0[0] as int + 1) / 2);
    TakeMore(r5.1, x, 2);
    TakeMore(r6.1, x, 7);
    TakeMore(r7.1, x, 1);
    TakeMore(r8.1, x, if r6.0[1] / 4 % 4 == 0 then OctetsFor(r8.0[0]) else r8.0[0]);
  }

  /** A delivered message is read whatever follows it, and not at all if the end of it is missing. */
  lemma CutMessageIsRefused(table: seq<char>, route: Route, udhi: bool, dcs: Octet, udl: Octet, user: seq<Octet>,
                            index: int, rest: seq<Octet>, k: nat)
    requires |table| == 128 && ValidRoute(route)
    requires |user| == if dcs / 4 % 4 == 0 then OctetsFor(udl) else udl
    ensures var pdu := DeliverPdu(route, udhi, dcs, udl, user);
      && Deliver(table, pdu + rest, index) == Deliver(table, pdu, index)
      && (k < |pdu| ==> Deliver(table, pdu[..k], index) == None)
  {
    hide Cut, Interpret, OctetsFor;
    var pdu := DeliverPdu(route, udhi, dcs, udl, user);
    CutReads(route, udhi, dcs, udl, user);
    CutIsPrefix(pdu, rest);
    if k < |pdu| {
      assert pdu[..k] + pdu[k..] == pdu;
      ShortIsRefused(pdu[..k], pdu[k..]);
    }
  }

  lemma ShortIsRefused(a: seq<Octet>, x: seq<Octet>)
    requires Cut(a + x).Some? && |a| < Size(Cut(a + x).value)
    ensures Cut(a) == None
  {
    hide Cut;
    if Cut(a).Some? {
      CutIsPrefix(a, x);
    }
  }

  /** The PDU of another type of message is refused, whatever else it holds. */
  lemma OtherTypesAreRefused(table: seq<char>, smsc: seq<Octet>, first: Octet, rest: seq<Octet>, index: int)
    requires |table| == 128 && |smsc| < 256 && first % 4 != 0
    ensures Deliver(table, [|smsc|] + (smsc + ([first] + rest)), index) == None
  {
    TakeFront([|smsc|], smsc + ([first] + rest));
    TakeFront(smsc, [first] + rest);
    TakeFront([first], rest);
    hide Take, Interpret, OctetsFor;
  }

  // ----- What is submitted

  /** The character is in the default alphabet or in its extension table. */
  predicate IsGsm7(table: seq<char>, c: char) {
    c in table || exists i :: 0 <= i < |ESCAPED| && ESCAPED[i].1 == c as int
  }

  lemma Gsm7Exactly(table: seq<char>, c: char)
    requires |table| == 128
    ensures Gsm7Character(table, c).Some? <==> IsGsm7(table, c)
  {
    if c !in table {
      EscapedIsSent(table, c);
    } else {
      OneSeptet(table, c);
    }
  }

  /** A message goes out in GSM 7-bit if and only if all its characters can, and in UTF-16 otherwise. */
  lemma CodingExactly(table: seq<char>, message: string)
    requires |table| == 128
    ensures CodingOf(table, message) == Gsm7 <==> forall c :: c in message ==> IsGsm7(table, c)
  {
    hide Gsm7Character, IsGsm7;
    forall c
      ensures Gsm7Character(table, c).Some? <==> IsGsm7(table, c)
    {
      Gsm7Exactly(table, c);
    }
    assert forall k :: 0 <= k < |message| ==> message[k] in message;
  }

  /**
   A message is submitted if and only if its number has 1 to 20 digits and it is not empty and takes at most
   255 parts, which are numbered in order.
   */
  lemma SubmitExactly(table: seq<char>, number: string, message: string, reference: Octet)
    requires |table| == 128
    ensures match Submitted(table, number, message, reference)
      case Err(InvalidNumber) => |Digits(number)| == 0 || |Digits(number)| > 20
      case Err(EmptyOrTooLong) =>
        1 <= |Digits(number)| <= 20 && (message == "" || |Groups(table, message)| >= 256)
      case Ok(parts) =>
        1 <= |Digits(number)| <= 20 && message != "" && |parts| == |Groups(table, message)| <= 255
  {
    if message != "" {
      MessageHasGroups(table, message);
    } else {
      EmptyHasNone(table);
    }
    hide Part, CodingOf, Digits, Groups, SegmentOf;
  }

  lemma EmptyHasNone(table: seq<char>)
    requires |table| == 128
    ensures Groups(table, "") == []
  {
  }
}
