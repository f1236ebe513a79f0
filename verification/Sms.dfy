/**
 The SMS codec: alphabets, segmentation and PDU layout of outgoing messages, and the decoder of
 incoming ones (sections 6.2.1 and 6.2.1.1 of 3GPP TS 23.038; sections 9.1.2.5, 9.2.3.16 and
 9.2.3.24.1 of 3GPP TS 23.040).
 */
module Sms {
  import opened Common
  import opened Inbox
  import opened Septets
  import Decimal
  import Greedy

  type Unit = n: nat | n < 0x10000

  const ESCAPE: Septet := 27

  // ----- The GSM 7-bit default alphabet and its extension table

  function Extension(c: char): Option<Septet> {
    if c == '\U{0C}' then Some(10)
    else if c == '^' then Some(20)
    else if c == '{' then Some(40)
    else if c == '}' then Some(41)
    else if c == '\\' then Some(47)
    else if c == '[' then Some(60)
    else if c == '~' then Some(61)
    else if c == ']' then Some(62)
    else if c == '|' then Some(64)
    else if c == '\U{20AC}' then Some(101)
    else None
  }

  function Extended(n: Septet): char {
    if n == 10 then '\U{0C}'
    else if n == 20 then '^'
    else if n == 40 then '{'
    else if n == 41 then '}'
    else if n == 47 then '\\'
    else if n == 60 then '['
    else if n == 61 then '~'
    else if n == 62 then ']'
    else if n == 64 then '|'
    else if n == 101 then '\U{20AC}'
    else ' '
  }

  /** The table of the default alphabet. Its entries 27, the escape position, and 32 are both the space. */
  const GSM7_TABLE: string :=
    "@\U{A3}$\U{A5}\U{E8}\U{E9}\U{F9}\U{EC}\U{F2}\U{C7}\n\U{D8}\U{F8}\r\U{C5}\U{E5}" +
    "\U{394}_\U{3A6}\U{393}\U{39B}\U{3A9}\U{3A0}\U{3A8}\U{3A3}\U{398}\U{39E} \U{C6}\U{E6}\U{DF}\U{C9}" +
    " !\"#\U{A4}%&'()*+,-./0123456789:;<=>?" +
    "\U{A1}ABCDEFGHIJKLMNOPQRSTUVWXYZ\U{C4}\U{D6}\U{D1}\U{DC}\U{A7}" +
    "\U{BF}abcdefghijklmnopqrstuvwxyz\U{E4}\U{F6}\U{F1}\U{FC}\U{E0}"

  function Position(table: seq<char>, c: char): (r: Option<nat>)
    ensures r.Some? ==> r.value < |table| && table[r.value] == c
    ensures r.None? ==> c !in table
  {
    if table == [] then None
    else if table[0] == c then Some(0)
    else
      match Position(table[1..], c)
      case Some(k) => Some(k + 1)
      case None => None
  }

  /** The septets of one character, or `None` outside the alphabet. */
  function Gsm7Character(table: seq<char>, c: char): Option<seq<Septet>>
    requires |table| == 128
  {
    match Position(table, c)
    case Some(index) => Some([index])
    case None =>
      match Extension(c)
      case Some(second) => Some([ESCAPE, second])
      case None => None
  }

  /** The character is sent as the escape septet alone, which stands for no character. */
  predicate Lost(table: seq<char>, c: char)
    requires |table| == 128
  {
    Gsm7Character(table, c) == Some([ESCAPE])
  }

  /** What one septet adds to the text. */
  function Spoken(table: seq<char>, n: Septet, escape: bool): string
    requires |table| == 128
  {
    if escape then [Extended(n)] else if n == ESCAPE then [] else [table[n]]
  }

  function Decode(table: seq<char>, septets: seq<Septet>, escape: bool): string
    requires |table| == 128
  {
    if septets == [] then []
    else Spoken(table, septets[0], escape) + Decode(table, septets[1..], !escape && septets[0] == ESCAPE)
  }

  /** The decoding loop over packed septets, with its early exit when the octets run out. */
  method DecodeGsm7(table: seq<char>, data: seq<Octet>, count: nat, skip: nat) returns (text: string)
    requires |table| == 128
    ensures text == Decode(table, Unpacked(data, skip, count), false)
  {
    hide Unpacked, SeptetAt, Extended;
    text := [];
    var escape := false;
    var i := 0;
    ghost var septets := Unpacked(data, skip, count);
    ghost var all := Decode(table, septets, false);
    UnpackedLength(data, skip, count);
    while i < count
      invariant 0 <= i <= |septets| <= count
      invariant text + Decode(table, septets[i..], escape) == all
    {
      if (skip + i) * 7 + 7 > |data| * 8 {
        break;
      }
      UnpackedAt(data, skip, count, i);
      var n := SeptetAt(data, skip + i);
      ghost var next := text + Spoken(table, n, escape);
      ghost var tail := Decode(table, septets[i + 1..], !escape && n == ESCAPE);
      assert next + tail == all by {
        assert septets[i..][1..] == septets[i + 1..];
        assert text + (Spoken(table, n, escape) + tail) == all;
      }
      if escape {
        text := text + [Extended(n)];
        escape := false;
      } else if n == ESCAPE {
        escape := true;
      } else {
        text := text + [table[n]];
      }
      assert text == next;
      i := i + 1;
    }
  }

  // ----- UTF-16

  function Utf16(c: char): seq<Unit> {
    var n := c as int;
    if n < 0x10000 then [n]
    else [0xD800 + (n - 0x10000) / 0x400, 0xDC00 + (n - 0x10000) % 0x400]
  }

  function Supplementary(high: Unit, low: Unit): char
    requires 0xD800 <= high < 0xDC00 <= low < 0xE000
  {
    var h: int, l: int := high, low;
    (0x10000 + (h - 0xD800) * 0x400 + (l - 0xDC00)) as char
  }

  /** Decoding with U+FFFD in place of every unpaired surrogate. */
  function FromUtf16(units: seq<Unit>): string {
    if units == [] then []
    else if !(0xD800 <= units[0] < 0xE000) then [units[0] as char] + FromUtf16(units[1..])
    else if units[0] < 0xDC00 && |units| > 1 && 0xDC00 <= units[1] < 0xE000 then
      [Supplementary(units[0], units[1])] + FromUtf16(units[2..])
    else ['\U{FFFD}'] + FromUtf16(units[1..])
  }

  function ToBigEndian(units: seq<Unit>): (r: seq<Octet>)
    ensures |r| == 2 * |units|
  {
    if units == [] then [] else [units[0] / 256, units[0] % 256] + ToBigEndian(units[1..])
  }

  function FromBigEndian(octets: seq<Octet>): seq<Unit> {
    if |octets| < 2 then [] else [octets[0] as int * 256 + octets[1] as int] + FromBigEndian(octets[2..])
  }

  // ----- Coding and segmentation

  datatype Coding = Gsm7 | Ucs2

  function CodingOf(table: seq<char>, message: string): Coding
    requires |table| == 128
  {
    if forall k :: 0 <= k < |message| ==> Gsm7Character(table, message[k]).Some? then Gsm7 else Ucs2
  }

  /** Whether `coding` can carry every character of `text`. */
  predicate Carries(table: seq<char>, coding: Coding, text: string)
    requires |table| == 128
  {
    coding == Gsm7 ==> forall k :: 0 <= k < |text| ==> Gsm7Character(table, text[k]).Some?
  }

  function UnitsOf(table: seq<char>, coding: Coding, c: char): (r: seq<Unit>)
    requires |table| == 128
    ensures 1 <= |r| <= 2 && (coding == Gsm7 ==> forall k :: 0 <= k < |r| ==> r[k] < 128)
  {
    if coding == Ucs2 then Utf16(c)
    else
      match Gsm7Character(table, c)
      case Some(septets) => septets
      case None => [0]
  }

  /** The code of one character, as a function of the character alone. */
  function Code(table: seq<char>, coding: Coding): char -> seq<Unit>
    requires |table| == 128
  {
    c => UnitsOf(table, coding, c)
  }

  function Encode(table: seq<char>, coding: Coding, text: string): seq<Unit>
    requires |table| == 128
  {
    FlatMap(Code(table, coding), text)
  }

  function Cost(code: char -> seq<Unit>): char -> nat {
    c => |code(c)|
  }

  function Limit(coding: Coding, units: nat): nat {
    match coding
    case Gsm7 => if units <= 160 then 160 else 153
    case Ucs2 => if units <= 70 then 70 else 67
  }

  /** The texts of the segments of a message. */
  function Groups(table: seq<char>, message: string): seq<string>
    requires |table| == 128
  {
    var code := Code(table, CodingOf(table, message));
    Greedy.Cut(Cost(code), [], message, Limit(CodingOf(table, message), |FlatMap(code, message)|))
  }

  lemma {:induction false} WeightIsLength(code: char -> seq<Unit>, text: string)
    ensures Greedy.Weight(Cost(code), text) == |FlatMap(code, text)|
  {
    if text != [] {
      WeightIsLength(code, text[1..]);
    }
  }

  /** The segmentation loop: units are collected character by character and cut at the limit. */
  method Segment(code: char -> seq<Unit>, message: string, limit: nat) returns (segments: seq<seq<Unit>>)
    requires forall c :: code(c) != []
    ensures var groups := Greedy.Cut(Cost(code), [], message, limit);
      |segments| == |groups| && forall k :: 0 <= k < |segments| ==> segments[k] == FlatMap(code, groups[k])
  {
    segments := [];
    var segment: seq<Unit> := [];
    ghost var closed: seq<string> := [];
    ghost var open: string := [];
    ghost var all := Greedy.Cut(Cost(code), [], message, limit);
    for i := 0 to |message|
      invariant |segments| == |closed|
      invariant forall k :: 0 <= k < |closed| ==> segments[k] == FlatMap(code, closed[k])
      invariant segment == FlatMap(code, open)
      invariant closed + Greedy.Cut(Cost(code), open, message[i..], limit) == all
    {
      var units := code(message[i]);
      WeightIsLength(code, open);
      FlatMapSnoc(code, open, message[i]);
      ghost var rest := message[i + 1..];
      assert message[i..][1..] == rest;
      if |segment| + |units| > limit {
        ghost var tail := Greedy.Cut(Cost(code), [message[i]], rest, limit);
        assert (closed + [open]) + tail == all by {
          assert closed + ([open] + tail) == all;
        }
        segments := segments + [segment];
        segment := [];
        closed := closed + [open];
        open := [];
        assert [] + [message[i]] == [message[i]];
        FlatMapSnoc(code, open, message[i]);
      }
      segment := segment + units;
      open := open + [message[i]];
    }
    assert message[|message|..] == [];
    assert open != [] ==> code(open[0]) != [];
    if segment != [] {
      segments := segments + [segment];
      closed := closed + [open];
    }
  }

  // ----- Outgoing messages

  datatype SubmitError = InvalidNumber | EmptyOrTooLong

  function Digits(s: string): string {
    if s == [] then []
    else if Decimal.IsDigit(s[0]) then [s[0]] + Digits(s[1..])
    else Digits(s[1..])
  }

  /** Semi-octets, low half first, padded with 1111 (section 9.1.2.3 of 3GPP TS 23.040). */
  function SemiOctets(digits: string): seq<Octet>
    requires forall k :: 0 <= k < |digits| ==> Decimal.IsDigit(digits[k])
  {
    if digits == [] then []
    else if |digits| == 1 then [0xF0 + Decimal.DigitValue(digits[0])]
    else [Decimal.DigitValue(digits[1]) * 16 + Decimal.DigitValue(digits[0])] + SemiOctets(digits[2..])
  }

  lemma {:induction false} DigitsAreDigits(s: string)
    ensures forall k :: 0 <= k < |Digits(s)| ==> Decimal.IsDigit(Digits(s)[k])
  {
    if s != [] {
      DigitsAreDigits(s[1..]);
    }
  }

  /** The concatenation header of part `sequence` of `total`; a single part has none. */
  function Header(reference: Octet, total: nat, sequence: nat): seq<Octet>
    requires sequence <= total < 256
  {
    if total > 1 then [5, 0, 3, if reference == 0 then 1 else reference, total, sequence] else []
  }

  /** The user data octets and the user data length of one segment. */
  function UserData(coding: Coding, header: seq<Octet>, units: seq<Unit>): (seq<Octet>, nat)
    requires coding == Gsm7 ==> forall k :: 0 <= k < |units| ==> units[k] < 128
  {
    match coding
    case Gsm7 => (Packed(header, units), Skip(|header|) + |units|)
    case Ucs2 => (header + ToBigEndian(units), |header| + 2 * |units|)
  }

  /** The PDU: empty service centre, SUBMIT, destination, protocol, coding, user data. */
  function Pdu(number: string, total: nat, sequence: nat, coding: Coding, user: seq<Octet>, udl: nat): seq<Octet>
    requires sequence < 256 && |Digits(number)| <= 20
  {
    DigitsAreDigits(number);
    [0, if total > 1 then 0x41 else 0x01, sequence, |Digits(number)|, if "+" <= number then 0x91 else 0x81]
    + SemiOctets(Digits(number))
    + [0, if coding == Gsm7 then 0 else 8, udl % 256]
    + user
  }

  /** The PDU that carries `units` as part `sequence` of `total`, and the length announced to the modem. */
  function Part(coding: Coding, units: seq<Unit>, number: string, reference: Octet, total: nat, sequence: nat)
    : (seq<Octet>, nat)
    requires sequence <= total < 256 && |Digits(number)| <= 20
    requires coding == Gsm7 ==> forall k :: 0 <= k < |units| ==> units[k] < 128
  {
    var data := UserData(coding, Header(reference, total, sequence), units);
    var pdu := Pdu(number, total, sequence, coding, data.0, data.1);
    (pdu, |pdu| - 1)
  }

  method WritePart(coding: Coding, units: seq<Unit>, number: string, reference: Octet, total: nat, sequence: nat)
    returns (out: (seq<Octet>, nat))
    requires sequence <= total < 256 && |Digits(number)| <= 20
    requires coding == Gsm7 ==> forall k :: 0 <= k < |units| ==> units[k] < 128
    ensures out == Part(coding, units, number, reference, total, sequence)
  {
    hide Packed, ToBigEndian, Digits;
    var header: seq<Octet> := [];
    if total > 1 {
      header := [5, 0, 3, if reference == 0 then 1 else reference, total, sequence];
    }
    var user, udl;
    if coding == Gsm7 {
      user, udl := Pack(header, units);
    } else {
      user := header + ToBigEndian(units);
      udl := |user|;
    }
    var pdu := Pdu(number, total, sequence, coding, user, udl);
    out := (pdu, |pdu| - 1);
  }

  lemma {:induction false} EncodeIsSeptets(table: seq<char>, coding: Coding, text: string)
    requires |table| == 128
    ensures coding == Gsm7 ==>
      forall k :: 0 <= k < |Encode(table, coding, text)| ==> Encode(table, coding, text)[k] < 128
  {
    if text != [] {
      EncodeIsSeptets(table, coding, text[1..]);
      assert Encode(table, coding, text) == UnitsOf(table, coding, text[0]) + Encode(table, coding, text[1..]);
    }
  }

  /** The units of segment `i`. */
  function SegmentOf(table: seq<char>, message: string, i: nat): (units: seq<Unit>)
    requires |table| == 128 && i < |Groups(table, message)|
    ensures CodingOf(table, message) == Gsm7 ==> forall k :: 0 <= k < |units| ==> units[k] < 128
  {
    EncodeIsSeptets(table, CodingOf(table, message), Groups(table, message)[i]);
    Encode(table, CodingOf(table, message), Groups(table, message)[i])
  }

  function Submitted(table: seq<char>, number: string, message: string, reference: Octet)
    : Result<seq<(seq<Octet>, nat)>, SubmitError>
    requires |table| == 128
  {
    var total := |Groups(table, message)|;
    if Digits(number) == [] || |Digits(number)| > 20 then Err(InvalidNumber)
    else if total == 0 || total > 255 then Err(EmptyOrTooLong)
    else Ok(seq(total, i requires 0 <= i < total =>
      Part(CodingOf(table, message), SegmentOf(table, message, i), number, reference, total, i + 1)))
  }

  /** The output loop: one PDU per segment, numbered from 1. */
  method WriteParts(coding: Coding, segments: seq<seq<Unit>>, number: string, reference: Octet)
    returns (out: seq<(seq<Octet>, nat)>)
    requires |segments| < 256 && |Digits(number)| <= 20
    requires coding == Gsm7 ==>
      forall i, k :: 0 <= i < |segments| && 0 <= k < |segments[i]| ==> segments[i][k] < 128
    ensures |out| == |segments|
    ensures forall i :: 0 <= i < |out| ==> out[i] == Part(coding, segments[i], number, reference, |segments|, i + 1)
  {
    hide Part, Digits;
    out := [];
    for i := 0 to |segments|
      invariant |out| == i
      invariant forall k :: 0 <= k < i ==> out[k] == Part(coding, segments[k], number, reference, |segments|, k + 1)
    {
      var part := WritePart(coding, segments[i], number, reference, |segments|, i + 1);
      out := out + [part];
    }
  }

  /** The segments of a message, in the coding it goes out in. */
  method Segments(table: seq<char>, message: string) returns (segments: seq<seq<Unit>>)
    requires |table| == 128
    ensures |segments| == |Groups(table, message)|
    ensures forall k :: 0 <= k < |segments| ==> segments[k] == SegmentOf(table, message, k)
  {
    hide CodingOf, Gsm7Character;
    var coding := CodingOf(table, message);
    segments := Segment(Code(table, coding), message, Limit(coding, |Encode(table, coding, message)|));
  }

  method Submit(table: seq<char>, number: string, message: string, reference: Octet)
    returns (r: Result<seq<(seq<Octet>, nat)>, SubmitError>)
    requires |table| == 128
    ensures r == Submitted(table, number, message, reference)
  {
    hide Part, CodingOf, Digits, Groups, SegmentOf;
    var digits := Digits(number);
    if digits == [] || |digits| > 20 {
      return Err(InvalidNumber);
    }
    var coding := CodingOf(table, message);
    var segments := Segments(table, message);
    var total := |segments|;
    if total == 0 || total > 255 {
      return Err(EmptyOrTooLong);
    }
    var out := WriteParts(coding, segments, number, reference);
    assert out == seq(total, i requires 0 <= i < total =>
      Part(coding, SegmentOf(table, message, i), number, reference, total, i + 1));
    r := Ok(out);
  }

  // ----- Incoming messages

  /** The next `count` octets and what follows them. */
  function Take(rest: seq<Octet>, count: nat): (r: Option<(seq<Octet>, seq<Octet>)>)
    ensures r.Some? ==> |r.value.0| == count
  {
    if count <= |rest| then Some((rest[..count], rest[count..])) else None
  }

  /** The digits among the semi-octets, low half first. */
  function Nibbles(raw: seq<Octet>): string {
    if raw == [] then []
    else
      var low := raw[0] % 16;
      var high := raw[0] / 16;
      (if low <= 9 then [Decimal.Digit(low)] else [])
      + (if high <= 9 then [Decimal.Digit(high)] else [])
      + Nibbles(raw[1..])
  }

  function Address(table: seq<char>, raw: seq<Octet>, count: nat, toa: Octet): string
    requires |table| == 128
  {
    if toa / 16 % 8 == 5 then Decode(table, Unpacked(raw, 0, count * 4 / 7), false)
    else
      var digits := Nibbles(raw);
      var value := digits[..Min(|digits|, count)];
      if toa / 128 == 1 && toa / 16 % 2 == 1 && value != [] then "+" + value else value
  }

  function TwoDigits(n: nat): string {
    if n < 10 then "0" + Decimal.Print(n) else Decimal.Print(n)
  }

  function Timestamp(raw: seq<Octet>): string
    requires |raw| == 7
  {
    var d := (b: nat) => TwoDigits(b % 16 * 10 + b / 16);
    d(raw[0]) + "/" + d(raw[1]) + "/" + d(raw[2]) + "," + d(raw[3]) + ":" + d(raw[4]) + ":" + d(raw[5])
    + (if raw[6] / 8 % 2 == 1 then "-" else "+") + d(if raw[6] / 8 % 2 == 1 then raw[6] - 8 else raw[6])
  }

  /** The concatenation element of a user data header; later elements win, cut ones reject the message. */
  function ReadHeader(udh: seq<Octet>, found: Option<Concat>): Option<Option<Concat>> {
    if |udh| < 2 then Some(found)
    else if udh[1] > |udh| - 2 then None
    else
      var data := udh[2..2 + udh[1]];
      ReadHeader(udh[2 + udh[1]..],
        if udh[0] == 0 && udh[1] == 3 then Some(Concat(Ref8(data[0]), data[1], data[2]))
        else if udh[0] == 8 && udh[1] == 4 then Some(Concat(Ref16(data[0], data[1]), data[2], data[3]))
        else found)
  }

  method ScanHeader(udh: seq<Octet>) returns (r: Option<Option<Concat>>)
    ensures r == ReadHeader(udh, None)
  {
    var p := 0;
    var found := None;
    while p + 2 <= |udh|
      invariant 0 <= p <= |udh|
      invariant ReadHeader(udh[p..], found) == ReadHeader(udh, None)
    {
      var kind, n := udh[p], udh[p + 1];
      p := p + 2;
      if p + n > |udh| {
        return None;
      }
      assert udh[p - 2..][2..2 + n] == udh[p..p + n] && udh[p - 2..][2 + n..] == udh[p + n..];
      if kind == 0 && n == 3 {
        found := Some(Concat(Ref8(udh[p]), udh[p + 1], udh[p + 2]));
      }
      if kind == 8 && n == 4 {
        found := Some(Concat(Ref16(udh[p], udh[p + 1]), udh[p + 2], udh[p + 3]));
      }
      p := p + n;
    }
    r := Some(found);
  }

  function HexDigit(n: nat): char
    requires n < 16
  {
    if n < 10 then Decimal.Digit(n) else ('A' as int + (n - 10)) as char
  }

  function HexUpper(octets: seq<Octet>): string {
    if octets == [] then [] else [HexDigit(octets[0] / 16), HexDigit(octets[0] % 16)] + HexUpper(octets[1..])
  }

  /** Where the text starts behind the header, and the concatenation element the header holds. */
  function ReadStart(udhi: bool, user: seq<Octet>): (r: Option<(nat, Option<Concat>)>)
    ensures r.Some? ==> r.value.0 <= |user|
  {
    if !udhi then Some((0, None))
    else if user == [] || user[0] >= |user| then None
    else
      var found :- ReadHeader(user[1..user[0] as int + 1], None);
      Some((user[0] as int + 1, found))
  }

  function ReadText(table: seq<char>, dcs: Octet, udl: Octet, user: seq<Octet>, start: nat): string
    requires |table| == 128 && start <= |user|
  {
    if dcs / 4 % 4 == 2 then FromUtf16(FromBigEndian(user[start..]))
    else if dcs / 4 % 4 == 1 then HexUpper(user[start..])
    else
      var skip := Skip(start);
      Decode(table, Unpacked(user, skip, if udl < skip then 0 else udl - skip), false)
  }

  /** The fields of a DELIVER PDU, as they stand in the octets. */
  datatype Frame = Frame(smsc: seq<Octet>, first: Octet, count: Octet, toa: Octet, address: seq<Octet>,
                         dcs: Octet, stamp: seq<Octet>, udl: Octet, user: seq<Octet>)

  function Cut(bytes: seq<Octet>): (r: Option<Frame>)
    ensures r.Some? ==> |r.value.stamp| == 7 && r.value.first % 4 == 0
  {
    var (length, rest) :- Take(bytes, 1);
    var (smsc, rest) :- Take(rest, length[0]);
    var (first, rest) :- Take(rest, 1);
    if first[0] % 4 != 0 then None
    else
      var (header, rest) :- Take(rest, 2);
      var (address, rest) :- Take(rest, (header[0] as int + 1) / 2);
      var (coding, rest) :- Take(rest, 2);
      var (stamp, rest) :- Take(rest, 7);
      var (udl, rest) :- Take(rest, 1);
      var (user, rest) :- Take(rest, if coding[1] / 4 % 4 == 0 then OctetsFor(udl[0]) else udl[0]);
      Some(Frame(smsc, first[0], header[0], header[1], address, coding[1], stamp, udl[0], user))
  }

  function Interpret(table: seq<char>, f: Frame, index: int): Option<(Entry, string)>
    requires |table| == 128 && |f.stamp| == 7
  {
    var center := if f.smsc == [] then "" else Address(table, f.smsc[1..], (|f.smsc| - 1) * 2, f.smsc[0]);
    var sender := Address(table, f.address, f.count, f.toa);
    match ReadStart(f.first / 64 % 2 == 1, f.user)
    case None => None
    case Some((start, concat)) =>
      var text := ReadText(table, f.dcs, f.udl, f.user, start);
      Some((Entry(sender, Timestamp(f.stamp), text, [index], concat, false, ME), center))
  }

  /** Decodes a DELIVER PDU into an inbox entry and the service centre's address. */
  function Deliver(table: seq<char>, bytes: seq<Octet>, index: int): Option<(Entry, string)>
    requires |table| == 128
  {
    match Cut(bytes)
    case None => None
    case Some(f) => Interpret(table, f, index)
  }
}
