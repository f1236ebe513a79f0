/** Splitting, joining and trimming text, and reading 32-bit numbers in it. */
module Text {
  import opened Common
  import Decimal

  const U32: nat := 0x1_0000_0000

  /** The pieces between separators; always at least one. */
  function Split(s: string, sep: char): (parts: seq<string>)
    ensures parts != []
  {
    if s == [] then [[]]
    else
      var rest := Split(s[1..], sep);
      if s[0] == sep then [[]] + rest else [[s[0]] + rest[0]] + rest[1..]
  }

  function Join(parts: seq<string>, sep: string): string {
    if parts == [] then []
    else if |parts| == 1 then parts[0]
    else parts[0] + sep + Join(parts[1..], sep)
  }

  /** The characters with the White_Space property of Unicode. */
  predicate IsSpace(c: char) {
    var n := c as int;
    || 9 <= n <= 13 || n == 0x20 || n == 0x85 || n == 0xA0 || n == 0x1680 || 0x2000 <= n <= 0x200A
    || n == 0x2028 || n == 0x2029 || n == 0x202F || n == 0x205F || n == 0x3000
  }

  /** Without whitespace at either end. */
  function Trim(s: string): string {
    if s == [] then s
    else if IsSpace(s[0]) then Trim(s[1..])
    else if IsSpace(s[|s| - 1]) then Trim(s[..|s| - 1])
    else s
  }

  /** An unsigned 32-bit number, as Rust reads it: a plus sign may come first. */
  function ParseU32(s: string): (r: Option<nat>)
    ensures r.Some? ==> r.value < U32
  {
    var digits := if s != [] && s[0] == '+' then s[1..] else s;
    match Decimal.Parse(digits)
    case Some(n) => if n < U32 then Some(n) else None
    case None => None
  }

  function PrintAll(values: seq<nat>): (r: seq<string>)
    ensures |r| == |values| && forall i :: 0 <= i < |r| ==> r[i] == Decimal.Print(values[i])
  {
    seq(|values|, i requires 0 <= i < |values| => Decimal.Print(values[i]))
  }

  /** All the pieces as numbers, or nothing if one is not a number. */
  function ParseAll(parts: seq<string>): (r: Option<seq<nat>>)
    ensures r.Some? ==> |r.value| == |parts| && forall n :: n in r.value ==> n < U32
  {
    if parts == [] then Some([])
    else
      var first :- ParseU32(parts[0]);
      var rest :- ParseAll(parts[1..]);
      Some([first] + rest)
  }

  /** The pieces that are numbers. */
  function ParseSome(parts: seq<string>): seq<nat> {
    if parts == [] then []
    else
      match ParseU32(parts[0])
      case Some(n) => [n] + ParseSome(parts[1..])
      case None => ParseSome(parts[1..])
  }

  predicate AllU32(values: seq<nat>) {
    forall n :: n in values ==> n < U32
  }

  predicate Digits(s: string) {
    s != [] && forall c :: c in s ==> Decimal.IsDigit(c)
  }

  lemma PrintIsDigits(n: nat)
    ensures Digits(Decimal.Print(n))
  {
  }

  /** Printing and reading a number, which trimming leaves alone. */
  lemma ReadBack(n: nat)
    requires n < U32
    ensures ParseU32(Decimal.Print(n)) == Some(n) && Trim(Decimal.Print(n)) == Decimal.Print(n)
  {
    Decimal.ParsePrint(n);
    PrintIsDigits(n);
    var s := Decimal.Print(n);
    assert s[0] in s && s[|s| - 1] in s;
  }

  lemma {:induction false} SplitPiece(piece: string, sep: char, rest: string)
    requires sep !in piece
    ensures Split(piece, sep) == [piece]
    ensures Split(piece + [sep] + rest, sep) == [piece] + Split(rest, sep)
  {
    if piece == [] {
      assert piece + [sep] + rest == [sep] + rest;
      assert ([sep] + rest)[1..] == rest;
    } else {
      assert piece[0] in piece && [piece[0]] + piece[1..] == piece;
      SplitPiece(piece[1..], sep, rest);
      assert (piece + [sep] + rest)[1..] == piece[1..] + [sep] + rest;
    }
  }

  /** Joined pieces come apart again, if none contains the separator. */
  lemma {:induction false} SplitJoin(parts: seq<string>, sep: char)
    requires parts != [] && forall i :: 0 <= i < |parts| ==> sep !in parts[i]
    ensures Split(Join(parts, [sep]), sep) == parts
  {
    hide Split;
    if |parts| == 1 {
      SplitPiece(parts[0], sep, []);
    } else {
      SplitJoin(parts[1..], sep);
      SplitPiece(parts[0], sep, Join(parts[1..], [sep]));
      assert [parts[0]] + parts[1..] == parts;
    }
  }

  lemma {:induction false} ParsePrintedAll(values: seq<nat>)
    requires AllU32(values)
    ensures ParseAll(PrintAll(values)) == Some(values) && ParseSome(PrintAll(values)) == values
  {
    if values != [] {
      assert values[0] in values && forall n :: n in values[1..] ==> n in values;
      ReadBack(values[0]);
      ParsePrintedAll(values[1..]);
      assert PrintAll(values)[1..] == PrintAll(values[1..]) && PrintAll(values)[0] == Decimal.Print(values[0]);
      assert [values[0]] + values[1..] == values;
    }
  }

  /** A printed list of numbers, split and read, is the list. */
  lemma PrintedListIsRead(values: seq<nat>, sep: char)
    requires values != [] && AllU32(values) && !Decimal.IsDigit(sep)
    ensures Split(Join(PrintAll(values), [sep]), sep) == PrintAll(values)
    ensures ParseAll(Split(Join(PrintAll(values), [sep]), sep)) == Some(values)
  {
    SplitJoin(PrintAll(values), sep);
    ParsePrintedAll(values);
  }
}
