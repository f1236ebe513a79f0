/** Cell locks as text: the commands that lock to cells, and the numbers a saved lock is rebuilt from. */
module CellRules {
  import opened Common
  import opened Text
  import Decimal

  /** Radio 0 is LTE, radio 1 is NR. */
  const RADIOS: nat := 2

  function Prefix(radio: nat): string {
    if radio == 0 then "AT+QNWLOCK=\"common/4g\"," else "AT+QNWLOCK=\"common/5g\","
  }

  /** The subcarrier spacings of an FR1 band; none for a band that is not listed. */
  function BandScs(band: nat): Option<set<nat>> {
    if band in {1, 2, 3, 7, 8, 12, 13, 14, 18, 20, 25, 26, 28, 29, 30, 51, 65, 70, 71, 74, 75, 76, 91, 92, 93, 94} then
      Some({15})
    else if band in {5, 34, 38, 39, 40, 41, 53, 66, 90} then Some({15, 30})
    else if band in {24, 46, 48, 50, 77, 78, 79, 96} then Some({30})
    else None
  }

  predicate ScsValid(band: nat, scs: nat) {
    if band < 257 then
      match BandScs(band)
      case Some(allowed) => scs in allowed
      case None => scs == 15 || scs == 30
    else scs == 60 || scs == 120
  }

  /** The numbers of a lock: a count and that many cells, or one cell with its spacing and band. */
  predicate ValuesValid(radio: nat, v: seq<nat>) {
    if radio == 0 then
      && v != [] && 1 <= v[0] <= 10 && |v| == 1 + v[0] * 2
      && forall i :: 1 <= i < |v| ==> v[i] <= (if i % 2 == 1 then 262143 else 503)
    else
      |v| == 4 && v[0] <= 1007 && v[1] <= 3279165 && 1 <= v[3] <= 1024 && ScsValid(v[3], v[2])
  }

  /** The command a saved lock is sent with again. */
  function Rebuild(radio: nat, values: seq<nat>): Option<string> {
    if ValuesValid(radio, values) then Some(Prefix(radio) + Join(PrintAll(values), ",")) else None
  }

  /** The numbers that are saved for a command. */
  function Stored(radio: nat, command: string): Option<seq<nat>> {
    if Prefix(radio) <= command then ParseAll(Split(command[|Prefix(radio)|..], ',')) else None
  }

  /** A parameter within its range. */
  function Number(raw: string, min: nat, max: nat): Option<nat> {
    var n :- ParseU32(Trim(raw));
    if min <= n <= max then Some(n) else None
  }

  function NrLock(pci: string, earfcn: string, scs: string, band: string): Option<string> {
    var s :- Number(scs, 15, 120);
    var b :- Number(band, 1, 1024);
    if !ScsValid(b, s) then None
    else
      var p :- Number(pci, 0, 1007);
      var e :- Number(earfcn, 0, 3279165);
      Some(Prefix(1) + Decimal.Print(p) + "," + Decimal.Print(e) + "," + Decimal.Print(s) + "," + Decimal.Print(b))
  }

  /** The cells of an LTE lock, each a frequency and a physical cell id. */
  function Cells(pairs: seq<(string, string)>): Option<seq<nat>> {
    if pairs == [] then Some([])
    else
      var f :- Number(pairs[0].0, 0, 262143);
      var p :- Number(pairs[0].1, 0, 503);
      var rest :- Cells(pairs[1..]);
      Some([f, p] + rest)
  }

  function LteLock(pairs: seq<(string, string)>): Option<string> {
    if pairs == [] || |pairs| > 10 then None
    else
      var cells :- Cells(pairs);
      Some(Prefix(0) + Join([Decimal.Print(|pairs|)] + PrintAll(cells), ","))
  }

  /** The loop that collects the items of an LTE lock, leaving at the first parameter out of range. */
  method LteCommand(pairs: seq<(string, string)>) returns (r: Option<string>)
    ensures r == LteLock(pairs)
  {
    hide Number, Join, Prefix;
    assert pairs[0..] == pairs;
    if pairs == [] || |pairs| > 10 {
      return None;
    }
    var items := [Decimal.Print(|pairs|)];
    ghost var cells: seq<nat> := [];
    assert forall rest: seq<nat> :: cells + rest == rest;
    for i := 0 to |pairs|
      invariant items == [Decimal.Print(|pairs|)] + PrintAll(cells)
      invariant Cells(pairs) == Prepend(cells, Cells(pairs[i..]))
    {
      UnfoldCells(pairs, i);
      var f := Number(pairs[i].0, 0, 262143);
      if f.None? {
        return None;
      }
      var p := Number(pairs[i].1, 0, 503);
      if p.None? {
        return None;
      }
      items := items + [Decimal.Print(f.value)] + [Decimal.Print(p.value)];
      PrintAllSnoc(cells, f.value, p.value);
      assert forall rest: seq<nat> :: cells + ([f.value, p.value] + rest) == cells + [f.value, p.value] + rest;
      cells := cells + [f.value, p.value];
    }
    assert Cells(pairs) == Some(cells) by {
      assert pairs[|pairs|..] == [] && cells + [] == cells;
    }
    r := Some(Prefix(0) + Join(items, ","));
  }

  lemma UnfoldCells(pairs: seq<(string, string)>, i: nat)
    requires i < |pairs|
    ensures Cells(pairs[i..]) ==
      match Number(pairs[i].0, 0, 262143)
      case None => None
      case Some(f) =>
        match Number(pairs[i].1, 0, 503)
        case None => None
        case Some(p) => Prepend([f, p], Cells(pairs[i + 1..]))
  {
    hide Number;
    assert pairs[i..][0] == pairs[i] && pairs[i..][1..] == pairs[i + 1..];
  }

  function Prepend(first: seq<nat>, rest: Option<seq<nat>>): Option<seq<nat>> {
    match rest
    case None => None
    case Some(r) => Some(first + r)
  }

  lemma PrintAllSnoc(values: seq<nat>, f: nat, p: nat)
    ensures PrintAll(values + [f, p]) == PrintAll(values) + [Decimal.Print(f)] + [Decimal.Print(p)]
  {
  }

  lemma {:induction false} CellsInRange(pairs: seq<(string, string)>)
    requires Cells(pairs).Some?
    ensures var cells := Cells(pairs).value;
      && |cells| == 2 * |pairs| && AllU32(cells)
      && forall i :: 0 <= i < |cells| ==> cells[i] <= (if i % 2 == 0 then 262143 else 503)
  {
    hide Number;
    if pairs != [] {
      CellsInRange(pairs[1..]);
      var cells := Cells(pairs).value;
      var rest := Cells(pairs[1..]).value;
      NumberInRange(pairs[0].0, 0, 262143);
      NumberInRange(pairs[0].1, 0, 503);
      assert forall i :: 2 <= i < |cells| ==> cells[i] == rest[i - 2];
    }
  }

  lemma NumberInRange(raw: string, min: nat, max: nat)
    ensures Number(raw, min, max).Some? ==> min <= Number(raw, min, max).value <= max
  {
  }

  /** The command of valid numbers is saved as those numbers, and rebuilt from them. */
  lemma RuleRoundTrip(radio: nat, values: seq<nat>)
    requires ValuesValid(radio, values) && AllU32(values)
    ensures var command := Prefix(radio) + Join(PrintAll(values), ",");
      Stored(radio, command) == Some(values) && Rebuild(radio, values) == Some(command)
  {
    hide Prefix, Join, PrintAll;
    var command := Prefix(radio) + Join(PrintAll(values), ",");
    assert command[|Prefix(radio)|..] == Join(PrintAll(values), ",");
    assert values != [];
    hide ValuesValid;
    PrintedListIsRead(values, ',');
  }

  lemma LteValues(pairs: seq<(string, string)>)
    requires LteLock(pairs).Some?
    ensures var values := [|pairs|] + Cells(pairs).value;
      ValuesValid(0, values) && AllU32(values) && LteLock(pairs).value == Prefix(0) + Join(PrintAll(values), ",")
  {
    var cells := Cells(pairs).value;
    var values := [|pairs|] + cells;
    CellsInRange(pairs);
    hide Cells, Number, Join, Prefix;
    CountedCells(|pairs|, cells);
    CountFirst(|pairs|, cells);
    hide ValuesValid, AllU32, PrintAll;
  }

  lemma CountFirst(n: nat, cells: seq<nat>)
    ensures PrintAll([n] + cells) == [Decimal.Print(n)] + PrintAll(cells)
  {
  }

  lemma CountedCells(n: nat, cells: seq<nat>)
    requires 1 <= n <= 10 && |cells| == 2 * n && AllU32(cells)
    requires forall i :: 0 <= i < |cells| ==> cells[i] <= (if i % 2 == 0 then 262143 else 503)
    ensures ValuesValid(0, [n] + cells) && AllU32([n] + cells)
  {
  }

  /** An LTE lock command is accepted as a rule and rebuilt character for character. */
  lemma LteLockIsRebuilt(pairs: seq<(string, string)>)
    requires LteLock(pairs).Some?
    ensures var command := LteLock(pairs).value;
      var values := Stored(0, command);
      && values == Some([|pairs|] + Cells(pairs).value)
      && ValuesValid(0, values.value) && Rebuild(0, values.value) == Some(command)
  {
    hide Stored, Rebuild, ValuesValid, Prefix, Join, PrintAll, Number;
    LteValues(pairs);
    RuleRoundTrip(0, [|pairs|] + Cells(pairs).value);
  }

  lemma NrValues(pci: string, earfcn: string, scs: string, band: string)
    requires NrLock(pci, earfcn, scs, band).Some?
    ensures var values := [Number(pci, 0, 1007).value, Number(earfcn, 0, 3279165).value,
                           Number(scs, 15, 120).value, Number(band, 1, 1024).value];
      && ValuesValid(1, values) && AllU32(values)
      && NrLock(pci, earfcn, scs, band).value == Prefix(1) + Join(PrintAll(values), ",")
  {
    hide Prefix, BandScs, Join;
    var values := [Number(pci, 0, 1007).value, Number(earfcn, 0, 3279165).value,
                   Number(scs, 15, 120).value, Number(band, 1, 1024).value];
    var p := PrintAll(values);
    NumberInRange(pci, 0, 1007);
    NumberInRange(earfcn, 0, 3279165);
    NumberInRange(scs, 15, 120);
    NumberInRange(band, 1, 1024);
    hide Number;
    JoinFour(p);
    AppendFour(Prefix(1), p);
  }

  /** So is an NR lock command. */
  lemma NrLockIsRebuilt(pci: string, earfcn: string, scs: string, band: string)
    requires NrLock(pci, earfcn, scs, band).Some?
    ensures var command := NrLock(pci, earfcn, scs, band).value;
      var values := Stored(1, command);
      values.Some? && ValuesValid(1, values.value) && Rebuild(1, values.value) == Some(command)
  {
    hide Stored, Rebuild, ValuesValid, Prefix, Join, PrintAll, Number;
    NrValues(pci, earfcn, scs, band);
    RuleRoundTrip(1, [Number(pci, 0, 1007).value, Number(earfcn, 0, 3279165).value,
                      Number(scs, 15, 120).value, Number(band, 1, 1024).value]);
  }

  lemma AppendFour(a: string, p: seq<string>)
    requires |p| == 4
    ensures a + p[0] + "," + p[1] + "," + p[2] + "," + p[3] == a + (p[0] + "," + p[1] + "," + p[2] + "," + p[3])
  {
  }

  lemma JoinFour(p: seq<string>)
    requires |p| == 4
    ensures Join(p, ",") == p[0] + "," + p[1] + "," + p[2] + "," + p[3]
  {
    assert p[1..][1..] == p[2..] && p[2..][1..] == p[3..] && p[3..] == [p[3]];
    assert Join(p[2..], ",") == p[2] + "," + p[3];
    assert Join(p[1..], ",") == p[1] + "," + (p[2] + "," + p[3]);
  }
}
