/** Which cell locks are taken, and the command that each becomes. */
module CellCommands {
  import opened Common
  import opened Text
  import opened CellRules
  import Decimal

  /** A frequency and a physical cell id. */
  type Cell = (nat, nat)

  function Typed(cells: seq<Cell>): (r: seq<(string, string)>)
    ensures |r| == |cells|
  {
    seq(|cells|, i requires 0 <= i < |cells| => (Decimal.Print(cells[i].0), Decimal.Print(cells[i].1)))
  }

  function Numbers(cells: seq<Cell>): seq<nat> {
    if cells == [] then [] else [cells[0].0, cells[0].1] + Numbers(cells[1..])
  }

  /** The channel and the cell id are ones that LTE has. */
  predicate IsLteCell(c: Cell) {
    c.0 < 0x40000 && c.1 < 504
  }

  predicate Are32Bit(cells: seq<Cell>) {
    forall c :: c in cells ==> c.0 < U32 && c.1 < U32
  }

  /** A number that is typed in is taken if and only if it is within its range. */
  lemma TypedNumber(n: nat, min: nat, max: nat)
    requires n < U32
    ensures Number(Decimal.Print(n), min, max) == if min <= n <= max then Some(n) else None
  {
    ReadBack(n);
    hide Trim, ParseU32;
  }

  lemma {:induction false} TypedCells(cells: seq<Cell>)
    requires Are32Bit(cells)
    ensures Cells(Typed(cells)) == if forall c :: c in cells ==> IsLteCell(c) then Some(Numbers(cells)) else None
  {
    hide Number;
    if cells != [] {
      assert cells[0] in cells && forall c :: c in cells[1..] ==> c in cells;
      TypedNumber(cells[0].0, 0, 262143);
      TypedNumber(cells[0].1, 0, 503);
      TypedCells(cells[1..]);
      assert Typed(cells)[1..] == Typed(cells[1..]);
      assert forall c :: c in cells <==> c == cells[0] || c in cells[1..];
    }
  }

  /** One to ten LTE cells are locked to, each within its range, by their number and the cells in order. */
  lemma LteLockExactly(cells: seq<Cell>)
    requires Are32Bit(cells)
    ensures LteLock(Typed(cells)) ==
      if 0 < |cells| < 11 && (forall c :: c in cells ==> IsLteCell(c)) then
        Some("AT+QNWLOCK=\"common/4g\"," + Join(PrintAll([|cells|] + Numbers(cells)), ","))
      else None
  {
    hide Join, Cells, Number, IsLteCell, PrintAll;
    TypedCells(cells);
    CountFirst(|cells|, Numbers(cells));
  }

  /** The FR1 bands with a single spacing, by Table 5.4.3.3-1 of 3GPP TS 38.101-1; others allow both. */
  const ONLY_15_KHZ: set<nat> :=
    {1, 2, 3, 7, 8} + {12, 13, 14, 18, 20} + {25, 26, 28, 29, 30} + {51, 65, 70, 71} + {74, 75, 76} + {91, 92, 93, 94}

  const ONLY_30_KHZ: set<nat> := {24, 46, 48, 50} + {77, 78, 79, 96}

  /** The spacing is one that the band can have: FR2 bands begin at 257. */
  predicate IsSpacing(band: nat, khz: nat) {
    if band > 256 then khz == 60 || khz == 120
    else (khz == 15 && band !in ONLY_30_KHZ) || (khz == 30 && band !in ONLY_15_KHZ)
  }

  lemma HasFifteen(band: nat)
    ensures BandScs(band).Some? ==> (15 in BandScs(band).value <==> band !in ONLY_30_KHZ)
    ensures BandScs(band).None? ==> band !in ONLY_30_KHZ
  {
    hide ONLY_15_KHZ;
  }

  lemma HasThirty(band: nat)
    ensures BandScs(band).Some? ==> (30 in BandScs(band).value <==> band !in ONLY_15_KHZ)
    ensures BandScs(band).None? ==> band !in ONLY_15_KHZ
  {
    hide ONLY_30_KHZ;
  }

  lemma HasNoOther(band: nat, khz: nat)
    requires BandScs(band).Some? && khz in BandScs(band).value
    ensures khz == 15 || khz == 30
  {
  }

  lemma SpacingExactly(band: nat, khz: nat)
    ensures ScsValid(band, khz) <==> IsSpacing(band, khz)
  {
    HasFifteen(band);
    HasThirty(band);
    if BandScs(band).Some? && khz in BandScs(band).value {
      HasNoOther(band, khz);
    }
    hide BandScs, ONLY_15_KHZ, ONLY_30_KHZ;
  }

  /** An NR cell is locked to if its numbers are in their ranges and the spacing is one of its band. */
  lemma NrLockExactly(pci: nat, earfcn: nat, khz: nat, band: nat)
    requires pci < U32 && earfcn < U32 && khz < U32 && band < U32
    ensures NrLock(Decimal.Print(pci), Decimal.Print(earfcn), Decimal.Print(khz), Decimal.Print(band)) ==
      if pci < 1008 && earfcn <= 3279165 && 0 < band <= 1024 && IsSpacing(band, khz) then
        Some("AT+QNWLOCK=\"common/5g\"," + Decimal.Print(pci) + "," + Decimal.Print(earfcn) + "," + Decimal.Print(khz)
             + "," + Decimal.Print(band))
      else None
  {
    hide Number, ScsValid;
    TypedNumber(pci, 0, 1007);
    TypedNumber(earfcn, 0, 3279165);
    TypedNumber(khz, 15, 120);
    TypedNumber(band, 1, 1024);
    SpacingExactly(band, khz);
    SpacingInRange(band, khz);
    hide IsSpacing;
  }

  lemma SpacingInRange(band: nat, khz: nat)
    ensures IsSpacing(band, khz) ==> 15 <= khz <= 120
  {
  }

  /** The numbers of usable LTE locks are a count and that many cells. */
  lemma SavedLteExactly(v: seq<nat>)
    ensures ValuesValid(0, v) <==> exists cells :: IsLteLock(cells, v)
  {
    if ValuesValid(0, v) {
      var cells := Paired(v[1..]);
      assert IsLteLock(cells, v);
    }
    forall cells | IsLteLock(cells, v)
      ensures ValuesValid(0, v)
    {
      NumbersOfCells(cells);
      assert forall i :: 1 <= i < |v| ==> v[i] == Numbers(cells)[i - 1];
    }
  }

  predicate IsLteLock(cells: seq<Cell>, v: seq<nat>) {
    0 < |cells| < 11 && v == [|cells|] + Numbers(cells) && forall c :: c in cells ==> IsLteCell(c)
  }

  /** Those of usable NR locks are a cell id, a channel, a spacing and a band that has it. */
  lemma SavedNrExactly(v: seq<nat>)
    ensures ValuesValid(1, v) <==>
      (|v| == 4 && v[0] < 1008 && v[1] <= 3279165 && 0 < v[3] <= 1024 && IsSpacing(v[3], v[2]))
  {
    if |v| == 4 {
      SpacingExactly(v[3], v[2]);
    }
    hide ScsValid, IsSpacing;
  }

  /** A saved lock is sent again if and only if its numbers are usable, by the command spelled out. */
  lemma RebuiltExactly(radio: nat, v: seq<nat>)
    ensures Rebuild(radio, v) ==
      if ValuesValid(radio, v) then
        Some("AT+QNWLOCK=\"common/" + (if radio == 0 then "4g" else "5g") + "\"," + Join(PrintAll(v), ","))
      else None
  {
    PrefixIs(radio);
    hide Prefix, Join, PrintAll, ValuesValid;
  }

  lemma {:induction false} NumbersOfCells(cells: seq<Cell>)
    requires forall c :: c in cells ==> IsLteCell(c)
    ensures var n := Numbers(cells);
      |n| == 2 * |cells| && forall i :: 0 <= i < |n| ==> n[i] <= if i % 2 == 0 then 262143 else 503
  {
    if cells != [] {
      assert cells[0] in cells && forall c :: c in cells[1..] ==> c in cells;
      NumbersOfCells(cells[1..]);
      var n := Numbers(cells);
      assert forall i :: 2 <= i < |n| ==> n[i] == Numbers(cells[1..])[i - 2];
    }
  }

  lemma {:induction false} Paired(n: seq<nat>) returns (cells: seq<Cell>)
    requires |n| % 2 == 0 && forall i :: 0 <= i < |n| ==> n[i] <= if i % 2 == 0 then 262143 else 503
    ensures Numbers(cells) == n && 2 * |cells| == |n| && forall c :: c in cells ==> IsLteCell(c)
  {
    if n == [] {
      cells := [];
    } else {
      var rest := Paired(n[2..]);
      cells := [(n[0], n[1])] + rest;
      assert cells[1..] == rest;
    }
  }

  lemma PrefixIs(radio: nat)
    ensures Prefix(radio) == "AT+QNWLOCK=\"common/" + (if radio == 0 then "4g" else "5g") + "\","
  {
  }
}
