/** The NR frequency lock as text: what the user enters, what the modem is sent, and what it reports. */
module FreqText {
  import opened Common
  import opened FreqLock
  import opened Text
  import Decimal

  const MAX_ENTRIES: nat := 32
  const MAX_ARFCN: nat := 3279165
  const KEY: string := "nr5g_earfcn_lock"

  function Pair(e: Entry): string {
    Decimal.Print(e.arfcn) + ":" + Decimal.Print(e.scs)
  }

  function Pairs(entries: seq<Entry>): (r: seq<string>)
    ensures |r| == |entries| && forall i :: 0 <= i < |r| ==> r[i] == Pair(entries[i])
  {
    seq(|entries|, i requires 0 <= i < |entries| => Pair(entries[i]))
  }

  /** The entries as the events show them. */
  function Shown(entries: seq<Entry>): string {
    Join(Pairs(entries), ", ")
  }

  function QuotedKey(): string {
    "\"" + KEY + "\""
  }

  /** The arguments of the lock command, which the module's report repeats. */
  function Arguments(entries: seq<Entry>): string {
    QuotedKey() + "," + Decimal.Print(|entries|) + "," + Join(Pairs(entries), ":")
  }

  function Command(entries: seq<Entry>): string {
    "AT+QNWCFG=" + Arguments(entries)
  }

  // ----- Reading the module's report

  function Unquote(s: string): string {
    if s == [] then s
    else if s[0] == '"' then Unquote(s[1..])
    else if s[|s| - 1] == '"' then Unquote(s[..|s| - 1])
    else s
  }

  /** The comma-separated fields of a line. */
  function Fields(raw: string): (r: seq<string>)
    ensures r != []
  {
    var parts := Split(Trim(raw), ',');
    seq(|parts|, i requires 0 <= i < |parts| => Unquote(Trim(parts[i])))
  }

  /** The fields of the first line that reports this lock. */
  function FindLock(lines: seq<string>): Option<seq<string>> {
    if lines == [] then None
    else
      var line := Trim(lines[0]);
      var prefix := "+QNWCFG:";
      if prefix <= line && Fields(line[|prefix|..])[0] == KEY then Some(Fields(line[|prefix|..]))
      else FindLock(lines[1..])
  }

  function Chunk(values: seq<nat>): seq<Entry> {
    if |values| < 2 then [] else [Entry(values[0], values[1])] + Chunk(values[2..])
  }

  /** The lock a report tells of: none without such a line or with the wrong number of values. */
  function Reported(lines: seq<string>): Option<seq<Entry>> {
    var p :- FindLock(lines);
    if |p| < 2 then None
    else
      var count :- ParseU32(p[1]);
      var values := if |p| > 2 then ParseSome(Split(p[2], ':')) else [];
      if |values| != count * 2 then (if count == 0 then Some([]) else None)
      else Some(Chunk(values))
  }

  // ----- Reading what the user entered

  function SplitOnce(s: string, sep: char): Option<(string, string)> {
    if s == [] then None
    else if s[0] == sep then Some(([], s[1..]))
    else
      var rest :- SplitOnce(s[1..], sep);
      Some(([s[0]] + rest.0, rest.1))
  }

  function ParsePair(item: string): Option<Entry> {
    var pair :- SplitOnce(item, ':');
    var arfcn :- ParseU32(Trim(pair.0));
    var scs :- ParseU32(Trim(pair.1));
    if arfcn > MAX_ARFCN then None else Some(Entry(arfcn, scs))
  }

  predicate Listed(entries: seq<Entry>, arfcn: nat) {
    exists i :: 0 <= i < |entries| && entries[i].arfcn == arfcn
  }

  /** The items in turn; empty ones are skipped, one that is wrong or listed already ends the list. */
  function ParseItems(items: seq<string>, entries: seq<Entry>): Option<seq<Entry>> {
    if items == [] then Some(entries)
    else if Trim(items[0]) == [] then ParseItems(items[1..], entries)
    else
      var e :- ParsePair(Trim(items[0]));
      if Listed(entries, e.arfcn) then None else ParseItems(items[1..], entries + [e])
  }

  function ParseList(list: string): Option<seq<Entry>> {
    var entries :- ParseItems(Split(list, ','), []);
    if entries == [] || |entries| > MAX_ENTRIES then None else Some(entries)
  }

  method ReadList(list: string) returns (r: Option<seq<Entry>>)
    ensures r == ParseList(list)
  {
    hide ParsePair, Trim, Split, Listed;
    var items := Split(list, ',');
    var entries := [];
    assert items[0..] == items;
    for i := 0 to |items|
      invariant ParseItems(items[i..], entries) == ParseItems(items, [])
    {
      assert items[i..][0] == items[i] && items[i..][1..] == items[i + 1..];
      var item := Trim(items[i]);
      if item != [] {
        var e := ParsePair(item);
        if e.None? || Listed(entries, e.value.arfcn) {
          return None;
        }
        entries := entries + [e.value];
      }
    }
    r := if entries == [] || |entries| > MAX_ENTRIES then None else Some(entries);
  }

  /** What a list may be: no frequency twice, and every number within its range. */
  predicate Sane(entries: seq<Entry>) {
    && (forall i :: 0 <= i < |entries| ==> entries[i].arfcn <= MAX_ARFCN && entries[i].scs < U32)
    && (forall i, j :: 0 <= i < j < |entries| ==> entries[i].arfcn != entries[j].arfcn)
  }

  lemma {:induction false} ParsedIsSane(items: seq<string>, entries: seq<Entry>)
    requires Sane(entries)
    ensures ParseItems(items, entries).Some? ==> Sane(ParseItems(items, entries).value)
    decreases |items|
  {
    hide Trim;
    if items != [] {
      if Trim(items[0]) == [] {
        ParsedIsSane(items[1..], entries);
      } else if ParsePair(Trim(items[0])).Some? && !Listed(entries, ParsePair(Trim(items[0])).value.arfcn) {
        PairInRange(Trim(items[0]));
        ParsedIsSane(items[1..], entries + [ParsePair(Trim(items[0])).value]);
      }
    }
  }

  lemma PairInRange(item: string)
    ensures ParsePair(item).Some? ==> ParsePair(item).value.arfcn <= MAX_ARFCN && ParsePair(item).value.scs < U32
  {
  }

  /** A list that is accepted has 1 to 32 entries, all within range and no frequency twice, however it was spelled. */
  lemma AcceptedListIsSane(list: string)
    ensures ParseList(list).Some? ==> Enterable(ParseList(list).value)
  {
    ParsedIsSane(Split(list, ','), []);
  }

  // ----- Round trips

  /** Text without whitespace, quotes and commas. */
  predicate Bare(s: string) {
    forall c :: c in s ==> c != ',' && c != '"' && !IsSpace(c)
  }

  lemma BareStays(s: string)
    requires Bare(s)
    ensures Trim(s) == s && Unquote(s) == s && Split(s, ',') == [s]
  {
    SplitPiece(s, ',', []);
    assert s != [] ==> s[0] in s && s[|s| - 1] in s;
  }

  lemma PairIsBare(e: Entry)
    ensures Bare(Pair(e)) && Pair(e) != []
  {
  }

  lemma {:induction false} JoinIsBare(parts: seq<string>)
    requires forall i :: 0 <= i < |parts| ==> Bare(parts[i])
    ensures Bare(Join(parts, ":"))
  {
    if |parts| > 1 {
      JoinIsBare(parts[1..]);
    }
  }

  function Flat(entries: seq<Entry>): seq<nat> {
    if entries == [] then [] else [entries[0].arfcn, entries[0].scs] + Flat(entries[1..])
  }

  /** Pairs joined by colons read as one list of numbers. */
  lemma {:induction false} PairsJoinFlat(entries: seq<Entry>)
    ensures Join(Pairs(entries), ":") == Join(PrintAll(Flat(entries)), ":")
  {
    hide Decimal.Print;
    if entries == [] {
      assert Pairs(entries) == [] && PrintAll(Flat(entries)) == [];
    } else {
      var a, s := Decimal.Print(entries[0].arfcn), Decimal.Print(entries[0].scs);
      var rest := PrintAll(Flat(entries[1..]));
      PairsJoinFlat(entries[1..]);
      assert Pairs(entries)[1..] == Pairs(entries[1..]);
      assert PrintAll(Flat(entries)) == [a] + ([s] + rest);
      assert ([a] + ([s] + rest))[1..] == [s] + rest && ([s] + rest)[1..] == rest;
      assert |Pairs(entries[1..])| == 0 <==> |rest| == 0;
    }
  }

  lemma {:induction false} FlatIsU32(entries: seq<Entry>)
    requires forall i :: 0 <= i < |entries| ==> entries[i].arfcn < U32 && entries[i].scs < U32
    ensures AllU32(Flat(entries)) && |Flat(entries)| == 2 * |entries| && Chunk(Flat(entries)) == entries
  {
    if entries != [] {
      FlatIsU32(entries[1..]);
      assert Flat(entries)[2..] == Flat(entries[1..]);
    }
  }

  lemma ArgumentFields(entries: seq<Entry>)
    ensures Fields(" " + Arguments(entries)) == [KEY, Decimal.Print(|entries|), Join(Pairs(entries), ":")]
  {
    var n, list := Decimal.Print(|entries|), Join(Pairs(entries), ":");
    forall i | 0 <= i < |entries|
      ensures Bare(Pairs(entries)[i])
    {
      PairIsBare(entries[i]);
    }
    JoinIsBare(Pairs(entries));
    NumberIsBare(|entries|);
    KeyIsQuoted();
    ThreeFields(QuotedKey(), n, list);
  }

  /** Three fields, the first of them in quotes. */
  lemma ThreeFields(key: string, n: string, list: string)
    requires key != [] && key[0] == '"' && ',' !in key && Bare(n) && Bare(list)
    ensures Fields(" " + (key + "," + n + "," + list)) == [Unquote(Trim(key)), n, list]
  {
    BareStays(n);
    BareStays(list);
    TrimArguments(key, n, list);
    NoCommaInBare(n);
    hide Trim, Unquote, Bare, Split;
    ThreePieces(key, n, list);
  }

  lemma NoCommaInBare(s: string)
    requires Bare(s)
    ensures ',' !in s
  {
  }

  lemma ThreePieces(a: string, b: string, c: string)
    requires ',' !in a && ',' !in b && Split(c, ',') == [c]
    ensures Split(a + "," + b + "," + c, ',') == [a, b, c]
  {
    SplitPiece(b, ',', c);
    SplitPiece(a, ',', b + "," + c);
    hide Split;
    assert a + "," + b + "," + c == a + [','] + (b + [','] + c);
    assert b + "," + c == b + [','] + c;
    assert [a] + ([b] + [c]) == [a, b, c];
  }

  lemma KeyIsQuoted()
    ensures var key := QuotedKey(); key != [] && key[0] == '"' && ',' !in key && Unquote(Trim(key)) == KEY
  {
    KeyIsBare();
    QuotedIsUnquoted(KEY);
    NoCommaInBare(KEY);
    hide Unquote, Trim, Bare, KEY;
  }

  lemma KeyIsBare()
    ensures Bare(KEY)
  {
  }

  lemma NumberIsBare(n: nat)
    ensures Bare(Decimal.Print(n)) && Decimal.Print(n) != []
  {
  }

  lemma QuotedIsUnquoted(word: string)
    requires Bare(word)
    ensures Unquote(Trim("\"" + word + "\"")) == word
  {
    var quoted := "\"" + word + "\"";
    BareStays(word);
    assert quoted[0] == '"' && quoted[|quoted| - 1] == '"' && quoted[1..] == word + "\"";
    assert Trim(quoted) == quoted;
    HalfQuoted(word);
    hide Trim, Bare;
  }

  lemma HalfQuoted(word: string)
    requires Bare(word) && Unquote(word) == word
    ensures Unquote(word + "\"") == word
  {
    var half := word + "\"";
    assert half[..|half| - 1] == word;
    if word == [] {
      assert half[1..] == [];
    } else {
      assert word[0] in word && half[0] == word[0];
    }
  }

  lemma TrimArguments(key: string, n: string, list: string)
    requires key != [] && key[0] == '"' && Bare(n) && Bare(list)
    ensures Trim(" " + (key + "," + n + "," + list)) == key + "," + n + "," + list
  {
    var s := key + "," + n + "," + list;
    assert (" " + s)[1..] == s && s[0] == '"';
    assert list != [] ==> s[|s| - 1] == list[|list| - 1] && list[|list| - 1] in list;
    assert list == [] ==> s[|s| - 1] == ',';
  }

  /** The line in which the module reports a lock. */
  function Line(entries: seq<Entry>): string {
    "+QNWCFG:" + (" " + Arguments(entries))
  }

  /** No line before tells of this lock. */
  lemma {:induction false} LinesBefore(before: seq<string>, rest: seq<string>)
    requires FindLock(before).None?
    ensures FindLock(before + rest) == FindLock(rest)
  {
    hide Fields, Trim;
    if before == [] {
      assert before + rest == rest;
    } else {
      assert (before + rest)[0] == before[0] && (before + rest)[1..] == before[1..] + rest;
      LinesBefore(before[1..], rest);
    }
  }

  lemma LineIsFound(entries: seq<Entry>, after: seq<string>)
    ensures FindLock([Line(entries)] + after) == Some([KEY, Decimal.Print(|entries|), Join(Pairs(entries), ":")])
  {
    ArgumentFields(entries);
    LineStays(entries);
    hide Trim, Fields, Arguments, Decimal.Print, Join, Pairs;
    var prefix := "+QNWCFG:";
    var line := prefix + (" " + Arguments(entries));
    assert line[|prefix|..] == " " + Arguments(entries);
    assert ([Line(entries)] + after)[0] == Line(entries);
  }

  lemma LineStays(entries: seq<Entry>)
    ensures Trim(Line(entries)) == Line(entries)
  {
    hide Decimal.Print, Pairs;
    var list := Join(Pairs(entries), ":");
    forall i | 0 <= i < |entries|
      ensures Bare(Pairs(entries)[i])
    {
      PairIsBare(entries[i]);
    }
    JoinIsBare(Pairs(entries));
    var line := Line(entries);
    assert line[0] == '+';
    assert list == [] ==> line[|line| - 1] == ',';
    assert list != [] ==> line[|line| - 1] == list[|list| - 1] && list[|list| - 1] in list;
  }

  /**
   What the module reports for a lock command is read as exactly the entries that were sent, whatever other
   lines come with it.
   */
  lemma ReportIsRead(entries: seq<Entry>, before: seq<string>, after: seq<string>)
    requires FindLock(before).None? && |entries| < U32
    requires forall i :: 0 <= i < |entries| ==> entries[i].arfcn < U32 && entries[i].scs < U32
    ensures Reported(before + ([Line(entries)] + after)) == Some(entries)
  {
    LinesBefore(before, [Line(entries)] + after);
    LineIsFound(entries, after);
    FlatIsU32(entries);
    PairsJoinFlat(entries);
    ReadBack(|entries|);
    hide FindLock, Line, Pairs;
    if entries == [] {
      assert Join(PrintAll([]), ":") == [];
    } else {
      PrintedListIsRead(Flat(entries), ':');
      ParsePrintedAll(Flat(entries));
    }
  }

  lemma {:induction false} SplitOnceAt(first: string, sep: char, rest: string)
    requires sep !in first
    ensures SplitOnce(first + [sep] + rest, sep) == Some((first, rest))
  {
    if first == [] {
      assert first + [sep] + rest == [sep] + rest;
    } else {
      assert first[0] in first;
      assert (first + [sep] + rest)[1..] == first[1..] + [sep] + rest;
      SplitOnceAt(first[1..], sep, rest);
      assert [first[0]] + first[1..] == first;
    }
  }

  lemma PairIsRead(e: Entry)
    requires e.arfcn < U32 && e.scs < U32
    ensures ParsePair(Pair(e)) == if e.arfcn <= 3279165 then Some(e) else None
    ensures Trim(Pair(e)) == Pair(e) && Trim(" " + Pair(e)) == Pair(e)
  {
    PairIsBare(e);
    BareStays(Pair(e));
    ReadBack(e.arfcn);
    ReadBack(e.scs);
    PrintIsDigits(e.arfcn);
    assert ':' !in Decimal.Print(e.arfcn);
    SplitOnceAt(Decimal.Print(e.arfcn), ':', Decimal.Print(e.scs));
    assert (" " + Pair(e))[1..] == Pair(e);
  }

  /** The pieces of a shown list: after the first, each begins with the space of the separator. */
  function Spaced(parts: seq<string>): seq<string> {
    if |parts| < 2 then parts else [parts[0]] + SpacedRest(parts[1..])
  }

  function SpacedRest(parts: seq<string>): (r: seq<string>)
    ensures |r| == |parts| && forall i :: 0 <= i < |r| ==> r[i] == " " + parts[i]
  {
    seq(|parts|, i requires 0 <= i < |parts| => " " + parts[i])
  }

  lemma {:induction false} SplitShown(parts: seq<string>)
    requires parts != [] && forall i :: 0 <= i < |parts| ==> ',' !in parts[i]
    ensures Split(Join(parts, ", "), ',') == Spaced(parts)
    decreases |parts|
  {
    hide Split;
    if |parts| == 1 {
      SplitPiece(parts[0], ',', []);
      assert [parts[0]] == parts;
    } else {
      var rest := [" " + parts[1]] + parts[2..];
      SplitShown(rest);
      assert Join(rest, ", ") == " " + Join(parts[1..], ", ") by {
        SpaceFirst(parts[1..]);
      }
      SplitPiece(parts[0], ',', Join(rest, ", "));
      assert Join(parts, ", ") == parts[0] + [','] + Join(rest, ", ");
      assert Spaced(rest) == SpacedRest(parts[1..]);
    }
  }

  lemma SpaceFirst(parts: seq<string>)
    requires parts != []
    ensures Join([" " + parts[0]] + parts[1..], ", ") == " " + Join(parts, ", ")
  {
    var spaced := [" " + parts[0]] + parts[1..];
    assert spaced[1..] == parts[1..];
    if |parts| > 1 {
      ConcatAssociates(" ", parts[0], ", ");
      ConcatAssociates(" ", parts[0] + ", ", Join(parts[1..], ", "));
    }
  }

  /** Items that read as these entries, one after the other, up to one that is wrong or listed already. */
  lemma {:induction false} ItemsAreRead(items: seq<string>, entries: seq<Entry>, sofar: seq<Entry>)
    requires |items| == |entries| && Sane(sofar)
    requires forall i :: 0 <= i < |items| ==> Trim(items[i]) == Pair(entries[i])
    requires forall i :: 0 <= i < |entries| ==> entries[i].arfcn < U32 && entries[i].scs < U32
    ensures ParseItems(items, sofar) == if Sane(sofar + entries) then Some(sofar + entries) else None
  {
    hide Trim, ParsePair, Pair;
    if items == [] {
      assert sofar + entries == sofar;
    } else {
      var e := entries[0];
      assert (sofar + entries)[|sofar|] == e;
      PairIsBare(e);
      PairIsRead(e);
      assert forall i :: 0 <= i < |sofar| ==> sofar[i] == (sofar + entries)[i];
      if e.arfcn <= 3279165 && !Listed(sofar, e.arfcn) {
        assert sofar + [e] + entries[1..] == sofar + entries;
        ItemsAreRead(items[1..], entries[1..], sofar + [e]);
      }
    }
  }

  /** What a list that is entered must be: 1 to 32 frequencies that NR has, none of them twice. */
  predicate Enterable(entries: seq<Entry>) {
    && 1 <= |entries| <= 32
    && (forall e :: e in entries ==> e.arfcn <= 3279165)
    && (forall i, j :: 0 <= i < j < |entries| ==> entries[i].arfcn != entries[j].arfcn)
  }

  lemma EnterableIsSane(entries: seq<Entry>)
    requires forall i :: 0 <= i < |entries| ==> entries[i].arfcn < U32 && entries[i].scs < U32
    ensures Enterable(entries) <==> Sane(entries) && 1 <= |entries| <= MAX_ENTRIES
  {
    assert forall i :: 0 <= i < |entries| ==> entries[i] in entries;
  }

  /** A list of any 32-bit numbers, as lists are shown, is taken when it is entered if and only if it may be. */
  lemma ShownListIsRead(entries: seq<Entry>)
    requires forall i :: 0 <= i < |entries| ==> entries[i].arfcn < U32 && entries[i].scs < U32
    ensures ParseList(Shown(entries)) == if Enterable(entries) then Some(entries) else None
  {
    EnterableIsSane(entries);
    if entries == [] {
      NothingIsEntered();
      assert Pairs(entries) == [];
    } else {
      var parts := Pairs(entries);
      PairsAreRead(entries);
      SplitShown(parts);
      hide Pairs, Spaced, Trim, Split, Join, Pair, Enterable;
      assert [] + entries == entries;
      ItemsAreRead(Spaced(parts), entries, []);
    }
  }

  lemma NothingIsEntered()
    ensures ParseList("") == None
  {
    assert Split("", ',') == [""] && [""][1..] == [];
    assert ParseItems([""], []) == ParseItems([], []);
  }

  /** The command names the lock, the number of its entries, and their frequencies and spacings in order. */
  lemma CommandIsSpelled(entries: seq<Entry>)
    ensures Command(entries) == "AT+QNWCFG=\"nr5g_earfcn_lock\"," + Decimal.Print(|entries|) + ","
      + Join(PrintAll(Flat(entries)), ":")
  {
    PairsJoinFlat(entries);
    var n, list := Decimal.Print(|entries|), Join(Pairs(entries), ":");
    HeadIsSpelled();
    hide Decimal.Print, Join, Pairs, PrintAll, Flat, QuotedKey;
    Regrouped("AT+QNWCFG=", QuotedKey(), n, list);
  }

  lemma HeadIsSpelled()
    ensures "AT+QNWCFG=" + QuotedKey() + "," == "AT+QNWCFG=\"nr5g_earfcn_lock\","
  {
  }

  lemma Regrouped(a: string, key: string, n: string, list: string)
    ensures a + (key + "," + n + "," + list) == (a + key + ",") + n + "," + list
  {
  }

  lemma PairsAreRead(entries: seq<Entry>)
    requires forall i :: 0 <= i < |entries| ==> entries[i].arfcn < U32 && entries[i].scs < U32
    ensures var parts := Pairs(entries);
      && |Spaced(parts)| == |entries|
      && forall i :: 0 <= i < |parts| ==> ',' !in parts[i] && Trim(Spaced(parts)[i]) == Pair(entries[i])
  {
    hide Trim, Pair;
    var parts := Pairs(entries);
    forall i | 0 <= i < |parts|
      ensures ',' !in parts[i] && Trim(Spaced(parts)[i]) == Pair(entries[i])
    {
      PairIsBare(entries[i]);
      PairIsRead(entries[i]);
      assert Spaced(parts)[i] == if i == 0 then parts[i] else " " + parts[i];
    }
  }

  /** A report whose list does not have as many values as its count says tells of no lock, or cannot be read. */
  lemma MismatchedReportIsRefused(lines: seq<string>, fields: seq<string>, count: nat)
    requires FindLock(lines) == Some(fields) && |fields| > 2 && ParseU32(fields[1]) == Some(count)
    requires |ParseSome(Split(fields[2], ':'))| != 2 * count
    ensures Reported(lines) == if count == 0 then Some([]) else None
  {
    hide FindLock, ParseSome, Split, ParseU32;
  }

  /** So does a report without a list, or without a count that is a number. */
  lemma ShortReportIsRefused(lines: seq<string>, fields: seq<string>)
    requires FindLock(lines) == Some(fields) && |fields| <= 2
    ensures Reported(lines) ==
      if |fields| == 2 && ParseU32(fields[1]) == Some(0) then Some([]) else None
  {
    hide FindLock, ParseU32;
  }
}
