/** The lines of a modem's replies, and which of them end a reply. */
module AtLines {
  import opened Common
  import opened AtPort
  import Text

  // ----- Trimming

  predicate IsBlank(s: string) {
    forall c :: c in s ==> Text.IsSpace(c)
  }

  /** No white space at either end. */
  predicate IsTight(s: string) {
    s != [] ==> !Text.IsSpace(s[0]) && !Text.IsSpace(s[|s| - 1])
  }

  lemma {:induction false} TrimStartIs(before: string, s: string)
    requires IsBlank(before) && (s != [] ==> !Text.IsSpace(s[0]))
    ensures TrimStart(before + s) == s
  {
    if before == [] {
      assert before + s == s;
    } else {
      assert (before + s)[0] == before[0] && (before + s)[1..] == before[1..] + s;
      assert before[0] in before;
      TrimStartIs(before[1..], s);
    }
  }

  lemma {:induction false} TrimEndIs(s: string, after: string)
    requires IsBlank(after) && (s != [] ==> !Text.IsSpace(s[|s| - 1]))
    ensures TrimEnd(s + after) == s
    decreases |after|
  {
    if after == [] {
      assert s + after == s;
    } else {
      var n := |after| - 1;
      assert (s + after)[|s + after| - 1] == after[n] && (s + after)[..|s + after| - 1] == s + after[..n];
      assert after[n] in after;
      TrimEndIs(s, after[..n]);
    }
  }

  /** Trimming takes the white space at the ends away, and no more. */
  lemma TrimmedIs(before: string, s: string, after: string)
    requires IsBlank(before) && IsTight(s) && IsBlank(after)
    ensures TrimEnd(TrimStart(before + s + after)) == s
  {
    if s == [] {
      assert before + s + after == (before + after) + [];
      TrimStartIs(before + after, []);
      assert (before + after) + [] == before + after;
      TrimEndIs([], []);
    } else {
      assert before + s + after == before + (s + after);
      TrimStartIs(before, s + after);
      TrimEndIs(s, after);
    }
  }

  /** A line ends a reply if and only if, without white space around it, it is one of four kinds. */
  lemma FinalLineExactly(before: string, s: string, after: string)
    requires IsBlank(before) && IsTight(s) && IsBlank(after)
    ensures FinalLine(before + s + after) <==>
      || s == "OK" || s == "ERROR"
      || (|s| >= 11 && s[..11] == "+CME ERROR:") || (|s| >= 11 && s[..11] == "+CMS ERROR:")
  {
    TrimmedIs(before, s, after);
    hide TrimEnd, TrimStart;
  }

  /** The modem prompts if and only if the last character that is not white space is the prompt. */
  lemma PromptExactly(s: string, after: string)
    requires IsBlank(after) && (s != [] ==> !Text.IsSpace(s[|s| - 1]))
    ensures Prompted(s + after) <==> s != [] && s[|s| - 1] == '>'
  {
    TrimEndIs(s, after);
    hide TrimEnd;
  }

  // ----- Lines

  /** Each line with a line break behind it. */
  function Spelled(lines: seq<string>, lineBreak: string): string {
    if lines == [] then [] else lines[0] + lineBreak + Spelled(lines[1..], lineBreak)
  }

  predicate IsLine(s: string) {
    '\n' !in s && (s != [] ==> s[|s| - 1] != '\r')
  }

  lemma FirstBreakIs(s: string, k: nat)
    requires k < |s| && s[k] == '\n' && forall i :: 0 <= i < k ==> s[i] != '\n'
    ensures FirstBreak(s) == k
  {
    hide FirstBreak;
  }

  lemma OneLineEnds(line: string, lineBreak: string)
    requires IsLine(line) && (lineBreak == "\n" || lineBreak == "\r\n")
    ensures Lines(line + lineBreak) == [line]
  {
    var s := line + lineBreak;
    var k := |s| - 1;
    assert forall i :: 0 <= i < |line| ==> s[i] == line[i] && line[i] in line;
    FirstBreakIs(s, k);
    assert s[k + 1..] == [];
    BreakIsCut(line, lineBreak);
    hide FirstBreak, StripReturn, IsLine;
    assert Lines(s) == [StripReturn(s[..k])] + Lines([]);
  }

  lemma BreakIsCut(line: string, lineBreak: string)
    requires IsLine(line) && (lineBreak == "\n" || lineBreak == "\r\n")
    ensures StripReturn((line + lineBreak)[..|line + lineBreak| - 1]) == line
  {
    var s := line + lineBreak;
    if lineBreak == "\n" {
      assert s[..|s| - 1] == line;
    } else {
      assert s[..|s| - 1] == line + "\r" && (line + "\r")[..|line|] == line;
    }
  }

  /** The lines of a text are those it was made of, with either line break, and what comes after the last. */
  lemma {:induction false} LinesAreRead(lines: seq<string>, lineBreak: string, rest: string)
    requires (forall l :: l in lines ==> IsLine(l)) && (lineBreak == "\n" || lineBreak == "\r\n")
    requires '\n' !in rest
    ensures Lines(Spelled(lines, lineBreak) + rest) == lines + (if rest == [] then [] else [rest])
  {
    hide Lines;
    if lines == [] {
      assert [] + rest == rest;
      RestIsLine(rest);
    } else {
      assert lines[0] in lines;
      OneLineEnds(lines[0], lineBreak);
      LinesAreRead(lines[1..], lineBreak, rest);
      FirstLineIsRead(lines[0], lineBreak, Spelled(lines[1..], lineBreak) + rest);
      assert Spelled(lines, lineBreak) + rest == lines[0] + lineBreak + (Spelled(lines[1..], lineBreak) + rest);
      assert lines == [lines[0]] + lines[1..];
    }
  }

  lemma FirstLineIsRead(line: string, lineBreak: string, others: string)
    requires Lines(line + lineBreak) == [line] && (lineBreak == "\n" || lineBreak == "\r\n")
    ensures Lines(line + lineBreak + others) == [line] + Lines(others)
  {
    var first := line + lineBreak;
    assert first[|first| - 1] == '\n';
    LinesConcat(first, others);
  }

  lemma RestIsLine(rest: string)
    requires '\n' !in rest
    ensures Lines(rest) == if rest == [] then [] else [rest]
  {
    if rest != [] {
      assert forall i :: 0 <= i < |rest| ==> rest[i] in rest;
      assert FirstBreak(rest) == |rest|;
    }
  }

  // ----- Replies

  /** What has arrived with the first `k` pieces. */
  function Arrived(chunks: seq<string>, k: nat): string
    requires k <= |chunks|
  {
    Flatten(chunks[..k])
  }

  /** The first `k` pieces are within the limit of 512 KiB and no final line is among them before the last. */
  predicate Unfinished(final: string -> bool, chunks: seq<string>, k: nat)
    requires k <= |chunks|
  {
    forall j :: 0 < j <= k ==> |Arrived(chunks, j)| <= 512 * 1024 && !Terminal(final, Arrived(chunks, j))
  }

  /** A reply is all pieces up to the first that brings a final line; or it is too large, or does not come. */
  lemma ReplyIsFirstComplete(final: string -> bool, chunks: seq<string>) returns (k: nat)
    ensures k <= |chunks| && Unfinished(final, chunks, k)
    ensures match Reply(final, chunks, [])
      case Ok(out) =>
        k < |chunks| && out == Arrived(chunks, k + 1) && |out| <= 512 * 1024 && Terminal(final, out)
      case Err(TooLarge) => k < |chunks| && |Arrived(chunks, k + 1)| > 512 * 1024
      case Err(TimedOut) => k == |chunks|
  {
    assert Arrived(chunks, 0) == [];
    k := RepliesFrom(final, chunks, 0);
    assert chunks[0..] == chunks;
  }

  lemma ArrivedNext(chunks: seq<string>, k: nat)
    requires k < |chunks|
    ensures Arrived(chunks, k + 1) == Arrived(chunks, k) + chunks[k]
  {
    assert chunks[..k + 1] == chunks[..k] + [chunks[k]];
    FlattenLast(chunks[..k], chunks[k]);
  }

  lemma {:induction false} FlattenLast(parts: seq<string>, last: string)
    ensures Flatten(parts + [last]) == Flatten(parts) + last
  {
    if parts == [] {
      assert parts + [last] == [last];
      assert Flatten([last]) == last + Flatten<char>([]);
    } else {
      assert (parts + [last])[1..] == parts[1..] + [last];
      FlattenLast(parts[1..], last);
    }
  }

  lemma {:induction false} RepliesFrom(final: string -> bool, chunks: seq<string>, i: nat) returns (k: nat)
    requires i <= |chunks| && Unfinished(final, chunks, i)
    ensures k <= |chunks| && Unfinished(final, chunks, k)
    ensures match Reply(final, chunks[i..], Arrived(chunks, i))
      case Ok(out) =>
        k < |chunks| && out == Arrived(chunks, k + 1) && |out| <= 512 * 1024 && Terminal(final, out)
      case Err(TooLarge) => k < |chunks| && |Arrived(chunks, k + 1)| > 512 * 1024
      case Err(TimedOut) => k == |chunks|
    decreases |chunks| - i
  {
    hide Terminal, Arrived;
    if i == |chunks| {
      k := i;
    } else {
      ArrivedNext(chunks, i);
      var next := Arrived(chunks, i + 1);
      assert chunks[i..][0] == chunks[i] && chunks[i..][1..] == chunks[i + 1..];
      if |next| > LIMIT || Terminal(final, next) {
        k := i;
      } else {
        k := RepliesFrom(final, chunks, i + 1);
      }
    }
  }

  // ----- Words

  /** A word is found if and only if the text is something, the word, and something more. */
  lemma ContainsExactly(s: string, word: string)
    ensures Contains(s, word) <==> exists a, b :: s == a + word + b
  {
    if Contains(s, word) {
      var i :| 0 <= i <= |s| && At(s, word, i);
      assert s == s[..i] + word + s[i + |word|..];
    }
    if a, b :| s == a + word + b {
      assert s[|a|..|a| + |word|] == word;
      assert At(s, word, |a|);
    }
  }
}
