/** The AT port: reading a reply that arrives in pieces, and commands that need another SMS storage. */
module AtPort {
  import opened Common
  import Text

  const LIMIT: nat := 512 * 1024

  // ----- Lines

  function FirstBreak(s: string): (k: nat)
    ensures k <= |s| && (k < |s| ==> s[k] == '\n')
    ensures forall i :: 0 <= i < k ==> s[i] != '\n'
  {
    if s == [] || s[0] == '\n' then 0 else 1 + FirstBreak(s[1..])
  }

  /** Without the carriage return of a line break. */
  function StripReturn(s: string): string {
    if s != [] && s[|s| - 1] == '\r' then s[..|s| - 1] else s
  }

  /** The lines of a text; the last one may be unfinished. */
  function Lines(s: string): seq<string>
    decreases |s|
  {
    if s == [] then []
    else
      var k := FirstBreak(s);
      if k == |s| then [s] else [StripReturn(s[..k])] + Lines(s[k + 1..])
  }

  function TrimStart(s: string): string {
    if s != [] && Text.IsSpace(s[0]) then TrimStart(s[1..]) else s
  }

  function TrimEnd(s: string): string {
    if s != [] && Text.IsSpace(s[|s| - 1]) then TrimEnd(s[..|s| - 1]) else s
  }

  /** A line that ends a reply. */
  predicate FinalLine(line: string) {
    var l := TrimEnd(TrimStart(line));
    l == "OK" || l == "ERROR" || "+CME ERROR:" <= l || "+CMS ERROR:" <= l
  }

  /** Some line is final. */
  predicate Terminal(final: string -> bool, s: string) {
    exists i :: 0 <= i < |Lines(s)| && final(Lines(s)[i])
  }

  /** The modem asks for more: the text ends with its prompt. */
  predicate Prompted(s: string) {
    var t := TrimEnd(s);
    t != [] && t[|t| - 1] == '>'
  }

  predicate At(s: string, word: string, i: nat) {
    i + |word| <= |s| && s[i..i + |word|] == word
  }

  predicate Contains(s: string, word: string) {
    exists i :: 0 <= i <= |s| && At(s, word, i)
  }

  const ERROR: string := "ERROR"

  // ----- What a reply is

  datatype Failure = TooLarge | TimedOut

  /** Everything received is looked at again with every piece; time is over when the pieces are. */
  function Reply(final: string -> bool, chunks: seq<string>, out: string): Result<string, Failure> {
    if chunks == [] then Err(TimedOut)
    else if |out| + |chunks[0]| > LIMIT then Err(TooLarge)
    else
      var next := out + chunks[0];
      if Terminal(final, next) then Ok(next) else Reply(final, chunks[1..], next)
  }

  /** The start of the line that is not finished yet. */
  function LineStart(out: string): (k: nat)
    ensures k <= |out| && (k > 0 ==> out[k - 1] == '\n')
    ensures forall i :: k <= i < |out| ==> out[i] != '\n'
  {
    if out == [] || out[|out| - 1] == '\n' then |out| else LineStart(out[..|out| - 1])
  }

  /** Whether a piece ends the reply, judged from the last line start on; an error may have been seen before. */
  predicate Stops(final: string -> bool, tail: string, error: bool, prompt: bool) {
    (Terminal(final, tail) && (!prompt || error)) || (prompt && Prompted(tail))
  }

  /** The scan as it is done: finished lines are not looked at again. */
  function Scan(final: string -> bool, chunks: seq<string>, out: string, error: bool, prompt: bool)
    : Result<string, Failure>
  {
    if chunks == [] then Err(TimedOut)
    else if |out| + |chunks[0]| > LIMIT then Err(TooLarge)
    else
      var next := out + chunks[0];
      var tail := next[LineStart(out)..];
      var failed := error || Contains(tail, ERROR);
      if Stops(final, tail, failed, prompt) then Ok(next) else Scan(final, chunks[1..], next, failed, prompt)
  }

  /** The loop that receives a reply. */
  method Receive(final: string -> bool, chunks: seq<string>, prompt: bool) returns (r: Result<string, Failure>)
    ensures r == Scan(final, chunks, [], false, prompt)
    ensures !prompt ==> r == Reply(final, chunks, [])
  {
    hide Stops, Contains, Terminal, Lines;
    if !prompt {
      NothingYet(final);
      ScanIsRescan(final, chunks, [], false);
    }
    var out, error := [], false;
    assert chunks[0..] == chunks;
    for i := 0 to |chunks|
      invariant Scan(final, chunks[i..], out, error, prompt) == Scan(final, chunks, [], false, prompt)
    {
      assert chunks[i..][0] == chunks[i] && chunks[i..][1..] == chunks[i + 1..];
      if |out| + |chunks[i]| > LIMIT {
        return Err(TooLarge);
      }
      var start := LineStart(out);
      out := out + chunks[i];
      var tail := out[start..];
      error := error || Contains(tail, ERROR);
      if Stops(final, tail, error, prompt) {
        return Ok(out);
      }
    }
    r := Err(TimedOut);
  }

  // ----- The scan finds what looking at everything would

  lemma NothingYet(final: string -> bool)
    ensures !Terminal(final, [])
  {
  }

  /** Text that ends with a line break has its own lines. */
  lemma {:induction false} LinesConcat(a: string, b: string)
    requires a == [] || a[|a| - 1] == '\n'
    ensures Lines(a + b) == Lines(a) + Lines(b)
    decreases |a|
  {
    if a == [] {
      assert a + b == b;
    } else {
      var k := FirstBreak(a);
      assert k < |a|;
      assert (a + b)[k] == a[k] && forall i :: 0 <= i < k ==> (a + b)[i] == a[i];
      assert FirstBreak(a + b) == k;
      assert (a + b)[..k] == a[..k] && (a + b)[k + 1..] == a[k + 1..] + b;
      LinesConcat(a[k + 1..], b);
      ConcatAssociates([StripReturn(a[..k])], Lines(a[k + 1..]), Lines(b));
    }
  }

  lemma TerminalConcat(final: string -> bool, a: string, b: string)
    requires a == [] || a[|a| - 1] == '\n'
    ensures Terminal(final, a + b) <==> Terminal(final, a) || Terminal(final, b)
  {
    LinesConcat(a, b);
    var la, lb, lab := Lines(a), Lines(b), Lines(a + b);
    assert forall i :: 0 <= i < |la| ==> lab[i] == la[i];
    assert forall i :: 0 <= i < |lb| ==> lab[|la| + i] == lb[i];
  }

  /** While no line received so far is final, the tail alone decides. */
  lemma TailDecides(final: string -> bool, out: string, chunk: string)
    ensures var start := LineStart(out);
      && (Terminal(final, out) <==> Terminal(final, out[..start]) || Terminal(final, out[start..]))
      && (Terminal(final, out + chunk) <==> Terminal(final, out[..start]) || Terminal(final, (out + chunk)[start..]))
  {
    hide Terminal;
    var start := LineStart(out);
    TerminalConcat(final, out[..start], out[start..]);
    TerminalConcat(final, out[..start], (out + chunk)[start..]);
    assert out[..start] + out[start..] == out;
    assert out[..start] + (out + chunk)[start..] == out + chunk;
  }

  /**
   For every way the reply is cut into pieces, and whatever makes a line final: scanning from the last line
   start gives the same reply, at the same piece, as looking at everything again each time.
   */
  lemma {:induction false} ScanIsRescan(final: string -> bool, chunks: seq<string>, out: string, error: bool)
    requires !Terminal(final, out)
    ensures Scan(final, chunks, out, error, false) == Reply(final, chunks, out)
    decreases |chunks|
  {
    hide Terminal, Contains;
    if chunks != [] && |out| + |chunks[0]| <= LIMIT {
      TailDecides(final, out, chunks[0]);
      var next := out + chunks[0];
      if !Terminal(final, next) {
        var tail := next[LineStart(out)..];
        ScanIsRescan(final, chunks[1..], next, error || Contains(tail, ERROR));
      }
    }
  }

  // ----- Waiting for a prompt

  /** With everything looked at: an error and a final line, in any order, or the prompt. */
  predicate PromptStops(final: string -> bool, out: string) {
    (Terminal(final, out) && Contains(out, ERROR)) || Prompted(out)
  }

  lemma LetterOfWord(s: string, word: string, i: nat, k: nat)
    requires At(s, word, i) && i <= k < i + |word|
    ensures k < |s| && s[k] in word
  {
    assert s[i..i + |word|][k - i] == s[k];
  }

  lemma WordAvoidsBreak(s: string, word: string, i: nat, k: nat)
    requires At(s, word, i) && '\n' !in word && k < |s| && s[k] == '\n'
    ensures k < i || i + |word| <= k
  {
    hide At;
    if i <= k < i + |word| {
      LetterOfWord(s, word, i, k);
    }
  }

  /** A word without a line break lies within one line. */
  lemma WordInLine(a: string, b: string, word: string)
    requires a == [] || a[|a| - 1] == '\n'
    requires word != [] && '\n' !in word
    ensures Contains(a + b, word) <==> Contains(a, word) || Contains(b, word)
  {
    if Contains(a + b, word) {
      var i :| 0 <= i <= |a + b| && At(a + b, word, i);
      WordOnOneSide(a, b, word, i);
    }
    if Contains(a, word) {
      var i :| 0 <= i <= |a| && At(a, word, i);
      ContinuesAt(a, b, word, i);
    }
    if Contains(b, word) {
      var i :| 0 <= i <= |b| && At(b, word, i);
      assert (a + b)[|a| + i..|a| + i + |word|] == b[i..i + |word|];
      assert At(a + b, word, |a| + i);
    }
  }

  lemma WordOnOneSide(a: string, b: string, word: string, i: nat)
    requires At(a + b, word, i) && (a == [] || a[|a| - 1] == '\n')
    requires word != [] && '\n' !in word
    ensures if i < |a| then At(a, word, i) else At(b, word, i - |a|)
  {
    if a != [] {
      assert (a + b)[|a| - 1] == a[|a| - 1];
      WordAvoidsBreak(a + b, word, i, |a| - 1);
    }
    if i < |a| {
      assert a[i..i + |word|] == (a + b)[i..i + |word|];
    } else {
      assert b[i - |a|..i - |a| + |word|] == (a + b)[i..i + |word|];
    }
  }

  lemma ContinuesAt(a: string, b: string, word: string, i: nat)
    requires At(a, word, i)
    ensures At(a + b, word, i)
  {
    assert (a + b)[i..i + |word|] == a[i..i + |word|];
  }

  lemma {:induction false} TrimEndConcat(a: string, b: string)
    ensures TrimEnd(b) != [] ==> TrimEnd(a + b) == a + TrimEnd(b)
    ensures TrimEnd(b) == [] ==> TrimEnd(a + b) == TrimEnd(a)
    decreases |b|
  {
    if b == [] {
      assert a + b == a;
    } else if Text.IsSpace(b[|b| - 1]) {
      assert (a + b)[..|a + b| - 1] == a + b[..|b| - 1];
      TrimEndConcat(a, b[..|b| - 1]);
    }
  }

  predicate Blank(s: string) {
    TrimEnd(s) == []
  }

  lemma PromptConcat(a: string, b: string)
    ensures Prompted(a + b) <==> if Blank(b) then Prompted(a) else Prompted(b)
    ensures Blank(a + b) ==> Blank(b)
  {
    TrimEndConcat(a, b);
  }

  /** A tail with something in it decides about the prompt; blank pieces after text without one change nothing. */
  lemma TailDecidesPrompt(out: string, chunk: string)
    requires !Prompted(out)
    ensures Prompted(out + chunk) <==> Prompted((out + chunk)[LineStart(out)..])
  {
    hide Prompted, Blank;
    var start := LineStart(out);
    var head, last, tail := out[..start], out[start..], (out + chunk)[start..];
    assert head + tail == out + chunk && last + chunk == tail;
    PromptConcat(head, tail);
    PromptConcat(last, chunk);
    PromptConcat(out, chunk);
    BlankIsNoPrompt(tail);
  }

  lemma BlankIsNoPrompt(s: string)
    ensures Blank(s) ==> !Prompted(s)
  {
  }

  /**
   One piece while waiting for a prompt: with no prompt so far, the scan and a look at everything disagree
   exactly if a line finished earlier is final, there is an error, and the tail holds neither.
   */
  lemma PromptScanDisagreesExactly(final: string -> bool, out: string, chunk: string)
    requires !Prompted(out)
    ensures var next := out + chunk;
      var start := LineStart(out);
      var tail := next[start..];
      var error := Contains(out, ERROR) || Contains(tail, ERROR);
      && (error <==> Contains(next, ERROR))
      && (Stops(final, tail, error, true) != PromptStops(final, next)
        <==> Terminal(final, out[..start]) && error && !Terminal(final, tail) && !Prompted(tail))
  {
    TailDecides(final, out, chunk);
    TailDecidesPrompt(out, chunk);
    TailDecidesWord(out, chunk, ERROR);
    hide Contains, Terminal, Prompted, LineStart;
  }

  /** Whether the word has come up is known from what was seen and the tail. */
  lemma TailDecidesWord(out: string, chunk: string, word: string)
    requires word != [] && '\n' !in word
    ensures Contains(out + chunk, word) <==> Contains(out, word) || Contains((out + chunk)[LineStart(out)..], word)
  {
    var start := LineStart(out);
    var head, last, tail := out[..start], out[start..], (out + chunk)[start..];
    assert head == [] || head[|head| - 1] == '\n';
    hide LineStart, At;
    assert head + last == out && head + tail == out + chunk && tail == last + chunk;
    WordInLine(head, last, word);
    WordInLine(head, tail, word);
    if Contains(last, word) {
      var i :| 0 <= i <= |last| && At(last, word, i);
      ContinuesAt(last, chunk, word, i);
    }
  }

  /** Such a piece: after a finished "OK" line, a line that holds the word but is not final. */
  lemma PromptScanCanDisagree()
    ensures var out, chunk := "OK\n", "xERRORx\n";
      && !Prompted(out) && !Terminal(FinalLine, []) && LineStart(out) == |out|
      && !Stops(FinalLine, chunk, true, true) && PromptStops(FinalLine, out + chunk)
  {
    var out, chunk := "OK\n", "xERRORx\n";
    assert LineStart(out) == |out|;
    FinalOk();
    NotFinal();
    hide FinalLine, Prompted, Lines;
    assert chunk[1..6] == ERROR && At(chunk, ERROR, 1);
    WordInLine(out, chunk, ERROR);
    hide Contains;
    TerminalConcat(FinalLine, out, chunk);
  }

  lemma FinalOk()
    ensures Terminal(FinalLine, "OK\n") && !Prompted("OK\n")
  {
    OneLine("OK");
    assert "OK\n" == "OK" + "\n";
    assert FinalLine(Lines("OK\n")[0]);
    TrimEndConcat("OK", "\n");
  }

  lemma NotFinal()
    ensures !Terminal(FinalLine, "xERRORx\n") && !Prompted("xERRORx\n")
    ensures !Terminal(FinalLine, [])
  {
    OneLine("xERRORx");
    assert "xERRORx\n" == "xERRORx" + "\n";
    assert TrimEnd("xERRORx") == "xERRORx";
    TrimEndConcat("xERRORx", "\n");
  }

  lemma OneLine(line: string)
    requires '\n' !in line && (line == [] || line[|line| - 1] != '\r')
    ensures Lines(line + "\n") == [line]
  {
    var s := line + "\n";
    assert forall i :: 0 <= i < |line| ==> s[i] == line[i] && line[i] in line;
    assert FirstBreak(s) == |line|;
    assert s[..|line|] == line && s[|line| + 1..] == [];
  }

  // ----- Commands that need another SMS storage

  /** A command's fate: whether it is accepted, whether it takes effect if it is not, and the text that comes. */
  datatype Answer = Answer(ok: bool, effect: bool, text: string)

  datatype Storing = Rejected | NotRestored

  class Port {
    var storage: string

    /** Selecting a storage may take effect even if no acceptance arrives. */
    method Select(name: string, answer: Answer) returns (ok: bool)
      modifies this
      ensures ok == answer.ok && storage == if ok || answer.effect then name else old(storage)
    {
      if answer.ok || answer.effect {
        storage := name;
      }
      ok := answer.ok;
    }

    /**
     Runs the parts of a command with another storage selected. `query` answers the question for the current
     one, `select` and `restore` the two selections, and `answers` the parts.
     */
    method InStorage(name: string, query: Answer, select: Answer, answers: seq<Answer>, restore: Answer)
      returns (r: Result<string, Storing>)
      modifies this
      ensures r.Ok? <==> query.ok && select.ok && (forall a :: a in answers ==> a.ok) && restore.ok
      ensures r.Ok? ==> r.value == Texts(answers)
      ensures r != Err(NotRestored) ==> storage == old(storage)
      ensures r == Err(NotRestored) <==> query.ok && !restore.ok
    {
      if !query.ok {
        return Err(Rejected);
      }
      var previous := storage;
      var done := Select(name, select);
      var raw := [];
      if done {
        var i := 0;
        while i < |answers| && answers[i].ok
          invariant 0 <= i <= |answers| && (forall j :: 0 <= j < i ==> answers[j].ok)
          invariant raw + Texts(answers[i..]) == Texts(answers)
        {
          assert answers[i..][0] == answers[i] && answers[i..][1..] == answers[i + 1..];
          raw := raw + answers[i].text;
          i := i + 1;
        }
        done := i == |answers|;
        assert !done ==> answers[i] in answers;
      }
      var restored := Select(previous, restore);
      assert raw + [] == raw;
      r := if !restored then Err(NotRestored) else if done then Ok(raw) else Err(Rejected);
    }
  }

  function Texts(answers: seq<Answer>): string {
    if answers == [] then [] else answers[0].text + Texts(answers[1..])
  }
}
