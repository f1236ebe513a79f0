/**
 The installer's payload: the build script writes all files into one block of bytes, the installer takes it
 apart again. Hashing, UTF-8 and the check of paths are given as functions.
 */
module Payload {
  import opened Common

  type Byte = n: nat | n < 256

  /** "SAPAYLOAD1" and a line feed. */
  const MAGIC: seq<Byte> := [83, 65, 80, 65, 89, 76, 79, 65, 68, 49, 10]
  const DIGEST: nat := 32

  datatype File = File(name: seq<Byte>, data: seq<Byte>)

  /** What the format leaves to others; a digest has 32 bytes. */
  datatype Rules = Rules(digest: seq<Byte> -> seq<Byte>, utf8: seq<Byte> -> bool, safe: seq<Byte> -> bool)

  ghost predicate Fixed(rules: Rules) {
    forall data :: |rules.digest(data)| == DIGEST
  }

  datatype Failure = BadFormat | Damaged | BadName | BadPath | BadDigest

  function Power(k: nat): nat {
    if k == 0 then 1 else 256 * Power(k - 1)
  }

  /** The lowest `k` bytes of a number, lowest first. */
  function LittleEndian(n: nat, k: nat): (r: seq<Byte>)
    ensures |r| == k
  {
    if k == 0 then [] else [n % 256] + LittleEndian(n / 256, k - 1)
  }

  function FromLittleEndian(s: seq<Byte>): nat {
    if s == [] then 0 else s[0] + 256 * FromLittleEndian(s[1..])
  }

  lemma {:induction false} NumberFits(s: seq<Byte>)
    ensures FromLittleEndian(s) < Power(|s|)
  {
    if s != [] {
      NumberFits(s[1..]);
    }
  }

  /** A number that fits is read back. */
  lemma {:induction false} NumberRoundTrip(n: nat, k: nat)
    requires n < Power(k)
    ensures FromLittleEndian(LittleEndian(n, k)) == n
    decreases k
  {
    if k > 0 {
      NumberRoundTrip(n / 256, k - 1);
    }
  }

  // ----- Writing

  function Record(rules: Rules, f: File): seq<Byte> {
    LittleEndian(|f.name|, 2) + f.name + LittleEndian(|f.data|, 8) + rules.digest(f.data) + f.data
  }

  function Records(rules: Rules, files: seq<File>): seq<Byte> {
    if files == [] then [] else Record(rules, files[0]) + Records(rules, files[1..])
  }

  function Packed(rules: Rules, files: seq<File>): seq<Byte> {
    MAGIC + LittleEndian(|files|, 4) + Records(rules, files)
  }

  /** The loop of the build script. */
  method Pack(rules: Rules, files: seq<File>) returns (raw: seq<Byte>)
    ensures raw == Packed(rules, files)
  {
    hide LittleEndian;
    raw := MAGIC;
    raw := raw + LittleEndian(|files|, 4);
    assert files[0..] == files;
    for i := 0 to |files|
      invariant raw + Records(rules, files[i..]) == Packed(rules, files)
    {
      var f := files[i];
      assert files[i..][0] == f && files[i..][1..] == files[i + 1..];
      ghost var before := raw;
      raw := raw + LittleEndian(|f.name|, 2);
      raw := raw + f.name;
      raw := raw + LittleEndian(|f.data|, 8);
      raw := raw + rules.digest(f.data);
      raw := raw + f.data;
      RecordAppends(rules, before, f);
      ConcatAssociates(before, Record(rules, f), Records(rules, files[i + 1..]));
    }
  }

  lemma RecordAppends(rules: Rules, raw: seq<Byte>, f: File)
    ensures raw + LittleEndian(|f.name|, 2) + f.name + LittleEndian(|f.data|, 8) + rules.digest(f.data) + f.data
      == raw + Record(rules, f)
  {
  }

  // ----- Reading

  /** A file read, with what comes after it. */
  datatype Step = Step(file: File, rest: seq<Byte>)

  function ReadRecord(rules: Rules, rest: seq<Byte>): Result<Step, Failure> {
    if |rest| < 2 then Err(Damaged)
    else
      var n := FromLittleEndian(rest[..2]);
      var r1 := rest[2..];
      if |r1| < n then Err(Damaged)
      else if !rules.utf8(r1[..n]) then Err(BadName)
      else
        var r2 := r1[n..];
        if |r2| < 8 then Err(Damaged)
        else
          var size := FromLittleEndian(r2[..8]);
          var r3 := r2[8..];
          if |r3| < DIGEST then Err(Damaged)
          else
            var r4 := r3[DIGEST..];
            if |r4| < size then Err(Damaged)
            else if !rules.safe(r1[..n]) then Err(BadPath)
            else if rules.digest(r4[..size]) != r3[..DIGEST] then Err(BadDigest)
            else Ok(Step(File(r1[..n], r4[..size]), r4[size..]))
  }

  /** So many files, one after the other; what comes after the last is not looked at. */
  function ReadRecords(rules: Rules, count: nat, rest: seq<Byte>): Result<(seq<File>, seq<Byte>), Failure> {
    if count == 0 then Ok(([], rest))
    else
      match ReadRecord(rules, rest)
      case Err(e) => Err(e)
      case Ok(step) =>
        match ReadRecords(rules, count - 1, step.rest)
        case Err(e) => Err(e)
        case Ok(r) => Ok(([step.file] + r.0, r.1))
  }

  function Unpacked(rules: Rules, raw: seq<Byte>): Result<(seq<File>, seq<Byte>), Failure> {
    if !(MAGIC <= raw) then Err(BadFormat)
    else
      var rest := raw[|MAGIC|..];
      if |rest| < 4 then Err(Damaged)
      else ReadRecords(rules, FromLittleEndian(rest[..4]), rest[4..])
  }

  /** The files of a payload, by the loop that moves a cursor over it. */
  method Entries(rules: Rules, raw: seq<Byte>) returns (r: Result<seq<File>, Failure>)
    ensures r == match Unpacked(rules, raw)
      case Ok(u) => Ok(u.0)
      case Err(e) => Err(e)
  {
    hide ReadRecord, FromLittleEndian;
    if !(MAGIC <= raw) {
      return Err(BadFormat);
    }
    var rest := raw[|MAGIC|..];
    if |rest| < 4 {
      return Err(Damaged);
    }
    var count := FromLittleEndian(rest[..4]);
    rest := rest[4..];
    var entries := [];
    ghost var start := rest;
    assert forall more: seq<File> :: entries + more == more;
    for i := 0 to count
      invariant ReadRecords(rules, count, start) ==
        match ReadRecords(rules, count - i, rest)
        case Err(e) => Err(e)
        case Ok(u) => Ok((entries + u.0, u.1))
    {
      var step := ReadRecord(rules, rest);
      if step.Err? {
        return Err(step.error);
      }
      rest := step.value.rest;
      ghost var before := entries;
      entries := entries + [step.value.file];
      assert forall more: seq<File> :: before + ([step.value.file] + more) == entries + more;
    }
    assert entries + [] == entries;
    r := Ok(entries);
  }

  // ----- What is written is read

  /** The lengths fit the fields they are written in, and the reader takes the names. */
  predicate Fits(rules: Rules, files: seq<File>) {
    && |files| < Power(4)
    && forall f :: f in files ==> Suits(rules, f)
  }

  predicate Suits(rules: Rules, f: File) {
    |f.name| < Power(2) && |f.data| < Power(8) && rules.utf8(f.name) && rules.safe(f.name)
  }

  lemma RecordIsRead(rules: Rules, f: File, rest: seq<Byte>)
    requires Fixed(rules) && Suits(rules, f)
    ensures ReadRecord(rules, Record(rules, f) + rest) == Ok(Step(f, rest))
  {
    NumberRoundTrip(|f.name|, 2);
    NumberRoundTrip(|f.data|, 8);
    var n, size, digest := LittleEndian(|f.name|, 2), LittleEndian(|f.data|, 8), rules.digest(f.data);
    hide LittleEndian, FromLittleEndian, Power;
    var s := Record(rules, f) + rest;
    RecordSplits(n, f.name, size, digest, f.data, rest);
    assert s == n + f.name + size + digest + f.data + rest;
  }

  lemma RecordSplits(n: seq<Byte>, name: seq<Byte>, size: seq<Byte>, digest: seq<Byte>, data: seq<Byte>,
                     rest: seq<Byte>)
    requires |n| == 2 && |size| == 8 && |digest| == DIGEST
    ensures var s := n + name + size + digest + data + rest;
      && s[..2] == n && s[2..][..|name|] == name && |s[2..]| >= |name|
      && s[2..][|name|..][..8] == size && |s[2..][|name|..]| >= 8
      && s[2..][|name|..][8..][..DIGEST] == digest && |s[2..][|name|..][8..]| >= DIGEST
      && s[2..][|name|..][8..][DIGEST..] == data + rest
      && (data + rest)[..|data|] == data && (data + rest)[|data|..] == rest
  {
    var s := n + name + size + digest + data + rest;
    assert s[2..] == name + size + digest + data + rest;
    assert s[2..][|name|..] == size + digest + data + rest;
    assert s[2..][|name|..][8..] == digest + data + rest;
  }

  lemma {:induction false} RecordsAreRead(rules: Rules, files: seq<File>, rest: seq<Byte>)
    requires Fixed(rules) && forall f :: f in files ==> Suits(rules, f)
    ensures ReadRecords(rules, |files|, Records(rules, files) + rest) == Ok((files, rest))
    decreases |files|
  {
    hide Record, ReadRecord, Suits;
    if files == [] {
      assert [] + rest == rest;
    } else {
      assert files[0] in files && forall f :: f in files[1..] ==> f in files;
      var more := Records(rules, files[1..]);
      ConcatAssociates(Record(rules, files[0]), more, rest);
      RecordIsRead(rules, files[0], more + rest);
      RecordsAreRead(rules, files[1..], rest);
      assert [files[0]] + files[1..] == files;
    }
  }

  /** Whatever is read fits the fields and was accepted. */
  lemma {:induction false} ReadFilesSuit(rules: Rules, count: nat, rest: seq<Byte>)
    requires ReadRecords(rules, count, rest).Ok?
    ensures var files := ReadRecords(rules, count, rest).value.0;
      |files| == count && forall f :: f in files ==> Suits(rules, f)
  {
    hide ReadRecord, Suits;
    if count > 0 {
      ReadFileSuits(rules, rest);
      ReadFilesSuit(rules, count - 1, ReadRecord(rules, rest).value.rest);
    }
  }

  lemma ReadFileSuits(rules: Rules, rest: seq<Byte>)
    ensures ReadRecord(rules, rest).Ok? ==> Suits(rules, ReadRecord(rules, rest).value.file)
  {
    if ReadRecord(rules, rest).Ok? {
      NumberFits(rest[..2]);
      NumberFits(rest[2..][FromLittleEndian(rest[..2])..][..8]);
    }
  }

  lemma PackedHead(rules: Rules, files: seq<File>, extra: seq<Byte>)
    ensures var raw := Packed(rules, files) + extra;
      && MAGIC <= raw && |raw[|MAGIC|..]| >= 4
      && raw[|MAGIC|..][..4] == LittleEndian(|files|, 4) && raw[|MAGIC|..][4..] == Records(rules, files) + extra
  {
    hide Records, LittleEndian;
    var raw := Packed(rules, files) + extra;
    assert raw[|MAGIC|..] == LittleEndian(|files|, 4) + (Records(rules, files) + extra);
  }

  /**
   What the build script writes is read back as exactly the files that were written, with nothing left over,
   if and only if every length fits its field and the reader accepts every name.
   */
  lemma PayloadRoundTrip(rules: Rules, files: seq<File>)
    requires Fixed(rules)
    ensures Unpacked(rules, Packed(rules, files)) == Ok((files, [])) <==> Fits(rules, files)
  {
    PackedHead(rules, files, []);
    var raw := Packed(rules, files);
    assert raw + [] == raw;
    NumberFits(raw[|MAGIC|..][..4]);
    hide FromLittleEndian, LittleEndian, Power, Suits, Packed;
    if Unpacked(rules, raw) == Ok((files, [])) {
      ReadFilesSuit(rules, FromLittleEndian(raw[|MAGIC|..][..4]), raw[|MAGIC|..][4..]);
    }
    if Fits(rules, files) {
      NumberRoundTrip(|files|, 4);
      RecordsAreRead(rules, files, []);
    }
  }

  /** Bytes after the last file are ignored. */
  lemma TrailingBytesAreIgnored(rules: Rules, files: seq<File>, extra: seq<Byte>)
    requires Fixed(rules) && Fits(rules, files)
    ensures Unpacked(rules, Packed(rules, files) + extra) == Ok((files, extra))
  {
    PackedHead(rules, files, extra);
    NumberRoundTrip(|files|, 4);
    hide FromLittleEndian, LittleEndian, Power, Suits, Packed;
    RecordsAreRead(rules, files, extra);
  }

  // ----- Nothing less is accepted

  lemma RecordExtends(rules: Rules, rest: seq<Byte>, more: seq<Byte>)
    requires ReadRecord(rules, rest).Ok?
    ensures var step := ReadRecord(rules, rest).value;
      ReadRecord(rules, rest + more) == Ok(Step(step.file, step.rest + more))
  {
    hide FromLittleEndian;
    var s := rest + more;
    assert s[..2] == rest[..2] && s[2..] == rest[2..] + more;
    var n := FromLittleEndian(rest[..2]);
    var r1, t1 := rest[2..], s[2..];
    assert t1[..n] == r1[..n] && t1[n..] == r1[n..] + more;
    var r2, t2 := r1[n..], t1[n..];
    assert t2[..8] == r2[..8] && t2[8..] == r2[8..] + more;
    var r3, t3 := r2[8..], t2[8..];
    assert t3[..DIGEST] == r3[..DIGEST] && t3[DIGEST..] == r3[DIGEST..] + more;
    var size := FromLittleEndian(r2[..8]);
    var r4, t4 := r3[DIGEST..], t3[DIGEST..];
    assert t4[..size] == r4[..size] && t4[size..] == r4[size..] + more;
  }

  lemma {:induction false} RecordsExtend(rules: Rules, count: nat, rest: seq<Byte>, more: seq<Byte>)
    requires ReadRecords(rules, count, rest).Ok?
    ensures var r := ReadRecords(rules, count, rest).value;
      ReadRecords(rules, count, rest + more) == Ok((r.0, r.1 + more))
  {
    hide ReadRecord;
    if count > 0 {
      RecordExtends(rules, rest, more);
      RecordsExtend(rules, count - 1, ReadRecord(rules, rest).value.rest, more);
    }
  }

  lemma UnpackedExtends(rules: Rules, raw: seq<Byte>, more: seq<Byte>)
    requires Unpacked(rules, raw).Ok?
    ensures var r := Unpacked(rules, raw).value;
      Unpacked(rules, raw + more) == Ok((r.0, r.1 + more))
  {
    hide FromLittleEndian, ReadRecords;
    var m := |MAGIC|;
    assert (raw + more)[..m] == raw[..m] && (raw + more)[m..] == raw[m..] + more;
    assert (raw[m..] + more)[..4] == raw[m..][..4] && (raw[m..] + more)[4..] == raw[m..][4..] + more;
    RecordsExtend(rules, FromLittleEndian(raw[m..][..4]), raw[m..][4..], more);
  }

  lemma PrefixLeavesRest(rules: Rules, raw: seq<Byte>, k: nat)
    requires k < |raw| && Unpacked(rules, raw[..k]).Ok?
    ensures Unpacked(rules, raw).Ok? && |Unpacked(rules, raw).value.1| > 0
  {
    UnpackedExtends(rules, raw[..k], raw[k..]);
    assert raw[..k] + raw[k..] == raw;
  }

  /** A payload that lacks anything at its end is rejected, wherever it is cut. */
  lemma PrefixIsRejected(rules: Rules, files: seq<File>, k: nat)
    requires Fixed(rules) && Fits(rules, files) && k < |Packed(rules, files)|
    ensures Unpacked(rules, Packed(rules, files)[..k]).Err?
  {
    PayloadRoundTrip(rules, files);
    hide *;
    if Unpacked(rules, Packed(rules, files)[..k]).Ok? {
      PrefixLeavesRest(rules, Packed(rules, files), k);
    }
  }

  // ----- The format, byte by byte

  /** The bytes from `at` on spell the number, lowest first. */
  predicate Spells(raw: seq<Byte>, at: nat, size: nat, n: nat)
    requires at + size <= |raw|
    decreases size
  {
    if size == 0 then n == 0 else raw[at] == n % 256 && Spells(raw, at + 1, size - 1, n / 256)
  }

  lemma {:induction false} EndianSpells(head: seq<Byte>, n: nat, k: nat, tail: seq<Byte>)
    requires n < Power(k)
    ensures Spells(head + LittleEndian(n, k) + tail, |head|, k, n)
    decreases k
  {
    if k > 0 {
      EndianSpells(head + [n % 256], n / 256, k - 1, tail);
      assert head + LittleEndian(n, k) + tail == head + [n % 256] + LittleEndian(n / 256, k - 1) + tail;
    }
  }

  /** What stands where of a file in a payload that begins with it at `at`. */
  predicate Holds(rules: Rules, raw: seq<Byte>, at: nat, f: File) {
    var data := at + 2 + |f.name| + 8 + 32;
    && data + |f.data| <= |raw|
    && Spells(raw, at, 2, |f.name|) && raw[at + 2..at + 2 + |f.name|] == f.name
    && Spells(raw, at + 2 + |f.name|, 8, |f.data|)
    && raw[data - 32..data] == rules.digest(f.data) && raw[data..data + |f.data|] == f.data
  }

  lemma RecordHolds(rules: Rules, head: seq<Byte>, f: File, tail: seq<Byte>)
    requires Fixed(rules) && Suits(rules, f)
    ensures Holds(rules, head + Record(rules, f) + tail, |head|, f)
  {
    var n, size, digest := LittleEndian(|f.name|, 2), LittleEndian(|f.data|, 8), rules.digest(f.data);
    var raw := head + Record(rules, f) + tail;
    EndianSpells(head, |f.name|, 2, f.name + size + digest + f.data + tail);
    EndianSpells(head + n + f.name, |f.data|, 8, digest + f.data + tail);
    assert |digest| == 32 && raw == head + (n + f.name + size + digest + f.data) + tail;
    hide LittleEndian, Spells, Power, Record, Suits;
    PartsStand(head, n, f.name, size, digest, f.data, tail);
  }

  lemma PartsStand(head: seq<Byte>, n: seq<Byte>, name: seq<Byte>, size: seq<Byte>, digest: seq<Byte>,
                   data: seq<Byte>, tail: seq<Byte>)
    requires |n| == 2 && |size| == 8 && |digest| == 32
    ensures var raw := head + (n + name + size + digest + data) + tail;
      var at := |head|;
      var from := at + 2 + |name| + 8 + 32;
      && raw == head + n + (name + size + digest + data + tail)
      && raw == head + n + name + size + (digest + data + tail)
      && from + |data| <= |raw| && raw[at + 2..at + 2 + |name|] == name
      && raw[from - 32..from] == digest && raw[from..from + |data|] == data
  {
    var raw := head + (n + name + size + digest + data) + tail;
    assert raw == head + n + name + size + digest + data + tail;
    assert raw == head + n + name + size + digest + (data + tail);
    assert raw == head + n + name + (size + digest + data + tail);
  }

  /** Where the next file begins. */
  function After(at: nat, f: File): nat {
    at + 2 + |f.name| + 8 + 32 + |f.data|
  }

  /** The files, one after the other, from `at` on, and nothing else. */
  predicate HoldsAll(rules: Rules, raw: seq<Byte>, at: nat, files: seq<File>)
    decreases |files|
  {
    if files == [] then at == |raw|
    else Holds(rules, raw, at, files[0]) && HoldsAll(rules, raw, After(at, files[0]), files[1..])
  }

  lemma {:induction false} RecordsHold(rules: Rules, head: seq<Byte>, files: seq<File>)
    requires Fixed(rules) && forall f :: f in files ==> Suits(rules, f)
    ensures HoldsAll(rules, head + Records(rules, files), |head|, files)
    decreases |files|
  {
    hide Record, Holds, Suits;
    if files != [] {
      assert files[0] in files && forall f :: f in files[1..] ==> f in files;
      var more := Records(rules, files[1..]);
      RecordHolds(rules, head, files[0], more);
      RecordLength(rules, files[0]);
      RecordsHold(rules, head + Record(rules, files[0]), files[1..]);
      assert head + Records(rules, files) == head + Record(rules, files[0]) + more;
    }
  }

  lemma RecordLength(rules: Rules, f: File)
    requires Fixed(rules)
    ensures |Record(rules, f)| == After(0, f)
  {
    hide LittleEndian;
  }

  /**
   A payload is "SAPAYLOAD1" and a line feed, the number of files in four bytes, and of each file its name
   behind the length in two bytes, and behind the length in eight bytes its digest and data.
   */
  lemma PayloadLayout(rules: Rules, files: seq<File>)
    requires Fixed(rules) && Fits(rules, files)
    ensures var raw := Packed(rules, files);
      && |raw| >= 15 && raw[..11] == [83, 65, 80, 65, 89, 76, 79, 65, 68, 49, 10]
      && Spells(raw, 11, 4, |files|) && HoldsAll(rules, raw, 15, files)
  {
    EndianSpells(MAGIC, |files|, 4, Records(rules, files));
    RecordsHold(rules, MAGIC + LittleEndian(|files|, 4), files);
    hide Records, LittleEndian, Spells, HoldsAll, Power;
  }

  /** A file is refused for its name, for its path, or for data that is not what the digest says. */
  lemma RefusedFor(rules: Rules, f: File, digest: seq<Byte>, rest: seq<Byte>)
    requires |digest| == 32 && |f.name| < Power(2) && |f.data| < Power(8)
    ensures var raw := LittleEndian(|f.name|, 2) + f.name + LittleEndian(|f.data|, 8) + digest + f.data + rest;
      ReadRecord(rules, raw) ==
        if !rules.utf8(f.name) then Err(BadName)
        else if !rules.safe(f.name) then Err(BadPath)
        else if rules.digest(f.data) != digest then Err(BadDigest)
        else Ok(Step(f, rest))
  {
    NumberRoundTrip(|f.name|, 2);
    NumberRoundTrip(|f.data|, 8);
    var n, size := LittleEndian(|f.name|, 2), LittleEndian(|f.data|, 8);
    hide LittleEndian, FromLittleEndian, Power;
    RecordSplits(n, f.name, size, digest, f.data, rest);
  }
}
