/** Is a backup whole? Its last member is a manifest: a line for every file before it, in order, and the totals. */
module Backups {
  import opened Results
  import opened Bytes

  const MANIFEST := "backup-manifest.txt"
  const HEAD := "gopher-backup manifest 1"
  const SPACE := ' '
  const NEWLINE := '\n'

  datatype Member = Member(name: string, data: seq<byte>)

  datatype Flaw =
    | NotATar
    | NoManifest
    | NoHead
    | EndDiffers(said: string, files: nat, bytes: nat)
    | CountDiffers(named: nat, files: nat)
    | NotALine(n: nat)
    | OtherFile(n: nat)
    | OtherSize(n: nat)
    | OtherHash(n: nat)

  /** SHA-256 as hexadecimal digits, of which only this is used. */
  type Sha = seq<byte> -> string

  ghost predicate Hashes(sha: Sha) {
    && (forall data :: SPACE !in sha(data) && NEWLINE !in sha(data))
    && (forall a, b :: sha(a) == sha(b) ==> a == b)
  }

  // Text.

  /** `s.split(sep)`. */
  function Split(s: string, sep: char): (r: seq<string>)
    ensures r != []
  {
    if s == "" then [""]
    else if s[0] == sep then [""] + Split(s[1..], sep)
    else var rest := Split(s[1..], sep); [[s[0]] + rest[0]] + rest[1..]
  }

  function Join(lines: seq<string>): string
    requires lines != []
  {
    if |lines| == 1 then lines[0] else lines[0] + [NEWLINE] + Join(lines[1..])
  }

  /** The text's lines, a last empty one left out. */
  function Lines(text: string): seq<string> {
    var lines := Split(text, NEWLINE);
    if lines[|lines| - 1] == "" then lines[..|lines| - 1] else lines
  }

  function UntilSpace(s: string): (r: string)
    ensures |r| <= |s| && (|r| < |s| ==> s[|r|] == SPACE) && r == s[..|r|] && SPACE !in r
  {
    if s == "" || s[0] == SPACE then "" else [s[0]] + UntilSpace(s[1..])
  }

  /** `s.split(" ", n)`. */
  function SplitMost(s: string, n: nat): (r: seq<string>)
    ensures r != []
  {
    var first := UntilSpace(s);
    if n == 0 || |first| == |s| then [s] else [first] + SplitMost(s[|first| + 1..], n - 1)
  }

  function DigitOf(n: nat): char
    requires n < 10
  {
    "0123456789"[n]
  }

  function Decimal(n: nat): (r: string)
    ensures r != "" && SPACE !in r && NEWLINE !in r
  {
    if n < 10 then [DigitOf(n)] else Decimal(n / 10) + [DigitOf(n % 10)]
  }

  predicate Digits(s: string) {
    forall i :: 0 <= i < |s| ==> '0' <= s[i] <= '9'
  }

  /** What digits are worth, read from left to right. */
  function Worth(s: string): nat
    requires Digits(s)
  {
    if s == "" then 0 else Worth(s[..|s| - 1]) * 10 + (s[|s| - 1] as int - '0' as int)
  }

  /** `s` is the number `n` as it is written: digits, no zero before another, worth `n`. */
  predicate Numeral(s: string, n: nat) {
    s != "" && Digits(s) && (s[0] == '0' ==> |s| == 1) && Worth(s) == n
  }

  lemma DigitIs(n: nat)
    requires n < 10
    ensures DigitOf(n) as int == '0' as int + n
  {
  }

  lemma OneDigit(s: string, n: nat)
    requires n < 10
    ensures Numeral(s, n) <==> s == [DigitOf(n)]
  {
    DigitIs(n);
    if Numeral(s, n) && |s| > 1 {
      Positive(s[..|s| - 1]);
    }
    if |s| == 1 {
      assert Worth(s[..0]) == 0;
    }
  }

  /** A numeral that does not begin with a zero is not worth zero. */
  lemma {:induction false} Positive(s: string)
    requires Digits(s) && s != "" && s[0] != '0'
    ensures Worth(s) > 0
  {
    if |s| == 1 {
    } else {
      Positive(s[..|s| - 1]);
    }
  }

  lemma LongNumeral(s: string, n: nat)
    requires n >= 10 && Numeral(s, n)
    ensures |s| > 1 && Numeral(s[..|s| - 1], n / 10) && s[|s| - 1] == DigitOf(n % 10)
  {
    DigitIs(n % 10);
    if |s| == 1 {
      OneDigit(s, s[0] as int - '0' as int);
    }
  }

  lemma {:induction false} DecimalWrites(n: nat)
    ensures Numeral(Decimal(n), n)
  {
    DigitIs(n % 10);
    if n < 10 {
      OneDigit(Decimal(n), n);
    } else {
      DecimalWrites(n / 10);
      OneMore(Decimal(n / 10), n);
    }
  }

  lemma OneMore(front: string, n: nat)
    requires n >= 10 && Numeral(front, n / 10)
    ensures Numeral(front + [DigitOf(n % 10)], n)
  {
    DigitIs(n % 10);
    assert (front + [DigitOf(n % 10)])[..|front|] == front;
    if front[0] == '0' {
      OneDigit(front, 0);
    }
  }

  lemma {:induction false} OneNumeral(s: string, t: string, n: nat)
    requires Numeral(s, n) && Numeral(t, n)
    ensures s == t
    decreases n
  {
    hide Numeral;
    if n < 10 {
      OneDigit(s, n);
      OneDigit(t, n);
    } else {
      LongNumeral(s, n);
      LongNumeral(t, n);
      OneNumeral(s[..|s| - 1], t[..|t| - 1], n / 10);
      assert s == s[..|s| - 1] + [s[|s| - 1]] && t == t[..|t| - 1] + [t[|t| - 1]];
    }
  }

  /** `Decimal` writes a number in the only way there is. */
  lemma DecimalExact(s: string, n: nat)
    ensures Numeral(s, n) <==> s == Decimal(n)
  {
    hide Numeral, Decimal;
    DecimalWrites(n);
    if Numeral(s, n) {
      OneNumeral(s, Decimal(n), n);
    }
  }

  // The manifest.

  function BytesOf(files: seq<Member>): nat {
    if files == [] then 0 else BytesOf(files[..|files| - 1]) + |files[|files| - 1].data|
  }

  function EndLine(files: seq<Member>): string {
    "end: " + Decimal(|files|) + " files, " + Decimal(BytesOf(files)) + " bytes"
  }

  function FileLine(sha: Sha, file: Member): string {
    sha(file.data) + [SPACE] + Decimal(|file.data|) + [SPACE] + file.name
  }

  function FileLines(sha: Sha, files: seq<Member>): (r: seq<string>)
    ensures |r| == |files| && forall i :: 0 <= i < |r| ==> r[i] == FileLine(sha, files[i])
  {
    seq(|files|, i requires 0 <= i < |files| => FileLine(sha, files[i]))
  }

  /** The whole manifest of some files, line by line. */
  function ManifestLines(sha: Sha, files: seq<Member>): seq<string> {
    [HEAD] + FileLines(sha, files) + [EndLine(files)]
  }

  // The check.

  function LineFlaws(sha: Sha, n: nat, file: Member, line: string): seq<Flaw> {
    var parts := SplitMost(line, 2);
    if |parts| != 3 then [NotALine(n)]
    else if parts[2] != file.name then [OtherFile(n)]
    else if parts[1] != Decimal(|file.data|) then [OtherSize(n)]
    else if parts[0] != sha(file.data) then [OtherHash(n)]
    else []
  }

  /** The flaws of the first `n` files, each with its line. */
  function ListedFlaws(sha: Sha, files: seq<Member>, listed: seq<string>, n: nat): seq<Flaw>
    requires n <= |files| && n <= |listed|
  {
    if n == 0 then [] else ListedFlaws(sha, files, listed, n - 1) + LineFlaws(sha, n, files[n - 1], listed[n - 1])
  }

  function Shorter(a: nat, b: nat): nat {
    if a <= b then a else b
  }

  function EndOf(lines: seq<string>): string {
    if |lines| > 1 then lines[|lines| - 1] else ""
  }

  function ListedOf(lines: seq<string>): seq<string> {
    if |lines| > 1 then lines[1..|lines| - 1] else []
  }

  function FlawsOf(sha: Sha, files: seq<Member>, lines: seq<string>): seq<Flaw> {
    (if EndOf(lines) != EndLine(files) then [EndDiffers(EndOf(lines), |files|, BytesOf(files))] else [])
    + (if |ListedOf(lines)| != |files| then [CountDiffers(|ListedOf(lines)|, |files|)] else [])
    + ListedFlaws(sha, files, ListedOf(lines), Shorter(|files|, |ListedOf(lines)|))
  }

  type Answer = (seq<Flaw>, nat, nat)

  /** What `check` answers for the file members of an archive: what is wrong, the files and their bytes. */
  function Checked(sha: Sha, decode: seq<byte> -> string, archive: Option<seq<Member>>): Answer {
    if archive.None? then ([NotATar], 0, 0)
    else
      var members := archive.value;
      if members == [] || members[|members| - 1].name != MANIFEST then ([NoManifest], 0, 0)
      else
        var lines := Lines(decode(members[|members| - 1].data));
        var files := members[..|members| - 1];
        if files == [] && lines == [EndLine([])] then ([], 0, 0)
        else if lines == [] || lines[0] != HEAD then ([NoHead], 0, 0)
        else (FlawsOf(sha, files, lines), |files|, BytesOf(files))
  }

  method Sum(files: seq<Member>) returns (n: nat)
    ensures n == BytesOf(files)
  {
    n := 0;
    for i := 0 to |files|
      invariant n == BytesOf(files[..i])
    {
      assert files[..i + 1][..i] == files[..i];
      n := n + |files[i].data|;
    }
    assert files[..|files|] == files;
  }

  /** `check`. */
  method Check(sha: Sha, decode: seq<byte> -> string, archive: Option<seq<Member>>) returns (r: Answer)
    ensures r == Checked(sha, decode, archive)
  {
    hide FlawsOf, Split, EndLine, BytesOf;
    if archive.None? {
      return ([NotATar], 0, 0);
    }
    var members := archive.value;
    if members == [] || members[|members| - 1].name != MANIFEST {
      return ([NoManifest], 0, 0);
    }
    var lines := Split(decode(members[|members| - 1].data), NEWLINE);
    if lines[|lines| - 1] == "" {
      lines := lines[..|lines| - 1];
    }
    var files := members[..|members| - 1];
    if files == [] && lines == [EndLine([])] {
      return ([], 0, 0);
    }
    if lines == [] || lines[0] != HEAD {
      return ([NoHead], 0, 0);
    }
    var flaws, total := FindFlaws(sha, files, lines);
    return (flaws, |files|, total);
  }

  /** The check of the lines after the head. */
  method FindFlaws(sha: Sha, files: seq<Member>, lines: seq<string>) returns (flaws: seq<Flaw>, total: nat)
    ensures flaws == FlawsOf(sha, files, lines) && total == BytesOf(files)
  {
    hide LineFlaws, Decimal, BytesOf;
    flaws := [];
    var listed, end := ListedOf(lines), EndOf(lines);
    total := Sum(files);
    if end != "end: " + Decimal(|files|) + " files, " + Decimal(total) + " bytes" {
      flaws := flaws + [EndDiffers(end, |files|, total)];
    }
    if |listed| != |files| {
      flaws := flaws + [CountDiffers(|listed|, |files|)];
    }
    ghost var head := flaws;
    for n := 0 to Shorter(|files|, |listed|)
      invariant flaws == head + ListedFlaws(sha, files, listed, n)
    {
      flaws := flaws + LineFlaws(sha, n + 1, files[n], listed[n]);
    }
  }

  // What no flaw means.

  lemma {:induction false} SpaceFirst(word: string, rest: string)
    requires SPACE !in word
    ensures UntilSpace(word + [SPACE] + rest) == word
  {
    var s := word + [SPACE] + rest;
    if word == "" {
      assert s[0] == SPACE;
    } else {
      assert s[0] == word[0] && word[0] in word && s[1..] == word[1..] + [SPACE] + rest;
      SpaceFirst(word[1..], rest);
    }
  }

  lemma ThreeParts(a: string, b: string, c: string)
    requires SPACE !in a && SPACE !in b
    ensures SplitMost(a + [SPACE] + b + [SPACE] + c, 2) == [a, b, c]
  {
    var s := a + [SPACE] + b + [SPACE] + c;
    var rest := b + [SPACE] + c;
    assert s == a + [SPACE] + rest && s[|a| + 1..] == rest && rest[|b| + 1..] == c;
    SpaceFirst(a, rest);
    SpaceFirst(b, c);
    assert SplitMost(c, 0) == [c];
    assert SplitMost(rest, 1) == [b] + [c];
  }

  /** One split: what is before the first space, and the parts of what is after it. */
  lemma SplitStep(s: string, n: nat) returns (after: string)
    requires n > 0 && |SplitMost(s, n)| > 1
    ensures SplitMost(s, n) == [UntilSpace(s)] + SplitMost(after, n - 1)
    ensures s == UntilSpace(s) + [SPACE] + after
  {
    after := s[|UntilSpace(s)| + 1..];
  }

  /** A line that splits in three is its parts again. */
  lemma PartsJoin(line: string)
    requires |SplitMost(line, 2)| == 3
    ensures var p := SplitMost(line, 2); line == p[0] + [SPACE] + p[1] + [SPACE] + p[2]
  {
    hide UntilSpace, SplitMost;
    var rest := SplitStep(line, 2);
    PartsOf(UntilSpace(line), SplitMost(rest, 1));
    var last := SplitStep(rest, 1);
    NoSplit(last);
    JoinThree(line, UntilSpace(line), rest, UntilSpace(rest), last, SplitMost(line, 2));
  }

  lemma PartsOf(first: string, rest: seq<string>)
    ensures |[first] + rest| == 1 + |rest|
  {
  }

  lemma NoSplit(s: string)
    ensures SplitMost(s, 0) == [s]
  {
  }

  lemma JoinThree(line: string, a: string, rest: string, b: string, last: string, p: seq<string>)
    requires line == a + [SPACE] + rest && rest == b + [SPACE] + last && p == [a] + ([b] + [last])
    ensures |p| == 3 && line == p[0] + [SPACE] + p[1] + [SPACE] + p[2]
  {
    assert p[0] == a && p[1] == b && p[2] == last;
    assert a + [SPACE] + (b + [SPACE] + last) == a + [SPACE] + b + [SPACE] + last;
  }

  lemma LineIsFile(sha: Sha, n: nat, file: Member, line: string)
    requires Hashes(sha)
    ensures LineFlaws(sha, n, file, line) == [] <==> line == FileLine(sha, file)
  {
    hide SplitMost, Decimal;
    if LineFlaws(sha, n, file, line) == [] {
      PartsJoin(line);
    }
    if line == FileLine(sha, file) {
      ThreeParts(sha(file.data), Decimal(|file.data|), file.name);
    }
  }

  /** A line has no flaw if and only if it is the file's hash, its size in decimal and its path, with one space
      between. */
  lemma LineExact(sha: Sha, n: nat, file: Member, line: string)
    requires Hashes(sha)
    ensures LineFlaws(sha, n, file, line) == [] <==>
      exists size :: Numeral(size, |file.data|) && line == sha(file.data) + " " + size + " " + file.name
  {
    hide Numeral, Decimal, LineFlaws, Hashes;
    LineIsFile(sha, n, file, line);
    FileLineIs(sha, file, line);
  }

  /** What is reported of a line: that it has not three parts, or else the first of its parts that is wrong, the
      path's before the size's and the size's before the hash's. */
  lemma LineReports(sha: Sha, n: nat, file: Member, hash: string, size: string, path: string)
    requires ' ' !in hash && ' ' !in size
    ensures LineFlaws(sha, n, file, hash) == LineFlaws(sha, n, file, hash + " " + size) == [NotALine(n)]
    ensures LineFlaws(sha, n, file, hash + " " + size + " " + path)
         == if path != file.name then [OtherFile(n)]
            else if !Numeral(size, |file.data|) then [OtherSize(n)]
            else if hash != sha(file.data) then [OtherHash(n)]
            else []
  {
    hide Numeral, Decimal;
    NoSpace(hash, 2);
    NoSpace(size, 1);
    SpaceFirst(hash, size);
    assert (hash + " " + size)[|hash| + 1..] == size;
    assert |SplitMost(hash + " " + size, 2)| == 2;
    hide SplitMost;
    ThreeParts(hash, size, path);
    DecimalExact(size, |file.data|);
  }

  lemma {:induction false} NoSpace(s: string, n: nat)
    requires SPACE !in s
    ensures UntilSpace(s) == s && SplitMost(s, n) == [s]
  {
    if s == "" {
    } else {
      assert s[0] in s;
      NoSpace(s[1..], n);
    }
  }

  lemma {:induction false} ListedExact(sha: Sha, files: seq<Member>, listed: seq<string>, n: nat)
    requires Hashes(sha) && n <= |files| && n <= |listed|
    ensures ListedFlaws(sha, files, listed, n) == [] <==>
      forall i :: 0 <= i < n ==> listed[i] == FileLine(sha, files[i])
  {
    hide LineFlaws, FileLine, Hashes;
    if n == 0 {
    } else {
      ListedExact(sha, files, listed, n - 1);
      LineIsFile(sha, n, files[n - 1], listed[n - 1]);
      var before, mine := ListedFlaws(sha, files, listed, n - 1), LineFlaws(sha, n, files[n - 1], listed[n - 1]);
      assert ListedFlaws(sha, files, listed, n) == before + mine;
      hide ListedFlaws;
      assert before + mine == [] <==> before == [] && mine == [];
    }
  }

  lemma FlawsExact(sha: Sha, files: seq<Member>, lines: seq<string>)
    requires Hashes(sha) && lines != [] && lines[0] == HEAD
    ensures FlawsOf(sha, files, lines) == [] <==> lines == ManifestLines(sha, files)
  {
    hide FileLine, ListedFlaws, Decimal, BytesOf, Hashes;
    var listed := ListedOf(lines);
    ListedExact(sha, files, listed, Shorter(|files|, |listed|));
    if |lines| > 1 {
      assert lines == [lines[0]] + listed + [EndOf(lines)];
    }
    assert EndLine(files)[0] == 'e';
    if |listed| == |files| && forall i :: 0 <= i < |files| ==> listed[i] == FileLine(sha, files[i]) {
      assert listed == FileLines(sha, files);
    }
    if lines == ManifestLines(sha, files) {
      assert listed == FileLines(sha, files);
    }
  }

  /** The files' bytes, one file's behind another's. */
  function AllBytes(files: seq<Member>): seq<byte> {
    if files == [] then [] else files[0].data + AllBytes(files[1..])
  }

  lemma {:induction false} BytesAre(files: seq<Member>, n: nat)
    requires n <= |files|
    ensures BytesOf(files[..n]) + |AllBytes(files[n..])| == |AllBytes(files)|
  {
    if n == 0 {
      assert files[0..] == files;
    } else {
      BytesAre(files, n - 1);
      assert files[..n][..n - 1] == files[..n - 1] && files[n - 1..][1..] == files[n..];
    }
  }

  ghost predicate IsFileLine(sha: Sha, file: Member, line: string) {
    exists size :: Numeral(size, |file.data|) && line == sha(file.data) + " " + size + " " + file.name
  }

  ghost predicate IsEndLine(files: seq<Member>, line: string) {
    exists count, bytes :: Numeral(count, |files|) && Numeral(bytes, |AllBytes(files)|)
                           && line == "end: " + count + " files, " + bytes + " bytes"
  }

  /** The lines of the files' manifest: the head, each file's hash, size and path in order, and the totals. */
  ghost predicate IsManifest(sha: Sha, files: seq<Member>, lines: seq<string>) {
    && |lines| == |files| + 2 && lines[0] == "gopher-backup manifest 1"
    && (forall i :: 0 <= i < |files| ==> IsFileLine(sha, files[i], lines[i + 1]))
    && IsEndLine(files, lines[|files| + 1])
  }

  lemma FileLineIs(sha: Sha, file: Member, line: string)
    ensures IsFileLine(sha, file, line) <==> line == FileLine(sha, file)
  {
    hide Numeral, Decimal;
    DecimalExact(Decimal(|file.data|), |file.data|);
    forall size | Numeral(size, |file.data|) ensures size == Decimal(|file.data|) {
      DecimalExact(size, |file.data|);
    }
  }

  lemma EndLineIs(files: seq<Member>, line: string)
    ensures IsEndLine(files, line) <==> line == EndLine(files)
  {
    hide Numeral, Decimal, BytesOf;
    BytesAre(files, |files|);
    assert files[..|files|] == files && files[|files|..] == [];
    var a, b := Decimal(|files|), Decimal(BytesOf(files));
    DecimalExact(a, |files|);
    DecimalExact(b, BytesOf(files));
    forall s | Numeral(s, |files|) ensures s == a {
      DecimalExact(s, |files|);
    }
    forall s | Numeral(s, BytesOf(files)) ensures s == b {
      DecimalExact(s, BytesOf(files));
    }
  }

  lemma ManifestIs(sha: Sha, files: seq<Member>, lines: seq<string>)
    ensures IsManifest(sha, files, lines) <==> lines == ManifestLines(sha, files)
  {
    hide IsFileLine, IsEndLine, FileLine, EndLine, BytesOf;
    forall i | 0 <= i < |files| && |lines| == |files| + 2
      ensures IsFileLine(sha, files[i], lines[i + 1]) <==> lines[i + 1] == FileLine(sha, files[i])
    {
      FileLineIs(sha, files[i], lines[i + 1]);
    }
    if |lines| == |files| + 2 {
      EndLineIs(files, lines[|files| + 1]);
    }
    if IsManifest(sha, files, lines) {
      assert lines == [HEAD] + lines[1..|files| + 1] + [lines[|files| + 1]];
      assert lines[1..|files| + 1] == FileLines(sha, files);
    }
    if lines == ManifestLines(sha, files) {
      forall i | 0 <= i < |files| ensures lines[i + 1] == FileLine(sha, files[i]) {
        assert lines[i + 1] == FileLines(sha, files)[i];
      }
      assert lines[|files| + 1] == EndLine(files);
    }
  }

  lemma WholeLines(sha: Sha, decode: seq<byte> -> string, members: seq<Member>)
    requires Hashes(sha) && |members| > 1
    ensures Checked(sha, decode, Some(members)).0 == [] <==>
      && members[|members| - 1].name == MANIFEST
      && Lines(decode(members[|members| - 1].data)) == ManifestLines(sha, members[..|members| - 1])
  {
    hide Lines, FlawsOf, ManifestLines, Hashes;
    var files, lines := members[..|members| - 1], Lines(decode(members[|members| - 1].data));
    if lines != [] && lines[0] == HEAD {
      FlawsExact(sha, files, lines);
    } else {
      HeadFirst(sha, files);
    }
  }

  /** An archive of one file or more is found whole if and only if its last member is the manifest and that is,
      line for line, the head, each file's hash, size and path in order, and the exact totals. The answer has the
      files' number and bytes. */
  lemma WholeExact(sha: Sha, decode: seq<byte> -> string, members: seq<Member>)
    requires Hashes(sha) && |members| > 1
    ensures var answer, files := Checked(sha, decode, Some(members)), members[..|members| - 1];
      && (answer.0 == [] <==>
            && members[|members| - 1].name == "backup-manifest.txt"
            && IsManifest(sha, files, Lines(decode(members[|members| - 1].data))))
      && (answer.0 == [] ==> answer.1 == |files| && answer.2 == |AllBytes(files)|)
  {
    hide Lines, FlawsOf, ManifestLines, Hashes, IsManifest, BytesOf;
    var files := members[..|members| - 1];
    WholeLines(sha, decode, members);
    ManifestIs(sha, files, Lines(decode(members[|members| - 1].data)));
    BytesAre(files, |files|);
    assert files[..|files|] == files && files[|files|..] == [];
  }

  /** An archive of no files is whole if its manifest has the totals alone, or the head and the totals. */
  lemma EmptyExact(sha: Sha, decode: seq<byte> -> string, manifest: Member)
    ensures Checked(sha, decode, Some([manifest])).0 == [] <==>
      && manifest.name == "backup-manifest.txt"
      && var lines := Lines(decode(manifest.data));
         lines == ["end: 0 files, 0 bytes"] || lines == ["gopher-backup manifest 1", "end: 0 files, 0 bytes"]
    ensures Checked(sha, decode, Some([manifest])).0 == [] ==> Checked(sha, decode, Some([manifest])) == ([], 0, 0)
  {
    hide Lines;
    var lines := Lines(decode(manifest.data));
    assert [manifest][..0] == [];
    assert Decimal(0) == "0";
    assert EndLine([]) == "end: 0 files, 0 bytes";
    hide EndLine;
    if |lines| > 1 {
      assert |lines| == 2 <==> ListedOf(lines) == [];
    }
    assert "gopher-backup manifest 1" != "end: 0 files, 0 bytes" && EndLine([]) != "";
  }

  /** What is no archive, and what has no manifest at its end or one that begins otherwise, is refused as that. */
  lemma Refused(sha: Sha, decode: seq<byte> -> string, members: seq<Member>)
    ensures Checked(sha, decode, None) == ([NotATar], 0, 0)
    ensures members == [] || members[|members| - 1].name != "backup-manifest.txt" ==>
      Checked(sha, decode, Some(members)) == ([NoManifest], 0, 0)
    ensures members != [] && members[|members| - 1].name == "backup-manifest.txt" ==>
      var lines := Lines(decode(members[|members| - 1].data));
      (lines == [] || lines[0] != "gopher-backup manifest 1")
        && !(|members| == 1 && lines == ["end: 0 files, 0 bytes"]) ==>
        Checked(sha, decode, Some(members)) == ([NoHead], 0, 0)
  {
    hide Lines;
    assert Decimal(0) == "0";
    assert EndLine([]) == "end: 0 files, 0 bytes";
  }

  /** A manifest of its head alone has no totals, and names no file. */
  lemma HeadAlone(sha: Sha, decode: seq<byte> -> string, files: seq<Member>, manifest: Member)
    requires manifest.name == "backup-manifest.txt" && Lines(decode(manifest.data)) == ["gopher-backup manifest 1"]
    ensures var n, total := |files|, |AllBytes(files)|;
      Checked(sha, decode, Some(files + [manifest]))
        == ([EndDiffers("", n, total)] + (if n != 0 then [CountDiffers(0, n)] else []), n, total)
  {
    hide Lines, Decimal, BytesOf;
    assert (files + [manifest])[..|files|] == files;
    BytesAre(files, |files|);
    assert files[..|files|] == files && files[|files|..] == [];
    assert EndLine(files)[0] == 'e' && EndLine([])[0] == 'e' && "gopher-backup manifest 1"[0] == 'g';
    var flaws := [EndDiffers("", |files|, |AllBytes(files)|)] + if files != [] then [CountDiffers(0, |files|)] else [];
    assert flaws + [] == flaws;
    assert FlawsOf(sha, files, ["gopher-backup manifest 1"]) == flaws;
    hide FlawsOf, EndLine;
  }

  lemma HeadFirst(sha: Sha, files: seq<Member>)
    ensures ManifestLines(sha, files) != [] && ManifestLines(sha, files)[0] == HEAD
  {
  }

  // What is found.

  lemma FileLineExact(sha: Sha, a: Member, b: Member)
    requires Hashes(sha) && FileLine(sha, a) == FileLine(sha, b)
    ensures a == b
  {
    hide SplitMost, Decimal;
    ThreeParts(sha(a.data), Decimal(|a.data|), a.name);
    ThreeParts(sha(b.data), Decimal(|b.data|), b.name);
    var parts := SplitMost(FileLine(sha, a), 2);
    assert parts[0] == sha(a.data) == sha(b.data) && parts[2] == a.name == b.name;
  }

  /** One manifest is whole for one archive only: any other files before it, in any other order, are found out. */
  lemma OneArchive(sha: Sha, decode: seq<byte> -> string, files: seq<Member>, others: seq<Member>, manifest: Member)
    requires Hashes(sha) && files != [] && others != [] && files != others
    requires Checked(sha, decode, Some(files + [manifest])).0 == []
    ensures Checked(sha, decode, Some(others + [manifest])).0 != []
  {
    hide Checked, Lines, Hashes, FileLine;
    assert (files + [manifest])[..|files|] == files && (others + [manifest])[..|others|] == others;
    WholeLines(sha, decode, files + [manifest]);
    WholeLines(sha, decode, others + [manifest]);
    if ManifestLines(sha, files) == ManifestLines(sha, others) {
      SameLines(sha, files, others);
    }
  }

  lemma SameLines(sha: Sha, files: seq<Member>, others: seq<Member>)
    requires Hashes(sha) && ManifestLines(sha, files) == ManifestLines(sha, others)
    ensures files == others
  {
    hide FileLine, Hashes;
    assert |files| == |ManifestLines(sha, files)| - 2 == |others|;
    forall i | 0 <= i < |files| ensures files[i] == others[i] {
      assert ManifestLines(sha, files)[i + 1] == FileLine(sha, files[i]);
      assert ManifestLines(sha, others)[i + 1] == FileLine(sha, others[i]);
      FileLineExact(sha, files[i], others[i]);
    }
  }

  /** Every cut to fewer members is found, no other member bearing the manifest's name. */
  lemma CutFound(sha: Sha, decode: seq<byte> -> string, files: seq<Member>, manifest: Member, n: nat)
    requires (forall i :: 0 <= i < |files| ==> files[i].name != "backup-manifest.txt") && n <= |files|
    ensures Checked(sha, decode, Some((files + [manifest])[..n])) == ([NoManifest], 0, 0)
  {
    if n > 0 {
      assert (files + [manifest])[..n][n - 1] == files[n - 1];
    }
  }

  /** A member dropped, of two or more, is found: the totals differ, and the count of names does. */
  lemma DropFound(sha: Sha, decode: seq<byte> -> string, files: seq<Member>, manifest: Member, i: nat)
    requires Hashes(sha) && |files| > 1 && i < |files| && Checked(sha, decode, Some(files + [manifest])).0 == []
    ensures var left := files[..i] + files[i + 1..];
      [EndDiffers(EndLine(files), |left|, BytesOf(left)), CountDiffers(|files|, |left|)]
        <= Checked(sha, decode, Some(left + [manifest])).0
  {
    hide Lines, Hashes, FileLine, EndLine, ListedFlaws, BytesOf;
    var left := files[..i] + files[i + 1..];
    assert (files + [manifest])[..|files|] == files && (left + [manifest])[..|left|] == left;
    WholeLines(sha, decode, files + [manifest]);
    var lines := ManifestLines(sha, files);
    assert ListedOf(lines) == FileLines(sha, files) && EndOf(lines) == EndLine(files);
    if EndLine(files) == EndLine(left) {
      SameCounts(files, left);
    }
  }

  lemma FirstWord(head: string, a: string, s: string, b: string, r: string)
    requires SPACE !in a && SPACE !in b && head + (a + [SPACE] + s) == head + (b + [SPACE] + r)
    ensures a == b
  {
    assert a + [SPACE] + s == (head + (a + [SPACE] + s))[|head|..];
    assert b + [SPACE] + r == (head + (b + [SPACE] + r))[|head|..];
    SpaceFirst(a, s);
    SpaceFirst(b, r);
  }

  lemma EndParts(files: seq<Member>) returns (rest: string)
    ensures EndLine(files) == "end: " + (Decimal(|files|) + [SPACE] + rest)
  {
    hide Decimal, BytesOf;
    rest := "files, " + Decimal(BytesOf(files)) + " bytes";
    assert " files, " == [SPACE] + "files, ";
  }

  /** The totals say how many files there are. */
  lemma SameCounts(files: seq<Member>, others: seq<Member>)
    requires EndLine(files) == EndLine(others)
    ensures |files| == |others|
  {
    hide Decimal, BytesOf, EndLine, Numeral;
    var s := EndParts(files);
    var r := EndParts(others);
    FirstWord("end: ", Decimal(|files|), s, Decimal(|others|), r);
    DecimalExact(Decimal(|files|), |files|);
    DecimalExact(Decimal(|others|), |others|);
    SameWorth(Decimal(|files|), |files|, |others|);
  }

  /** The only file dropped is found too: the manifest of no files is another. */
  lemma LastDropFound(sha: Sha, decode: seq<byte> -> string, file: Member, manifest: Member)
    requires Hashes(sha) && Checked(sha, decode, Some([file] + [manifest])).0 == []
    ensures Checked(sha, decode, Some([manifest])).0 != []
  {
    hide Lines, Hashes, FileLine, Decimal, ListedFlaws;
    WholeLines(sha, decode, [file, manifest]);
    assert [file] + [manifest] == [file, manifest] && [file, manifest][..1] == [file] && [manifest][..0] == [];
    var lines := ManifestLines(sha, [file]);
    assert |ManifestLines(sha, [file])| == 3 && |ListedOf(lines)| == 1;
  }

  /** The lines of one archive's manifest, held against other files in as many: what is said of the totals, and of
      each file that is not the one it was. */
  lemma {:induction false} OneOther(sha: Sha, files: seq<Member>, i: nat, other: Member, n: nat)
    requires Hashes(sha) && i < |files| && n <= |files|
    ensures var changed := files[i := other];
      ListedFlaws(sha, changed, FileLines(sha, files), n)
        == if i < n then LineFlaws(sha, i + 1, other, FileLine(sha, files[i])) else []
  {
    hide LineFlaws, FileLine, Hashes;
    if n == 0 {
    } else {
      OneOther(sha, files, i, other, n - 1);
      if n - 1 != i {
        LineIsFile(sha, n, files[n - 1], FileLine(sha, files[n - 1]));
      }
    }
  }

  /** A whole archive's manifest, read by the check of another archive. */
  lemma WholeOther(sha: Sha, decode: seq<byte> -> string, files: seq<Member>, manifest: Member, others: seq<Member>)
    requires Hashes(sha) && files != [] && |others| == |files| && Checked(sha, decode, Some(files + [manifest])).0 == []
    ensures var lines := ManifestLines(sha, files);
      && ListedOf(lines) == FileLines(sha, files)
      && Checked(sha, decode, Some(others + [manifest]))
           == ((if EndLine(files) != EndLine(others) then [EndDiffers(EndLine(files), |others|, BytesOf(others))]
                else []) + ListedFlaws(sha, others, FileLines(sha, files), |files|), |others|, BytesOf(others))
  {
    hide Lines, Hashes, FileLine, EndLine, ListedFlaws, BytesOf, FlawsOf;
    assert (files + [manifest])[..|files|] == files && (others + [manifest])[..|others|] == others;
    WholeLines(sha, decode, files + [manifest]);
    WholeFlaws(sha, files, others);
  }

  lemma WholeFlaws(sha: Sha, files: seq<Member>, others: seq<Member>)
    requires |others| == |files|
    ensures var lines := ManifestLines(sha, files);
      && lines != [] && lines[0] == HEAD && ListedOf(lines) == FileLines(sha, files)
      && FlawsOf(sha, others, lines)
           == (if EndLine(files) != EndLine(others) then [EndDiffers(EndLine(files), |others|, BytesOf(others))]
               else []) + ListedFlaws(sha, others, FileLines(sha, files), |files|)
  {
    hide FileLine, EndLine, ListedFlaws, BytesOf;
    var lines := ManifestLines(sha, files);
    assert ListedOf(lines) == FileLines(sha, files) && EndOf(lines) == EndLine(files);
    hide ManifestLines, ListedOf, EndOf;
    var end := if EndLine(files) == EndLine(others) then []
               else [EndDiffers(EndLine(files), |others|, BytesOf(others))];
    assert end + [] == end;
  }

  lemma SizesDiffer(files: seq<Member>, i: nat, other: Member)
    requires i < |files|
    ensures var changed := files[i := other];
      && BytesOf(changed) == BytesOf(files) - |files[i].data| + |other.data|
      && (EndLine(changed) == EndLine(files) <==> |other.data| == |files[i].data|)
  {
    hide EndLine;
    var changed := files[i := other];
    assert changed[..|files|] == changed && files[..|files|] == files;
    BytesChange(files, i, other, |files|);
    if EndLine(changed) == EndLine(files) {
      SameEnds(files, changed);
    }
    if BytesOf(changed) == BytesOf(files) {
      EndsSame(files, changed);
    }
  }

  lemma {:induction false} BytesChange(files: seq<Member>, i: nat, other: Member, n: nat)
    requires i < |files| && n <= |files|
    ensures BytesOf(files[i := other][..n])
         == BytesOf(files[..n]) + if i < n then |other.data| - |files[i].data| else 0
  {
    if n == 0 {
    } else {
      BytesChange(files, i, other, n - 1);
      assert files[..n][..n - 1] == files[..n - 1];
      assert files[i := other][..n][..n - 1] == files[i := other][..n - 1];
    }
  }

  lemma EndsSame(files: seq<Member>, others: seq<Member>)
    requires |files| == |others| && BytesOf(files) == BytesOf(others)
    ensures EndLine(files) == EndLine(others)
  {
    hide Decimal, BytesOf;
  }

  lemma SameEnds(files: seq<Member>, others: seq<Member>)
    requires |files| == |others| && EndLine(files) == EndLine(others)
    ensures BytesOf(files) == BytesOf(others)
  {
    hide Decimal, BytesOf;
    var head, a, b := "end: " + Decimal(|files|) + " files, ", Decimal(BytesOf(files)), Decimal(BytesOf(others));
    assert EndLine(files) == head + a + " bytes" && EndLine(others) == head + b + " bytes";
    assert |a| == |b|;
    assert a == EndLine(files)[|head|..|head| + |a|] == EndLine(others)[|head|..|head| + |a|] == b;
    DecimalExact(a, BytesOf(files));
    DecimalExact(b, BytesOf(others));
    hide Numeral;
    SameWorth(a, BytesOf(files), BytesOf(others));
  }

  lemma SameWorth(s: string, m: nat, n: nat)
    requires Numeral(s, m) && Numeral(s, n)
    ensures m == n
  {
  }

  /** A file's bytes changed in any way are found, and reported as just that: with as many bytes as before, that its
      hash differs; otherwise that the totals and its size do. */
  lemma ChangeFound(sha: Sha, decode: seq<byte> -> string, files: seq<Member>, manifest: Member, i: nat,
                    data: seq<byte>)
    requires Hashes(sha) && i < |files| && data != files[i].data
        && Checked(sha, decode, Some(files + [manifest])).0 == []
    ensures var changed := files[i := Member(files[i].name, data)];
      var total := BytesOf(changed);
      Checked(sha, decode, Some(changed + [manifest]))
        == (if |data| == |files[i].data| then ([OtherHash(i + 1)], |files|, total)
            else ([EndDiffers(EndLine(files), |files|, total), OtherSize(i + 1)], |files|, total))
  {
    hide Checked, Hashes, ListedFlaws, EndLine, BytesOf, Numeral;
    var other := Member(files[i].name, data);
    var changed := files[i := other];
    WholeOther(sha, decode, files, manifest, changed);
    OneOther(sha, files, i, other, |files|);
    SizesDiffer(files, i, other);
    FileParts(sha, i + 1, other, files[i]);
    hide FileLine, LineFlaws, FileLines;
    var end := EndDiffers(EndLine(files), |files|, BytesOf(changed));
    assert [] + [OtherHash(i + 1)] == [OtherHash(i + 1)] && [end] + [OtherSize(i + 1)] == [end, OtherSize(i + 1)];
  }

  /** What is reported of a file by another's line. */
  lemma FileParts(sha: Sha, n: nat, file: Member, listed: Member)
    requires Hashes(sha)
    ensures LineFlaws(sha, n, file, FileLine(sha, listed))
         == if listed.name != file.name then [OtherFile(n)]
            else if |listed.data| != |file.data| then [OtherSize(n)]
            else if listed.data != file.data then [OtherHash(n)]
            else []
  {
    hide Decimal, Numeral, LineFlaws;
    var size := Decimal(|listed.data|);
    DecimalExact(size, |listed.data|);
    if Numeral(size, |file.data|) {
      SameWorth(size, |listed.data|, |file.data|);
    }
    LineReports(sha, n, file, sha(listed.data), size, listed.name);
    assert FileLine(sha, listed) == sha(listed.data) + " " + size + " " + listed.name;
  }

  /** So is another name for a file, and it alone. */
  lemma RenameFound(sha: Sha, decode: seq<byte> -> string, files: seq<Member>, manifest: Member, i: nat, name: string)
    requires Hashes(sha) && i < |files| && name != files[i].name
        && Checked(sha, decode, Some(files + [manifest])).0 == []
    ensures Checked(sha, decode, Some(files[i := Member(name, files[i].data)] + [manifest])).0 == [OtherFile(i + 1)]
  {
    hide Checked, Hashes, ListedFlaws, EndLine, BytesOf, Numeral;
    var other := Member(name, files[i].data);
    WholeOther(sha, decode, files, manifest, files[i := other]);
    OneOther(sha, files, i, other, |files|);
    SizesDiffer(files, i, other);
    FileParts(sha, i + 1, other, files[i]);
  }

  // The manifest as text.

  predicate OneLine(s: string) {
    NEWLINE !in s
  }

  lemma {:induction false} SplitFirst(line: string, rest: string)
    requires OneLine(line)
    ensures Split(line, NEWLINE) == [line]
    ensures Split(line + [NEWLINE] + rest, NEWLINE) == [line] + Split(rest, NEWLINE)
  {
    if line == "" {
      assert (line + [NEWLINE] + rest)[1..] == rest;
    } else {
      assert line[0] in line;
      assert (line + [NEWLINE] + rest)[1..] == line[1..] + [NEWLINE] + rest;
      assert (line + [NEWLINE] + rest)[0] == line[0];
      SplitFirst(line[1..], rest);
      assert [line[0]] + line[1..] == line;
    }
  }

  /** Lines that are joined split again. */
  lemma {:induction false} SplitJoin(lines: seq<string>)
    requires lines != [] && forall i :: 0 <= i < |lines| ==> OneLine(lines[i])
    ensures Split(Join(lines), NEWLINE) == lines
  {
    if |lines| == 1 {
      SplitFirst(lines[0], "");
      assert lines == [lines[0]];
    } else {
      SplitFirst(lines[0], Join(lines[1..]));
      SplitJoin(lines[1..]);
      assert lines == [lines[0]] + lines[1..];
    }
  }

  /** And a text is its lines joined; none holds a newline. */
  lemma {:induction false} JoinSplit(s: string)
    ensures Join(Split(s, NEWLINE)) == s
    ensures forall i :: 0 <= i < |Split(s, NEWLINE)| ==> OneLine(Split(s, NEWLINE)[i])
  {
    if s == "" {
    } else {
      JoinSplit(s[1..]);
      var rest := Split(s[1..], NEWLINE);
      assert s == [s[0]] + s[1..];
      if s[0] == NEWLINE {
        assert ([""] + rest)[1..] == rest;
      } else {
        assert ([[s[0]] + rest[0]] + rest[1..])[1..] == rest[1..];
      }
    }
  }

  lemma EndIsLine(files: seq<Member>)
    ensures EndLine(files) != "" && OneLine(EndLine(files))
  {
    hide Decimal, BytesOf;
    assert forall c :: c in EndLine(files) ==>
      c in "end: " || c in Decimal(|files|) || c in " files, " || c in Decimal(BytesOf(files)) || c in " bytes";
  }

  lemma LinesNamed(sha: Sha, file: Member)
    requires Hashes(sha) && OneLine(file.name)
    ensures OneLine(FileLine(sha, file))
  {
    hide Decimal;
    assert forall c :: c in FileLine(sha, file) ==>
      c in sha(file.data) || c == SPACE || c in Decimal(|file.data|) || c in file.name;
  }

  /** The manifest that is written for files, none with a newline in its name, is the one that is read, with
      its last newline or without it; and no other text is. */
  lemma TextExact(sha: Sha, files: seq<Member>, text: string)
    requires Hashes(sha) && forall i :: 0 <= i < |files| ==> OneLine(files[i].name)
    ensures var lines := ManifestLines(sha, files);
      Lines(text) == lines <==> text == Join(lines) || text == Join(lines) + [NEWLINE]
  {
    hide FileLine, EndLine, Hashes;
    var lines := ManifestLines(sha, files);
    EndIsLine(files);
    forall i | 0 <= i < |lines| ensures OneLine(lines[i]) {
      if 1 <= i <= |files| {
        LinesNamed(sha, files[i - 1]);
      }
    }
    hide ManifestLines;
    assert lines[|lines| - 1] != "";
    JoinSplit(text);
    SplitJoin(lines);
    JoinSnoc(lines);
    assert forall i :: 0 <= i < |lines + [""]| ==> OneLine((lines + [""])[i]);
    SplitJoin(lines + [""]);
    var split := Split(text, NEWLINE);
    if split[|split| - 1] == "" {
      assert split == split[..|split| - 1] + [""];
    }
    assert (lines + [""])[..|lines|] == lines;
  }

  lemma {:induction false} JoinSnoc(lines: seq<string>)
    requires lines != []
    ensures Join(lines + [""]) == Join(lines) + [NEWLINE]
  {
    assert (lines + [""])[1..] == lines[1..] + [""];
    if |lines| > 1 {
      JoinSnoc(lines[1..]);
    } else {
      assert (lines + [""])[1..] == [""];
      assert lines[0] + [NEWLINE] + "" == lines[0] + [NEWLINE];
    }
  }
}
