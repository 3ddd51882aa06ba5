/** The folder text collector: every readable text file under a folder is
    appended to one combined text (a header with its relative path, then
    its lines indented by four spaces), and the combined text can be copied
    to the clipboard with every third token left out. The directory walk
    and the file reads are inputs: the files come as a sequence in walk
    order, each with its content or `None` when it could not be read. */
module CopyFolderText {
  import opened TextUtil

  // ---------------------------------------------------------------------
  // is_text

  /** Python's `str.isprintable` for one character: exact on U+0000 to
      U+00FF; above that, the space separators, line and paragraph
      separators, the common format characters and the three private use
      areas are non-printable and every other character is printable. */
  predicate IsPrintable(c: char): (printable: bool)
    ensures IsSpace(c) ==> (printable <==> c == ' ')
  {
    if c < '\U{0080}' then ' ' <= c <= '~'
    else '\U{00A0}' < c && !IsUnprintableAboveLatin1(c)
  }

  predicate IsUnprintableAboveLatin1(c: char) {
      || c == '\U{00AD}'
      || ('\U{0600}' <= c <= '\U{0605}') || c == '\U{061C}' || c == '\U{06DD}' || c == '\U{070F}'
      || c == '\U{1680}' || c == '\U{180E}'
      || ('\U{2000}' <= c <= '\U{200F}')
      || ('\U{2028}' <= c <= '\U{202F}')
      || ('\U{205F}' <= c <= '\U{2064}')
      || ('\U{2066}' <= c <= '\U{206F}')
      || c == '\U{3000}'
      || ('\U{E000}' <= c <= '\U{F8FF}')
      || c == '\U{FEFF}'
      || ('\U{FFF9}' <= c <= '\U{FFFB}')
      || ('\U{F0000}' <= c <= '\U{FFFFD}')
      || ('\U{100000}' <= c <= '\U{10FFFD}')
  }

  /** The characters `is_text` holds against a text: non-printable ones
      other than newline, carriage return and tab. */
  predicate CountsAsBinary(c: char) {
    !IsPrintable(c) && c != '\n' && c != '\r' && c != '\t'
  }

  /** `sum(1 for c in s if not c.isprintable() and c not in "\n\r\t")`. */
  function CountBinary(s: string): (n: nat)
    ensures n <= |s|
    ensures n == 0 <==> forall i :: 0 <= i < |s| ==> !CountsAsBinary(s[i])
  {
    if s == [] then 0
    else (if CountsAsBinary(s[0]) then 1 else 0) + CountBinary(s[1..])
  }

  /** The count is additive over concatenation. */
  lemma {:induction false} CountBinaryConcat(a: string, b: string)
    ensures CountBinary(a + b) == CountBinary(a) + CountBinary(b)
    decreases |a|
  {
    if a != [] {
      assert (a + b)[0] == a[0];
      assert (a + b)[1..] == a[1..] + b;
      CountBinaryConcat(a[1..], b);
    } else {
      assert a + b == b;
    }
  }

  /** `is_text(s)`: false for the empty string, otherwise whether the share
      of non-printable characters (newline, carriage return and tab
      exempt) is at most 0.3. The comparison is exact: at most 30 percent
      means `10 * non_printable <= 3 * total`. */
  function IsText(s: string): (b: bool)
    ensures s == [] ==> !b
    ensures b <==> |s| > 0 && 10 * CountBinary(s) <= 3 * |s|
  {
    if s == [] then false
    else
      var total, nonPrintable := |s|, CountBinary(s);
      RatioAtMostThreeTenths(nonPrintable, total);
      (nonPrintable as real) / (total as real) <= 0.3
  }

  lemma RatioAtMostThreeTenths(part: nat, total: nat)
    requires total > 0
    ensures (part as real) / (total as real) <= 0.3 <==> 10 * part <= 3 * total
  {
    var p, t := part as real, total as real;
    var q := p / t;
    assert q * t == p;
    assert (q - 0.3) * t == p - 0.3 * t;
    if q <= 0.3 {
      assert (0.3 - q) * t >= 0.0;
    } else {
      assert (q - 0.3) * t > 0.0;
    }
  }

  /** Appending text that holds no counted character to a text keeps it a
      text. */
  lemma StaysTextWithPrintableTail(s: string, tail: string)
    requires IsText(s)
    requires forall i :: 0 <= i < |tail| ==> !CountsAsBinary(tail[i])
    ensures IsText(s + tail)
  {
    CountBinaryConcat(s, tail);
  }

  // ---------------------------------------------------------------------
  // transform_text

  /** A token of `str.split()`: non-empty, no whitespace. */
  predicate IsToken(t: string) {
    t != [] && forall i :: 0 <= i < |t| ==> !IsSpace(t[i])
  }

  /** Length of the leading run of non-whitespace characters. */
  function TokenLength(s: string): (n: nat)
    ensures n <= |s|
    ensures forall i :: 0 <= i < n ==> !IsSpace(s[i])
    ensures n < |s| ==> IsSpace(s[n])
  {
    if s == [] || IsSpace(s[0]) then 0 else 1 + TokenLength(s[1..])
  }

  /** `s.split()`: the maximal runs of non-whitespace characters, in order. */
  function Split(s: string): (tokens: seq<string>)
    ensures forall i :: 0 <= i < |tokens| ==> IsToken(tokens[i])
    decreases |s|
  {
    if s == [] then []
    else if IsSpace(s[0]) then Split(s[1..])
    else
      var n := TokenLength(s);
      [s[..n]] + Split(s[n..])
  }

  /** Splitting undoes joining with single spaces. */
  lemma {:induction false} SplitJoin(tokens: seq<string>)
    requires forall i :: 0 <= i < |tokens| ==> IsToken(tokens[i])
    ensures Split(Join(tokens, " ")) == tokens
    decreases |tokens|
  {
    if |tokens| == 1 {
      SplitToken(tokens[0]);
    } else if |tokens| > 1 {
      SplitToken(tokens[0]);
      SplitAtSpace(tokens[0], ' ', Join(tokens[1..], " "));
      SplitJoin(tokens[1..]);
    }
  }

  /** A lone token splits into itself. */
  lemma SplitToken(t: string)
    requires IsToken(t)
    ensures Split(t) == [t]
  {
    assert TokenLength(t) == |t|;
    assert t[..|t|] == t;
    assert t[|t|..] == [];
  }

  /** Any whitespace character cuts the text in two: the tokens are those
      before it followed by those after it. With `SplitToken` and
      `Split([]) == []` this determines `Split` on every text. */
  lemma {:induction false} SplitAtSpace(a: string, c: char, b: string)
    requires IsSpace(c)
    ensures Split(a + [c] + b) == Split(a) + Split(b)
    decreases |a|
  {
    var s := a + [c] + b;
    if a == [] {
      assert s[1..] == b;
    } else if IsSpace(a[0]) {
      assert s[1..] == a[1..] + [c] + b;
      SplitAtSpace(a[1..], c, b);
    } else {
      var m := TokenLength(a);
      forall i | 0 <= i < m
        ensures !IsSpace(s[i])
      {
        assert s[i] == a[i];
      }
      assert s[m] == if m < |a| then a[m] else c;
      TokenLengthIs(s, m);
      assert s[..m] == a[..m];
      if m < |a| {
        assert s[m..] == a[m..] + [c] + b;
        SplitAtSpace(a[m..], c, b);
      } else {
        assert s[m..][1..] == b;
        assert a[m..] == [];
      }
    }
  }

  /** `TokenLength` is the only length its contract allows. */
  lemma TokenLengthIs(s: string, m: nat)
    requires m <= |s|
    requires forall i :: 0 <= i < m ==> !IsSpace(s[i])
    requires m < |s| ==> IsSpace(s[m])
    ensures TokenLength(s) == m
  {
  }

  /** `kept` is what remains of `tokens` when token `i` (counting from 0)
      stays exactly when `(i + 1) % 3 != 0`: of `n` tokens, `n - n / 3`
      stay; every kept token lands at position `i - i / 3`, so the kept
      tokens keep their order; and the token at position `j` of `kept` is
      token `j + j / 2`, one whose index is not dropped. */
  ghost predicate KeepsAllButEveryThird<T>(tokens: seq<T>, kept: seq<T>) {
    && |kept| == |tokens| - |tokens| / 3
    && (forall i :: 0 <= i < |tokens| && (i + 1) % 3 != 0 ==> i - i / 3 < |kept| && kept[i - i / 3] == tokens[i])
    && (forall j :: 0 <= j < |kept| ==> j + j / 2 < |tokens| && (j + j / 2 + 1) % 3 != 0 && kept[j] == tokens[j + j / 2])
  }

  /** The tokens `transform_text` keeps. */
  function DropEveryThird<T>(tokens: seq<T>): (kept: seq<T>)
    ensures KeepsAllButEveryThird(tokens, kept)
    decreases |tokens|
  {
    if |tokens| < 3 then
      DropEveryThirdShort(tokens);
      tokens
    else
      var rest := DropEveryThird(tokens[3..]);
      DropEveryThirdStep(tokens, rest);
      tokens[..2] + rest
  }

  lemma DropEveryThirdShort<T>(tokens: seq<T>)
    requires |tokens| < 3
    ensures KeepsAllButEveryThird(tokens, tokens)
  {
    assert |tokens| / 3 == 0;
    forall i | 0 <= i < |tokens| && (i + 1) % 3 != 0
      ensures i - i / 3 < |tokens| && tokens[i - i / 3] == tokens[i]
    {
      SmallThird(i);
    }
    forall j | 0 <= j < |tokens|
      ensures j + j / 2 < |tokens| && (j + j / 2 + 1) % 3 != 0 && tokens[j] == tokens[j + j / 2]
    {
      SmallHalf(j);
    }
  }

  lemma DropEveryThirdStep<T>(tokens: seq<T>, rest: seq<T>)
    requires |tokens| >= 3
    requires KeepsAllButEveryThird(tokens[3..], rest)
    ensures KeepsAllButEveryThird(tokens, tokens[..2] + rest)
  {
    ThirdShift(|tokens|);
    KeptPositions(tokens, rest);
    KeptSources(tokens, rest);
  }

  lemma KeptPositions<T>(tokens: seq<T>, rest: seq<T>)
    requires |tokens| >= 3
    requires |rest| == |tokens| - |tokens| / 3 - 2
    requires forall i :: 0 <= i < |tokens[3..]| && (i + 1) % 3 != 0 ==> i - i / 3 < |rest| && rest[i - i / 3] == tokens[3..][i]
    ensures forall i :: 0 <= i < |tokens| && (i + 1) % 3 != 0 ==>
      i - i / 3 < |tokens[..2] + rest| && (tokens[..2] + rest)[i - i / 3] == tokens[i]
  {
    var kept := tokens[..2] + rest;
    forall i | 0 <= i < |tokens| && (i + 1) % 3 != 0
      ensures i - i / 3 < |kept| && kept[i - i / 3] == tokens[i]
    {
      if i >= 3 {
        ThirdShift(i);
        var i' := i - 3;
        assert i' - i' / 3 < |rest| && rest[i' - i' / 3] == tokens[3..][i'];
        assert kept[i - i / 3] == rest[i' - i' / 3];
      } else {
        SmallThird(i);
      }
    }
  }

  lemma KeptSources<T>(tokens: seq<T>, rest: seq<T>)
    requires |tokens| >= 3
    requires forall j :: 0 <= j < |rest| ==> j + j / 2 < |tokens[3..]| && (j + j / 2 + 1) % 3 != 0 && rest[j] == tokens[3..][j + j / 2]
    ensures forall j :: 0 <= j < |tokens[..2] + rest| ==>
      j + j / 2 < |tokens| && (j + j / 2 + 1) % 3 != 0 && (tokens[..2] + rest)[j] == tokens[j + j / 2]
  {
    var kept := tokens[..2] + rest;
    forall j | 0 <= j < |kept|
      ensures j + j / 2 < |tokens| && (j + j / 2 + 1) % 3 != 0 && kept[j] == tokens[j + j / 2]
    {
      if j >= 2 {
        HalfShift(j);
        var j' := j - 2;
        assert kept[j] == rest[j'];
        assert j' + j' / 2 < |tokens[3..]| && rest[j'] == tokens[3..][j' + j' / 2];
      } else {
        SmallHalf(j);
      }
    }
  }

  lemma ThirdShift(i: int)
    requires i >= 3
    ensures i / 3 == (i - 3) / 3 + 1
    ensures (i + 1) % 3 == (i - 3 + 1) % 3
  {
  }

  lemma SmallThird(i: int)
    requires 0 <= i < 3 && (i + 1) % 3 != 0
    ensures i < 2 && i / 3 == 0
  {
  }

  lemma HalfShift(j: int)
    requires j >= 2
    ensures j / 2 == (j - 2) / 2 + 1
    ensures (j - 2) + (j - 2) / 2 + 3 == j + j / 2
    ensures (j + j / 2 + 1) % 3 == ((j - 2) + (j - 2) / 2 + 1) % 3
  {
  }

  lemma SmallHalf(j: int)
    requires 0 <= j < 2
    ensures j / 2 == 0 && (j + j / 2 + 1) % 3 != 0
  {
  }

  /** The note `transform_text` puts in front of the kept tokens. */
  const OmissionNote: string := "NOTE: Every 3rd token has been omitted and must be correctly guessed.\n\n"

  /** `transform_text(text)`: the note, then the kept tokens joined by
      single spaces. The result always starts with the note. */
  function TransformText(text: string): (r: string)
    ensures |r| >= |OmissionNote| && r[..|OmissionNote|] == OmissionNote
  {
    OmissionNote + Join(DropEveryThird(Split(text)), " ")
  }

  /** What follows the note splits into exactly the kept tokens: of `n`
      tokens of the input, `n - n / 3`, in their original order. */
  lemma TransformTextTokens(text: string)
    ensures var tokens, after := Split(text), TransformText(text)[|OmissionNote|..];
      && Split(after) == DropEveryThird(tokens)
      && |Split(after)| == |tokens| - |tokens| / 3
  {
    var kept := DropEveryThird(Split(text));
    forall i | 0 <= i < |kept|
      ensures IsToken(kept[i])
    {
      assert kept[i] == Split(text)[i + i / 2];
    }
    SplitJoin(kept);
    assert TransformText(text)[|OmissionNote|..] == Join(kept, " ");
  }

  // ---------------------------------------------------------------------
  // process_folder

  /** The line boundaries of Python's `str.splitlines`. */
  predicate IsLineBreak(c: char): (boundary: bool)
    ensures boundary ==> IsSpace(c) && !IsPrintable(c)
  {
    || c == '\n' || c == '\r' || c == '\U{000B}' || c == '\U{000C}'
    || ('\U{001C}' <= c <= '\U{001E}')
    || c == '\U{0085}' || c == '\U{2028}' || c == '\U{2029}'
  }

  predicate IsLine(line: string) {
    forall i :: 0 <= i < |line| ==> !IsLineBreak(line[i])
  }

  /** Length of the text before the first line boundary. */
  function LineLength(s: string): (n: nat)
    ensures n <= |s|
    ensures forall i :: 0 <= i < n ==> !IsLineBreak(s[i])
    ensures n < |s| ==> IsLineBreak(s[n])
  {
    if s == [] || IsLineBreak(s[0]) then 0 else 1 + LineLength(s[1..])
  }

  /** `s.splitlines()`: the text cut at every line boundary (`\r\n` is one
      boundary), without the boundaries and without an empty last line. */
  function SplitLines(s: string): (lines: seq<string>)
    ensures forall i :: 0 <= i < |lines| ==> IsLine(lines[i])
    decreases |s|
  {
    if s == [] then []
    else
      var n := LineLength(s);
      if n == |s| then [s]
      else
        var width := if s[n] == '\r' && n + 1 < |s| && s[n + 1] == '\n' then 2 else 1;
        [s[..n]] + SplitLines(s[n + width..])
  }

  /** Splitting into lines undoes joining with `\n`, as long as the last
      line is not empty. */
  lemma {:induction false} SplitLinesJoin(lines: seq<string>)
    requires forall i :: 0 <= i < |lines| ==> IsLine(lines[i])
    requires lines == [] || lines[|lines| - 1] != ""
    ensures SplitLines(Join(lines, "\n")) == lines
    decreases |lines|
  {
    if |lines| == 1 {
      SplitLinesOneLine(lines[0]);
    } else if |lines| > 1 {
      SplitLinesAtBreak(lines[0], '\n', Join(lines[1..], "\n"));
      SplitLinesJoin(lines[1..]);
    }
  }

  /** A non-empty text without line boundaries is one line. */
  lemma SplitLinesOneLine(line: string)
    requires IsLine(line) && line != []
    ensures SplitLines(line) == [line]
  {
    LineLengthIs(line, |line|);
  }

  /** A line and a single-character boundary: the line comes first, then
      the lines of the rest, whatever the rest is (a trailing boundary adds
      no empty line). A `\r` counts alone only when no `\n` follows it. */
  lemma SplitLinesAtBreak(line: string, c: char, tail: string)
    requires IsLine(line) && IsLineBreak(c)
    requires c == '\r' ==> tail == [] || tail[0] != '\n'
    ensures SplitLines(line + [c] + tail) == [line] + SplitLines(tail)
  {
    var s := line + [c] + tail;
    forall i | 0 <= i < |line|
      ensures !IsLineBreak(s[i])
    {
      assert s[i] == line[i];
    }
    LineLengthIs(s, |line|);
    assert s[..|line|] == line;
    assert s[|line| + 1..] == tail;
  }

  /** A line and `\r\n`: the pair is a single boundary. With
      `SplitLinesAtBreak`, `SplitLinesOneLine` and `SplitLines([]) == []`
      this determines `SplitLines` on every text. */
  lemma SplitLinesAtCrLf(line: string, tail: string)
    requires IsLine(line)
    ensures SplitLines(line + ['\r', '\n'] + tail) == [line] + SplitLines(tail)
  {
    var s := line + ['\r', '\n'] + tail;
    forall i | 0 <= i < |line|
      ensures !IsLineBreak(s[i])
    {
      assert s[i] == line[i];
    }
    LineLengthIs(s, |line|);
    assert s[..|line|] == line;
    assert s[|line| + 2..] == tail;
  }

  /** `LineLength` is the only length its contract allows. */
  lemma LineLengthIs(s: string, m: nat)
    requires m <= |s|
    requires forall i :: 0 <= i < m ==> !IsLineBreak(s[i])
    requires m < |s| ==> IsLineBreak(s[m])
    ensures LineLength(s) == m
  {
  }

  /** Every line with four spaces in front. */
  function Indent(lines: seq<string>): (indented: seq<string>)
    ensures |indented| == |lines|
  {
    seq(|lines|, i requires 0 <= i < |lines| => "    " + lines[i])
  }

  /** The indented content of one file. */
  function IndentedContent(content: string): (indented: string)
    ensures IsLine(content) && content != [] ==> indented == "    " + content
  {
    assert IsLine(content) && content != [] ==> SplitLines(content) == [content] by {
      if IsLine(content) && content != [] {
        SplitLinesOneLine(content);
      }
    }

    Join(Indent(SplitLines(content)), "\n")
  }

  /** The indented content splits back into the file's lines, each with
      four spaces in front, in order. */
  lemma IndentedContentLines(content: string)
    ensures var lines, back := SplitLines(content), SplitLines(IndentedContent(content));
      && |back| == |lines|
      && forall i :: 0 <= i < |lines| ==> back[i] == "    " + lines[i]
  {
    var indented := Indent(SplitLines(content));
    forall i | 0 <= i < |indented|
      ensures IsLine(indented[i])
    {
      var line := SplitLines(content)[i];
      assert indented[i] == "    " + line;
      forall k | 0 <= k < |indented[i]|
        ensures !IsLineBreak(indented[i][k])
      {
        if k >= 4 {
          assert indented[i][k] == line[k - 4];
        }
      }
    }
    if indented != [] {
      assert indented[|indented| - 1][0] == ' ';
    }
    SplitLinesJoin(indented);
  }

  /** A file as the walk finds it: its path relative to the chosen folder
      and its text, `None` when reading it failed. */
  datatype FileEntry = FileEntry(relPath: string, content: Option<string>)

  /** A file is collected when it could be read and `is_text` holds. */
  predicate Accepted(file: FileEntry) {
    file.content.Some? && IsText(file.content.value)
  }

  /** `"--- " + rel_path + " ---\n"`. */
  function Header(relPath: string): (header: string)
    ensures IsLine(relPath) ==> SplitLines(header) == ["--- " + relPath + " ---"]
  {
    var line := "--- " + relPath + " ---";
    assert IsLine(relPath) ==> SplitLines(line + "\n") == [line] by {
      if IsLine(relPath) {
        assert forall i :: 0 <= i < |line| ==> line[i] == ' ' || line[i] == '-' || line[i] in relPath;
        SplitLinesAtBreak(line, '\n', []);
        assert line + ['\n'] + [] == line + "\n";
      }
    }
    line + "\n"
  }

  /** What one file adds to the combined text. */
  function Contribution(file: FileEntry): string {
    if Accepted(file) then Header(file.relPath) + IndentedContent(file.content.value) + "\n\n" else ""
  }

  /** No file of the run is both readable and text. */
  predicate NoneAccepted(files: seq<FileEntry>) {
    forall i :: 0 <= i < |files| ==> !Accepted(files[i])
  }

  /** The combined text of a sequence of files, taken in order. */
  function CombinedText(files: seq<FileEntry>): (text: string)
    ensures NoneAccepted(files) ==> text == ""
    decreases |files|
  {
    if files == [] then ""
    else CombinedText(files[..|files| - 1]) + Contribution(files[|files| - 1])
  }

  /** Collecting two runs of files one after the other gives the two
      combined texts one after the other: what has been collected is never
      changed by later files. */
  lemma {:induction false} CombinedTextConcat(a: seq<FileEntry>, b: seq<FileEntry>)
    ensures CombinedText(a + b) == CombinedText(a) + CombinedText(b)
    decreases |b|
  {
    if b == [] {
      assert a + b == a;
    } else {
      var rest, last := b[..|b| - 1], b[|b| - 1];
      assert b == rest + [last];
      assert a + b == (a + rest) + [last];
      CombinedTextSnoc(a + rest, last);
      CombinedTextSnoc(rest, last);
      CombinedTextConcat(a, rest);
      ConcatAssociative(CombinedText(a), CombinedText(rest), Contribution(last));
    }
  }

  lemma ConcatAssociative(x: string, y: string, z: string)
    ensures (x + y) + z == x + (y + z)
  {
  }

  lemma CombinedTextPrefixStep(files: seq<FileEntry>, n: nat)
    requires n < |files|
    ensures CombinedText(files[..n + 1]) == CombinedText(files[..n]) + Contribution(files[n])
  {
    assert files[..n + 1][..n] == files[..n];
  }

  lemma CombinedTextSnoc(files: seq<FileEntry>, file: FileEntry)
    ensures CombinedText(files + [file]) == CombinedText(files) + Contribution(file)
  {
    assert (files + [file])[..|files|] == files;
  }

  /** An unreadable or non-text file, wherever it stands, contributes
      nothing. */
  lemma RejectedFileIrrelevant(before: seq<FileEntry>, file: FileEntry, after: seq<FileEntry>)
    requires !Accepted(file)
    ensures CombinedText(before + [file] + after) == CombinedText(before + after)
  {
    CombinedTextConcat(before + [file], after);
    CombinedTextSnoc(before, file);
    CombinedTextConcat(before, after);
    assert Contribution(file) == "";
    assert CombinedText(before + [file]) == CombinedText(before);
  }

  lemma {:induction false} BlankConcat(a: string, b: string)
    ensures IsBlank(a + b) <==> IsBlank(a) && IsBlank(b)
  {
    if IsBlank(a) && IsBlank(b) {
      forall i | 0 <= i < |a + b| ensures IsSpace((a + b)[i]) {
        if i >= |a| {
          assert (a + b)[i] == b[i - |a|];
        }
      }
    }
    if IsBlank(a + b) {
      forall i | 0 <= i < |a| ensures IsSpace(a[i]) {
        assert a[i] == (a + b)[i];
      }
      forall i | 0 <= i < |b| ensures IsSpace(b[i]) {
        assert b[i] == (a + b)[|a| + i];
      }
    }
  }

  /** The combined text is blank (so the folder is reported as holding no
      valid text file) exactly when no file is collected: every header
      holds the non-whitespace `-`. */
  lemma {:induction false} CombinedTextBlank(files: seq<FileEntry>)
    ensures IsBlank(CombinedText(files)) <==> NoneAccepted(files)
    decreases |files|
  {
    if files != [] {
      var prefix, last := files[..|files| - 1], files[|files| - 1];
      CombinedTextBlank(prefix);
      BlankConcat(CombinedText(prefix), Contribution(last));
      if Accepted(last) {
        ContributionNotBlank(last);
      }
      if NoneAccepted(prefix) {
        if !Accepted(last) {
          forall i | 0 <= i < |files| ensures !Accepted(files[i]) {
            if i < |prefix| {
              assert files[i] == prefix[i];
            }
          }
        }
      } else {
        var i :| 0 <= i < |prefix| && Accepted(prefix[i]);
        assert files[i] == prefix[i];
      }
    }
  }

  /** An accepted file's contribution starts with its header's dash. */
  lemma ContributionNotBlank(file: FileEntry)
    requires Accepted(file)
    ensures Contribution(file) != [] && Contribution(file)[0] == '-'
  {
    assert Header(file.relPath)[0] == '-';
  }

  /** The accumulation loop of `process_folder`: for each file in walk
      order, skip it when it is unreadable or not text, otherwise append
      its header, its indented lines and a blank line. */
  method CollectText(files: seq<FileEntry>) returns (combined: string)
    ensures combined == CombinedText(files)
  {
    combined := "";
    for n := 0 to |files|
      invariant combined == CombinedText(files[..n])
    {
      var file := files[n];
      CombinedTextPrefixStep(files, n);
      if file.content.None? || !IsText(file.content.value) {
        continue;
      }
      var header := Header(file.relPath);
      var indented := IndentedContent(file.content.value);
      combined := combined + (header + indented + "\n\n");
    }
    assert files[..|files|] == files;
  }

  // ---------------------------------------------------------------------
  // The window

  const SelectFolderPrompt: string := "Select a folder to extract text from files."
  const NoFolderSelected: string := "No folder selected."
  const TextExtracted: string := "Text extracted. Click the copy button to transform and copy the text."
  const NoValidTextFiles: string := "No valid text files found in the folder."
  const NothingToCopy: string := "Nothing to copy!"
  const TextCopied: string := "Transformed text copied to clipboard!"

  /** The state of `FolderTextCollector` that its handlers change: the
      status label, the text shown in the read-only text field, the system
      clipboard, and whether the text field has its light green background. */
  class FolderTextCollector {
    var status: string
    var text: string
    var clipboard: string
    var highlighted: bool

    /** A fresh window; the clipboard holds whatever it held before. */
    constructor (clipboard: string)
      ensures status == SelectFolderPrompt && text == "" && this.clipboard == clipboard && !highlighted
    {
      status := SelectFolderPrompt;
      text := "";
      this.clipboard := clipboard;
      highlighted := false;
    }

    /** `process_folder`, with the folder dialog's answer given: `None` when
        no folder was chosen, otherwise the folder's files in walk order. */
    method ProcessFolder(folder: Option<seq<FileEntry>>)
      modifies this
      ensures clipboard == old(clipboard) && highlighted == old(highlighted)
      ensures folder.None? ==> status == NoFolderSelected && text == old(text)
      ensures folder.Some? && !IsBlank(CombinedText(folder.value)) ==>
        status == TextExtracted && text == CombinedText(folder.value)
      ensures folder.Some? && IsBlank(CombinedText(folder.value)) ==>
        status == NoValidTextFiles && text == ""
    {
      if folder.None? {
        status := NoFolderSelected;
        return;
      }
      var combined := CollectText(folder.value);
      if Strip(combined) != "" {
        text := combined;
        status := TextExtracted;
      } else {
        status := NoValidTextFiles;
        text := "";
      }
    }

    /** `copy_text`: blank text copies nothing and only sets the status;
        otherwise the transformed text goes to the clipboard and the text
        field turns light green. */
    method CopyText()
      modifies this
      ensures text == old(text)
      ensures IsBlank(old(text)) ==>
        status == NothingToCopy && clipboard == old(clipboard) && highlighted == old(highlighted)
      ensures !IsBlank(old(text)) ==>
        status == TextCopied && clipboard == TransformText(old(text)) && highlighted
    {
      var original := text;
      if Strip(original) == "" {
        status := NothingToCopy;
        return;
      }
      var transformed := TransformText(original);
      clipboard := transformed;
      highlighted := true;
      status := TextCopied;
    }

    /** `reset_text_edit_color`, run by the timer after a copy. */
    method ResetTextEditColor()
      modifies this
      ensures !highlighted
      ensures status == old(status) && text == old(text) && clipboard == old(clipboard)
    {
      highlighted := false;
    }
  }
}
