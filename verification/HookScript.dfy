/**
 The git hook scripts: rendering quotes every pipeline name for sh, and the status command reads the
 names back out of a script.
 */
module HookScript {
  import opened Text

  const CALL := "sparkwing run "

  // ---------------------------------------------------------------- quoting

  /** strings.ReplaceAll of a single quote by the four characters that end, escape and reopen. */
  function Escaped(s: string): string {
    if s == "" then ""
    else (if s[0] == '\'' then "'\\''" else [s[0]]) + Escaped(s[1..])
  }

  function ShellSingleQuote(s: string): string {
    "'" + Escaped(s) + "'"
  }

  /** The rest of a word scan from a position where the quote state is known. */
  function Scan(s: string, quoted: bool): string
    decreases |s|
  {
    if s == "" then ""
    else if s[0] == '\'' then Scan(s[1..], !quoted)
    else if s[0] == '\\' && !quoted && |s| > 1 then [s[1]] + Scan(s[2..], quoted)
    else if s[0] == ' ' && !quoted then ""
    else [s[0]] + Scan(s[1..], quoted)
  }

  function UpToSpace(s: string): string {
    if s == "" || s[0] == ' ' then "" else [s[0]] + UpToSpace(s[1..])
  }

  function FirstWord(s: string): string {
    if s != "" && s[0] == '\'' then Scan(s, false) else UpToSpace(s)
  }

  method FirstShellWord(s: string) returns (word: string)
    ensures word == FirstWord(s)
  {
    if s == "" || s[0] != '\'' {
      word := PlainWord(s);
    } else {
      word := QuotedWord(s);
    }
  }

  /** strings.Cut at the first space. */
  method PlainWord(s: string) returns (word: string)
    ensures word == UpToSpace(s)
  {
    word := "";
    var i := 0;
    while i < |s| && s[i] != ' '
      invariant 0 <= i <= |s|
      invariant UpToSpace(s) == word + UpToSpace(s[i..])
    {
      assert s[i..][1..] == s[i + 1..];
      word := word + [s[i]];
      i := i + 1;
    }
  }

  /** One turn of the word loop: a quote, an escaped pair, the end, or a character that stands for itself. */
  lemma {:induction false} ScanTurn(s: string, i: nat, quoted: bool)
    requires i < |s|
    ensures s[i] == '\'' ==> Scan(s[i..], quoted) == Scan(s[i + 1..], !quoted)
    ensures s[i] == '\\' && !quoted && i + 1 < |s| ==> Scan(s[i..], quoted) == [s[i + 1]] + Scan(s[i + 2..], quoted)
    ensures s[i] == ' ' && !quoted ==> Scan(s[i..], quoted) == ""
    ensures s[i] != '\'' && (s[i] == '\\' ==> quoted || i + 1 >= |s|) && (s[i] == ' ' ==> quoted) ==>
              Scan(s[i..], quoted) == [s[i]] + Scan(s[i + 1..], quoted)
  {
    var rest := s[i..];
    assert rest[0] == s[i] && rest[1..] == s[i + 1..] && (|rest| > 1 ==> rest[1] == s[i + 1] && rest[2..] == s[i + 2..]);
  }

  lemma {:induction false} WordGrows(whole: string, word: string, c: char, rest: string)
    requires whole == word + ([c] + rest)
    ensures whole == (word + [c]) + rest
  {
  }

  /** The word loop of firstShellWord with its index, quote flag and builder. */
  method QuotedWord(s: string) returns (word: string)
    ensures word == Scan(s, false)
  {
    word := "";
    var i, quoted := 0, false;
    while i < |s|
      invariant 0 <= i <= |s|
      invariant Scan(s, false) == word + Scan(s[i..], quoted)
    {
      ScanTurn(s, i, quoted);
      if s[i] == '\'' {
        quoted := !quoted;
      } else if s[i] == '\\' && !quoted && i + 1 < |s| {
        i := i + 1;
        WordGrows(Scan(s, false), word, s[i], Scan(s[i + 1..], quoted));
        word := word + [s[i]];
      } else if s[i] == ' ' && !quoted {
        return;
      } else {
        WordGrows(Scan(s, false), word, s[i], Scan(s[i + 1..], quoted));
        word := word + [s[i]];
      }
      i := i + 1;
    }
  }

  /** A shell word as section 2.2 of POSIX.1-2017 builds it from quoted, escaped and plain parts. */
  datatype Part = SingleQuoted(text: string) | Backslashed(c: char) | Plain(c: char)

  /** The characters section 2.2 gives a meaning, always or in places, unless they are quoted; no other white space either. */
  predicate Special(c: char) {
    c in "|&;<>()$`\\\"' \t\n*?[#~=%" || IsSpace(c)
  }

  predicate WellFormed(p: Part) {
    match p
    case SingleQuoted(text) => '\'' !in text
    case Backslashed(c) => c != '\n'
    case Plain(c) => !Special(c)
  }

  function Written(p: Part): string {
    match p
    case SingleQuoted(text) => "'" + text + "'"
    case Backslashed(c) => ['\\', c]
    case Plain(c) => [c]
  }

  function Meant(p: Part): string {
    match p
    case SingleQuoted(text) => text
    case Backslashed(c) => [c]
    case Plain(c) => [c]
  }

  function WrittenWord(parts: seq<Part>): string {
    if parts == [] then "" else Written(parts[0]) + WrittenWord(parts[1..])
  }

  function MeantWord(parts: seq<Part>): string {
    if parts == [] then "" else Meant(parts[0]) + MeantWord(parts[1..])
  }

  /** Nothing follows the word, or a space does. */
  predicate EndsWord(rest: string) {
    rest == "" || rest[0] == ' '
  }

  /** Without a leading quote the first word goes up to the first space, or to the end. */
  lemma {:induction false} PlainWordExactly(s: string)
    requires s == "" || s[0] != '\''
    ensures var w := FirstWord(s); w <= s && ' ' !in w && (|w| == |s| || s[|w|] == ' ')
  {
    UpToSpaceExactly(s);
  }

  lemma {:induction false} UpToSpaceExactly(s: string)
    ensures var w := UpToSpace(s); w <= s && ' ' !in w && (|w| == |s| || s[|w|] == ' ')
    decreases |s|
  {
    if s != "" && s[0] != ' ' {
      UpToSpaceExactly(s[1..]);
      assert s == [s[0]] + s[1..];
    }
  }

  /** A backslash with nothing behind it stands for itself, and a missing closing quote ends with the text. */
  lemma {:induction false} OpenEnds(text: string)
    requires '\'' !in text
    ensures Scan("\\", false) == "\\" && Scan(text, true) == text
    decreases |text|
  {
    if text != "" {
      assert text[0] in text && forall c :: c in text[1..] ==> c in text;
      OpenEnds(text[1..]);
      assert text == [text[0]] + text[1..];
    }
  }

  /** Inside single quotes every character stands for itself. */
  lemma {:induction false} ScanQuotedText(text: string, rest: string)
    requires '\'' !in text
    ensures Scan(text + "'" + rest, true) == text + Scan(rest, false)
    decreases |text|
  {
    var all := text + "'" + rest;
    if text == "" {
      assert all[1..] == rest;
    } else {
      assert all[0] == text[0] && text[0] in text && all[1..] == text[1..] + "'" + rest;
      forall c | c in text[1..] ensures c in text { }
      ScanQuotedText(text[1..], rest);
      assert text == [text[0]] + text[1..];
    }
  }

  lemma {:induction false} ScanReadsPart(p: Part, tail: string)
    requires WellFormed(p)
    ensures Scan(Written(p) + tail, false) == Meant(p) + Scan(tail, false)
  {
    var all := Written(p) + tail;
    match p
    case SingleQuoted(text) =>
      assert all[1..] == text + "'" + tail;
      ScanQuotedText(text, tail);
    case Backslashed(c) =>
      assert all[0] == '\\' && all[1] == c && all[2..] == tail;
    case Plain(c) =>
      assert all[0] == c && all[1..] == tail;
  }

  /** The scanner reads any well-formed word followed by its end, whatever it is made of. */
  lemma {:induction false} ScanReadsWord(parts: seq<Part>, rest: string)
    requires (forall i :: 0 <= i < |parts| ==> WellFormed(parts[i])) && EndsWord(rest)
    ensures Scan(WrittenWord(parts) + rest, false) == MeantWord(parts)
    decreases |parts|
  {
    if parts == [] {
      assert WrittenWord(parts) + rest == rest;
    } else {
      var tail := WrittenWord(parts[1..]) + rest;
      assert WrittenWord(parts) + rest == Written(parts[0]) + tail;
      ScanReadsPart(parts[0], tail);
      ScanReadsWord(parts[1..], rest);
    }
  }

  /** How a name is cut at its quotes: each character alone, quoted or backslashed, between empty runs. */
  function QuoteParts(s: string): seq<Part> {
    if s == "" then [SingleQuoted("")]
    else
      var rest := QuoteParts(s[1..]);
      if s[0] == '\'' then [SingleQuoted(""), Backslashed('\'')] + rest else Extend(s[0], rest)
  }

  /** One more character at the front of the first quoted run. */
  function Extend(c: char, parts: seq<Part>): seq<Part> {
    if parts != [] && parts[0].SingleQuoted? then [SingleQuoted([c] + parts[0].text)] + parts[1..] else parts
  }

  lemma {:induction false} QuotePartsWellFormed(s: string)
    ensures |QuoteParts(s)| > 0 && QuoteParts(s)[0].SingleQuoted?
    ensures forall i :: 0 <= i < |QuoteParts(s)| ==> WellFormed(QuoteParts(s)[i])
    decreases |s|
  {
    if s != "" { QuotePartsWellFormed(s[1..]); }
  }

  lemma {:induction false} FirstPart(p: Part, parts: seq<Part>)
    ensures WrittenWord([p] + parts) == Written(p) + WrittenWord(parts)
    ensures MeantWord([p] + parts) == Meant(p) + MeantWord(parts)
  {
    assert ([p] + parts)[1..] == parts;
  }

  lemma {:induction false} ExtendWrites(c: char, text: string, tail: seq<Part>, body: string)
    requires WrittenWord([SingleQuoted(text)] + tail) == "'" + body + "'"
    ensures WrittenWord([SingleQuoted([c] + text)] + tail) == "'" + ([c] + body) + "'"
    ensures MeantWord([SingleQuoted([c] + text)] + tail) == [c] + MeantWord([SingleQuoted(text)] + tail)
  {
    FirstPart(SingleQuoted(text), tail);
    FirstPart(SingleQuoted([c] + text), tail);
    InsertAfterQuote(c, text, WrittenWord(tail), body);
    assert ([c] + text) + MeantWord(tail) == [c] + (text + MeantWord(tail));
  }

  lemma {:induction false} InsertAfterQuote(c: char, text: string, after: string, body: string)
    requires ("'" + text + "'") + after == "'" + body + "'"
    ensures ("'" + ([c] + text) + "'") + after == "'" + ([c] + body) + "'"
  {
    var w := ("'" + text + "'") + after;
    var v := ("'" + ([c] + text) + "'") + after;
    assert v == ['\'', c] + w[1..];
    assert "'" + ([c] + body) + "'" == ['\'', c] + ("'" + body + "'")[1..];
  }

  lemma {:induction false} TwoPartsFirst(p: Part, q: Part, parts: seq<Part>)
    ensures WrittenWord([p, q] + parts) == Written(p) + (Written(q) + WrittenWord(parts))
    ensures MeantWord([p, q] + parts) == Meant(p) + (Meant(q) + MeantWord(parts))
  {
    assert ([p, q] + parts)[1..] == [q] + parts && ([q] + parts)[1..] == parts;
  }

  lemma {:induction false} EscapeWrites(parts: seq<Part>, body: string)
    requires WrittenWord(parts) == "'" + body + "'"
    ensures WrittenWord([SingleQuoted(""), Backslashed('\'')] + parts) == "'" + ("'\\''" + body) + "'"
    ensures MeantWord([SingleQuoted(""), Backslashed('\'')] + parts) == "'" + MeantWord(parts)
  {
    TwoPartsFirst(SingleQuoted(""), Backslashed('\''), parts);
    EscapeShuffle(body);
  }

  lemma {:induction false} EscapeShuffle(body: string)
    ensures ("'" + "" + "'") + (['\\', '\''] + ("'" + body + "'")) == "'" + ("'\\''" + body) + "'"
  {
    var front := ['\'', '\'', '\\', '\''];
    assert ("'" + "" + "'") + (['\\', '\''] + ("'" + body + "'")) == front + ['\''] + body + ['\''];
    assert "'" + ("'\\''" + body) + "'" == front + ['\''] + body + ['\''];
  }

  /** Quoting writes a well-formed word that means exactly the name. */
  lemma {:induction false} QuoteIsAWord(s: string)
    ensures WrittenWord(QuoteParts(s)) == ShellSingleQuote(s) && MeantWord(QuoteParts(s)) == s
    decreases |s|
  {
    if s == "" {
      assert QuoteParts(s)[1..] == [];
    } else {
      var rest := QuoteParts(s[1..]);
      QuoteIsAWord(s[1..]);
      QuotePartsWellFormed(s[1..]);
      assert s == [s[0]] + s[1..];
      if s[0] == '\'' {
        EscapeWrites(rest, Escaped(s[1..]));
      } else {
        assert rest == [SingleQuoted(rest[0].text)] + rest[1..];
        ExtendWrites(s[0], rest[0].text, rest[1..], Escaped(s[1..]));
      }
    }
  }

  /** The first word of a quoted name is the name, for every name. */
  lemma {:induction false} FirstWordOfQuoted(s: string, rest: string)
    requires EndsWord(rest)
    ensures FirstWord(ShellSingleQuote(s) + rest) == s
  {
    QuoteIsAWord(s);
    QuotePartsWellFormed(s);
    ScanReadsWord(QuoteParts(s), rest);
    assert (ShellSingleQuote(s) + rest)[0] == '\'';
  }

  // ---------------------------------------------------------------- reading a script

  function Collect(line: string): seq<string> {
    var t := TrimSpace(line);
    if CALL <= t then [FirstWord(t[|CALL|..])] else []
  }

  function CollectAll(lines: seq<string>): seq<string> {
    if lines == [] then [] else CollectAll(lines[..|lines| - 1]) + Collect(lines[|lines| - 1])
  }

  function Describe(script: string): seq<string> {
    CollectAll(Split(script, '\n'))
  }

  method DescribeManagedHook(script: string) returns (pipes: seq<string>)
    ensures pipes == Describe(script)
  {
    var lines := Split(script, '\n');
    pipes := [];
    var k := 0;
    while k < |lines|
      invariant 0 <= k <= |lines| && pipes == CollectAll(lines[..k])
    {
      var line := TrimSpace(lines[k]);
      if CALL <= line {
        var word := FirstShellWord(line[|CALL|..]);
        pipes := pipes + [word];
      }
      assert lines[..k + 1][..k] == lines[..k];
      k := k + 1;
    }
    assert lines[..k] == lines;
  }

  lemma {:induction false} CollectAllSplits(a: seq<string>, b: seq<string>)
    ensures CollectAll(a + b) == CollectAll(a) + CollectAll(b)
    decreases |b|
  {
    if b == [] {
      assert a + b == a;
    } else {
      assert (a + b)[..|a + b| - 1] == a + b[..|b| - 1];
      CollectAllSplits(a, b[..|b| - 1]);
    }
  }

  // ---------------------------------------------------------------- writing a script

  const GATE_INDEX_VAR := "SPARKWING_GATE_INDEX"
  const WINDOWS_PATHS := "|[a-zA-Z]:/*|[a-zA-Z]:\\\\*|\\\\*"

  const BINDING_VARS := [
    "GIT_DIR", "GIT_WORK_TREE", "GIT_INDEX_FILE", "GIT_PREFIX", "GIT_COMMON_DIR", "GIT_OBJECT_DIRECTORY",
    "GIT_ALTERNATE_OBJECT_DIRECTORIES", "GIT_NAMESPACE", "GIT_QUARANTINE_PATH"]

  /** Each word after a space. */
  function Spaced(words: seq<string>): string {
    if words == [] then "" else " " + words[0] + Spaced(words[1..])
  }

  function AbsoluteLine(windows: bool): string {
    "\t/*" + ((if windows then WINDOWS_PATHS else "") + ") " + GATE_INDEX_VAR + "=\"$GIT_INDEX_FILE\" ;;")
  }

  function RelativeLine(): string {
    "\t*) " + (GATE_INDEX_VAR + "=\"$(pwd)/$GIT_INDEX_FILE\" ;;")
  }

  function ExportLine(): string {
    "\texport " + GATE_INDEX_VAR
  }

  function UnsetLine(words: seq<string>): string {
    "unset" + Spaced(words)
  }

  /** gitenv.ShellUnbind, line by line; the pattern for absolute paths depends on the system. */
  function UnbindLine(i: nat, windows: bool): string
    requires i < 8
  {
    match i
    case 0 => "if [ -n \"${GIT_INDEX_FILE:-}\" ]; then"
    case 1 => "\tcase \"$GIT_INDEX_FILE\" in"
    case 2 => AbsoluteLine(windows)
    case 3 => RelativeLine()
    case 4 => "\tesac"
    case 5 => ExportLine()
    case 6 => "fi"
    case _ => UnsetLine(BINDING_VARS)
  }

  function UnbindLines(windows: bool): seq<string> {
    seq(8, i requires 0 <= i < 8 => UnbindLine(i, windows))
  }

  function MarkerLine(): string {
    "# " + (MarkerName() + MarkerAdvice())
  }

  function MarkerName(): string {
    "Installed by sparkwing" + " " + "(format 1)"
  }

  function MarkerAdvice(): string {
    " -- do not edit; use " + "`sparkwing pipeline hooks (un)install`"
  }

  function LogFormatLine(): string {
    "export " + ("SPARKWING_LOG_FORMAT=" + "\"${SPARKWING_LOG_FORMAT:-plain}\"")
  }

  function PipeLine(pipe: string, blocking: bool): string {
    CALL + ShellSingleQuote(pipe) + if blocking then "" else " || true"
  }

  function PipeLines(pipes: seq<string>, blocking: bool): seq<string> {
    if pipes == [] then [] else PipeLines(pipes[..|pipes| - 1], blocking) + [PipeLine(pipes[|pipes| - 1], blocking)]
  }

  function Blocking(hook: string): bool {
    hook != "post-commit"
  }

  function Header(): seq<string> {
    ["#!/bin/sh", MarkerLine()]
  }

  function LogPart(pipes: seq<string>): seq<string> {
    if |pipes| > 0 then [LogFormatLine()] else []
  }

  function ErrexitPart(hook: string): seq<string> {
    if Blocking(hook) then ["set -e"] else []
  }

  function OpenGroup(pipes: seq<string>, windows: bool): seq<string> {
    if |pipes| > 0 then ["("] + UnbindLines(windows) else []
  }

  function CloseGroup(pipes: seq<string>): seq<string> {
    if |pipes| > 0 then [")"] else []
  }

  function ExitPart(hook: string): seq<string> {
    if Blocking(hook) then [] else ["exit 0"]
  }

  function Opening(hook: string, pipes: seq<string>, windows: bool): seq<string> {
    Header() + LogPart(pipes) + ErrexitPart(hook) + OpenGroup(pipes, windows)
  }

  function Closing(hook: string, pipes: seq<string>): seq<string> {
    CloseGroup(pipes) + ExitPart(hook)
  }

  function Joined(lines: seq<string>): string {
    if lines == [] then "" else Joined(lines[..|lines| - 1]) + (lines[|lines| - 1] + ['\n'])
  }

  function Script(hook: string, pipes: seq<string>, windows: bool): string {
    Joined(Opening(hook, pipes, windows)) + Joined(PipeLines(pipes, Blocking(hook))) + Joined(Closing(hook, pipes))
  }

  /** One line more in a builder that already holds a beginning and some lines. */
  function Appended(r: string, ghost b: string, ghost written: string, line: string): (r': string)
    requires r == b + written
    ensures r' == b + (written + (line + ['\n']))
  {
    r + (line + ['\n'])
  }

  method WriteLines(b: string, lines: seq<string>) returns (r: string)
    ensures r == b + Joined(lines)
  {
    r := b;
    var k := 0;
    while k < |lines|
      invariant 0 <= k <= |lines| && r == b + Joined(lines[..k])
    {
      JoinedNext(lines, k);
      r := Appended(r, b, Joined(lines[..k]), lines[k]);
      k := k + 1;
    }
    assert lines[..k] == lines;
  }

  lemma {:induction false} JoinedNext(lines: seq<string>, k: nat)
    requires k < |lines|
    ensures Joined(lines[..k + 1]) == Joined(lines[..k]) + (lines[k] + ['\n'])
  {
    assert lines[..k + 1][..k] == lines[..k];
  }

  lemma {:induction false} PipeLinesNext(pipes: seq<string>, blocking: bool, k: nat)
    requires k < |pipes|
    ensures Joined(PipeLines(pipes[..k + 1], blocking)) == Joined(PipeLines(pipes[..k], blocking)) + (PipeLine(pipes[k], blocking) + ['\n'])
  {
    var before, after := PipeLines(pipes[..k], blocking), PipeLines(pipes[..k + 1], blocking);
    assert pipes[..k + 1][..k] == pipes[..k];
    assert after == before + [PipeLine(pipes[k], blocking)];
    JoinedNext(after, |before|);
    assert after[..|before|] == before && after[..|before| + 1] == after;
  }

  /** The loop over the pipelines: one quoted call a line. */
  method WritePipes(b: string, pipes: seq<string>, blocking: bool) returns (r: string)
    ensures r == b + Joined(PipeLines(pipes, blocking))
  {
    r := b;
    var k := 0;
    while k < |pipes|
      invariant 0 <= k <= |pipes| && r == b + Joined(PipeLines(pipes[..k], blocking))
    {
      PipeLinesNext(pipes, blocking, k);
      r := Appended(r, b, Joined(PipeLines(pipes[..k], blocking)), PipeLine(pipes[k], blocking));
      k := k + 1;
    }
    assert pipes[..k] == pipes;
  }

  method WriteScript(opening: seq<string>, pipes: seq<string>, blocking: bool, closing: seq<string>) returns (b: string)
    ensures b == Joined(opening) + Joined(PipeLines(pipes, blocking)) + Joined(closing)
  {
    b := WriteLines("", opening);
    b := WritePipes(b, pipes, blocking);
    b := WriteLines(b, closing);
  }

  method RenderHookScript(hook: string, pipes: seq<string>, windows: bool) returns (b: string)
    ensures b == Script(hook, pipes, windows)
  {
    b := WriteScript(Opening(hook, pipes, windows), pipes, Blocking(hook), Closing(hook, pipes));
  }

  // ---------------------------------------------------------------- round trip

  ghost predicate NewlineFree(lines: seq<string>) {
    forall i :: 0 <= i < |lines| ==> '\n' !in lines[i]
  }

  lemma {:induction false} JoinedSplits(init: seq<string>, last: string, rest: string)
    ensures Joined(init + [last]) + rest == Joined(init) + (last + ['\n'] + rest)
  {
    var lines := init + [last];
    assert lines[..|init|] == init;
    assert Joined(lines) == Joined(init) + (last + ['\n']);
  }

  lemma {:induction false} PiecesAssociate(a: seq<string>, b: seq<string>, c: seq<string>)
    ensures a + (b + c) == a + b + c
  {
  }

  lemma {:induction false} SplitOneMore(init: seq<string>, last: string, rest: string)
    requires '\n' !in last
    requires Split(Joined(init) + (last + ['\n'] + rest), '\n') == init + Split(last + ['\n'] + rest, '\n')
    ensures Split(Joined(init + [last]) + rest, '\n') == init + [last] + Split(rest, '\n')
  {
    var tail, pieces := last + ['\n'] + rest, Split(rest, '\n');
    JoinedSplits(init, last, rest);
    SplitAfterPiece(last, rest, '\n');
    assert Split(tail, '\n') == [last] + pieces;
    PiecesAssociate(init, [last], pieces);
  }

  /** Written lines without newlines are the pieces a script splits into. */
  lemma {:induction false} SplitOfJoined(lines: seq<string>, rest: string)
    requires NewlineFree(lines)
    ensures Split(Joined(lines) + rest, '\n') == lines + Split(rest, '\n')
    decreases |lines|
  {
    if lines == [] {
      assert Joined(lines) + rest == rest;
    } else {
      var init, last := lines[..|lines| - 1], lines[|lines| - 1];
      assert lines == init + [last];
      SplitOfJoined(init, last + ['\n'] + rest);
      SplitOneMore(init, last, rest);
    }
  }

  /** A line whose first character after white space is no 's' calls no pipeline. */
  lemma {:induction false} NoCall(line: string, k: nat)
    requires k < |line| && !IsSpace(line[k]) && line[k] != 's' && forall i :: 0 <= i < k ==> IsSpace(line[i])
    ensures Collect(line) == []
    decreases k
  {
    assert CALL[0] == 's';
    if k > 0 {
      NoCall(line[1..], k - 1);
      assert TrimLeft(line) == TrimLeft(line[1..]);
    } else {
      TrimRightIsPrefix(line);
      assert TrimLeft(line) == line;
    }
  }

  lemma {:induction false} ShortNoCall(line: string)
    requires |line| < |CALL|
    ensures Collect(line) == []
  {
    TrimSpaceAddsNothing(line);
  }

  predicate Quiet(line: string) {
    '\n' !in line && Collect(line) == []
  }

  lemma {:induction false} QuietAt(line: string, k: nat)
    requires '\n' !in line && k < |line| && !IsSpace(line[k]) && line[k] != 's'
    requires forall i :: 0 <= i < k ==> IsSpace(line[i])
    ensures Quiet(line)
  {
    NoCall(line, k);
  }

  lemma {:induction false} QuietShort(line: string)
    requires '\n' !in line && |line| < |CALL|
    ensures Quiet(line)
  {
    ShortNoCall(line);
  }

  /** Only the beginning of a line decides; the rest just has to stay on the line. */
  lemma {:induction false} QuietHead(head: string, k: nat, rest: string)
    requires '\n' !in head && '\n' !in rest && k < |head| && !IsSpace(head[k]) && head[k] != 's'
    requires forall i :: 0 <= i < k ==> IsSpace(head[i])
    ensures Quiet(head + rest)
  {
    assert forall i :: 0 <= i < |head| ==> (head + rest)[i] == head[i];
    QuietAt(head + rest, k);
  }

  lemma {:induction false} AbsoluteQuiet(windows: bool)
    ensures Quiet(AbsoluteLine(windows))
  {
    assert '\n' !in WINDOWS_PATHS;
    assert '\n' !in GATE_INDEX_VAR;
    assert '\n' !in "=\"$GIT_INDEX_FILE\" ;;";
    QuietHead("\t/*", 1, (if windows then WINDOWS_PATHS else "") + ") " + GATE_INDEX_VAR + "=\"$GIT_INDEX_FILE\" ;;");
  }

  lemma {:induction false} RelativeQuiet()
    ensures Quiet(RelativeLine())
  {
    assert '\n' !in GATE_INDEX_VAR;
    assert '\n' !in "=\"$(pwd)/$GIT_INDEX_FILE\" ;;";
    QuietHead("\t*) ", 1, GATE_INDEX_VAR + "=\"$(pwd)/$GIT_INDEX_FILE\" ;;");
  }

  lemma {:induction false} ExportQuiet()
    ensures Quiet(ExportLine())
  {
    assert '\n' !in GATE_INDEX_VAR;
    QuietHead("\texport ", 1, GATE_INDEX_VAR);
  }

  lemma {:induction false} SpacedHasNoNewline(words: seq<string>)
    requires forall i :: 0 <= i < |words| ==> '\n' !in words[i]
    ensures '\n' !in Spaced(words)
    decreases |words|
  {
    if words != [] { SpacedHasNoNewline(words[1..]); }
  }

  lemma {:induction false} UnsetQuiet(words: seq<string>)
    requires forall i :: 0 <= i < |words| ==> '\n' !in words[i]
    ensures Quiet(UnsetLine(words))
  {
    SpacedHasNoNewline(words);
    QuietHead("unset", 0, Spaced(words));
  }

  lemma {:induction false} MarkerNameStays()
    ensures '\n' !in MarkerName()
  {
    assert '\n' !in "Installed by sparkwing";
  }

  lemma {:induction false} MarkerAdviceStays()
    ensures '\n' !in MarkerAdvice()
  {
    assert '\n' !in " -- do not edit; use ";
    assert '\n' !in "`sparkwing pipeline hooks (un)install`";
  }

  lemma {:induction false} BothStay(a: string, b: string)
    requires '\n' !in a && '\n' !in b
    ensures '\n' !in a + b
  {
  }

  lemma {:induction false} MarkerQuiet()
    ensures Quiet(MarkerLine())
  {
    MarkerNameStays();
    MarkerAdviceStays();
    BothStay(MarkerName(), MarkerAdvice());
    QuietHead("# ", 0, MarkerName() + MarkerAdvice());
  }

  lemma {:induction false} LogFormatStays()
    ensures '\n' !in "SPARKWING_LOG_FORMAT=" + "\"${SPARKWING_LOG_FORMAT:-plain}\""
  {
    assert '\n' !in "SPARKWING_LOG_FORMAT=";
    assert '\n' !in "\"${SPARKWING_LOG_FORMAT:-plain}\"";
    BothStay("SPARKWING_LOG_FORMAT=", "\"${SPARKWING_LOG_FORMAT:-plain}\"");
  }

  lemma {:induction false} LogFormatQuiet()
    ensures Quiet(LogFormatLine())
  {
    LogFormatStays();
    QuietHead("export ", 0, "SPARKWING_LOG_FORMAT=" + "\"${SPARKWING_LOG_FORMAT:-plain}\"");
  }

  ghost predicate AllQuiet(lines: seq<string>) {
    forall i :: 0 <= i < |lines| ==> Quiet(lines[i])
  }

  lemma {:induction false} AllQuietSplits(a: seq<string>, b: seq<string>)
    requires AllQuiet(a) && AllQuiet(b)
    ensures AllQuiet(a + b)
  {
  }

  lemma {:induction false} IfQuiet()
    ensures Quiet(UnbindLine(0, true)) && Quiet(UnbindLine(0, false))
  {
    QuietAt("if [ -n \"${GIT_INDEX_FILE:-}\" ]; then", 0);
  }

  lemma {:induction false} CaseQuiet()
    ensures Quiet(UnbindLine(1, true)) && Quiet(UnbindLine(1, false))
  {
    QuietAt("\tcase \"$GIT_INDEX_FILE\" in", 1);
  }

  lemma {:induction false} UnbindLineQuiet(i: nat, windows: bool)
    requires i < 8
    ensures Quiet(UnbindLine(i, windows))
  {
    match i
    case 0 => IfQuiet();
    case 1 => CaseQuiet();
    case 2 => AbsoluteQuiet(windows);
    case 3 => RelativeQuiet();
    case 4 => QuietShort("\tesac");
    case 5 => ExportQuiet();
    case 6 => QuietShort("fi");
    case _ => UnsetQuiet(BINDING_VARS);
  }

  lemma {:induction false} UnbindQuiet(windows: bool)
    ensures AllQuiet(UnbindLines(windows))
  {
    forall i: nat | i < 8
      ensures Quiet(UnbindLines(windows)[i])
    {
      UnbindLineQuiet(i, windows);
    }
  }

  lemma {:induction false} HeaderQuiet()
    ensures AllQuiet(Header())
  {
    QuietShort("#!/bin/sh");
    MarkerQuiet();
  }

  lemma {:induction false} OpenGroupQuiet(pipes: seq<string>, windows: bool)
    ensures AllQuiet(OpenGroup(pipes, windows))
  {
    QuietShort("(");
    UnbindQuiet(windows);
    AllQuietSplits(["("], UnbindLines(windows));
  }

  lemma {:induction false} OpeningQuiet(hook: string, pipes: seq<string>, windows: bool)
    ensures AllQuiet(Opening(hook, pipes, windows))
  {
    HeaderQuiet();
    LogFormatQuiet();
    QuietShort("set -e");
    OpenGroupQuiet(pipes, windows);
    AllQuietSplits(Header(), LogPart(pipes));
    AllQuietSplits(Header() + LogPart(pipes), ErrexitPart(hook));
    AllQuietSplits(Header() + LogPart(pipes) + ErrexitPart(hook), OpenGroup(pipes, windows));
  }

  lemma {:induction false} ClosingQuiet(hook: string, pipes: seq<string>)
    ensures AllQuiet(Closing(hook, pipes))
  {
    QuietShort(")");
    QuietShort("exit 0");
    AllQuietSplits(CloseGroup(pipes), ExitPart(hook));
  }

  lemma {:induction false} QuietLinesCollectNothing(lines: seq<string>)
    requires forall i :: 0 <= i < |lines| ==> Collect(lines[i]) == []
    ensures CollectAll(lines) == []
    decreases |lines|
  {
    if lines != [] { QuietLinesCollectNothing(lines[..|lines| - 1]); }
  }

  lemma {:induction false} EscapedAddsNoNewline(s: string)
    requires '\n' !in s
    ensures '\n' !in Escaped(s)
    decreases |s|
  {
    if s != "" {
      assert s[0] in s;
      forall c | c in s[1..] ensures c in s { }
      EscapedAddsNoNewline(s[1..]);
    }
  }

  /** The line of one pipeline yields exactly its name. */
  lemma {:induction false} PipeLineReadsBack(pipe: string, blocking: bool)
    requires '\n' !in pipe
    ensures '\n' !in PipeLine(pipe, blocking) && Collect(PipeLine(pipe, blocking)) == [pipe]
  {
    var line := PipeLine(pipe, blocking);
    var tail := if blocking then "" else " || true";
    EscapedAddsNoNewline(pipe);
    assert line == CALL + (ShellSingleQuote(pipe) + tail);
    TrimSpaceOfTrimmed(line);
    assert line[|CALL|..] == ShellSingleQuote(pipe) + tail;
    FirstWordOfQuoted(pipe, tail);
  }

  lemma {:induction false} CollectNext(lines: seq<string>, line: string)
    ensures CollectAll(lines + [line]) == CollectAll(lines) + Collect(line)
  {
    assert (lines + [line])[..|lines|] == lines;
  }

  lemma {:induction false} PipeLinesStay(pipes: seq<string>, blocking: bool)
    requires NewlineFree(pipes)
    ensures NewlineFree(PipeLines(pipes, blocking))
    decreases |pipes|
  {
    if pipes != [] {
      PipeLinesStay(pipes[..|pipes| - 1], blocking);
      PipeLineReadsBack(pipes[|pipes| - 1], blocking);
    }
  }

  lemma {:induction false} PipeLinesSnoc(pipes: seq<string>, pipe: string, blocking: bool)
    ensures PipeLines(pipes + [pipe], blocking) == PipeLines(pipes, blocking) + [PipeLine(pipe, blocking)]
  {
    assert (pipes + [pipe])[..|pipes|] == pipes;
  }

  lemma {:induction false} PipeLinesReadBack(pipes: seq<string>, blocking: bool)
    requires NewlineFree(pipes)
    ensures CollectAll(PipeLines(pipes, blocking)) == pipes
    decreases |pipes|
  {
    if |pipes| > 0 {
      var init, last := pipes[..|pipes| - 1], pipes[|pipes| - 1];
      assert pipes == init + [last];
      PipeLinesReadBack(init, blocking);
      PipeLineReadsBack(last, blocking);
      PipeLinesSnoc(init, last, blocking);
      CollectNext(PipeLines(init, blocking), PipeLine(last, blocking));
    }
  }

  /** Written lines are split back into themselves and an empty last one. */
  lemma {:induction false} SplitOfThree(a: seq<string>, b: seq<string>, c: seq<string>)
    requires NewlineFree(a) && NewlineFree(b) && NewlineFree(c)
    ensures Split(Joined(a) + Joined(b) + Joined(c), '\n') == a + (b + (c + [""]))
  {
    assert Joined(c) + "" == Joined(c);
    assert Joined(a) + Joined(b) + Joined(c) == Joined(a) + (Joined(b) + Joined(c));
    SplitOfJoined(c, "");
    SplitOfJoined(b, Joined(c));
    SplitOfJoined(a, Joined(b) + Joined(c));
  }

  lemma {:induction false} CollectFramed(a: seq<string>, b: seq<string>, c: seq<string>)
    requires CollectAll(a) == [] && CollectAll(c) == []
    ensures CollectAll(a + (b + c)) == CollectAll(b)
  {
    CollectAllSplits(a, b + c);
    CollectAllSplits(b, c);
  }

  /** Quiet lines around the calls are not read. */
  lemma {:induction false} DescribeFramed(a: seq<string>, b: seq<string>, c: seq<string>)
    requires AllQuiet(a) && NewlineFree(b) && AllQuiet(c)
    ensures Describe(Joined(a) + Joined(b) + Joined(c)) == CollectAll(b)
  {
    SplitOfThree(a, b, c);
    ShortNoCall("");
    QuietLinesCollectNothing(a);
    QuietLinesCollectNothing(c + [""]);
    CollectFramed(a, b, c + [""]);
  }

  /** Status reads back exactly the pipelines an installed hook runs. */
  lemma {:induction false} HookRoundTrip(hook: string, pipes: seq<string>, windows: bool)
    requires NewlineFree(pipes)
    ensures Describe(Script(hook, pipes, windows)) == pipes
  {
    OpeningQuiet(hook, pipes, windows);
    ClosingQuiet(hook, pipes);
    PipeLinesStay(pipes, Blocking(hook));
    PipeLinesReadBack(pipes, Blocking(hook));
    DescribeFramed(Opening(hook, pipes, windows), PipeLines(pipes, Blocking(hook)), Closing(hook, pipes));
  }

  // ---------------------------------------------------------------- names with newlines

  lemma {:induction false} ScanAddsNothing(s: string, quoted: bool)
    ensures forall c :: c in Scan(s, quoted) ==> c in s
    decreases |s|
  {
    if s != "" {
      ScanAddsNothing(s[1..], quoted);
      ScanAddsNothing(s[1..], !quoted);
      if |s| > 1 { ScanAddsNothing(s[2..], quoted); }
    }
  }

  lemma {:induction false} UpToSpaceAddsNothing(s: string)
    ensures forall c :: c in UpToSpace(s) ==> c in s
    decreases |s|
  {
    if s != "" { UpToSpaceAddsNothing(s[1..]); }
  }

  lemma {:induction false} CollectAddsNothing(line: string)
    requires '\n' !in line
    ensures NewlineFree(Collect(line))
  {
    TrimSpaceAddsNothing(line);
    var t := TrimSpace(line);
    if CALL <= t {
      var u := t[|CALL|..];
      assert forall c :: c in u ==> c in t;
      ScanAddsNothing(u, false);
      UpToSpaceAddsNothing(u);
    }
  }

  lemma {:induction false} CollectAllAddsNothing(lines: seq<string>)
    requires NewlineFree(lines)
    ensures NewlineFree(CollectAll(lines))
    decreases |lines|
  {
    if lines != [] {
      CollectAllAddsNothing(lines[..|lines| - 1]);
      CollectAddsNothing(lines[|lines| - 1]);
    }
  }

  /** The round trip holds exactly for names without a newline. */
  lemma {:induction false} HookRoundTripExactly(hook: string, pipes: seq<string>, windows: bool)
    ensures Describe(Script(hook, pipes, windows)) == pipes <==> NewlineFree(pipes)
  {
    if NewlineFree(pipes) {
      HookRoundTrip(hook, pipes, windows);
    } else {
      var script := Script(hook, pipes, windows);
      SplitPieces(script, '\n');
      CollectAllAddsNothing(Split(script, '\n'));
    }
  }
}
