/**
 The dashboard log tail: a window of the file's end, cut into lines, then followed as bytes arrive.
 A file is a string with one character per byte.
 */
module LogTail {
  import opened Results
  import opened Text

  const LINE_CAP := 16 * 1024
  const WINDOW := 1024 * 1024
  const OMITTED := "[earlier line bytes omitted] "

  datatype Line = Line(text: string, truncated: bool)

  const EMPTY := Line("", false)

  // ---------------------------------------------------------------- building one line

  function Append(line: Line, fragment: string): (r: Line)
    requires |line.text| <= LINE_CAP
    ensures |r.text| <= LINE_CAP
  {
    var remaining := LINE_CAP - |line.text|;
    if |fragment| > remaining then Line(line.text + fragment[..remaining], true)
    else Line(line.text + fragment, line.truncated)
  }

  /** A whole line, cut at the cap, marked exactly when bytes were dropped. */
  function Capped(raw: string): Line {
    if |raw| > LINE_CAP then Line(raw[..LINE_CAP], true) else Line(raw, false)
  }

  function CapAll(raw: seq<string>): seq<Line> {
    seq(|raw|, i requires 0 <= i < |raw| => Capped(raw[i]))
  }

  /** A line under construction; appendDashboardLog updates it in place. */
  class PendingLine {
    var text: string
    var truncated: bool

    constructor ()
      ensures View() == EMPTY
    {
      text, truncated := "", false;
    }

    function View(): Line
      reads this
    {
      Line(text, truncated)
    }

    method AppendFragment(fragment: string)
      requires |text| <= LINE_CAP
      modifies this
      ensures View() == Append(old(View()), fragment)
    {
      var remaining := LINE_CAP - |text|;
      var take := |fragment|;
      if take > remaining {
        take := remaining;
        truncated := true;
      }
      assert take == |fragment| ==> fragment[..take] == fragment;
      text := text + fragment[..take];
    }

    method Clear()
      modifies this
      ensures View() == EMPTY
    {
      text, truncated := "", false;
    }
  }

  /** The result does not depend on how a line's bytes were cut into fragments. */
  lemma {:induction false} AppendTwice(line: Line, a: string, b: string)
    requires |line.text| <= LINE_CAP
    ensures Append(Append(line, a), b) == Append(line, a + b)
  {
    var remaining := LINE_CAP - |line.text|;
    if |a| > remaining {
      assert (a + b)[..remaining] == a[..remaining];
      assert Append(line, a).text + b[..0] == Append(line, a).text;
    } else if |a| + |b| > remaining {
      assert (a + b)[..remaining] == a + b[..remaining - |a|];
    } else {
      assert line.text + a + b == line.text + (a + b);
    }
  }

  lemma {:induction false} CappedIsAppend(raw: string)
    ensures Append(EMPTY, raw) == Capped(raw)
  {
    assert "" + raw == raw;
    if |raw| > LINE_CAP { assert "" + raw[..LINE_CAP] == raw[..LINE_CAP]; }
  }

  /** A line grows to 16 KiB and no further; it is truncated from the first byte that found no room. */
  lemma {:induction false} AppendExactly(line: Line, fragment: string)
    requires |line.text| <= 16 * 1024
    ensures var r := Append(line, fragment);
            && r.text <= line.text + fragment
            && |r.text| == (if |line.text| + |fragment| < 16 * 1024 then |line.text| + |fragment| else 16 * 1024)
            && (r.truncated <==> line.truncated || |line.text| + |fragment| > 16 * 1024)
  {
  }

  // ---------------------------------------------------------------- the lines of a file

  predicate EndsLine(data: string) {
    data != "" && data[|data| - 1] == '\n'
  }

  /** bytes.TrimSuffix with one newline. */
  function Trimmed(data: string): string {
    if EndsLine(data) then data[..|data| - 1] else data
  }

  function Parts(data: string): seq<string> {
    Split(Trimmed(data), '\n')
  }

  /** All lines of a file, the unfinished last one included; an empty file has none. */
  function FileLines(file: string): seq<string> {
    if file == "" then [] else Parts(file)
  }

  function LastOf<T>(s: seq<T>, n: nat): seq<T> {
    if |s| <= n then s else s[|s| - n..]
  }

  function WindowOf(file: string): string {
    if |file| > WINDOW then file[|file| - WINDOW..] else file
  }

  /** The window holds no line break, so the one line it shows is marked as cut. */
  predicate PrefixOmitted(file: string) {
    |file| > WINDOW && |Parts(WindowOf(file))| == 1
  }

  /** The window's first part is dropped, cut or not, and the others are fewer than were asked for. */
  predicate ExceedsWindow(file: string, limit: nat) {
    |file| > WINDOW && 1 < |Parts(WindowOf(file))| <= limit
  }

  /** All but the last piece of a split: the lines that are complete. */
  function Complete(s: string): seq<string> {
    Split(s, '\n')[..|Split(s, '\n')| - 1]
  }

  /** The bytes after the last line break. */
  function Unfinished(s: string): string {
    Split(s, '\n')[|Split(s, '\n')| - 1]
  }

  /** Two split strings put together: the pieces at the seam grow into one. */
  function Seam(a: seq<string>, b: seq<string>): seq<string>
    requires |a| > 0 && |b| > 0
  {
    a[..|a| - 1] + [a[|a| - 1] + b[0]] + b[1..]
  }

  lemma {:induction false} SeamPush(x: seq<string>, a: seq<string>, b: seq<string>)
    requires |a| > 0 && |b| > 0
    ensures Seam(x + a, b) == x + Seam(a, b)
  {
  }

  lemma {:induction false} SeamGrow(c: char, a: seq<string>, b: seq<string>)
    requires |a| > 0 && |b| > 0
    ensures Seam([[c] + a[0]] + a[1..], b) == [[c] + Seam(a, b)[0]] + Seam(a, b)[1..]
  {
    if |a| == 1 {
      assert [c] + a[0] + b[0] == [c] + (a[0] + b[0]);
    }
  }

  lemma {:induction false} SplitConcat(a: string, b: string, sep: char)
    ensures Split(a + b, sep) == Seam(Split(a, sep), Split(b, sep))
    decreases |a|
  {
    if a == "" {
      assert a + b == b;
      assert [""][..0] == [] && "" + Split(b, sep)[0] == Split(b, sep)[0];
    } else {
      assert (a + b)[1..] == a[1..] + b;
      SplitConcat(a[1..], b, sep);
      if a[0] == sep {
        SeamPush([""], Split(a[1..], sep), Split(b, sep));
      } else {
        SeamGrow(a[0], Split(a[1..], sep), Split(b, sep));
      }
    }
  }

  /** Lines put together again, each with its line break. */
  function Rejoined(lines: seq<string>): string {
    if lines == [] then "" else lines[0] + (['\n'] + Rejoined(lines[1..]))
  }

  lemma {:induction false} RejoinedCons(c: char, lines: seq<string>)
    requires lines != []
    ensures Rejoined([[c] + lines[0]] + lines[1..]) == [c] + Rejoined(lines)
  {
    var all := [[c] + lines[0]] + lines[1..];
    assert all[1..] == lines[1..] && all[0] == [c] + lines[0];
  }

  lemma {:induction false} SplitRejoins(s: string)
    ensures Rejoined(Split(s, '\n')) == s + "\n"
    decreases |s|
  {
    if s == "" {
      assert Rejoined([""]) == "" + (['\n'] + Rejoined([""][1..]));
    } else {
      SplitRejoins(s[1..]);
      var rest := Split(s[1..], '\n');
      if s[0] == '\n' {
        assert ([""] + rest)[1..] == rest;
        assert "" + (['\n'] + (s[1..] + "\n")) == s + "\n";
      } else {
        RejoinedCons(s[0], rest);
        assert [s[0]] + (s[1..] + "\n") == s + "\n";
      }
    }
  }

  /** The lines of a file hold no line break, and give the file back; only the last one's may be missing in it. */
  lemma {:induction false} FileRejoins(file: string)
    ensures forall i :: 0 <= i < |FileLines(file)| ==> '\n' !in FileLines(file)[i]
    ensures Rejoined(FileLines(file)) == if file == "" || EndsLine(file) then file else file + "\n"
  {
    if |file| > 0 {
      var t := Trimmed(file);
      SplitPieces(t, '\n');
      SplitRejoins(t);
      TrimmedPlusBreak(file);
      assert FileLines(file) == Split(t, '\n');
    }
  }

  lemma {:induction false} TrimmedPlusBreak(file: string)
    ensures Trimmed(file) + "\n" == if EndsLine(file) then file else file + "\n"
  {
  }

  lemma {:induction false} LastOfAppended<T>(front: seq<T>, back: seq<T>, n: nat)
    requires n <= |back|
    ensures LastOf(front + back, n) == LastOf(back, n)
  {
  }

  /** The whole lines of the window are the last lines of the file. */
  lemma {:induction false} WindowHoldsLastLines(file: string, n: nat)
    requires |file| > WINDOW && n < |Parts(WindowOf(file))|
    ensures LastOf(FileLines(file), n) == LastOf(Parts(WindowOf(file))[1..], n)
  {
    var data := WindowOf(file);
    var front := file[..|file| - WINDOW];
    assert Trimmed(file) == front + Trimmed(data);
    SplitConcat(front, Trimmed(data), '\n');
    var a, b := Split(front, '\n'), Parts(data);
    LastOfAppended(a[..|a| - 1] + [a[|a| - 1] + b[0]], b[1..], n);
  }

  // ---------------------------------------------------------------- the tail

  datatype Failure = HistoryExceedsWindow | ContextDone

  /** What the caller sees: emitted lines, then the line left pending when the file is followed. */
  function Shown(file: string, follow: bool, lines: seq<Line>, pending: Line): seq<Line> {
    lines + if follow && file != "" && !EndsLine(file) then [pending] else []
  }

  /** The first line when its beginning was cut off by the window. */
  function Marked(part: string): Line {
    Append(Line(OMITTED, true), part)
  }

  /** How the selected parts become lines: capped, the first one marked when its prefix is missing. */
  function Rendered(parts: seq<string>, omitted: bool): seq<Line> {
    seq(|parts|, i requires 0 <= i < |parts| => if i == 0 && omitted then Marked(parts[i]) else Capped(parts[i]))
  }

  /** One line: the mark first when its beginning is missing, then the part, both capped. */
  method RenderPart(part: string, mark: bool) returns (line: Line)
    ensures line == if mark then Marked(part) else Capped(part)
  {
    line := EMPTY;
    if mark {
      line := Append(line, OMITTED).(truncated := true);
    }
    line := Append(line, part);
    CappedIsAppend(part);
  }

  /** A marked line begins with the mark, always counts as truncated, and has the cap of every line. */
  lemma {:induction false} MarkedExactly(part: string)
    ensures Marked(part).truncated && Marked(part).text <= "[earlier line bytes omitted] " + part
    ensures |Marked(part).text| == if |OMITTED| + |part| < 16 * 1024 then |OMITTED| + |part| else 16 * 1024
  {
    AppendExactly(Line(OMITTED, true), part);
  }

  lemma {:induction false} RenderedNext(parts: seq<string>, omitted: bool, i: nat)
    requires i < |parts|
    ensures Rendered(parts, omitted)[..i] + [if i == 0 && omitted then Marked(parts[i]) else Capped(parts[i])] == Rendered(parts, omitted)[..i + 1]
    ensures i + 1 == |parts| ==> Rendered(parts, omitted)[..i + 1] == Rendered(parts, omitted)
  {
  }

  method RenderParts(parts: seq<string>, omitted: bool, hold: bool, cancelAt: nat)
    returns (lines: seq<Line>, pending: Line, failure: Option<Failure>)
    requires |parts| > 0
    ensures failure == (if cancelAt < |parts| then Some(ContextDone) else None)
    ensures failure.None? ==> lines + (if hold then [pending] else []) == Rendered(parts, omitted)
    ensures failure.None? && !hold ==> pending == EMPTY
  {
    lines, pending := [], EMPTY;
    var i := 0;
    while i < |parts|
      invariant 0 <= i <= |parts| && i <= cancelAt
      invariant i < |parts| || !hold ==> lines == Rendered(parts, omitted)[..i] && pending == EMPTY
      invariant i == |parts| && hold ==> lines + [pending] == Rendered(parts, omitted)
    {
      if i >= cancelAt {
        return [], EMPTY, Some(ContextDone);
      }
      var line := RenderPart(parts[i], i == 0 && omitted);
      RenderedNext(parts, omitted, i);
      if hold && i == |parts| - 1 {
        pending := line;
      } else {
        lines := lines + [line];
      }
      i := i + 1;
    }
    failure := None;
  }

  /** The parts to show: the last ones, without the cut one when there are enough. */
  method LimitParts(all: seq<string>, cut: bool, limit: nat) returns (parts: seq<string>, omitted: bool, exceeds: bool)
    requires limit > 0 && |all| > 0
    ensures exceeds <==> cut && 1 < |all| <= limit
    ensures !exceeds ==> (omitted <==> cut && |all| == 1)
    ensures !exceeds && omitted ==> parts == all
    ensures !exceeds && !omitted ==> parts == LastOf(if cut then all[1..] else all, limit)
  {
    parts, omitted, exceeds := all, cut, false;
    if omitted && |parts| > 1 {
      parts := parts[1..];
      omitted := false;
      if |parts| < limit {
        return [], false, true;
      }
    }
    if |parts| > limit {
      parts := parts[|parts| - limit..];
      omitted := false;
    }
  }

  method SelectParts(file: string, limit: nat) returns (parts: seq<string>, omitted: bool, exceeds: bool)
    requires limit > 0 && file != ""
    ensures exceeds <==> ExceedsWindow(file, limit)
    ensures !exceeds ==> 0 < |parts| <= limit && (omitted <==> PrefixOmitted(file))
    ensures !exceeds && omitted ==> parts == [Trimmed(WindowOf(file))]
    ensures !exceeds && !omitted ==> parts == LastOf(FileLines(file), limit)
  {
    var start := if |file| - WINDOW > 0 then |file| - WINDOW else 0;
    var data := file[start..];
    assert data == WindowOf(file);
    parts, omitted, exceeds := LimitParts(Parts(data), start > 0, limit);
    WindowSelects(file, limit);
  }

  /** What the window's parts are, when the file fits, when its first line is cut, and when nothing else is left. */
  lemma {:induction false} WindowSelects(file: string, limit: nat)
    requires file != ""
    ensures |file| <= WINDOW ==> FileLines(file) == Parts(WindowOf(file))
    ensures |file| > WINDOW && limit < |Parts(WindowOf(file))| ==>
              LastOf(FileLines(file), limit) == LastOf(Parts(WindowOf(file))[1..], limit)
    ensures PrefixOmitted(file) ==> Parts(WindowOf(file)) == [Trimmed(WindowOf(file))]
  {
    if |file| > WINDOW && limit < |Parts(WindowOf(file))| {
      WindowHoldsLastLines(file, limit);
    }
    if PrefixOmitted(file) {
      WholeWindowIsOneLine(file);
    }
  }

  /** How many lines a tail shows. */
  function ShownCount(file: string, limit: nat): (n: nat)
    ensures limit > 0 ==> n <= limit
  {
    if PrefixOmitted(file) then 1 else |LastOf(FileLines(file), limit)|
  }

  /**
   Without an omitted prefix the tail shows exactly the last lines of the whole file, although it
   read only the window. What the failure and the mark mean is said by ExceedsExactly and MarkIsTrueExactly.
   */
  method DashboardLogTail(file: string, limit: nat, follow: bool, cancelAt: nat)
    returns (lines: seq<Line>, pending: Line, failure: Option<Failure>)
    ensures limit == 0 || file == "" ==> failure.None? && lines == [] && pending == EMPTY
    ensures limit > 0 ==> (failure == Some(HistoryExceedsWindow) <==> ExceedsWindow(file, limit))
    ensures failure == Some(ContextDone) <==> limit > 0 && file != "" && !ExceedsWindow(file, limit) && cancelAt < ShownCount(file, limit)
    ensures failure.None? && limit > 0 && !PrefixOmitted(file) ==>
              Shown(file, follow, lines, pending) == CapAll(LastOf(FileLines(file), limit))
    ensures failure.None? && limit > 0 && PrefixOmitted(file) ==>
              Shown(file, follow, lines, pending) == [Marked(Trimmed(WindowOf(file)))]
    ensures failure.None? && (!follow || file == "" || EndsLine(file)) ==> pending == EMPTY
  {
    if limit == 0 || |file| == 0 {
      return [], EMPTY, None;
    }
    var parts, omitted, exceeds := SelectParts(file, limit);
    if exceeds {
      return [], EMPTY, Some(HistoryExceedsWindow);
    }
    lines, pending, failure := RenderParts(parts, omitted, follow && !EndsLine(file), cancelAt);
    assert !omitted ==> Rendered(parts, omitted) == CapAll(parts);
    assert omitted ==> Rendered(parts, omitted) == [Marked(parts[0])];
  }

  lemma {:induction false} WholeWindowIsOneLine(file: string)
    requires PrefixOmitted(file)
    ensures Parts(WindowOf(file)) == [Trimmed(WindowOf(file))]
  {
    SinglePieceIsAll(Trimmed(WindowOf(file)), '\n');
  }

  lemma {:induction false} SinglePieceIsAll(s: string, sep: char)
    requires |Split(s, sep)| == 1
    ensures Split(s, sep) == [s]
    decreases |s|
  {
    if s != "" && s[0] != sep {
      SinglePieceIsAll(s[1..], sep);
      assert s == [s[0]] + s[1..];
    }
  }

  // ---------------------------------------------------------------- when the window suffices

  /** The bytes of lines, each with its line break. */
  function Bytes(lines: seq<string>): nat {
    if lines == [] then 0 else |lines[0]| + 1 + Bytes(lines[1..])
  }

  /** The file's last lines, up to `limit`, lie within its last WINDOW bytes. */
  predicate Fits(file: string, limit: nat) {
    Bytes(LastOf(FileLines(file), limit)) <= WINDOW + if EndsLine(file) then 0 else 1
  }

  /** The byte before the window ends a line, so the window starts one. */
  predicate StartsLine(file: string)
    requires |file| > WINDOW
  {
    file[|file| - WINDOW - 1] == '\n'
  }

  /** The window starts a line and holds exactly as many as were asked for. */
  predicate JustEnough(file: string, limit: nat) {
    |file| > WINDOW && StartsLine(file) && limit == |Parts(WindowOf(file))|
  }

  lemma {:induction false} BytesOfSplit(s: string)
    ensures Bytes(Split(s, '\n')) == |s| + 1
    decreases |s|
  {
    if s != "" { BytesOfSplit(s[1..]); }
  }

  lemma {:induction false} BytesAppend(a: seq<string>, b: seq<string>)
    ensures Bytes(a + b) == Bytes(a) + Bytes(b)
    decreases |a|
  {
    if a == [] {
      assert a + b == b;
    } else {
      assert (a + b)[1..] == a[1..] + b;
      BytesAppend(a[1..], b);
    }
  }

  lemma {:induction false} LastOfIsSmaller(lines: seq<string>, n: nat)
    ensures Bytes(LastOf(lines, n)) <= Bytes(lines)
  {
    if n < |lines| {
      var k := |lines| - n;
      assert lines == lines[..k] + lines[k..];
      BytesAppend(lines[..k], lines[k..]);
    }
  }

  /** The file's lines around the window's first byte: `cut` is what the window lacks of its first line. */
  lemma {:induction false} WindowSeam(file: string) returns (before: seq<string>, cut: string)
    requires |file| > WINDOW
    ensures FileLines(file) == before + ([cut + Parts(WindowOf(file))[0]] + Parts(WindowOf(file))[1..])
    ensures cut == "" <==> StartsLine(file)
    ensures before == [] ==> cut != ""
  {
    var front := file[..|file| - WINDOW];
    assert Trimmed(file) == front + Trimmed(WindowOf(file));
    before, cut := Complete(front), Unfinished(front);
    SplitAtSeam(front, Trimmed(WindowOf(file)));
    FrontEnds(front);
  }

  lemma {:induction false} SplitAtSeam(front: string, rest: string)
    ensures Split(front + rest, '\n') == Complete(front) + ([Unfinished(front) + Split(rest, '\n')[0]] + Split(rest, '\n')[1..])
  {
    SplitConcat(front, rest, '\n');
  }

  lemma {:induction false} FrontEnds(front: string)
    requires front != ""
    ensures Unfinished(front) == "" <==> EndsLine(front)
    ensures Complete(front) == [] ==> Unfinished(front) != ""
  {
    FileLinesAre(front);
    if Complete(front) == [] { SinglePieceIsAll(front, '\n'); }
  }

  /** Counting back from the end of lines whose first held one may lack its beginning. */
  lemma {:induction false} LastBytes(before: seq<string>, cut: string, held: seq<string>, limit: nat)
    requires |held| > 0 && limit > 0 && (before == [] ==> cut != "")
    ensures Bytes(LastOf(before + ([cut + held[0]] + held[1..]), limit)) <= Bytes(held)
       <==> limit < |held| || (limit == |held| && cut == "")
  {
    var tail := [cut + held[0]] + held[1..];
    assert tail[1..] == held[1..] && Bytes(tail) == |cut| + Bytes(held);
    if limit < |held| {
      LastOfAppended(before, tail, limit);
      assert LastOf(tail, limit) == LastOf(held, limit);
      LastOfIsSmaller(held, limit);
    } else {
      var earlier := LastOf(before, limit - |held|);
      assert LastOf(before + tail, limit) == earlier + tail;
      BytesAppend(earlier, tail);
    }
  }

  lemma {:induction false} WindowBytes(file: string)
    requires |file| > WINDOW
    ensures Bytes(Parts(WindowOf(file))) == WINDOW + if EndsLine(file) then 0 else 1
  {
    BytesOfSplit(Trimmed(WindowOf(file)));
  }

  lemma {:induction false} FitsExactly(file: string, limit: nat)
    requires |file| > WINDOW && limit > 0
    ensures Fits(file, limit) <==> limit < |Parts(WindowOf(file))| || JustEnough(file, limit)
  {
    var before, cut := WindowSeam(file);
    WindowBytes(file);
    LastBytes(before, cut, Parts(WindowOf(file)), limit);
  }

  lemma {:induction false} SmallFileFits(file: string, limit: nat)
    requires |file| <= WINDOW
    ensures Fits(file, limit)
  {
    BytesOfSplit(Trimmed(file));
    LastOfIsSmaller(FileLines(file), limit);
  }

  /**
   When the history error is given, apart from a window without a line break: when the lines asked for
   do not lie in the window, and also when they fill it to the byte, although they are all there.
   */
  lemma {:induction false} ExceedsExactly(file: string, limit: nat)
    requires limit > 0
    ensures ExceedsWindow(file, limit) <==> !PrefixOmitted(file) && (!Fits(file, limit) || JustEnough(file, limit))
    ensures JustEnough(file, limit) ==> Fits(file, limit)
  {
    if |file| > WINDOW {
      FitsExactly(file, limit);
      assert |Parts(WindowOf(file))| > 0;
    } else {
      SmallFileFits(file, limit);
    }
  }

  /** The mark is true, the line shown lacks its beginning, exactly when the byte before the window ends no line. */
  lemma {:induction false} MarkIsTrueExactly(file: string)
    requires PrefixOmitted(file)
    ensures LastOf(FileLines(file), 1) != [Trimmed(WindowOf(file))] <==> !StartsLine(file)
  {
    var before, cut := WindowSeam(file);
    WholeWindowIsOneLine(file);
    var shown := Trimmed(WindowOf(file));
    var whole := cut + shown;
    assert FileLines(file) == before + [whole];
    LastOfAppended(before, [whole], 1);
    assert LastOf(FileLines(file), 1) == [whole];
    assert [whole][0] == whole && [shown][0] == shown && |whole| == |cut| + |shown|;
    assert cut == "" ==> whole == shown;
  }

  // ---------------------------------------------------------------- following

  /** What ReadSlice hands out: a line break can only be the last byte of a fragment. */
  predicate IsFragment(f: string) {
    '\n' !in Trimmed(f)
  }

  function Flat(fragments: seq<string>): string {
    if fragments == [] then "" else Flat(fragments[..|fragments| - 1]) + fragments[|fragments| - 1]
  }

  lemma {:induction false} SplitIsCompleteAndUnfinished(s: string)
    ensures Split(s, '\n') == Complete(s) + [Unfinished(s)]
  {
  }

  /** Appended bytes continue the unfinished line; every complete line stays. */
  lemma {:induction false} AppendedLines(s: string, more: string)
    ensures Complete(s + more) == Complete(s) + Complete(Unfinished(s) + more)
    ensures Unfinished(s + more) == Unfinished(Unfinished(s) + more)
  {
    SplitPieces(s, '\n');
    SplitOfPiece(Unfinished(s), '\n');
    SplitConcat(s, more, '\n');
    SplitConcat(Unfinished(s), more, '\n');
    SplitIsCompleteAndUnfinished(s);
    SeamPush(Complete(s), [Unfinished(s)], Split(more, '\n'));
    ShortenConcat(Complete(s), Split(Unfinished(s) + more, '\n'));
  }

  lemma {:induction false} ShortenConcat(a: seq<string>, b: seq<string>)
    requires |b| > 0
    ensures (a + b)[..|a + b| - 1] == a + b[..|b| - 1] && (a + b)[|a + b| - 1] == b[|b| - 1]
  {
  }

  lemma {:induction false} PieceAlone(p: string)
    requires '\n' !in p
    ensures Complete(p) == [] && Unfinished(p) == p
    ensures Complete(p + "\n") == [p] && Unfinished(p + "\n") == ""
  {
    SplitOfPiece(p, '\n');
    SplitAfterPiece(p, "", '\n');
    assert p + "\n" == p + ['\n'] + "";
    assert Split("", '\n') == [""];
  }

  lemma {:induction false} AppendFragmentToText(s: string, f: string)
    requires IsFragment(f)
    ensures EndsLine(f) ==> Complete(s + f) == Complete(s) + [Unfinished(s) + Trimmed(f)] && Unfinished(s + f) == ""
    ensures !EndsLine(f) ==> Complete(s + f) == Complete(s) && Unfinished(s + f) == Unfinished(s) + f
  {
    AppendedLines(s, f);
    SplitPieces(s, '\n');
    var p := Unfinished(s) + Trimmed(f);
    PieceAlone(p);
    if EndsLine(f) {
      assert Unfinished(s) + f == p + "\n";
    }
  }

  /** Lines as a follower prints them when the line it starts from already holds `base`. */
  function From(base: Line, lines: seq<string>): seq<Line>
    requires |base.text| <= LINE_CAP
  {
    if lines == [] then [] else [Append(base, lines[0])] + CapAll(lines[1..])
  }

  function Held(base: Line, text: string): Line
    requires |base.text| <= LINE_CAP
  {
    Append(if Complete(text) == [] then base else EMPTY, Unfinished(text))
  }

  lemma {:induction false} FromNothing(lines: seq<string>, text: string)
    ensures From(EMPTY, lines) == CapAll(lines) && Held(EMPTY, text) == Capped(Unfinished(text))
  {
    if lines != [] { CappedIsAppend(lines[0]); }
    CappedIsAppend(Unfinished(text));
  }

  /** The line of a window that was cut, without its text. */
  const CUT := Line(OMITTED, true)

  lemma {:induction false} FromCut(lines: seq<string>)
    ensures From(CUT, lines) == Rendered(lines, true)
  {
  }

  /**
   The follow loop, from the line left pending by the tail: `base` with the bytes of `head` appended.
   However the bytes arrive, it emits each line once, when it is complete, and keeps the unfinished one.
   */
  method FollowFragments(base: Line, head: string, start: Line, fragments: seq<string>) returns (emitted: seq<Line>, pending: Line)
    requires |base.text| <= LINE_CAP && '\n' !in head && start == Append(base, head)
    requires forall i :: 0 <= i < |fragments| ==> IsFragment(fragments[i])
    ensures emitted == From(base, Complete(head + Flat(fragments)))
    ensures pending == Held(base, head + Flat(fragments))
  {
    var line := new PendingLine();
    line.text, line.truncated := start.text, start.truncated;
    emitted := [];
    PieceAlone(head);
    ghost var text := head;
    assert head + Flat(fragments[..0]) == head;
    var k := 0;
    while k < |fragments|
      invariant 0 <= k <= |fragments| && text == head + Flat(fragments[..k])
      invariant emitted == From(base, Complete(text)) && line.View() == Held(base, text)
    {
      var f := fragments[k];
      FlatNext(head, fragments, k);
      FragmentArrives(base, text, f);
      text := text + f;
      line.AppendFragment(Trimmed(f));
      if EndsLine(f) {
        emitted := emitted + [line.View()];
        line.Clear();
      }
      k := k + 1;
    }
    assert fragments[..k] == fragments;
    pending := line.View();
  }

  lemma {:induction false} FlatNext(head: string, fragments: seq<string>, k: nat)
    requires k < |fragments|
    ensures head + Flat(fragments[..k + 1]) == head + Flat(fragments[..k]) + fragments[k]
  {
    assert fragments[..k + 1][..k] == fragments[..k];
  }

  /** One more fragment: either it finishes the line under construction or it extends it. */
  lemma {:induction false} FragmentArrives(base: Line, s: string, f: string)
    requires |base.text| <= LINE_CAP && IsFragment(f)
    ensures var l := Append(Held(base, s), Trimmed(f));
            && From(base, Complete(s + f)) == From(base, Complete(s)) + (if EndsLine(f) then [l] else [])
            && Held(base, s + f) == if EndsLine(f) then EMPTY else l
  {
    AppendFragmentToText(s, f);
    var from := if Complete(s) == [] then base else EMPTY;
    AppendTwice(from, Unfinished(s), Trimmed(f));
    if EndsLine(f) {
      FromNext(base, Complete(s), Unfinished(s) + Trimmed(f));
      CappedIsAppend("");
    }
  }

  lemma {:induction false} FromNext(base: Line, lines: seq<string>, last: string)
    requires |base.text| <= LINE_CAP
    ensures From(base, lines + [last]) == From(base, lines) + [Append(if lines == [] then base else EMPTY, last)]
  {
    CappedIsAppend(last);
    var all := lines + [last];
    if lines == [] {
      assert all[1..] == [];
    } else {
      assert all[1..] == lines[1..] + [last];
      assert CapAll(all[1..]) == CapAll(lines[1..]) + [Capped(last)];
    }
  }

  // ---------------------------------------------------------------- tail and follow together

  /** The bytes of a file after its last line break. */
  function Partial(file: string): string {
    Unfinished(file)
  }

  lemma {:induction false} PartialHasNoBreak(file: string)
    ensures '\n' !in Partial(file)
  {
    SplitPieces(file, '\n');
  }

  /** A file's lines are its complete ones and, when it does not end a line, the partial one. */
  lemma {:induction false} FileLinesAre(file: string)
    requires file != ""
    ensures FileLines(file) == Complete(file) + (if EndsLine(file) then [] else [Partial(file)])
    ensures EndsLine(file) <==> Partial(file) == ""
  {
    SplitIsCompleteAndUnfinished(file);
    if EndsLine(file) {
      var t := Trimmed(file);
      assert file == t + "\n";
      AppendedLines(t, "\n");
      PartialHasNoBreak(t);
      PieceAlone(Unfinished(t));
      SplitIsCompleteAndUnfinished(t);
    } else {
      LastPieceNonempty(file);
    }
  }

  lemma {:induction false} LastPieceNonempty(s: string)
    requires s != "" && s[|s| - 1] != '\n'
    ensures Unfinished(s) != ""
    decreases |s|
  {
    if |s| > 1 {
      LastPieceNonempty(s[1..]);
      var rest := Split(s[1..], '\n');
      assert s[0] != '\n' ==> Split(s, '\n') == [[s[0]] + rest[0]] + rest[1..];
    } else {
      assert s[1..] == "" && Split("", '\n') == [""];
    }
  }

  lemma {:induction false} CutWindow(file: string)
    requires PrefixOmitted(file)
    ensures WindowOf(file) != "" && '\n' !in Trimmed(WindowOf(file)) && EndsLine(WindowOf(file)) == EndsLine(file)
  {
    WholeWindowIsOneLine(file);
    SplitPieces(Trimmed(WindowOf(file)), '\n');
    assert Parts(WindowOf(file))[0] == Trimmed(WindowOf(file));
  }

  lemma {:induction false} OnlyLine(file: string, lines: seq<Line>, pending: Line, line: Line)
    requires file != "" && Shown(file, true, lines, pending) == [line] && (EndsLine(file) ==> pending == EMPTY)
    ensures lines == (if EndsLine(file) then [line] else []) && pending == if EndsLine(file) then EMPTY else line
  {
    if !EndsLine(file) {
      assert |lines| == 0 && (lines + [pending])[0] == line;
    }
  }

  /**
   Tail, then follow. With a positive limit and the line starts in view, what is printed is a run of
   consecutive complete lines of the growing file ending with its newest one: none lost, repeated or
   cut in two. When the window shows only the end of one line, that line is printed with the mark, once
   it is complete, and every later line follows. With a limit of zero, what is printed is what the
   appended bytes alone make up.
   */
  method TailAndFollow(file: string, limit: nat, fragments: seq<string>)
    returns (printed: seq<Line>, pending: Line, failure: Option<Failure>)
    requires forall i :: 0 <= i < |fragments| ==> IsFragment(fragments[i])
    ensures failure.Some? <==> limit > 0 && ExceedsWindow(file, limit)
    ensures failure.None? && limit > 0 && !PrefixOmitted(file) ==>
              var now := file + Flat(fragments);
              && |Complete(now)| - |Complete(file)| <= |printed| <= |Complete(now)|
              && printed == CapAll(LastOf(Complete(now), |printed|))
              && pending == Capped(Unfinished(now))
    ensures failure.None? && limit > 0 && PrefixOmitted(file) ==>
              var seen := WindowOf(file) + Flat(fragments);
              printed == Rendered(Complete(seen), true) && pending == Held(CUT, seen)
    ensures limit == 0 ==> printed == CapAll(Complete(Flat(fragments))) && pending == Capped(Unfinished(Flat(fragments)))
  {
    var lines, start;
    lines, start, failure := DashboardLogTail(file, limit, true, limit);
    assert limit > 0 ==> ShownCount(file, limit) <= limit;
    if failure.Some? {
      assert failure.value.ContextDone? || failure.value.HistoryExceedsWindow?;
      assert failure != Some(ContextDone);
      return [], EMPTY, failure;
    }
    if limit == 0 {
      printed, pending := FollowNothing(fragments);
    } else if PrefixOmitted(file) {
      CutWindow(file);
      OnlyLine(file, lines, start, Marked(Trimmed(WindowOf(file))));
      printed, pending := FollowCut(WindowOf(file), lines, start, fragments);
    } else {
      TailEndsWithComplete(file, limit, lines, start);
      printed, pending := Follow(file, lines, start, fragments);
    }
  }

  /** Following without anything shown before. */
  method FollowNothing(fragments: seq<string>) returns (printed: seq<Line>, pending: Line)
    requires forall i :: 0 <= i < |fragments| ==> IsFragment(fragments[i])
    ensures printed == CapAll(Complete(Flat(fragments))) && pending == Capped(Unfinished(Flat(fragments)))
  {
    var more := Flat(fragments);
    assert "" + more == more;
    FromNothing(Complete(more), more);
    CappedIsAppend("");
    printed, pending := FollowFragments(EMPTY, "", EMPTY, fragments);
  }

  /** Following a window that holds no line start. */
  method FollowCut(data: string, lines: seq<Line>, start: Line, fragments: seq<string>)
    returns (printed: seq<Line>, pending: Line)
    requires forall i :: 0 <= i < |fragments| ==> IsFragment(fragments[i])
    requires data != "" && '\n' !in Trimmed(data)
    requires lines == (if EndsLine(data) then [Marked(Trimmed(data))] else []) && start == if EndsLine(data) then EMPTY else Marked(data)
    ensures printed == Rendered(Complete(data + Flat(fragments)), true) && pending == Held(CUT, data + Flat(fragments))
  {
    var more := Flat(fragments);
    CutLines(data, more);
    if EndsLine(data) {
      var emitted;
      emitted, pending := FollowNothing(fragments);
      printed := lines + emitted;
    } else {
      printed, pending := FollowFragments(CUT, data, start, fragments);
    }
  }

  lemma {:induction false} CutLines(data: string, more: string)
    requires data != "" && '\n' !in Trimmed(data)
    ensures From(CUT, Complete(data + more)) == Rendered(Complete(data + more), true)
    ensures EndsLine(data) ==> Rendered(Complete(data + more), true) == [Marked(Trimmed(data))] + CapAll(Complete(more))
    ensures EndsLine(data) ==> Held(CUT, data + more) == Capped(Unfinished(more))
  {
    FromCut(Complete(data + more));
    PieceAlone(Trimmed(data));
    AppendedLines(data, more);
    if EndsLine(data) {
      assert data == Trimmed(data) + "\n" && "" + more == more;
      CappedIsAppend(Unfinished(more));
      assert Complete(data + more) == [Trimmed(data)] + Complete(more);
    }
  }

  method Follow(file: string, lines: seq<Line>, start: Line, fragments: seq<string>)
    returns (printed: seq<Line>, pending: Line)
    requires forall i :: 0 <= i < |fragments| ==> IsFragment(fragments[i])
    requires |lines| <= |Complete(file)| && lines == CapAll(LastOf(Complete(file), |lines|))
    requires start == Capped(Partial(file))
    ensures var now := file + Flat(fragments);
            && |Complete(now)| - |Complete(file)| <= |printed| <= |Complete(now)|
            && printed == CapAll(LastOf(Complete(now), |printed|))
            && pending == Capped(Unfinished(now))
  {
    PartialHasNoBreak(file);
    CappedIsAppend(Partial(file));
    var emitted;
    emitted, pending := FollowFragments(EMPTY, Partial(file), start, fragments);
    FromNothing(Complete(Partial(file) + Flat(fragments)), Partial(file) + Flat(fragments));
    printed := lines + emitted;
    AppendedLines(file, Flat(fragments));
    RunContinues(Complete(file), Complete(Partial(file) + Flat(fragments)), |lines|);
  }

  lemma {:induction false} LastIsPending(complete: seq<string>, partial: string, limit: nat, lines: seq<Line>, pending: Line)
    requires limit > 0 && lines + [pending] == CapAll(LastOf(complete + [partial], limit))
    ensures |lines| <= |complete| && lines == CapAll(LastOf(complete, |lines|)) && pending == Capped(partial)
  {
    var all, shown := LastOf(complete + [partial], limit), lines + [pending];
    assert |shown| == |all| && all == LastOf(complete, |lines|) + [partial];
    assert shown[|lines|] == pending && shown[..|lines|] == lines;
  }

  /** The lines a tail emits are the last complete lines, and it holds back the partial one. */
  lemma {:induction false} TailEndsWithComplete(file: string, limit: nat, lines: seq<Line>, pending: Line)
    requires limit > 0
    requires file == "" ==> lines == []
    requires file == "" || EndsLine(file) ==> pending == EMPTY
    requires file != "" ==> Shown(file, true, lines, pending) == CapAll(LastOf(FileLines(file), limit))
    ensures |lines| <= |Complete(file)|
    ensures lines == CapAll(LastOf(Complete(file), |lines|))
    ensures pending == Capped(Partial(file))
  {
    if file != "" {
      FileLinesAre(file);
      var all := LastOf(FileLines(file), limit);
      if EndsLine(file) {
        assert all == LastOf(Complete(file), |all|);
      } else {
        LastIsPending(Complete(file), Partial(file), limit, lines, pending);
      }
    }
  }

  /** Consecutive lines: a run ending one list of lines, continued by the lines that follow it. */
  lemma {:induction false} RunContinues(before: seq<string>, after: seq<string>, n: nat)
    requires n <= |before|
    ensures LastOf(before + after, n + |after|) == LastOf(before, n) + after
    ensures CapAll(LastOf(before, n) + after) == CapAll(LastOf(before, n)) + CapAll(after)
  {
  }

  // ---------------------------------------------------------------- a limit of zero

  /** The lines that end in the appended bytes, in full. */
  function LinesFinishedBy(file: string, more: string): seq<string> {
    LastOf(Complete(file + more), if |Complete(file + more)| < |Complete(file)| then 0 else |Complete(file + more)| - |Complete(file)|)
  }

  /** A follower that starts without pending bytes emits the right lines, whatever is appended. */
  ghost predicate FollowsCleanlyFromNothing(file: string) {
    forall more :: CapAll(Complete(more)) == CapAll(LinesFinishedBy(file, more))
  }

  lemma {:induction false} FinishedLines(file: string, more: string)
    ensures LinesFinishedBy(file, more) == Complete(Partial(file) + more)
  {
    AppendedLines(file, more);
  }

  /**
   With a limit of zero the tail leaves nothing pending, so the bytes of a partial line are dropped
   without a mark. The followed lines are right exactly for files that are empty or end a line.
   */
  lemma {:induction false} ZeroTailExactly(file: string)
    ensures FollowsCleanlyFromNothing(file) <==> file == "" || EndsLine(file)
  {
    if file == "" || EndsLine(file) {
      if file != "" { FileLinesAre(file); }
      forall more
        ensures CapAll(Complete(more)) == CapAll(LinesFinishedBy(file, more))
      {
        FinishedLines(file, more);
        assert "" + more == more;
      }
    } else {
      FileLinesAre(file);
      PartialHasNoBreak(file);
      FinishedLines(file, "\n");
      PieceAlone(Partial(file));
      PieceAlone("");
      assert "" + "\n" == "\n";
      assert CapAll(Complete("\n"))[0] != CapAll(LinesFinishedBy(file, "\n"))[0];
    }
  }
}
