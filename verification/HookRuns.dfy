/**
 What a hook script does when sh runs it, for the few commands the renderer writes: the shell options,
 the group, the unset line and the pipeline calls. Every other line is a command that succeeds.
 */
module HookRuns {
  import opened Results
  import opened Text
  import opened HookScript

  /** A pipeline that ran, and the variables that were set for it. */
  datatype Ran = Ran(name: string, env: set<string>)

  /** `last` is the last command's success, and `over` the exit status once the script has ended early. */
  datatype Shell = Shell(errexit: bool, env: set<string>, outer: seq<set<string>>, ran: seq<Ran>, last: bool, over: Option<bool>)

  function Fresh(env: set<string>): Shell {
    Shell(false, env, [], [], true, None)
  }

  predicate Unsets(line: string) {
    "unset " <= line
  }

  /** The call's failure is turned into success. */
  predicate Tolerant(line: string) {
    |line| >= 8 && line[|line| - 8..] == " || true"
  }

  /** A pipeline's turn; with errexit a failure ends the group, and with it the script. */
  function Call(sh: Shell, name: string, tolerant: bool, works: string -> bool): Shell {
    var r := sh.(ran := sh.ran + [Ran(name, sh.env)], last := works(name) || tolerant);
    if r.last || !sh.errexit then r else r.(over := Some(false))
  }

  predicate NoCommand(line: string) {
    line == "" || line[0] == '#'
  }

  function Obey(sh: Shell, line: string, works: string -> bool): Shell {
    if sh.over.Some? || NoCommand(line) then sh
    else if line == "set -e" then sh.(errexit := true, last := true)
    else if line == "exit 0" then sh.(over := Some(true))
    else if line == "(" then sh.(outer := sh.outer + [sh.env])
    else if line == ")" then
      if sh.outer == [] then sh else sh.(env := sh.outer[|sh.outer| - 1], outer := sh.outer[..|sh.outer| - 1])
    else if Unsets(line) then sh.(env := sh.env - (set v | v in Split(line, ' ')[1..]), last := true)
    else if Collect(line) != [] then Call(sh, Collect(line)[0], Tolerant(line), works)
    else sh.(last := true)
  }

  function ObeyAll(sh: Shell, lines: seq<string>, works: string -> bool): Shell {
    if lines == [] then sh else Obey(ObeyAll(sh, lines[..|lines| - 1], works), lines[|lines| - 1], works)
  }

  predicate Succeeds(sh: Shell) {
    if sh.over.Some? then sh.over.value else sh.last
  }

  // ---------------------------------------------------------------- lines that change nothing but the last status

  predicate Silent(line: string) {
    && Collect(line) == [] && !Unsets(line)
    && line != "set -e" && line != "exit 0" && line != "(" && line != ")"
  }

  predicate AllSilent(lines: seq<string>) {
    forall i :: 0 <= i < |lines| ==> Silent(lines[i])
  }

  lemma {:induction false} ObeyNext(sh: Shell, lines: seq<string>, line: string, works: string -> bool)
    ensures ObeyAll(sh, lines + [line], works) == Obey(ObeyAll(sh, lines, works), line, works)
  {
    assert (lines + [line])[..|lines|] == lines;
  }

  lemma {:induction false} ObeyAppend(sh: Shell, a: seq<string>, b: seq<string>, works: string -> bool)
    ensures ObeyAll(sh, a + b, works) == ObeyAll(ObeyAll(sh, a, works), b, works)
    decreases |b|
  {
    if b == [] {
      assert a + b == a;
    } else {
      var init, last := b[..|b| - 1], b[|b| - 1];
      assert a + b == (a + init) + [last] && b == init + [last];
      ObeyAppend(sh, a, init, works);
      ObeyNext(sh, a + init, last, works);
    }
  }

  /** The same but for the last status. */
  predicate SameBut(sh: Shell, r: Shell) {
    r == sh.(last := r.last) && (sh.last ==> r.last)
  }

  lemma {:induction false} SilentLines(sh: Shell, lines: seq<string>, works: string -> bool)
    requires AllSilent(lines)
    ensures SameBut(sh, ObeyAll(sh, lines, works))
    decreases |lines|
  {
    if lines != [] {
      SilentLines(sh, lines[..|lines| - 1], works);
      assert Silent(lines[|lines| - 1]);
    }
  }

  // ---------------------------------------------------------------- the pipelines' lines

  /** The pipelines that run when the first failure ends the script: all up to it and including it. */
  function UpToFailure(pipes: seq<string>, works: string -> bool): seq<string> {
    if pipes == [] then [] else [pipes[0]] + if works(pipes[0]) then UpToFailure(pipes[1..], works) else []
  }

  predicate AllWork(pipes: seq<string>, works: string -> bool) {
    forall p :: p in pipes ==> works(p)
  }

  lemma {:induction false} UpToFailureNext(init: seq<string>, last: string, works: string -> bool)
    ensures UpToFailure(init + [last], works) == if AllWork(init, works) then init + [last] else UpToFailure(init, works)
    ensures AllWork(init, works) ==> UpToFailure(init, works) == init
    decreases |init|
  {
    if init == [] {
      assert (init + [last])[1..] == [];
    } else {
      var all := init + [last];
      assert all[0] == init[0] && all[1..] == init[1..] + [last];
      UpToFailureNext(init[1..], last, works);
      assert AllWork(init, works) <==> works(init[0]) && AllWork(init[1..], works) by {
        assert forall p :: p in init <==> p == init[0] || p in init[1..];
      }
      assert init == [init[0]] + init[1..];
    }
  }

  function CallsOf(names: seq<string>, env: set<string>): (r: seq<Ran>)
    ensures |r| == |names| && forall i :: 0 <= i < |r| ==> r[i] == Ran(names[i], env)
  {
    seq(|names|, i requires 0 <= i < |names| => Ran(names[i], env))
  }

  lemma {:induction false} CallsNext(names: seq<string>, name: string, env: set<string>)
    ensures CallsOf(names + [name], env) == CallsOf(names, env) + [Ran(name, env)]
  {
  }

  lemma {:induction false} LineIsCall(pipe: string, blocking: bool)
    requires '\n' !in pipe
    ensures var line := PipeLine(pipe, blocking);
            && Collect(line) == [pipe] && !NoCommand(line) && !Unsets(line) && (Tolerant(line) <==> !blocking)
            && line != "set -e" && line != "exit 0" && line != "(" && line != ")"
  {
    var line := PipeLine(pipe, blocking);
    PipeLineReadsBack(pipe, blocking);
    assert line[0] == CALL[0] == 's' && line[1] == CALL[1] == 'p';
    if blocking {
      assert line[|line| - 1] == '\'' && " || true"[7] == 'e';
      assert |line| >= 8 ==> line[|line| - 8..][7] == line[|line| - 1];
    } else {
      assert line == (CALL + ShellSingleQuote(pipe)) + " || true";
    }
  }

  lemma {:induction false} ObeyCall(sh: Shell, pipe: string, blocking: bool, works: string -> bool)
    requires '\n' !in pipe
    ensures Obey(sh, PipeLine(pipe, blocking), works) == if sh.over.Some? then sh else Call(sh, pipe, !blocking, works)
  {
    LineIsCall(pipe, blocking);
  }

  /** Where a blocking hook stands after some of its calls. */
  ghost predicate Blocked(sh: Shell, pipes: seq<string>, works: string -> bool, r: Shell) {
    && r.ran == sh.ran + CallsOf(UpToFailure(pipes, works), sh.env)
    && r == sh.(ran := r.ran, last := r.last, over := if AllWork(pipes, works) then None else Some(false))
    && (AllWork(pipes, works) && sh.last ==> r.last)
  }

  lemma {:induction false} BlockedNext(sh: Shell, init: seq<string>, last: string, works: string -> bool, r: Shell)
    requires sh.errexit && sh.over.None? && Blocked(sh, init, works, r)
    ensures Blocked(sh, init + [last], works, if r.over.Some? then r else Call(r, last, false, works))
  {
    UpToFailureNext(init, last, works);
    CallsNext(init, last, sh.env);
    AllWorkNext(init, last, works);
  }

  /** The calls of a blocking hook, under errexit: the first failure is the end. */
  lemma {:induction false} BlockingCalls(sh: Shell, pipes: seq<string>, works: string -> bool)
    requires NewlineFree(pipes) && sh.errexit && sh.over.None?
    ensures Blocked(sh, pipes, works, ObeyAll(sh, PipeLines(pipes, true), works))
    decreases |pipes|
  {
    if pipes != [] {
      var init, last := pipes[..|pipes| - 1], pipes[|pipes| - 1];
      assert pipes == init + [last];
      var r := ObeyAll(sh, PipeLines(init, true), works);
      BlockingCalls(sh, init, works);
      PipeLinesSnoc(init, last, true);
      ObeyNext(sh, PipeLines(init, true), PipeLine(last, true), works);
      ObeyCall(r, last, true, works);
      BlockedNext(sh, init, last, works, r);
    }
  }

  lemma {:induction false} AllWorkNext(init: seq<string>, last: string, works: string -> bool)
    ensures AllWork(init + [last], works) <==> AllWork(init, works) && works(last)
  {
    assert forall p :: p in init + [last] <==> p in init || p == last;
  }

  /** The calls of the other hook: all of them, whatever fails. */
  lemma {:induction false} TolerantCalls(sh: Shell, pipes: seq<string>, works: string -> bool)
    requires NewlineFree(pipes) && sh.over.None?
    ensures var r := ObeyAll(sh, PipeLines(pipes, false), works);
            && r.ran == sh.ran + CallsOf(pipes, sh.env)
            && r == sh.(ran := r.ran, last := r.last) && (sh.last ==> r.last)
    decreases |pipes|
  {
    if pipes != [] {
      var init, last := pipes[..|pipes| - 1], pipes[|pipes| - 1];
      assert pipes == init + [last];
      TolerantCalls(sh, init, works);
      PipeLinesSnoc(init, last, false);
      ObeyNext(sh, PipeLines(init, false), PipeLine(last, false), works);
      ObeyCall(ObeyAll(sh, PipeLines(init, false), works), last, false, works);
      CallsNext(init, last, sh.env);
    }
  }

  // ---------------------------------------------------------------- the other lines

  /** A quiet line that begins with none of the first characters of the commands told apart. */
  lemma {:induction false} SilentHead(line: string)
    requires Quiet(line) && line != "" && line[0] !in "se()u"
    ensures Silent(line)
  {
    assert "set -e"[0] == 's' && "exit 0"[0] == 'e' && "("[0] == '(' && ")"[0] == ')' && "unset "[0] == 'u';
    assert 's' in "se()u" && 'e' in "se()u" && '(' in "se()u" && ')' in "se()u" && 'u' in "se()u";
  }

  lemma {:induction false} LogFormatSilent()
    ensures Silent(LogFormatLine())
  {
    LogFormatQuiet();
    var line := LogFormatLine();
    assert line[0] == 'e' && line[2] == 'p';
    assert "exit 0"[2] == 'i' && "set -e"[0] == 's' && "unset "[0] == 'u' && "("[0] == '(' && ")"[0] == ')';
  }

  lemma {:induction false} HeaderSilent()
    ensures AllSilent(Header())
  {
    ShebangSilent();
    MarkerSilent();
  }

  lemma {:induction false} ShebangSilent()
    ensures Silent("#!/bin/sh")
  {
    QuietShort("#!/bin/sh");
    SilentHead("#!/bin/sh");
  }

  lemma {:induction false} MarkerSilent()
    ensures Silent(MarkerLine())
  {
    MarkerQuiet();
    assert MarkerLine()[0] == '#';
    SilentHead(MarkerLine());
  }

  lemma {:induction false} UnbindStarts(i: nat, windows: bool)
    requires i < 7
    ensures UnbindLine(i, windows) != "" && UnbindLine(i, windows)[0] in "i\tf"
  {
    match i
    case 0 => assert UnbindLine(i, windows)[0] == 'i';
    case 1 => assert UnbindLine(i, windows)[0] == '\t';
    case 2 => assert UnbindLine(i, windows)[0] == '\t';
    case 3 => assert UnbindLine(i, windows)[0] == '\t';
    case 4 => assert UnbindLine(i, windows)[0] == '\t';
    case 5 => assert UnbindLine(i, windows)[0] == '\t';
    case 6 => assert UnbindLine(i, windows)[0] == 'f';
  }

  lemma {:induction false} UnbindSilent(i: nat, windows: bool)
    requires i < 7
    ensures Silent(UnbindLine(i, windows))
  {
    UnbindLineQuiet(i, windows);
    UnbindStarts(i, windows);
    SilentHead(UnbindLine(i, windows));
  }

  /** A word list splits into its words. */
  lemma {:induction false} SplitSpaced(head: string, words: seq<string>)
    requires ' ' !in head && forall i :: 0 <= i < |words| ==> ' ' !in words[i]
    ensures Split(head + Spaced(words), ' ') == [head] + words
    decreases |words|
  {
    if words == [] {
      assert head + Spaced(words) == head;
      SplitOfPiece(head, ' ');
    } else {
      var rest := words[0] + Spaced(words[1..]);
      assert head + Spaced(words) == head + [' '] + rest;
      SplitAfterPiece(head, rest, ' ');
      SplitSpaced(words[0], words[1..]);
      assert words == [words[0]] + words[1..];
    }
  }

  /** The variables that bind git to a repository. */
  ghost function Bindings(): set<string> {
    set v | v in BINDING_VARS
  }

  lemma {:induction false} BindingsHaveNoSpace()
    ensures forall i :: 0 <= i < |BINDING_VARS| ==> ' ' !in BINDING_VARS[i]
  {
  }

  lemma {:induction false} WordsUnset(sh: Shell, words: seq<string>, works: string -> bool)
    requires sh.over.None? && words != [] && forall i :: 0 <= i < |words| ==> ' ' !in words[i]
    ensures Obey(sh, UnsetLine(words), works) == sh.(env := sh.env - (set v | v in words), last := true)
  {
    var line := UnsetLine(words);
    SplitSpaced("unset", words);
    assert line == "unset" + (" " + words[0] + Spaced(words[1..]));
    assert line[0] == 'u' && line[..6] == "unset ";
    assert Split(line, ' ')[1..] == words;
  }

  lemma {:induction false} UnsetRuns(sh: Shell, works: string -> bool)
    requires sh.over.None?
    ensures Obey(sh, UnsetLine(BINDING_VARS), works) == sh.(env := sh.env - Bindings(), last := true)
  {
    BindingsHaveNoSpace();
    WordsUnset(sh, BINDING_VARS, works);
  }

  lemma {:induction false} UnbindBefore(windows: bool) returns (init: seq<string>)
    ensures AllSilent(init) && UnbindLines(windows) == init + [UnsetLine(BINDING_VARS)]
  {
    var lines := UnbindLines(windows);
    init := lines[..7];
    assert lines == init + [lines[7]];
    forall i | 0 <= i < |init| ensures Silent(init[i]) {
      UnbindSilent(i, windows);
    }
  }

  lemma {:induction false} UnbindRuns(sh: Shell, windows: bool, works: string -> bool)
    requires sh.over.None?
    ensures ObeyAll(sh, UnbindLines(windows), works) == sh.(env := sh.env - Bindings(), last := true)
  {
    var init := UnbindBefore(windows);
    SilentLines(sh, init, works);
    ObeyNext(sh, init, UnsetLine(BINDING_VARS), works);
    UnsetRuns(ObeyAll(sh, init, works), works);
  }

  lemma {:induction false} ObeyOne(sh: Shell, line: string, works: string -> bool)
    ensures ObeyAll(sh, [line], works) == Obey(sh, line, works)
  {
    assert [line][..0] == [];
  }

  lemma {:induction false} ErrexitRuns(sh: Shell, hook: string, works: string -> bool)
    requires sh.over.None? && !sh.errexit && sh.last
    ensures ObeyAll(sh, ErrexitPart(hook), works) == sh.(errexit := hook != "post-commit")
  {
    if Blocking(hook) {
      assert "set -e"[0] == 's';
      ObeyOne(sh, "set -e", works);
    }
  }

  lemma {:induction false} GroupOpens(sh: Shell, pipes: seq<string>, windows: bool, works: string -> bool)
    requires sh.over.None? && sh.last && |pipes| > 0
    ensures ObeyAll(sh, OpenGroup(pipes, windows), works) == sh.(env := sh.env - Bindings(), outer := sh.outer + [sh.env])
  {
    ObeyAppend(sh, ["("], UnbindLines(windows), works);
    ObeyOne(sh, "(", works);
    assert "("[0] == '(' && "set -e"[0] == 's' && "exit 0"[0] == 'e';
    UnbindRuns(Obey(sh, "(", works), windows, works);
  }

  lemma {:induction false} LogRuns(sh: Shell, pipes: seq<string>, works: string -> bool)
    requires sh.last
    ensures ObeyAll(sh, LogPart(pipes), works) == sh
  {
    LogFormatSilent();
    SilentLines(sh, LogPart(pipes), works);
  }

  /** The lines before the calls: the options, and a group without the variables that bind git. */
  lemma {:induction false} OpeningRuns(env: set<string>, hook: string, pipes: seq<string>, windows: bool, works: string -> bool)
    ensures ObeyAll(Fresh(env), Opening(hook, pipes, windows), works)
         == Shell(hook != "post-commit", if pipes == [] then env else env - Bindings(), if pipes == [] then [] else [env], [], true, None)
  {
    var sh := Fresh(env);
    HeaderSilent();
    SilentLines(sh, Header(), works);
    ObeyAppend(sh, Header(), LogPart(pipes), works);
    LogRuns(sh, pipes, works);
    ObeyAppend(sh, Header() + LogPart(pipes), ErrexitPart(hook), works);
    ErrexitRuns(sh, hook, works);
    ObeyAppend(sh, Header() + LogPart(pipes) + ErrexitPart(hook), OpenGroup(pipes, windows), works);
    if pipes != [] { GroupOpens(sh.(errexit := hook != "post-commit"), pipes, windows, works); }
  }

  lemma {:induction false} GroupCloses(sh: Shell, pipes: seq<string>, works: string -> bool)
    requires |sh.outer| == if pipes == [] then 0 else 1
    ensures var r := ObeyAll(sh, CloseGroup(pipes), works); r.ran == sh.ran && r.last == sh.last && r.over == sh.over
  {
    if pipes != [] {
      ObeyOne(sh, ")", works);
      assert ")"[0] == ')' && "set -e"[0] == 's' && "exit 0"[0] == 'e' && "("[0] == '(';
    }
  }

  lemma {:induction false} ExitRuns(sh: Shell, hook: string, works: string -> bool)
    ensures var r := ObeyAll(sh, ExitPart(hook), works);
            r.ran == sh.ran && Succeeds(r) == if sh.over.None? && hook == "post-commit" then true else Succeeds(sh)
  {
    if !Blocking(hook) {
      ObeyOne(sh, "exit 0", works);
      assert "exit 0"[0] == 'e' && "set -e"[0] == 's';
    }
  }

  lemma {:induction false} ClosingRuns(sh: Shell, hook: string, pipes: seq<string>, works: string -> bool)
    requires |sh.outer| == if pipes == [] then 0 else 1
    ensures var r := ObeyAll(sh, Closing(hook, pipes) + [""], works);
            r.ran == sh.ran && Succeeds(r) == if sh.over.None? && hook == "post-commit" then true else Succeeds(sh)
  {
    GroupCloses(sh, pipes, works);
    ObeyAppend(sh, CloseGroup(pipes), ExitPart(hook), works);
    ExitRuns(ObeyAll(sh, CloseGroup(pipes), works), hook, works);
    ObeyNext(sh, Closing(hook, pipes), "", works);
  }

  // ---------------------------------------------------------------- what the hook does

  lemma {:induction false} ScriptObeyed(env: set<string>, hook: string, pipes: seq<string>, windows: bool, works: string -> bool)
    requires NewlineFree(pipes)
    ensures ObeyAll(Fresh(env), Split(Script(hook, pipes, windows), '\n'), works)
         == ObeyAll(ObeyAll(ObeyAll(Fresh(env), Opening(hook, pipes, windows), works), PipeLines(pipes, Blocking(hook)), works),
                    Closing(hook, pipes) + [""], works)
  {
    var a, b, c := Opening(hook, pipes, windows), PipeLines(pipes, Blocking(hook)), Closing(hook, pipes);
    OpeningQuiet(hook, pipes, windows);
    ClosingQuiet(hook, pipes);
    PipeLinesStay(pipes, Blocking(hook));
    SplitOfThree(a, b, c);
    ObeyAppend(Fresh(env), a, b + (c + [""]), works);
    ObeyAppend(ObeyAll(Fresh(env), a, works), b, c + [""], works);
  }

  /** Every hook but post-commit runs its pipelines in order until one fails, and fails exactly when one does. */
  lemma {:induction false} BlockingHookRuns(env: set<string>, hook: string, pipes: seq<string>, windows: bool, works: string -> bool)
    requires NewlineFree(pipes) && hook != "post-commit"
    ensures var r := ObeyAll(Fresh(env), Split(Script(hook, pipes, windows), '\n'), works);
            && r.ran == CallsOf(UpToFailure(pipes, works), env - Bindings())
            && (Succeeds(r) <==> AllWork(pipes, works))
  {
    ScriptObeyed(env, hook, pipes, windows, works);
    OpeningRuns(env, hook, pipes, windows, works);
    var sh := ObeyAll(Fresh(env), Opening(hook, pipes, windows), works);
    BlockingCalls(sh, pipes, works);
    ClosingRuns(ObeyAll(sh, PipeLines(pipes, true), works), hook, pipes, works);
  }

  /** A post-commit hook runs all its pipelines and succeeds, whatever they do. */
  lemma {:induction false} PostCommitHookRuns(env: set<string>, pipes: seq<string>, windows: bool, works: string -> bool)
    requires NewlineFree(pipes)
    ensures var r := ObeyAll(Fresh(env), Split(Script("post-commit", pipes, windows), '\n'), works);
            r.ran == CallsOf(pipes, env - Bindings()) && Succeeds(r)
  {
    ScriptObeyed(env, "post-commit", pipes, windows, works);
    OpeningRuns(env, "post-commit", pipes, windows, works);
    var sh := ObeyAll(Fresh(env), Opening("post-commit", pipes, windows), works);
    TolerantCalls(sh, pipes, works);
    ClosingRuns(ObeyAll(sh, PipeLines(pipes, false), works), "post-commit", pipes, works);
  }
}
