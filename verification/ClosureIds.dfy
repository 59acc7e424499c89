/** The names hosts use for a job's callbacks: an escaped job id, a kind and an index, slash-separated. */
module ClosureIds {
  import opened Results
  import opened Text

  /** A Go string: bytes, held one to a character. */
  type Bytes = s: string | forall c :: c in s ==> c as int < 256 witness ""

  // ---------------------------------------------------------------- percent-encoding

  /** What net/url leaves alone in a path segment: the unreserved characters and $ & + = : @. */
  predicate Unescaped(c: char) {
    || 'a' <= c <= 'z' || 'A' <= c <= 'Z' || IsDigit(c)
    || c in "-_.~" || c in "$&+=:@"
  }

  function HexDigit(n: nat): char
    requires n < 16
  {
    if n < 10 then Digit(n) else (n - 10 + 'A' as int) as char
  }

  function EscapeByte(c: char): string
    requires c as int < 256
  {
    if Unescaped(c) then [c] else ['%', HexDigit(c as int / 16), HexDigit(c as int % 16)]
  }

  /** url.PathEscape. */
  function PathEscape(s: Bytes): string {
    if s == "" then "" else
      assert s[0] in s && forall c :: c in s[1..] ==> c in s;
      EscapeByte(s[0]) + PathEscape(s[1..])
  }

  function HexValue(c: char): Option<nat> {
    if IsDigit(c) then Some(DigitValue(c))
    else if 'A' <= c <= 'F' then Some(c as int - 'A' as int + 10)
    else if 'a' <= c <= 'f' then Some(c as int - 'a' as int + 10)
    else None
  }

  /** Decoding of RFC 3986, section 2.1: a percent sign and two hexadecimal digits stand for one byte. */
  function Unescape(s: string): Option<string> {
    if s == "" then Some("")
    else if s[0] != '%' then
      var rest := Unescape(s[1..]);
      if rest.Some? then Some([s[0]] + rest.value) else None
    else if |s| < 3 then None
    else
      var high, low, rest := HexValue(s[1]), HexValue(s[2]), Unescape(s[3..]);
      if high.Some? && low.Some? && rest.Some?
      then (
        HexValueBound(s[1]);
        HexValueBound(s[2]);
        Some([(16 * high.value + low.value) as char] + rest.value)
      )
      else None
  }

  lemma {:induction false} HexValueBound(c: char)
    ensures HexValue(c).Some? ==> HexValue(c).value < 16
  {
  }

  lemma {:induction false} HexReadsBack(n: nat)
    requires n < 16
    ensures HexValue(HexDigit(n)) == Some(n)
  {
  }

  lemma {:induction false} EscapedByteReadsBack(c: char, rest: string)
    requires c as int < 256
    ensures Unescape(EscapeByte(c) + rest)
         == if Unescape(rest).Some? then Some([c] + Unescape(rest).value) else None
  {
    var s := EscapeByte(c) + rest;
    if Unescaped(c) {
      assert s[1..] == rest;
    } else {
      HexReadsBack(c as int / 16);
      HexReadsBack(c as int % 16);
      assert s[3..] == rest;
      assert 16 * (c as int / 16) + c as int % 16 == c as int;
    }
  }

  lemma {:induction false} EscapeUnfolds(s: Bytes) returns (rest: Bytes)
    requires s != ""
    ensures rest == s[1..] && s[0] as int < 256 && PathEscape(s) == EscapeByte(s[0]) + PathEscape(rest)
  {
    assert s[0] in s && forall c :: c in s[1..] ==> c in s;
    rest := s[1..];
  }

  /** Escaping loses nothing. */
  lemma {:induction false} UnescapeReadsBack(s: Bytes)
    ensures Unescape(PathEscape(s)) == Some(s)
    decreases |s|
  {
    if s != "" {
      var rest := EscapeUnfolds(s);
      UnescapeReadsBack(rest);
      EscapedByteReadsBack(s[0], PathEscape(rest));
      assert s == [s[0]] + rest;
    }
  }

  /** Escaped text is one path segment. */
  lemma {:induction false} EscapedHasNoSlash(s: Bytes)
    ensures '/' !in PathEscape(s)
    decreases |s|
  {
    if s != "" {
      var rest := EscapeUnfolds(s);
      EscapedHasNoSlash(rest);
    }
  }

  const HEX := "0123456789ABCDEF"

  lemma {:induction false} HexDigitIs(n: nat)
    requires n < 16
    ensures |HEX| == 16 && HexDigit(n) == HEX[n]
  {
  }

  /** One byte: letters, digits and -_.~$&+=:@ stay, every other one becomes a percent sign and two capital digits. */
  lemma {:induction false} EscapesExactly(c: char)
    requires c as int < 256
    ensures |HEX| == 16
    ensures PathEscape([c]) ==
              if 'a' <= c <= 'z' || 'A' <= c <= 'Z' || '0' <= c <= '9' || c in "-_.~$&+=:@" then [c]
              else ['%', HEX[c as int / 16], HEX[c as int % 16]]
  {
    HexDigitIs(c as int / 16);
    HexDigitIs(c as int % 16);
    assert [c][1..] == [];
    assert PathEscape([c]) == EscapeByte(c);
  }

  /** Text is escaped byte by byte. */
  lemma {:induction false} EscapeCons(c: char, rest: Bytes, s: Bytes)
    requires s == [c] + rest
    ensures c as int < 256 && PathEscape(s) == PathEscape([c]) + PathEscape(rest)
  {
    assert s[0] in s && s[1..] == rest;
    assert [c][1..] == [] && PathEscape([c]) == EscapeByte(c);
  }

  // ---------------------------------------------------------------- closure ids

  function ClosureID(job: Bytes, kind: string, index: nat): string {
    PathEscape(job) + "/" + kind + "/" + Decimal(index)
  }

  datatype Closure = Closure(job: string, kind: string, index: nat)

  function FirstSlash(s: string): (i: nat)
    ensures i <= |s|
  {
    if s == "" || s[0] == '/' then 0 else 1 + FirstSlash(s[1..])
  }

  function LastSlash(s: string): (i: nat)
    ensures i <= |s|
  {
    if s == "" then 0 else if s[|s| - 1] == '/' then |s| - 1 else LastSlash(s[..|s| - 1])
  }

  function ReadPieces(job: Option<string>, kind: string, index: string): Option<Closure> {
    if job.Some? && AllDigits(index) then Some(Closure(job.value, kind, Value(index))) else None
  }

  /** Reading an id: the job before the first slash, the index after the last, the kind between them. */
  function ReadClosureID(id: string): Option<Closure> {
    var first, last := FirstSlash(id), LastSlash(id);
    if first >= last then None
    else ReadPieces(Unescape(id[..first]), id[first + 1..last], id[last + 1..])
  }

  lemma {:induction false} FirstSlashAfter(s: string, rest: string)
    requires '/' !in s
    ensures FirstSlash(s + "/" + rest) == |s|
    decreases |s|
  {
    var all := s + "/" + rest;
    if s != "" {
      assert all[0] == s[0] && s[0] in s;
      assert forall c :: c in s[1..] ==> c in s;
      assert all[1..] == s[1..] + "/" + rest;
      FirstSlashAfter(s[1..], rest);
    }
  }

  lemma {:induction false} LastSlashBefore(rest: string, s: string)
    requires '/' !in s
    ensures LastSlash(rest + "/" + s) == |rest|
    decreases |s|
  {
    var all := rest + "/" + s;
    if s != "" {
      assert all[|all| - 1] == s[|s| - 1] && s[|s| - 1] in s;
      assert forall c :: c in s[..|s| - 1] ==> c in s;
      assert all[..|all| - 1] == rest + "/" + s[..|s| - 1];
      LastSlashBefore(rest, s[..|s| - 1]);
    }
  }

  lemma {:induction false} ThreeParts(head: string, kind: string, tail: string)
    requires '/' !in head && '/' !in tail
    ensures var id := head + "/" + kind + "/" + tail;
            && FirstSlash(id) == |head| && LastSlash(id) == |head| + 1 + |kind| < |id|
            && id[..|head|] == head && id[|head| + 1..|head| + 1 + |kind|] == kind && id[|head| + |kind| + 2..] == tail
  {
    var id := head + "/" + kind + "/" + tail;
    var front, back := head + "/" + kind, kind + "/" + tail;
    FirstSlashAfter(head, back);
    LastSlashBefore(front, tail);
    assert id == head + "/" + back && id == front + "/" + tail;
  }

  lemma {:induction false} DecimalHasNoSlash(n: nat)
    ensures '/' !in Decimal(n)
  {
    DecimalReadsBack(n);
  }

  lemma {:induction false} ReadsAt(id: string, first: nat, last: nat, head: string, kind: string, tail: string)
    requires FirstSlash(id) == first < LastSlash(id) == last < |id|
    requires id[..first] == head && id[first + 1..last] == kind && id[last + 1..] == tail
    ensures ReadClosureID(id) == ReadPieces(Unescape(head), kind, tail)
  {
  }

  lemma {:induction false} ReadsThreeParts(head: string, kind: string, tail: string)
    requires '/' !in head && '/' !in tail
    ensures ReadClosureID(head + "/" + kind + "/" + tail) == ReadPieces(Unescape(head), kind, tail)
  {
    ThreeParts(head, kind, tail);
    ReadsAt(head + "/" + kind + "/" + tail, |head|, |head| + 1 + |kind|, head, kind, tail);
  }

  lemma {:induction false} PiecesReadBack(job: Bytes, kind: string, index: nat)
    ensures ReadPieces(Unescape(PathEscape(job)), kind, Decimal(index)) == Some(Closure(job, kind, index))
  {
    UnescapeReadsBack(job);
    DecimalReadsBack(index);
  }

  /** An id gives back what it was made from, whatever slashes the job id or the kind contain. */
  lemma {:induction false} ClosureIDReadsBack(job: Bytes, kind: string, index: nat)
    ensures ReadClosureID(ClosureID(job, kind, index)) == Some(Closure(job, kind, index))
  {
    EscapedHasNoSlash(job);
    DecimalHasNoSlash(index);
    ReadsThreeParts(PathEscape(job), kind, Decimal(index));
    PiecesReadBack(job, kind, index);
  }

  lemma {:induction false} ClosureIDInjective(job: Bytes, kind: string, index: nat, job': Bytes, kind': string, index': nat)
    requires ClosureID(job, kind, index) == ClosureID(job', kind', index')
    ensures job == job' && kind == kind' && index == index'
  {
    ClosureIDReadsBack(job, kind, index);
    ClosureIDReadsBack(job', kind', index');
  }

  // ---------------------------------------------------------------- the callbacks of one job

  /** The callbacks a job can declare. A step's skip predicates carry the step's own id. */
  datatype Callback =
    | SkipIf(index: nat)
    | BeforeRun(index: nat)
    | AfterRun(index: nat)
    | Verify
    | Memo
    | StepSkip(step: string, index: nat)
    | Generate(index: nat)

  function KindOf(c: Callback): string {
    match c
    case SkipIf(_) => "skip"
    case BeforeRun(_) => "before"
    case AfterRun(_) => "after"
    case Verify => "verify"
    case Memo => "memo"
    case StepSkip(step, _) => "step/" + step + "/skip"
    case Generate(_) => "generate"
  }

  function IndexOf(c: Callback): nat {
    match c
    case Verify => 0
    case Memo => 0
    case _ => c.index
  }

  function CallbackID(job: Bytes, c: Callback): string {
    ClosureID(job, KindOf(c), IndexOf(c))
  }

  lemma {:induction false} KindInjective(c: Callback, d: Callback)
    requires KindOf(c) == KindOf(d) && IndexOf(c) == IndexOf(d)
    ensures c == d
  {
    if c.StepSkip? && d.StepSkip? {
      assert KindOf(c)[5..|KindOf(c)| - 5] == c.step;
      assert KindOf(d)[5..|KindOf(d)| - 5] == d.step;
    }
  }

  /** No two callbacks of any two jobs share an id. */
  lemma {:induction false} CallbackIDInjective(job: Bytes, c: Callback, job': Bytes, d: Callback)
    requires CallbackID(job, c) == CallbackID(job', d)
    ensures job == job' && c == d
  {
    ClosureIDInjective(job, KindOf(c), IndexOf(c), job', KindOf(d), IndexOf(d));
    KindInjective(c, d);
  }

  lemma {:induction false} CallbackIDNotEmpty(job: Bytes, c: Callback)
    ensures CallbackID(job, c) != ""
  {
  }
}
