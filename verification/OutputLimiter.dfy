/**
 The bounded diagnostic output of a command. Two stream readers share one limiter; each call's locked
 part is atomic, so an interleaving is the list of calls in the order of their locked parts.
 */
module OutputLimiter {

  /** One character per byte. */
  type Bytes = string

  const MARKER: Bytes := "...[diagnostic output truncated]"

  datatype Limiter = Limiter(remaining: int, marked: bool)

  /** Expiry is read before the lock is taken, so it is part of the call. */
  datatype Call = Call(stream: bool, raw: Bytes, expired: bool)

  datatype Outcome = Passed | Marked | Dropped

  function Decide(l: Limiter, c: Call): Outcome {
    if !c.expired then Passed
    else if l.marked then Dropped
    else if |c.raw| + |MARKER| <= l.remaining then Passed
    else if |MARKER| > l.remaining then Dropped
    else Marked
  }

  function Emitted(d: Outcome, raw: Bytes): Bytes {
    match d case Passed => raw case Marked => MARKER case Dropped => ""
  }

  function Output(l: Limiter, c: Call): Bytes {
    Emitted(Decide(l, c), c.raw)
  }

  function Next(l: Limiter, c: Call): Limiter {
    if !c.expired then l
    else match Decide(l, c)
      case Passed => l.(remaining := l.remaining - |c.raw|)
      case Marked => Limiter(l.remaining - |MARKER|, true)
      case Dropped => l.(marked := true)
  }

  class DiagnosticOutputLimiter {
    var remaining: int
    var marked: bool

    function View(): Limiter
      reads this
    {
      Limiter(remaining, marked)
    }

    constructor (limit: nat)
      ensures View() == Limiter(limit, false)
    {
      remaining, marked := limit, false;
    }

    method Capture(raw: Bytes, expired: bool, ghost stream: bool) returns (out: Bytes)
      modifies this
      ensures out == Output(old(View()), Call(stream, raw, expired))
      ensures View() == Next(old(View()), Call(stream, raw, expired))
    {
      if !expired {
        return raw;
      }
      if marked {
        return "";
      }
      var markerBytes := |MARKER|;
      if |raw| + markerBytes <= remaining {
        remaining := remaining - |raw|;
        return raw;
      }
      marked := true;
      if markerBytes > remaining {
        return "";
      }
      remaining := remaining - markerBytes;
      return MARKER;
    }

    /** The loops of both readers under one interleaving, each into its own builder. */
    method CaptureAll(calls: seq<Call>) returns (stdout: Bytes, stderr: Bytes)
      requires remaining >= 0 && !marked
      modifies this
      ensures stdout == Buffer(old(remaining), calls, false) && stderr == Buffer(old(remaining), calls, true)
    {
      ghost var limit := remaining;
      stdout, stderr := "", "";
      var k := 0;
      while k < |calls|
        invariant 0 <= k <= |calls| && View() == After(limit, calls[..k])
        invariant stdout == Buffer(limit, calls[..k], false) && stderr == Buffer(limit, calls[..k], true)
      {
        assert calls[..k + 1][..k] == calls[..k];
        var out := Capture(calls[k].raw, calls[k].expired, calls[k].stream);
        if calls[k].stream {
          stderr := stderr + out;
        } else {
          stdout := stdout + out;
        }
        k := k + 1;
      }
      assert calls[..k] == calls;
    }
  }

  // ---------------------------------------------------------------- whole interleavings

  function After(limit: int, calls: seq<Call>): Limiter {
    if calls == [] then Limiter(limit, false) else Next(After(limit, calls[..|calls| - 1]), calls[|calls| - 1])
  }

  /** What one stream's builder holds in the end. */
  function Buffer(limit: int, calls: seq<Call>, stream: bool): Bytes {
    if calls == [] then ""
    else
      var init, c := calls[..|calls| - 1], calls[|calls| - 1];
      Buffer(limit, init, stream) + if c.stream == stream then Output(After(limit, init), c) else ""
  }

  /** What the stream really wrote. */
  function Written(calls: seq<Call>, stream: bool): Bytes {
    if calls == [] then ""
    else
      var c := calls[|calls| - 1];
      Written(calls[..|calls| - 1], stream) + if c.stream == stream then c.raw else ""
  }

  /** Bytes returned after expiry, over both streams. */
  function Spent(limit: int, calls: seq<Call>): nat {
    if calls == [] then 0
    else
      var init, c := calls[..|calls| - 1], calls[|calls| - 1];
      Spent(limit, init) + if c.expired then |Output(After(limit, init), c)| else 0
  }

  /** How often the marker was emitted on a stream. */
  function Marks(limit: int, calls: seq<Call>, stream: bool): nat {
    if calls == [] then 0
    else
      var init, c := calls[..|calls| - 1], calls[|calls| - 1];
      Marks(limit, init, stream) + if c.stream == stream && Decide(After(limit, init), c) == Marked then 1 else 0
  }

  lemma {:induction false} BudgetAccounts(limit: nat, calls: seq<Call>)
    ensures Spent(limit, calls) + After(limit, calls).remaining == limit && After(limit, calls).remaining >= 0
    ensures limit >= |MARKER| && !After(limit, calls).marked ==> After(limit, calls).remaining >= |MARKER|
    decreases |calls|
  {
    if calls != [] { BudgetAccounts(limit, calls[..|calls| - 1]); }
  }

  /** After expiry both streams together return at most the limit, whatever the interleaving. */
  lemma {:induction false} NeverExceedsLimit(limit: nat, calls: seq<Call>)
    ensures Spent(limit, calls) <= limit
  {
    BudgetAccounts(limit, calls);
  }

  /** Once something was dropped, nothing more is returned after expiry: not on either stream. */
  lemma {:induction false} SilentAfterMark(limit: nat, calls: seq<Call>, i: nat, j: nat)
    requires i < j < |calls| && calls[i].expired && Decide(After(limit, calls[..i]), calls[i]) != Passed
    requires calls[j].expired
    ensures After(limit, calls[..j]).marked && Output(After(limit, calls[..j]), calls[j]) == ""
    decreases j
  {
    MarkSticks(limit, calls, i, j);
  }

  lemma {:induction false} MarkSticks(limit: nat, calls: seq<Call>, i: nat, j: nat)
    requires i < j <= |calls| && calls[i].expired && Decide(After(limit, calls[..i]), calls[i]) != Passed
    ensures After(limit, calls[..j]).marked
    decreases j
  {
    assert calls[..j][..j - 1] == calls[..j - 1];
    if i < j - 1 { MarkSticks(limit, calls, i, j - 1); }
  }

  /**
   The marker appears at most once over both streams. It appears when something is dropped exactly
   if the limit has room for it; a smaller limit drops silently.
   */
  lemma {:induction false} MarkerExactly(limit: nat, calls: seq<Call>)
    ensures Marks(limit, calls, false) + Marks(limit, calls, true)
         == if After(limit, calls).marked && limit >= |MARKER| then 1 else 0
    decreases |calls|
  {
    if calls != [] {
      var init := calls[..|calls| - 1];
      MarkerExactly(limit, init);
      BudgetAccounts(limit, init);
    }
  }

  /** The bytes offered after expiry, over both streams. */
  function Offered(calls: seq<Call>): nat {
    if calls == [] then 0
    else Offered(calls[..|calls| - 1]) + if calls[|calls| - 1].expired then |calls[|calls| - 1].raw| else 0
  }

  predicate AnyExpired(calls: seq<Call>) {
    exists i :: 0 <= i < |calls| && calls[i].expired
  }

  /** The limiter's state, read off what was offered. */
  lemma {:induction false} StateIs(limit: nat, calls: seq<Call>)
    ensures After(limit, calls).marked <==> AnyExpired(calls) && Offered(calls) + |MARKER| > limit
    ensures !After(limit, calls).marked ==> After(limit, calls).remaining == limit - Offered(calls)
    ensures !AnyExpired(calls) ==> Offered(calls) == 0
    decreases |calls|
  {
    if calls != [] {
      var init, c := calls[..|calls| - 1], calls[|calls| - 1];
      StateIs(limit, init);
      assert forall i :: 0 <= i < |init| ==> init[i] == calls[i];
      assert AnyExpired(calls) <==> AnyExpired(init) || c.expired by {
        if AnyExpired(calls) && !c.expired {
          var i :| 0 <= i < |calls| && calls[i].expired;
          assert init[i].expired;
        }
        if c.expired { assert calls[|calls| - 1].expired; }
      }
    }
  }

  /**
   What becomes of a chunk, from the bytes offered alone: before expiry it is passed; after, it is
   passed exactly while all that was offered leaves room for the marker, the first chunk that does not
   is replaced by the marker if there was room before, and every other is dropped.
   */
  lemma {:induction false} OutcomeExactly(limit: nat, before: seq<Call>, c: Call)
    ensures var given, d := Offered(before), Decide(After(limit, before), c);
            && (d == Passed <==> !c.expired || given + |c.raw| + |MARKER| <= limit)
            && (d == Marked <==> c.expired && given + |MARKER| <= limit < given + |c.raw| + |MARKER|)
            && (d == Dropped <==> c.expired && limit < given + |MARKER|)
    ensures Output(After(limit, before), c) == match Decide(After(limit, before), c) case Passed => c.raw case Marked => MARKER case Dropped => ""
  {
    StateIs(limit, before);
  }

  /** Calls of one reader follow each other, and expiry never turns back. */
  ghost predicate ExpiryIsMonotone(calls: seq<Call>) {
    forall i, j :: 0 <= i < j < |calls| && calls[i].stream == calls[j].stream && calls[i].expired ==> calls[j].expired
  }

  /** The stream lost a chunk. */
  predicate Cut(limit: int, calls: seq<Call>, stream: bool) {
    && calls != []
    && var init, c := calls[..|calls| - 1], calls[|calls| - 1];
       Cut(limit, init, stream) || (c.stream == stream && Decide(After(limit, init), c) != Passed)
  }

  lemma {:induction false} CutMeansExpired(limit: nat, calls: seq<Call>, stream: bool) returns (i: nat)
    requires Cut(limit, calls, stream)
    ensures i < |calls| && calls[i].stream == stream && calls[i].expired && After(limit, calls).marked
    decreases |calls|
  {
    var init, c := calls[..|calls| - 1], calls[|calls| - 1];
    if c.stream == stream && Decide(After(limit, init), c) != Passed {
      i := |calls| - 1;
    } else {
      i := CutMeansExpired(limit, init, stream);
    }
  }

  /** A builder holds `kept` and possibly the marker behind it. */
  predicate Ends(buffer: Bytes, kept: Bytes, marks: nat) {
    buffer == kept + (if marks > 0 then MARKER else "")
  }

  lemma {:induction false} OneMore(limit: int, init: seq<Call>, c: Call, stream: bool)
    ensures Buffer(limit, init + [c], stream) == Buffer(limit, init, stream) + if c.stream == stream then Output(After(limit, init), c) else ""
    ensures Written(init + [c], stream) == Written(init, stream) + if c.stream == stream then c.raw else ""
    ensures Marks(limit, init + [c], stream)
         == Marks(limit, init, stream) + if c.stream == stream && Decide(After(limit, init), c) == Marked then 1 else 0
    ensures Cut(limit, init + [c], stream) <==> Cut(limit, init, stream) || (c.stream == stream && Decide(After(limit, init), c) != Passed)
  {
    var calls := init + [c];
    assert calls[..|calls| - 1] == init && calls[|calls| - 1] == c;
  }

  /** After a cut every further call of the stream finds expiry and the mark. */
  lemma {:induction false} CutStays(limit: nat, init: seq<Call>, c: Call, stream: bool)
    requires ExpiryIsMonotone(init + [c]) && Cut(limit, init, stream) && c.stream == stream
    ensures Decide(After(limit, init), c) == Dropped
  {
    var i := CutMeansExpired(limit, init, stream);
    var calls := init + [c];
    assert calls[i] == init[i] && calls[|init|] == c;
  }

  /** A builder's content is `kept` and the marks so far, and everything written while nothing is cut. */
  predicate Accounted(kept: Bytes, written: Bytes, buffer: Bytes, marks: nat, cut: bool) {
    kept <= written && Ends(buffer, kept, marks) && (!cut ==> kept == written && marks == 0)
  }

  lemma {:induction false} ChunkAccounted(kept: Bytes, written: Bytes, buffer: Bytes, marks: nat, cut: bool, raw: Bytes, d: Outcome)
    requires Accounted(kept, written, buffer, marks, cut) && (cut ==> d == Dropped)
    ensures Accounted(
              if d == Passed then kept + raw else kept, written + raw, buffer + Emitted(d, raw),
              marks + (if d == Marked then 1 else 0), cut || d != Passed)
  {
  }

  ghost predicate Holds(limit: nat, calls: seq<Call>, stream: bool, kept: Bytes) {
    Accounted(kept, Written(calls, stream), Buffer(limit, calls, stream), Marks(limit, calls, stream), Cut(limit, calls, stream))
  }

  lemma {:induction false} HoldsNext(limit: nat, init: seq<Call>, c: Call, stream: bool, kept: Bytes) returns (kept': Bytes)
    requires ExpiryIsMonotone(init + [c]) && Holds(limit, init, stream, kept)
    ensures Holds(limit, init + [c], stream, kept')
  {
    kept' := kept;
    OneMore(limit, init, c, stream);
    if c.stream == stream {
      var d := Decide(After(limit, init), c);
      if Cut(limit, init, stream) { CutStays(limit, init, c, stream); }
      ChunkAccounted(kept, Written(init, stream), Buffer(limit, init, stream), Marks(limit, init, stream), Cut(limit, init, stream), c.raw, d);
      kept' := if d == Passed then kept + c.raw else kept;
    }
  }

  /**
   What a stream's builder holds is a beginning of what the stream wrote, followed by the marker or
   nothing, and all of it when no chunk was lost. No byte is reordered or left out in the middle.
   */
  lemma {:induction false} BufferIsPrefix(limit: nat, calls: seq<Call>, stream: bool) returns (kept: Bytes)
    requires ExpiryIsMonotone(calls)
    ensures kept <= Written(calls, stream) && Ends(Buffer(limit, calls, stream), kept, Marks(limit, calls, stream))
    ensures !Cut(limit, calls, stream) ==> kept == Written(calls, stream) && Marks(limit, calls, stream) == 0
    decreases |calls|
  {
    if |calls| == 0 {
      kept := "";
    } else {
      var init, c := calls[..|calls| - 1], calls[|calls| - 1];
      assert calls == init + [c];
      kept := BufferIsPrefix(limit, init, stream);
      kept := HoldsNext(limit, init, c, stream, kept);
    }
  }
}
