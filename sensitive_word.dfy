/**
  The scan-and-arbitration loop of the sensitive-word engine.

  The text is walked one cursor position at a time. At each position a word
  check (the registry of pattern checkers, abstracted here as a function)
  reports the longest deny match, the longest allow match, a type code and the
  deny word it matched. A deny hit (allow length strictly below deny length) is
  turned into a word result and kept if the result condition accepts it; the
  cursor then jumps past the deny span whether or not it was kept. Otherwise
  the cursor jumps past the allow span, by at least one position.
*/
module SensitiveWord {

  /** The two scan modes: stop after the first kept result, or collect them all. */
  datatype ValidMode = FailFast | FailOver

  /** What a checker sees besides the position: the original text and a mode. */
  datatype CheckContext = CheckContext(originalText: string, mode: ValidMode)

  /** What a checker reports at one position. */
  datatype WordCheckResult = WordCheckResult(denyLen: nat, allowLen: nat, wordType: string, wordDeny: string)

  /** A reported sensitive word: the span [startIndex, endIndex) of the text, its type and its word. */
  datatype WordResult = WordResult(startIndex: int, endIndex: int, wordType: string, word: string)

  /** The result of a "find first": Java's null becomes None. */
  datatype Option<T> = None | Some(value: T)

  /** The pattern checker registry, queried at a position with a context. */
  type WordCheck = (nat, CheckContext) -> WordCheckResult

  /** The caller's filter on word results; it sees the result, the text and the real mode. */
  type WordResultCondition = (WordResult, string, ValidMode) -> bool

  function Max(a: int, b: int): int {
    if a < b then b else a
  }

  /** The context every checker query of a scan receives: always FailOver, whatever the requested mode. */
  function ScanContext(text: string): CheckContext {
    CheckContext(text, FailOver)
  }

  /** Arbitration: a position is a violation only when the allow match is strictly shorter. */
  predicate IsDenyHit(c: WordCheckResult) {
    c.allowLen < c.denyLen
  }

  /** The word result recorded for a deny hit at position i: the word is the checker's, not a slice of the text. */
  function ToWordResult(i: nat, c: WordCheckResult): WordResult {
    WordResult(i, i + c.denyLen, c.wordType, c.wordDeny)
  }

  /** Where the cursor goes after position i, given the checker's report there. */
  function NextCursor(i: nat, c: WordCheckResult): (j: nat)
    ensures i < j
  {
    if IsDenyHit(c) then i + c.denyLen else i + Max(1, c.allowLen)
  }

  /** The word results a scan from cursor i produces (the specification of the loop). */
  function Scan(text: string, mode: ValidMode, check: WordCheck, cond: WordResultCondition, i: nat): seq<WordResult>
    decreases |text| - i
  {
    if i >= |text| then []
    else
      var c := check(i, ScanContext(text));
      if IsDenyHit(c) then
        var r := ToWordResult(i, c);
        if cond(r, text, mode) then
          if mode == FailFast then [r] else [r] + Scan(text, mode, check, cond, i + c.denyLen)
        else Scan(text, mode, check, cond, i + c.denyLen)
      else Scan(text, mode, check, cond, i + Max(1, c.allowLen))
  }

  /**
    The positions the cursor visits from i when nothing stops it early. The
    checker is always queried with the FailOver context, so this path does not
    depend on the requested mode.
  */
  function Cursors(text: string, check: WordCheck, i: nat): seq<nat>
    decreases |text| - i
  {
    if i >= |text| then []
    else [i] + Cursors(text, check, NextCursor(i, check(i, ScanContext(text))))
  }

  /** The results kept at the positions cs: the deny hits that the condition accepts under mode. */
  function Accepted(text: string, check: WordCheck, cond: WordResultCondition, mode: ValidMode, cs: seq<nat>): seq<WordResult>
  {
    if cs == [] then []
    else
      var c := check(cs[0], ScanContext(text));
      var rest := Accepted(text, check, cond, mode, cs[1..]);
      if IsDenyHit(c) && cond(ToWordResult(cs[0], c), text, mode) then [ToWordResult(cs[0], c)] + rest else rest
  }

  /** At most the first element of s. */
  function First<T>(s: seq<T>): (r: seq<T>)
    ensures |r| <= 1
    ensures r == [] <==> s == []
    ensures r != [] ==> r[0] == s[0]
  {
    if s == [] then [] else [s[0]]
  }

  /** r is what the scan records for a deny hit at r's start. */
  predicate IsRecordedHit(text: string, check: WordCheck, r: WordResult) {
    0 <= r.startIndex &&
    var c := check(r.startIndex, ScanContext(text));
    IsDenyHit(c) && r == ToWordResult(r.startIndex, c)
  }

  /** Every span is non-empty, and the spans come in order without overlapping. */
  predicate InOrderDisjoint(s: seq<WordResult>) {
    (forall k :: 0 <= k < |s| ==> s[k].startIndex < s[k].endIndex) &&
    (forall j, k :: 0 <= j < k < |s| ==> s[j].endIndex <= s[k].startIndex)
  }

  /** The result condition ignores the mode it is given. */
  ghost predicate ModeIndependent(cond: WordResultCondition) {
    forall r, t :: cond(r, t, FailFast) == cond(r, t, FailOver)
  }

  // ---------------------------------------------------------------------------
  // The loop and its two entry points

  /**
    The scan loop: a cursor that jumps by the matched span and a growing result
    list. The ghost visited records the positions the loop body ran at.
  */
  method InnerSensitiveWords(text: string, mode: ValidMode, check: WordCheck, cond: WordResultCondition)
    returns (results: seq<WordResult>, ghost visited: seq<nat>)
    ensures results == Scan(text, mode, check, cond, 0)
    ensures visited <= Cursors(text, check, 0) && |visited| <= |text|
    ensures mode == FailOver ==> visited == Cursors(text, check, 0)
  {
    results := [];
    visited := [];
    var checkContext := ScanContext(text);
    var i: nat := 0;
    while i < |text|
      invariant results + Scan(text, mode, check, cond, i) == Scan(text, mode, check, cond, 0)
      invariant visited + Cursors(text, check, i) == Cursors(text, check, 0)
      decreases |text| - i
    {
      visited := visited + [i];
      var checkResult := check(i, checkContext);
      var wordLengthAllow: int := checkResult.allowLen;
      var wordLengthDeny: int := checkResult.denyLen;
      if wordLengthAllow < wordLengthDeny {
        var wordResult := WordResult(i, i + wordLengthDeny, checkResult.wordType, checkResult.wordDeny);
        if cond(wordResult, text, mode) {
          results := results + [wordResult];
          if mode == FailFast {
            break;
          }
        }
        i := i + wordLengthDeny;
      } else {
        i := i + Max(0, wordLengthAllow - 1) + 1;
      }
    }
    CursorsBound(text, check, 0);
  }

  /** Every kept result, in text order. */
  method DoFindAll(text: string, check: WordCheck, cond: WordResultCondition) returns (results: seq<WordResult>)
    ensures results == Accepted(text, check, cond, FailOver, Cursors(text, check, 0))
    ensures InOrderDisjoint(results)
    ensures forall k :: 0 <= k < |results| ==>
              0 <= results[k].startIndex < |text| &&
              IsRecordedHit(text, check, results[k]) && cond(results[k], text, FailOver)
  {
    ghost var visited;
    results, visited := InnerSensitiveWords(text, FailOver, check, cond);
    ScanIsAccepted(text, check, cond, 0);
    ScanSound(text, FailOver, check, cond, 0);
  }

  /** The first kept result, or None when there is none. */
  method DoFindFirst(text: string, check: WordCheck, cond: WordResultCondition) returns (r: Option<WordResult>)
    ensures r.None? <==> Accepted(text, check, cond, FailFast, Cursors(text, check, 0)) == []
    ensures r.Some? ==> r.value == Accepted(text, check, cond, FailFast, Cursors(text, check, 0))[0]
    ensures ModeIndependent(cond) ==>
              (r.None? <==> Scan(text, FailOver, check, cond, 0) == []) &&
              (r.Some? ==> r.value == Scan(text, FailOver, check, cond, 0)[0])
  {
    var wordResults;
    ghost var visited;
    wordResults, visited := InnerSensitiveWords(text, FailFast, check, cond);
    FailFastIsFirstAccepted(text, check, cond, 0);
    if ModeIndependent(cond) {
      ModesAgree(text, check, cond, 0);
    }
    if wordResults != [] {
      r := Some(wordResults[0]);
    } else {
      r := None;
    }
  }

  // ---------------------------------------------------------------------------
  // Properties of the scan

  /** The visited positions start at i, increase strictly, stay inside the text, and each follows from the last by the cursor rule. */
  lemma {:induction false} CursorsAdvance(text: string, check: WordCheck, i: nat)
    ensures var cs := Cursors(text, check, i);
      (i < |text| ==> cs != [] && cs[0] == i) &&
      (forall k :: 0 <= k < |cs| ==> i <= cs[k] < |text|) &&
      (forall k :: 0 <= k < |cs| - 1 ==> cs[k + 1] == NextCursor(cs[k], check(cs[k], ScanContext(text)))) &&
      (forall j, k :: 0 <= j < k < |cs| ==> cs[j] < cs[k])
    decreases |text| - i
  {
    if i < |text| {
      var n := NextCursor(i, check(i, ScanContext(text)));
      CursorsAdvance(text, check, n);
      var cs := Cursors(text, check, i);
      assert cs == [i] + Cursors(text, check, n);
      forall k | 0 <= k < |cs| - 1
        ensures cs[k + 1] == NextCursor(cs[k], check(cs[k], ScanContext(text)))
      {
        if k > 0 {
          assert cs[k] == Cursors(text, check, n)[k - 1];
        }
      }
    }
  }

  /** The loop runs at most |text| - i times: each visit moves the cursor forward by at least one. */
  lemma {:induction false} CursorsBound(text: string, check: WordCheck, i: nat)
    ensures |Cursors(text, check, i)| <= if i < |text| then |text| - i else 0
    decreases |text| - i
  {
    if i < |text| {
      CursorsBound(text, check, NextCursor(i, check(i, ScanContext(text))));
    }
  }

  /** After a deny hit the next visited position is exactly the end of the deny span, kept or not; otherwise the cursor moves past the allow span, by at least one. */
  lemma DenyHitSkipsSpan(text: string, check: WordCheck, k: nat)
    requires k + 1 < |Cursors(text, check, 0)|
    ensures var cs := Cursors(text, check, 0);
      var c := check(cs[k], ScanContext(text));
      (IsDenyHit(c) ==> cs[k + 1] == cs[k] + c.denyLen) &&
      (!IsDenyHit(c) ==> cs[k + 1] == cs[k] + Max(1, c.allowLen)) &&
      (forall m :: 0 <= m < |cs| ==> cs[m] <= cs[k] || cs[k + 1] <= cs[m])
  {
    CursorsAdvance(text, check, 0);
    var cs := Cursors(text, check, 0);
    forall m | 0 <= m < |cs|
      ensures cs[m] <= cs[k] || cs[k + 1] <= cs[m]
    {
      if m < k { assert cs[m] < cs[k]; }
      else if m > k + 1 { assert cs[k + 1] < cs[m]; }
    }
  }

  /** With FailOver the scan keeps exactly the accepted deny hits along the cursor path. */
  lemma {:induction false} ScanIsAccepted(text: string, check: WordCheck, cond: WordResultCondition, i: nat)
    ensures Scan(text, FailOver, check, cond, i) == Accepted(text, check, cond, FailOver, Cursors(text, check, i))
    decreases |text| - i
  {
    if i < |text| {
      var c := check(i, ScanContext(text));
      var n := NextCursor(i, c);
      ScanIsAccepted(text, check, cond, n);
      var cs := Cursors(text, check, i);
      assert cs[0] == i && cs[1..] == Cursors(text, check, n);
    }
  }

  /** With FailFast the scan keeps only the first deny hit on the same path that the condition accepts under FailFast. */
  lemma {:induction false} FailFastIsFirstAccepted(text: string, check: WordCheck, cond: WordResultCondition, i: nat)
    ensures Scan(text, FailFast, check, cond, i) == First(Accepted(text, check, cond, FailFast, Cursors(text, check, i)))
    decreases |text| - i
  {
    if i < |text| {
      var c := check(i, ScanContext(text));
      var n := NextCursor(i, c);
      FailFastIsFirstAccepted(text, check, cond, n);
      var cs := Cursors(text, check, i);
      assert cs[0] == i && cs[1..] == Cursors(text, check, n);
    }
  }

  /** A result is kept from a path exactly when it is an accepted deny hit at one of the path's positions. */
  lemma {:induction false} AcceptedMembers(text: string, check: WordCheck, cond: WordResultCondition, mode: ValidMode, cs: seq<nat>, r: WordResult)
    ensures r in Accepted(text, check, cond, mode, cs) <==>
      exists k :: 0 <= k < |cs| && IsDenyHit(check(cs[k], ScanContext(text))) &&
        r == ToWordResult(cs[k], check(cs[k], ScanContext(text))) && cond(r, text, mode)
  {
    if cs != [] {
      AcceptedMembers(text, check, cond, mode, cs[1..], r);
      if (exists k :: 0 <= k < |cs| && IsDenyHit(check(cs[k], ScanContext(text))) &&
            r == ToWordResult(cs[k], check(cs[k], ScanContext(text))) && cond(r, text, mode))
      {
        var k :| 0 <= k < |cs| && IsDenyHit(check(cs[k], ScanContext(text))) &&
          r == ToWordResult(cs[k], check(cs[k], ScanContext(text))) && cond(r, text, mode);
        if k > 0 {
          assert cs[1..][k - 1] == cs[k];
        }
      }
      if r in Accepted(text, check, cond, mode, cs[1..]) {
        var k :| 0 <= k < |cs[1..]| && IsDenyHit(check(cs[1..][k], ScanContext(text))) &&
          r == ToWordResult(cs[1..][k], check(cs[1..][k], ScanContext(text))) && cond(r, text, mode);
        assert cs[k + 1] == cs[1..][k];
      }
    }
  }

  /** Every result of a scan from i is a deny hit at a position in [i, |text|) that the condition accepted, and the results are in order and disjoint. */
  lemma {:induction false} ScanSound(text: string, mode: ValidMode, check: WordCheck, cond: WordResultCondition, i: nat)
    ensures var s := Scan(text, mode, check, cond, i);
      InOrderDisjoint(s) &&
      forall k :: 0 <= k < |s| ==>
        i <= s[k].startIndex < |text| && IsRecordedHit(text, check, s[k]) && cond(s[k], text, mode)
    decreases |text| - i
  {
    if i < |text| {
      var c := check(i, ScanContext(text));
      var n := NextCursor(i, c);
      ScanSound(text, mode, check, cond, n);
      var s := Scan(text, mode, check, cond, i);
      var tail := Scan(text, mode, check, cond, n);
      if IsDenyHit(c) && cond(ToWordResult(i, c), text, mode) && mode == FailOver {
        assert s == [ToWordResult(i, c)] + tail;
        forall k | 0 <= k < |s|
          ensures i <= s[k].startIndex < |text| && IsRecordedHit(text, check, s[k]) && cond(s[k], text, mode)
        {
          if k > 0 { assert s[k] == tail[k - 1]; }
        }
        forall j, k | 0 <= j < k < |s|
          ensures s[j].endIndex <= s[k].startIndex
        {
          assert s[k] == tail[k - 1];
          if j > 0 { assert s[j] == tail[j - 1]; }
        }
      }
    }
  }

  /** In FailFast mode a scan keeps at most one result. */
  lemma FailFastAtMostOne(text: string, check: WordCheck, cond: WordResultCondition)
    ensures |Scan(text, FailFast, check, cond, 0)| <= 1
  {
    FailFastIsFirstAccepted(text, check, cond, 0);
  }

  /** Both paths agree when the condition ignores the mode, so FailFast keeps the first FailOver result. */
  lemma {:induction false} AcceptedModeIndependent(text: string, check: WordCheck, cond: WordResultCondition, cs: seq<nat>)
    requires ModeIndependent(cond)
    ensures Accepted(text, check, cond, FailFast, cs) == Accepted(text, check, cond, FailOver, cs)
  {
    if cs != [] {
      AcceptedModeIndependent(text, check, cond, cs[1..]);
      var c := check(cs[0], ScanContext(text));
      assert cond(ToWordResult(cs[0], c), text, FailFast) == cond(ToWordResult(cs[0], c), text, FailOver);
    }
  }

  /** The two modes agree: a FailFast scan yields the first element of the FailOver scan, if any. */
  lemma ModesAgree(text: string, check: WordCheck, cond: WordResultCondition, i: nat)
    requires ModeIndependent(cond)
    ensures Scan(text, FailFast, check, cond, i) == First(Scan(text, FailOver, check, cond, i))
  {
    FailFastIsFirstAccepted(text, check, cond, i);
    ScanIsAccepted(text, check, cond, i);
    AcceptedModeIndependent(text, check, cond, Cursors(text, check, i));
  }

  /** Empty text yields nothing; if the checker never reports a deny span past the end, every result lies inside the text. */
  lemma ResultsWithinText(text: string, mode: ValidMode, check: WordCheck, cond: WordResultCondition)
    ensures text == [] ==> Scan(text, mode, check, cond, 0) == []
    ensures (forall p: nat :: p < |text| ==> p + check(p, ScanContext(text)).denyLen <= |text|) ==>
      var s := Scan(text, mode, check, cond, 0);
      forall k :: 0 <= k < |s| ==> 0 <= s[k].startIndex < s[k].endIndex <= |text|
  {
    ScanSound(text, mode, check, cond, 0);
  }

  /** A deny hit that the condition rejects is not kept, but the cursor still skips its whole span. */
  lemma RejectedHitSkipped(text: string, mode: ValidMode, check: WordCheck, cond: WordResultCondition, i: nat)
    requires i < |text|
    requires IsDenyHit(check(i, ScanContext(text)))
    requires !cond(ToWordResult(i, check(i, ScanContext(text))), text, mode)
    ensures var s := Scan(text, mode, check, cond, i);
      s == Scan(text, mode, check, cond, i + check(i, ScanContext(text)).denyLen) &&
      forall k :: 0 <= k < |s| ==> s[k].startIndex >= i + check(i, ScanContext(text)).denyLen
  {
    ScanSound(text, mode, check, cond, i + check(i, ScanContext(text)).denyLen);
  }
}
