/**
  Concrete scans with a small dictionary fixture: a checker that reports, at a
  position, the longest deny word and the longest allow word starting there.
  The fixture stands in for the dictionary checker, which is not part of this
  model.
*/
module SensitiveWordHelperTest {
  import opened SensitiveWord

  /** The length of the longest word of words that occurs in text at position i, and that word. */
  function LongestAt(words: seq<string>, text: string, i: nat): (nat, string)
  {
    if words == [] then (0, "")
    else
      var rest := LongestAt(words[1..], text, i);
      var w := words[0];
      if i + |w| <= |text| && text[i..i + |w|] == w && |w| > rest.0 then (|w|, w) else rest
  }

  /** A dictionary checker over deny and allow word lists. */
  function DictionaryCheck(deny: seq<string>, allow: seq<string>): WordCheck
  {
    (i: nat, ctx: CheckContext) =>
      var d := LongestAt(deny, ctx.originalText, i);
      WordCheckResult(d.0, LongestAt(allow, ctx.originalText, i).0, "WORD", d.1)
  }

  /** The default result condition: every result is kept. */
  function AlwaysTrue(): WordResultCondition
  {
    (r: WordResult, t: string, m: ValidMode) => true
  }

  const Text: string := "你这个大二货,我真想干死你这个大二货。"

  /** The deny words of the sample; there are no allow words. */
  function SampleCheck(): WordCheck
  {
    DictionaryCheck(["二货", "干死"], [])
  }

  /** t is the sample sentence, character by character. */
  predicate IsSample(t: string)
  {
    |t| == 19 &&
    t[0] == '你' &&
    t[1] == '这' &&
    t[2] == '个' &&
    t[3] == '大' &&
    t[4] == '二' &&
    t[5] == '货' &&
    t[6] == ',' &&
    t[7] == '我' &&
    t[8] == '真' &&
    t[9] == '想' &&
    t[10] == '干' &&
    t[11] == '死' &&
    t[12] == '你' &&
    t[13] == '这' &&
    t[14] == '个' &&
    t[15] == '大' &&
    t[16] == '二' &&
    t[17] == '货' &&
    t[18] == '。'
  }

  lemma TextIsSample()
    ensures IsSample(Text)
  {
  }

  /** The fixture reports nothing where neither sample word starts. */
  lemma SampleNoHitAt(t: string, i: nat, c: char)
    requires i < |t| && t[i] == c
    requires c != '二' && c != '干'
    ensures SampleCheck()(i, ScanContext(t)) == WordCheckResult(0, 0, "WORD", "")
  {
    var words: seq<string> := ["二货", "干死"];
    assert words[1..] == ["干死"] && words[1..][1..] == [];
    if i + 2 <= |t| {
      assert t[i..i + 2][0] == t[i];
    }
    assert LongestAt(words[1..][1..], t, i) == (0, "");
    assert LongestAt(words[1..], t, i) == (0, "");
    assert LongestAt(words, t, i) == (0, "");
    assert LongestAt([], t, i) == (0, "");
  }

  /** The fixture reports a sample word of length 2 where one starts. */
  lemma SampleHitAt(t: string, i: nat, w: string)
    requires w == "二货" || w == "干死"
    requires i + 2 <= |t| && t[i] == w[0] && t[i + 1] == w[1]
    ensures SampleCheck()(i, ScanContext(t)) == WordCheckResult(2, 0, "WORD", w)
  {
    var words: seq<string> := ["二货", "干死"];
    assert words[1..] == ["干死"] && words[1..][1..] == [];
    assert t[i..i + 2] == w;
    assert LongestAt(words[1..][1..], t, i) == (0, "");
    if w == "干死" {
      assert LongestAt(words[1..], t, i) == (2, w);
      assert t[i..i + 2] != "二货";
    } else {
      assert LongestAt(words[1..], t, i) == (0, "");
    }
    assert LongestAt(words, t, i) == (2, w);
    assert LongestAt([], t, i) == (0, "");
  }

  /** One step of a scan over a position where the checker reports nothing. */
  lemma ScanSkips(text: string, mode: ValidMode, check: WordCheck, cond: WordResultCondition, i: nat)
    requires i < |text|
    requires check(i, ScanContext(text)).denyLen == 0 && check(i, ScanContext(text)).allowLen == 0
    ensures Scan(text, mode, check, cond, i) == Scan(text, mode, check, cond, i + 1)
  {
  }

  /** One step of a FailOver scan over a deny hit that the condition keeps. */
  lemma ScanKeeps(text: string, check: WordCheck, cond: WordResultCondition, i: nat)
    requires i < |text|
    requires IsDenyHit(check(i, ScanContext(text)))
    requires cond(ToWordResult(i, check(i, ScanContext(text))), text, FailOver)
    ensures Scan(text, FailOver, check, cond, i) ==
      [ToWordResult(i, check(i, ScanContext(text)))] + Scan(text, FailOver, check, cond, i + check(i, ScanContext(text)).denyLen)
  {
  }

  /** The sample sentence scanned from position 12: the second 二货. */
  lemma SampleFromTwelve(t: string, check: WordCheck, cond: WordResultCondition)
    requires IsSample(t) && check == SampleCheck() && cond == AlwaysTrue()
    ensures Scan(t, FailOver, check, cond, 12) == [WordResult(16, 18, "WORD", "二货")]
  {
    SampleNoHitAt(t, 18, '。');
    ScanSkips(t, FailOver, check, cond, 18);
    assert Scan(t, FailOver, check, cond, 19) == [];
    SampleHitAt(t, 16, "二货");
    ScanKeeps(t, check, cond, 16);
    SampleNoHitAt(t, 15, '大');
    ScanSkips(t, FailOver, check, cond, 15);
    SampleNoHitAt(t, 14, '个');
    ScanSkips(t, FailOver, check, cond, 14);
    SampleNoHitAt(t, 13, '这');
    ScanSkips(t, FailOver, check, cond, 13);
    SampleNoHitAt(t, 12, '你');
    ScanSkips(t, FailOver, check, cond, 12);
  }

  /** The sample sentence scanned from position 6: 干死, then the second 二货. */
  lemma SampleFromSix(t: string, check: WordCheck, cond: WordResultCondition)
    requires IsSample(t) && check == SampleCheck() && cond == AlwaysTrue()
    ensures Scan(t, FailOver, check, cond, 6) == [WordResult(10, 12, "WORD", "干死"), WordResult(16, 18, "WORD", "二货")]
  {
    SampleFromTwelve(t, check, cond);
    SampleHitAt(t, 10, "干死");
    ScanKeeps(t, check, cond, 10);
    SampleNoHitAt(t, 9, '想');
    ScanSkips(t, FailOver, check, cond, 9);
    SampleNoHitAt(t, 8, '真');
    ScanSkips(t, FailOver, check, cond, 8);
    SampleNoHitAt(t, 7, '我');
    ScanSkips(t, FailOver, check, cond, 7);
    SampleNoHitAt(t, 6, ',');
    ScanSkips(t, FailOver, check, cond, 6);
  }

  /** The whole sample sentence in FailOver mode. */
  lemma SampleFromZero(t: string, check: WordCheck, cond: WordResultCondition)
    requires IsSample(t) && check == SampleCheck() && cond == AlwaysTrue()
    ensures Scan(t, FailOver, check, cond, 0) == [WordResult(4, 6, "WORD", "二货"), WordResult(10, 12, "WORD", "干死"), WordResult(16, 18, "WORD", "二货")]
  {
    SampleFromSix(t, check, cond);
    SampleHitAt(t, 4, "二货");
    ScanKeeps(t, check, cond, 4);
    SampleNoHitAt(t, 3, '大');
    ScanSkips(t, FailOver, check, cond, 3);
    SampleNoHitAt(t, 2, '个');
    ScanSkips(t, FailOver, check, cond, 2);
    SampleNoHitAt(t, 1, '这');
    ScanSkips(t, FailOver, check, cond, 1);
    SampleNoHitAt(t, 0, '你');
    ScanSkips(t, FailOver, check, cond, 0);
  }

  /** Find-all on the sample sentence yields 二货, 干死, 二货 at their spans; find-first yields the first 二货. */
  lemma FindAllAndFirstExample()
    ensures Scan(Text, FailOver, SampleCheck(), AlwaysTrue(), 0) == [WordResult(4, 6, "WORD", "二货"), WordResult(10, 12, "WORD", "干死"), WordResult(16, 18, "WORD", "二货")]
    ensures Scan(Text, FailFast, SampleCheck(), AlwaysTrue(), 0) == [WordResult(4, 6, "WORD", "二货")]
  {
    TextIsSample();
    SampleFromZero(Text, SampleCheck(), AlwaysTrue());
    ModesAgree(Text, SampleCheck(), AlwaysTrue(), 0);
  }

  /** Allow word "abc" beats deny word "ab" at the same start: nothing is reported, and the cursor jumps from 0 to 3. */
  lemma AllowListPrecedenceExample()
    ensures Scan("abcd", FailOver, DictionaryCheck(["ab"], ["abc"]), AlwaysTrue(), 0) == []
    ensures Cursors("abcd", DictionaryCheck(["ab"], ["abc"]), 0) == [0, 3]
  {
    var check := DictionaryCheck(["ab"], ["abc"]);
    assert check(0, ScanContext("abcd")) == WordCheckResult(2, 3, "WORD", "ab");
    assert check(3, ScanContext("abcd")).denyLen == 0;
    assert Cursors("abcd", check, 4) == [];
    assert Cursors("abcd", check, 3) == [3];
  }
}
