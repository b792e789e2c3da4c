# sensitive-word: the scan loop and the URL checker's predicates

This project models two parts of the sensitive-word detector.

The first is the scan loop `SensitiveWord.innerSensitiveWords`. It walks a text one cursor position at a time. At each position it asks the word check (the registry of pattern checkers) for a deny length, an allow length, a type code and a deny word. A position is a violation only when the allow length is strictly below the deny length. Such a hit becomes a word result with span `[i, i + denyLen)`. The result is kept if the caller's result condition accepts it. The cursor then jumps past the deny span, whether or not the result was kept. Otherwise the cursor jumps past the allow span, by at least one position. In `FAIL_FAST` mode the loop stops after the first kept result. `doFindAll` and `doFindFirst` run the loop in the two modes.

The second is the URL checker's two predicates. One decides which characters may belong to a URL run. The other decides whether a collected run is long enough and short enough to be tested as a URL.

Files:
- `sensitive_word.dfy` (module `SensitiveWord`): the data types and the loop as a method with a `while` loop. `Scan` is its specification function. `Cursors` (the positions the cursor visits) and `Accepted` (the kept hits along those positions) give an independent reference definition. The lemmas are proved against both.
- `word_check_url.dfy` (module `WordCheckUrl`): `IsCharCondition`, `IsStringCondition`, `GetType` and lemmas about them.
- `sensitive_word_helper_test.dfy` (module `SensitiveWordHelperTest`): the sample sentence of the repository's tests, scanned with a small longest-match dictionary fixture. It also has an allow-list precedence example.

Modelling choices:
- The word check is a parameter `check: (nat, CheckContext) -> WordCheckResult`. The context holds the original text and a mode. The loop always builds it with `FailOver`, as the source does, whatever mode was requested. The character-normalisation mapping and the word context are part of what the `check` value closes over.
- The result condition is a parameter `cond: (WordResult, string, ValidMode) -> bool`. It is the only part that sees the requested mode.
- `CharUtil.isWebSiteChar`, `RegexUtil.isUrl` and `WordConst.MAX_WEB_SITE_LEN` are parameters. `DefaultMaxWebSiteLen` is 70, the value the class comment of `WordCheckUrl` gives.
- Deny and allow lengths are `nat`: they are match lengths.
- A text position is an index into a Dafny `string`, a sequence of Unicode scalar values.
- The stored word is the checker's `wordDeny`, not `text[i..i+denyLen)`: with character normalisation the two can differ.
- Buffers of length 4, such as "a.cn", pass the URL length gate; only the URL test decides them (`LengthGateExamples`).
- The requested mode reaches only the result condition (SensitiveWord.java:84). So "find-first returns the first element of find-all" holds only for a condition that ignores the mode, which is the hypothesis of `ModesAgree`.

## Model

| member | source | states |
|---|---|---|
| `SensitiveWord.InnerSensitiveWords` | src/main/java/com/github/houbb/sensitive/word/core/SensitiveWord.java:58-100 | the loop (cursor moved inside the body, appends, `break` in FailFast) returns exactly the specification `Scan` from position 0; the positions its body ran at are a prefix of `Cursors` (all of it in FailOver), so it runs at most as many times as the text has characters |
| `SensitiveWord.DoFindAll` | src/main/java/com/github/houbb/sensitive/word/core/SensitiveWord.java:35-38 | find-all returns exactly the deny hits along the cursor path that the condition accepts, in order, with non-empty disjoint spans, each a deny hit at a position inside the text |
| `SensitiveWord.DoFindFirst` | src/main/java/com/github/houbb/sensitive/word/core/SensitiveWord.java:40-47 | find-first is None exactly when no hit on the path is accepted under FailFast, and otherwise the first such hit; when the condition ignores the mode it is None exactly when find-all is empty and otherwise find-all's first element |
| `SensitiveWord.NextCursor` | src/main/java/com/github/houbb/sensitive/word/core/SensitiveWord.java:91-96 | every iteration moves the cursor strictly forward |
| `SensitiveWord.CursorsAdvance` | src/main/java/com/github/houbb/sensitive/word/core/SensitiveWord.java:72-96 | the visited positions start at the start cursor, lie inside the text, strictly increase, and each follows from the previous one by the cursor rule |
| `SensitiveWord.CursorsBound` | src/main/java/com/github/houbb/sensitive/word/core/SensitiveWord.java:72-96 | the loop body runs at most (text length - i) times, so the scan terminates within as many iterations as the text has characters |
| `SensitiveWord.DenyHitSkipsSpan` | src/main/java/com/github/houbb/sensitive/word/core/SensitiveWord.java:77-96 | after a deny hit the next position is exactly `i + denyLen` whether or not the result was kept; otherwise `i + max(1, allowLen)`; no visited position falls strictly inside the skipped span |
| `SensitiveWord.ScanIsAccepted` | src/main/java/com/github/houbb/sensitive/word/core/SensitiveWord.java:72-97 | in FailOver mode the scan equals the filter of the cursor path by "deny hit and accepted" |
| `SensitiveWord.FailFastIsFirstAccepted` | src/main/java/com/github/houbb/sensitive/word/core/SensitiveWord.java:65-92 | in FailFast mode the scan is the first hit on the same path that the condition accepts under FailFast; the path does not depend on the mode because the checker always gets FailOver |
| `SensitiveWord.AcceptedMembers` | src/main/java/com/github/houbb/sensitive/word/core/SensitiveWord.java:77-90 | a result is kept from a path if and only if it is the word result of a deny hit at one of the path's positions and the condition accepts it |
| `SensitiveWord.ScanSound` | src/main/java/com/github/houbb/sensitive/word/core/SensitiveWord.java:74-92 | every result lies at a position p with i <= p < text length where allow < deny, has span `[p, p + denyLen)`, the checker's type and deny word, and was accepted; results are ordered and do not overlap |
| `SensitiveWord.FailFastAtMostOne` | src/main/java/com/github/houbb/sensitive/word/core/SensitiveWord.java:84-89 | a FailFast scan keeps at most one result |
| `SensitiveWord.AcceptedModeIndependent` | src/main/java/com/github/houbb/sensitive/word/core/SensitiveWord.java:68-84 | when the condition ignores the mode, both modes keep the same hits along a path |
| `SensitiveWord.ModesAgree` | src/main/java/com/github/houbb/sensitive/word/core/SensitiveWord.java:68-89 | when the condition ignores the mode, the FailFast result is the first FailOver result (or empty when that is empty) |
| `SensitiveWord.ResultsWithinText` | src/main/java/com/github/houbb/sensitive/word/core/SensitiveWord.java:72-81 | empty text yields no results; if the checker never reports a deny span past the end, every result satisfies 0 <= start < end <= text length |
| `SensitiveWord.RejectedHitSkipped` | src/main/java/com/github/houbb/sensitive/word/core/SensitiveWord.java:84-92 | a deny hit that the condition rejects is not kept, and the scan goes on from the end of its span |
| `WordCheckUrl.GetType` | src/main/java/com/github/houbb/sensitive/word/support/check/WordCheckUrl.java:40-43 | the URL checker always reports the URL type code |
| `WordCheckUrl.IsCharCondition` | src/main/java/com/github/houbb/sensitive/word/support/check/WordCheckUrl.java:45-48 | ':' and '/' and every web-site character belong to a URL run, and no other character does |
| `WordCheckUrl.IsStringCondition` | src/main/java/com/github/houbb/sensitive/word/support/check/WordCheckUrl.java:50-74 | buffers shorter than 4 or longer than the maximum are refused; otherwise the buffer is accepted exactly when the URL test holds |
| `WordCheckUrl.LengthGateExamples` | src/main/java/com/github/houbb/sensitive/word/support/check/WordCheckUrl.java:52-59 | with a maximum below 4 nothing is a URL; with the default 70, "a.cn" reaches the URL test and "a.c" does not |
| `SensitiveWordHelperTest.FindAllAndFirstExample` | src/test/java/com/github/houbb/sensitive/word/core/SensitiveWordHelperTest.java:28-46 | with deny words 二货 and 干死 the sample sentence yields 二货 [4,6), 干死 [10,12), 二货 [16,18) in FailOver, and only the first 二货 in FailFast |
| `SensitiveWordHelperTest.AllowListPrecedenceExample` | src/main/java/com/github/houbb/sensitive/word/core/SensitiveWord.java:74-96 | with deny word "ab" and allow word "abc", "abcd" yields nothing and the cursor visits only 0 and 3 |

## Left out

- `InnerSensitiveWords`: Java's 32-bit `int` cursor is modelled as an unbounded integer; overflow of `i + wordLengthDeny` on texts near 2^31 characters is not modelled.
- `InnerSensitiveWords`, `WordCheckUrl.IsCharCondition`: Java counts `text.length()`, the cursor, the spans and the checker's lengths in UTF-16 code units, while a Dafny `string` counts Unicode scalar values. The model's positions agree with the program's only for text inside the Basic Multilingual Plane; a character outside it is one position here and two in Java, and a lone surrogate `char` has no counterpart here.
- Negative deny or allow lengths from a checker are not modelled (the lengths are `nat`); with them the Java loop could move backwards.
- `InnerWordFormatUtils.formatCharsMapping` and the word context: not part of this model; the `check` parameter closes over them.
- The dictionary (trie) checker and `AbstractConditionWordCheck`, which collects a URL run and then calls the two URL predicates: not part of this model. The test module uses a plain longest-match fixture in place of the dictionary checker.
- `CharUtil.isWebSiteChar` and `RegexUtil.isUrl`: library code, taken as parameters.
- `WordConst` and `WordTypeEnum` are not part of this model: the maximum URL length is a parameter (default 70, from the class comment) and the URL type code is taken to be "URL".
- The "skip image URLs" remark in the URL checker's class comment: no code implements it.
- `InnerWordTagUtils.tags`: a thin wrapper over tag lookup, outside the scan.
- The `getInstance` singletons, `getSensitiveCheckClass` and thread safety: plumbing without behaviour to verify.
- Checker exceptions and a null text: the checker is a total function and the text is always present.
