# Offline name engine of the Chinese name generator

This project models the rule-based name engine of the Chinese name generator and proves properties of the model. The engine is class `NameTranslator` in `js/translator.js`, reading the constant knowledge base `nameDatabase` in `js/nameData.js`. Given an English name and a gender tag, it:

- lower-cases the name;
- splits it into syllable tokens with a greedy scan: each of ten two-letter clusters is one token, any other character is a token of its own;
- builds exactly three suggestions. Each suggestion has:
  - two glyphs;
  - a pronunciation;
  - an explanation sentence;
  - a cultural context of one overall sentence and one sentence per glyph.

How the glyphs are chosen:

- **First glyph.** Drawn from the transliteration options of the first token, followed by the gender's first-character pool.
- **Second glyph.** Drawn from the recommended followers of the first glyph, followed by the gender's second-character pool. Every follower that would form a forbidden pair is removed.
- **Empty candidate list.** The pick falls back to a per-gender default glyph.
- **Annotations.** Each glyph's annotation is looked up. A missing glyph gets fixed fallback strings.
- **Sentences.** The two explanation templates are filled by replacing the first occurrence of each placeholder.

Modules:

- `Wrappers`: `Option`.
- `JsText`: the JavaScript string operations the engine calls (`toLowerCase`, first-occurrence `replace`, the string form of `undefined`). It also holds two reference definitions the engine does not call: `indexOf` specifies where `replace` cuts the text, and `join('')` states the segmenter's round trip. Last come the template-layout lemmas.
- `NameData`: the tables of `nameDatabase` that the translator reads, as Dafny constants.
- `Translator`: the engine's pure logic, written as functions over an explicit knowledge base `db`.
- `Engine`: class `NameTranslator` with its `database` field. It holds the two step-by-step operations, `SplitIntoSyllables` (a `while` loop) and `TranslateName` (a `for` loop), each proved against a specification function.
- `NameDataFacts`: facts about the shipped tables.
- `Conformance`: the predicate `Conforms` (the shape of knowledge base the guarantees rest on) and the proof that the shipped one has it.
- `Rendering`: what the two templates render to.
- `SuggestionFacts`: the properties of one suggestion for any conforming knowledge base.

Modelling of the source's dependencies:

- **Randomness.** Each `Math.random()` value is a parameter: a `Draw`, a real in [0, 1). `selectBestCharacter` takes index `floor(draw * n)`, as the source does. `TranslateName` receives the six values its three iterations use, in call order (first glyph, second glyph, first glyph, ...).
- **Behaviour a reader might not expect; the model follows the code in each case:**
  - The output has a `pronunciation` field and the explanation template a `{pinyin}` slot, yet the records of `getCharacterDetails` carry no reading, so every pronunciation is the text `undefined undefined`.
  - Candidate lists are sequences that may repeat a glyph (`'na'` lists `娜` twice), not sets.
  - A masculine first glyph comes from the transliteration options and the masculine pool only; the neutral pool is used only when the gender has no pool of its own.
  - `selectSecondCharacter` takes a syllable argument but never uses it.
  - Only the ten clusters are kept together, so `john` splits into `j`, `o`, `h`, `n` (`Translator.SegmentJohn`), not into a `jo` token.
  - The comments at js/translator.js:14 and 182 speak of three different names and of no repeated use, yet nothing in the loop or in `selectBestCharacter` removes repeats: the three suggestions can coincide (`Engine.SuggestionsMayRepeat`).

## Model

| member | source | states |
|---|---|---|
| Engine.NameTranslator.constructor | js/translator.js:4-6 | the translator is built on the shipped `nameDatabase`, and that knowledge base satisfies the class invariant `Conforms` |
| Engine.NameTranslator.SplitIntoSyllables | js/translator.js:25-44 | the scan loop returns the segmentation `Segment(name)`; its tokens concatenate back to the name, each is one character or one of the ten clusters, and the split is greedy |
| Engine.NameTranslator.TranslateName | js/translator.js:9-22 | for a gender tag that is not an `Object.prototype` property name, returns exactly three suggestions, the i-th built from the lower-cased, segmented name and the i-th pair of random values; each is two glyphs forming no forbidden pair, and for a masculine request none starts with a glyph of the feminine first pool |
| Engine.Suggestions | js/translator.js:15-21 | one suggestion per pair of random values, in order, so half as many as there are values |
| Engine.SuggestionsSafe | js/translator.js:15-21 | every suggestion of the loop is an allowed two-glyph name, never feminine-led for a masculine request |
| Engine.SuggestionsMayRepeat | js/translator.js:14-19 | the loop removes no repeats: with the same two random values for every iteration, the three suggestions are equal |
| Engine.NameFacts | js/translator.js:53-66 | one suggestion is an allowed two-glyph name, not feminine-led when the request is masculine |
| Engine.SegmentFrom | js/translator.js:29-41 | at position p the segmentation of the rest starts with the two-letter window when it is a cluster, else with the single character |
| Engine.ScanStep | js/translator.js:29-41 | each iteration of the scan preserves "tokens so far + segmentation of the rest = segmentation of the name" |
| Translator.CommonCombinationLength | js/translator.js:47-50 | every cluster `isCommonCombination` accepts has two letters |
| Translator.IsCommonCombination | js/translator.js:47-50 | no contract of its own: membership in the ten-cluster list; `NameDataFacts.CommonCombinationShape` and `CommonCombinationLength` state which strings it accepts |
| Translator.Segment | js/translator.js:25-44 | specification function of the scan, with no contract of its own; `SegmentShape`, `SegmentIsGreedy` and `SegmentCharacterization` state what it returns, and `SplitIntoSyllables` is proved equal to it |
| Translator.SegmentJohn | js/translator.js:48 | `john` splits into `j`, `o`, `h`, `n`: `jo` is not one of the ten clusters |
| Translator.SegmentShape | js/translator.js:25-44 | the tokens concatenate back to the name exactly (the empty name gives no tokens), and each token is one character or a two-letter cluster of the list |
| Translator.SegmentIsGreedy | js/translator.js:29-41 | a one-character token is never followed by a character that would have formed a cluster with it |
| Translator.GreedySplitIsSegment | js/translator.js:25-44 | any cover of the name by well-shaped greedy tokens is the segmenter's output |
| Translator.SegmentCharacterization | js/translator.js:25-44 | a token list is the segmentation of a name if and only if it concatenates to the name, is well shaped and is greedy |
| Translator.FindRule | js/translator.js:71 | the rule found has the looked-up fragment as its key; none found means no rule has that key |
| Translator.FindRuleIsFirst | js/translator.js:71 | the rule found is the first with that key |
| Translator.TransliterationOptions | js/translator.js:71 | no contract of its own: the glyphs of the rule `FindRule` finds, or none; `SuggestionFacts.OptionsFromRule` and `NameDataFacts.FoundRuleSafe` state their properties |
| Translator.GenderPool | js/translator.js:74-75 | no contract of its own: the gender's pool, or the neutral one when the gender has none; its use is stated by `SelectFirstCharacter` and `SelectSecondCharacter` |
| Translator.FirstCandidates | js/translator.js:78 | no contract of its own: the options followed by the pool glyphs; `SuggestionFacts.FirstCandidatesSafe` states that the list is never empty and leads no forbidden pair |
| Translator.DefaultGlyph | js/translator.js:178-179 | no contract of its own: the per-gender fallback; `SelectBestCharacter` states its three values |
| Translator.PickIndex | js/translator.js:183 | `Math.floor(Math.random() * n)` is an index below n |
| Translator.SelectBestCharacter | js/translator.js:175-185 | an empty list gives 雅 for feminine, 文 for masculine and 安 for any other tag; a non-empty list gives one of its elements |
| Translator.EveryCandidateDrawable | js/translator.js:175-185 | every element of a non-empty list is picked by some random value (k/n picks the k-th of n) |
| Translator.GetCharacterDetails | js/translator.js:104-121 | returns the glyph with its stored meaning, culture, personality and combinations when it is annotated, and the fixed strings 未知含义, 暂无文化解释, 暂无性格特征描述 otherwise; the record never has a reading |
| Translator.SelectFirstCharacter | js/translator.js:69-82 | the first glyph comes from the transliteration options of the syllable or from the gender's first pool (the neutral pool when the gender has none), or is the gender default when both are empty; the record is that glyph's details |
| Translator.Followers | js/translator.js:158-162 | a glyph is listed exactly when the pair (lead, glyph) is in the table |
| Translator.GetForbiddenChars | js/translator.js:158-162 | exactly the glyphs forbidden right after the first glyph; empty if and only if no forbidden pair starts with it |
| Translator.RecommendationTable | js/translator.js:166-167 | no contract of its own: the gender's recommendations, or the neutral ones; `GetRecommendedSecondChars` states what is read from it |
| Translator.GetRecommendedSecondChars | js/translator.js:165-172 | exactly the followers of the first glyph among the gender's recommendations (the neutral table when the gender has none) |
| Translator.Without | js/translator.js:97-98 | the filter keeps exactly the candidates not in the forbidden list |
| Translator.SecondCandidates | js/translator.js:97-98 | no contract of its own: the recommended followers and pool glyphs without the forbidden followers; `SuggestionFacts.SecondCandidatesSafe` states that the list is never empty |
| Translator.SelectSecondCharacter | js/translator.js:85-101 | when the filtered list is non-empty, the second glyph is a recommended follower or pooled glyph and never forms a forbidden pair with the first; otherwise it is the gender default, which the filter does not see |
| Translator.TokenKey | js/translator.js:55 | no contract of its own: `syllables[i]` as a property key, `undefined` past the end; `NameDataFacts.UndefinedIsNoKey` states that this key has no options |
| Translator.FirstSelection | js/translator.js:55 | no contract of its own: the first selection from token 0; `SuggestionFacts.SuggestionGlyphs` and `MasculineNeverFeminine` state its properties |
| Translator.SecondSelection | js/translator.js:58 | no contract of its own: the second selection, from token 1 when there is more than one token, else token 0; `SuggestionFacts.SecondSelectionIgnoresSyllable` shows the token makes no difference |
| Translator.GenerateNameSuggestion | js/translator.js:53-66 | no contract of its own: the two selections and the texts; `SuggestionFacts.SuggestionGlyphs`, `SuggestionFacts.SuggestionTexts` and `Engine.NameFacts` state what it returns |
| Translator.GenerateMeaning | js/translator.js:124-134 | no contract of its own: the eight `replace` calls in source order; `Rendering.MeaningIsReplaceChain` and `Rendering.MeaningFillsTemplate` state the result |
| Translator.DescribeCharacter | js/translator.js:141-152 | no contract of its own: the five `replace` calls for one glyph; `Rendering.DescribeFillsTemplate` states the result |
| Translator.GenerateCulturalContext | js/translator.js:137-155 | no contract of its own: the overall sentence and one filled sentence per glyph; `SuggestionFacts.TextsOf` states the two per-glyph sentences |
| SuggestionFacts.OptionsFromRule | js/translator.js:71 | each transliteration option comes from a rule keyed by the syllable |
| SuggestionFacts.FoundRuleConforms | js/translator.js:71 | in a conforming knowledge base, a rule found has a key of at most two letters and offers single glyphs that lead no forbidden pair |
| SuggestionFacts.LongFragmentHasNoOptions | js/translator.js:71 | a key longer than two letters (such as `undefined` for a missing token) has no options |
| SuggestionFacts.FirstCandidatesSafe | js/translator.js:69-82 | the first candidate list is never empty; every candidate is a single glyph leading no forbidden pair |
| SuggestionFacts.SecondCandidatesSafe | js/translator.js:85-101 | the second candidate list is never empty and holds single glyphs |
| SuggestionFacts.SuggestionGlyphs | js/translator.js:53-61 | the name is the first glyph followed by the second. Both are single glyphs: the first drawn from the candidates of token 0, the second from the candidates for the first glyph. The forbidden list of the first glyph is empty, and the pair is never forbidden |
| SuggestionFacts.MasculineNeverFeminine | js/translator.js:69-82 | for segmenter tokens, a masculine first glyph is never in the feminine first pool |
| SuggestionFacts.DetailsOfGlyphPlain | js/translator.js:104-121 | every text of a glyph's record, the rendered missing reading included, holds no placeholder |
| SuggestionFacts.SuggestionTexts | js/translator.js:53-66 | the pronunciation is `undefined undefined`; the explanation and both per-glyph texts are the templates with every slot holding its value, and none keeps a slot |
| SuggestionFacts.TextsOf | js/translator.js:124-155 | for plain records, the explanation and the two per-glyph sentences are the filled layouts and hold no slot |
| SuggestionFacts.SecondSelectionIgnoresSyllable | js/translator.js:85-101 | the second selection's result does not depend on the syllable passed to it |
| Rendering.MeaningIsReplaceChain | js/translator.js:124-134 | `generateMeaning` is the replace chain over the eight combination slots with their values, in source order |
| Rendering.DescribeIsReplaceChain | js/translator.js:141-152 | each per-glyph text is the replace chain over the five single-character slots with their values |
| Rendering.MeaningFillsTemplate | js/translator.js:124-134 | the explanation is the combination sentence with the name, both glyphs, both meanings and the "X and Y" / "X combined with Y" joins each in its own slot, and no slot is left |
| Rendering.DescribeFillsTemplate | js/translator.js:137-155 | the per-glyph sentence has the glyph, reading, meaning, culture and personality in their slots, and no slot is left |
| Rendering.SingleCharLayout | js/nameData.js:312 | the single-character template is each of its five slots once, between fixed texts |
| Rendering.CombinationLayout | js/nameData.js:316 | the combination template is each of its eight slots once, after a fixed head and between fixed texts |
| Rendering.ChunksPlain | js/nameData.js:312-316 | the template text between the slots holds no `{`, so no slot occurs twice |
| Rendering.CombinationValuesPlain | js/translator.js:126-133 | the values put into the combination slots hold no `{` when the records' texts hold none |
| JsText.ToLowerCase | js/translator.js:11 | same length; no upper-case ASCII letter remains; other characters are unchanged and letters shift by 32 |
| JsText.ToLowerCaseIdempotent | js/translator.js:11 | lower-casing twice equals lower-casing once |
| JsText.IndexOf | js/translator.js:125-133 | a found index leaves room for the pattern |
| JsText.ReplaceFirst | js/translator.js:125-152 | no contract of its own: `replace` with a string pattern, as a direct scan; `ReplaceFirstAtIndexOf` ties it to the first occurrence `IndexOf` finds |
| JsText.IndexOfFindsFirst | js/translator.js:125-133 | `indexOf` returns an occurrence with no occurrence before it, or none when the pattern does not occur |
| JsText.ReplaceFirstAtIndexOf | js/translator.js:125-133 | `replace` keeps the text before the first occurrence, puts the replacement there and keeps the rest; it leaves a text without the pattern unchanged |
| JsText.ReplaceAbsent | js/translator.js:125-133 | a text with no occurrence of the pattern is unchanged |
| JsText.IndexAfterPlainPrefix | js/translator.js:125-133 | a `{` placeholder after text without `{` is first found right after that text |
| JsText.FillSlot | js/translator.js:125-133 | replacing a `{` placeholder that follows plain text substitutes exactly that slot |
| JsText.FillLayout | js/translator.js:124-155 | a chain of replacements over a layout of distinct slots between plain texts puts each value where its slot was |
| JsText.LayoutPlain | js/translator.js:124-155 | a layout of plain pieces is plain |
| JsText.JsString | js/translator.js:62 | no contract of its own: the text JavaScript makes of a possibly `undefined` value; `SuggestionFacts.SuggestionTexts` states that the pronunciation is therefore `undefined undefined` |
| NameDataFacts.PoolsNonEmpty | js/nameData.js:86-207 | the first, second and recommendation tables are keyed by masculine, feminine and neutral, and every pool is non-empty |
| NameDataFacts.PoolGlyphsUnique | js/nameData.js:87-206 | no glyph repeats within a (position, gender) pool |
| NameDataFacts.PoolGlyphsSingle | js/nameData.js:86-207 | every pooled glyph, and the leading and following glyph of every recommended pair, is a single character other than `{` |
| NameDataFacts.ForbiddenPairsShape | js/nameData.js:264-271 | every forbidden pair is of two single glyphs, and its leader is one of the six glyphs 死, 亡, 绝, 哀, 病, 灾 |
| NameDataFacts.ForbiddenLeadersNotInFirstPools | js/nameData.js:264-271 | no leader of a forbidden pair is in a first-character pool or is a default glyph |
| NameDataFacts.ForbiddenFollowersUnused | js/nameData.js:264-271 | no follower of a forbidden pair is in a second-character pool |
| NameDataFacts.FeminineFirstPool | js/nameData.js:113-138 | the feminine first pool is 雅, 婷, 美, and the masculine pool shares none of them |
| NameDataFacts.VowelIsListed | js/nameData.js:43-47 | a one-letter vowel key is exactly one of a, e, i, o, u |
| NameDataFacts.CommonCombinationShape | js/translator.js:48 | a string is one of the ten clusters exactly when it is a letter of c, t, p, s, w followed by `h`, or a vowel followed by `n` |
| NameDataFacts.FindRuleIffKey | js/nameData.js:41-81 | a rule is found exactly for the keys of the table |
| NameDataFacts.TransliterationKeysDistinct | js/nameData.js:43-80 | no two transliteration rules share a key, so the first rule with a key is the one `transliterationRules[syllable]` denotes |
| NameDataFacts.TableSafe | js/nameData.js:41-81 | every rule offers single glyphs, none leading a forbidden pair |
| NameDataFacts.LiveKinds | js/nameData.js:43-74 | the vowel, syllable and cluster rules are keyed by vowels and clusters |
| NameDataFacts.DeadKinds | js/nameData.js:57-80 | the `ma`…`ju` and `ry`/`ly`/`ny`/`na` rules are keyed by two letters ending in a vowel or `y` |
| NameDataFacts.DeadKeyIsNoToken | js/nameData.js:57-80 | a two-letter key ending in a vowel or `y` is neither one character nor a cluster, so never a segmenter token |
| NameDataFacts.FoundRuleSafe | js/nameData.js:41-81 | the options of any found rule are non-empty single glyphs leading no forbidden pair |
| NameDataFacts.TransliterationListsMayRepeat | js/nameData.js:80 | the `na` list has five entries, the first and third both 娜 |
| NameDataFacts.NaRule | js/nameData.js:80 | the only rule keyed `na` is the last ending rule |
| NameDataFacts.NaIsNotLive | js/nameData.js:80 | no rule reachable from a token is keyed `na` |
| NameDataFacts.SegmenterTokensAreKeys | js/nameData.js:43-74 | every vowel and every one of the ten clusters is a key of the table |
| NameDataFacts.SegmenterTokensHaveRules | js/nameData.js:43-74 | every vowel and cluster has a non-empty option list |
| NameDataFacts.TokenRuleIsLive | js/nameData.js:41-81 | a rule keyed by a segmenter token is a vowel, syllable or cluster rule |
| NameDataFacts.UndefinedIsNoKey | js/translator.js:55 | the key `undefined` that an empty token list yields has no options |
| NameDataFacts.LiveGlyphsNotFeminine | js/nameData.js:43-74 | no glyph of a rule reachable from a token is in the feminine first pool |
| NameDataFacts.DeadRuleOffersFeminineGlyph | js/nameData.js:58 | the unreachable `me` rule offers 美 of the feminine pool, so masculine safety rests on reachability |
| NameDataFacts.AnnotationsPlain | js/nameData.js:211-261 | no annotation text holds a `{` |
| NameDataFacts.FallbacksPlain | js/translator.js:117-119 | the fallback texts hold no `{` |
| Conformance.TokenRulesAreLive | js/nameData.js:41-81 | every rule keyed by a token is among the reachable rules |
| Conformance.DatabaseConforms | js/nameData.js:41-318 | the shipped knowledge base `NameData.Database` has the neutral entries, the templates, safe rules and pools, and plain annotations the guarantees need |

## Left out

- server.js, utils/auth.js, js/main.js, js/nameGenerator.js and js/config.js are not part of this model. They hold the HTTP gateway, request signing, the browser UI, a fetch wrapper and environment reading: network I/O, clocks and UI.
- The distribution of `Math.random` is left out. Each value is a parameter in [0, 1); the model states which values pick which element, not how likely they are. Floating-point rounding of `Math.random() * n` is modelled with exact reals.
- `toLowerCase` is modelled on ASCII letters only; every other character is kept. Strings are sequences of characters, without UTF-16 code units.
- `$` patterns of `String.prototype.replace` are not modelled. No value put into a template contains `$`.
- The TypeError the source throws for a gender tag that names an `Object.prototype` property (`constructor`, `toString`, `__proto__` and the rest) is not modelled. For such a tag, `firstChar[gender]` (js/translator.js:74) finds an inherited value that is truthy but not an array, so the neutral fallback is skipped and `.map` at js/translator.js:78 throws. `Engine.NameTranslator.TranslateName` excludes these tags by a precondition (`Engine.ObjectPrototypeKeys`). The lookup functions below it, `Translator.GenderPool` and `Translator.RecommendationTable` (js/translator.js:74-75, 93-94, 166-167), fall back to the neutral table for any missing key instead.
- The other lookups never meet such a key. Transliteration keys are tokens of at most two characters, or `undefined`. Annotation keys are single glyphs.
- The tables the translator never reads, `commonCharacters`, `syllableRules` and `phoneticRules`, are left out, as are the fields it never reads (pool entries' readings and glosses, recommendations' glosses).
- Long literal texts are written as concatenations of shorter pieces. Their content is unchanged.
- Translator.SelectBestCharacter: on an empty list the source makes no `Math.random()` call, but the model's draw is still consumed. This is unobservable with the shipped tables, whose candidate lists are never empty.
- Translator.Followers: states which glyphs are listed, not that they appear in table order.
- Engine.NameTranslator.TranslateName: ties the result to the recursive `Suggestions`, not to each index by a closed form.
- Rendering.DescribeFillsTemplate: "each placeholder occurs once" is stated as the template being a layout of distinct `{` slots between texts without `{`, not as an occurrence count.
