/**
 * What one suggestion is, for any knowledge base shaped like the shipped
 * one: two single glyphs drawn from their candidate lists, never a
 * forbidden pair, never a feminine first glyph for a masculine request, and
 * explanation texts that are the templates with every slot filled.
 */
module SuggestionFacts {
  import opened Wrappers
  import opened JsText
  import opened NameData
  import opened Translator
  import opened NameDataFacts
  import opened Rendering
  import opened Conformance

  /** The options found for a syllable come from a rule of the table. */
  lemma OptionsFromRule(rules: seq<Rule>, syllable: string, g: string)
    requires g in TransliterationOptions(rules, syllable)
    ensures exists r :: r in rules && r.fragment == syllable && g in r.glyphs
  {
    var i := FindRule(rules, syllable).value;
    assert rules[i] in rules;
  }

  /** The rule found for a syllable has a short key and safe glyphs. */
  lemma FoundRuleConforms(db: NameDatabase, syllable: string)
    requires Conforms(db) && FindRule(db.transliterationRules, syllable).Some?
    ensures |syllable| <= 2
    ensures AllPlainGlyphs(TransliterationOptions(db.transliterationRules, syllable))
    ensures forall j :: 0 <= j < |TransliterationOptions(db.transliterationRules, syllable)| ==>
      LeadsNothing(db.forbiddenCombinations, TransliterationOptions(db.transliterationRules, syllable)[j])
  {
    var i := FindRule(db.transliterationRules, syllable).value;
    assert db.transliterationRules[i] in db.transliterationRules;
  }

  /** No rule is keyed by a fragment longer than two letters, such as the
      `undefined` a missing syllable is looked up under. */
  lemma LongFragmentHasNoOptions(db: NameDatabase, syllable: string)
    requires Conforms(db) && |syllable| > 2
    ensures TransliterationOptions(db.transliterationRules, syllable) == []
  {
    if FindRule(db.transliterationRules, syllable).Some? {
      FoundRuleConforms(db, syllable);
    }
  }

  /** The first candidate list is never empty, and every candidate is a
      single glyph that leads no forbidden pair. */
  lemma FirstCandidatesSafe(db: NameDatabase, syllable: string, gender: string)
    requires Conforms(db)
    ensures FirstCandidates(db, syllable, gender) != []
    ensures AllPlainGlyphs(FirstCandidates(db, syllable, gender))
    ensures forall c :: c in FirstCandidates(db, syllable, gender) ==> LeadsNothing(db.forbiddenCombinations, c)
  {
    var options := TransliterationOptions(db.transliterationRules, syllable);
    var pool := GenderPool(db.firstChar, gender);
    assert pool == db.firstChar[if gender in db.firstChar then gender else "neutral"];
    assert Glyphs(pool)[0] in FirstCandidates(db, syllable, gender);
    if FindRule(db.transliterationRules, syllable).Some? {
      FoundRuleConforms(db, syllable);
    }
    forall c | c in FirstCandidates(db, syllable, gender)
      ensures LeadsNothing(db.forbiddenCombinations, c)
    {
      if c !in options {
        var i :| 0 <= i < |Glyphs(pool)| && Glyphs(pool)[i] == c;
      }
    }
  }

  /** The second candidate list is never empty: no pooled second glyph
      follows in a forbidden pair, so the filter keeps the whole pool. Every
      candidate is a single glyph. */
  lemma SecondCandidatesSafe(db: NameDatabase, firstGlyph: string, gender: string)
    requires Conforms(db)
    ensures SecondCandidates(db, firstGlyph, gender) != []
    ensures AllPlainGlyphs(SecondCandidates(db, firstGlyph, gender))
  {
    var recommended := GetRecommendedSecondChars(db, firstGlyph, gender);
    var pool := GenderPool(db.secondChar, gender);
    var candidates := SecondCandidates(db, firstGlyph, gender);
    assert pool == db.secondChar[if gender in db.secondChar then gender else "neutral"];
    var g0 := Glyphs(pool)[0];
    assert Pair(firstGlyph, g0) !in db.forbiddenCombinations;
    assert g0 in candidates;
    forall i | 0 <= i < |candidates|
      ensures PlainGlyph(candidates[i])
    {
      var c := candidates[i];
      assert c in recommended + Glyphs(pool);
      if c in recommended {
        var table := RecommendationTable(db, gender);
        var k :| 0 <= k < |table| && table[k].chars == Pair(firstGlyph, c);
        var key := if gender in db.recommendedCombinations then gender else "neutral";
        assert table[k] == db.recommendedCombinations[key][k];
      } else {
        var j :| 0 <= j < |Glyphs(pool)| && Glyphs(pool)[j] == c;
      }
    }
  }

  /** The two glyphs of a suggestion: single glyphs, each drawn from its
      candidate list, the first leading no forbidden pair (so the filter
      removes nothing) and the pair itself never forbidden. Neither default
      glyph is ever used, since neither list is ever empty. */
  lemma SuggestionGlyphs(db: NameDatabase, syllables: seq<string>, gender: string, firstDraw: Draw, secondDraw: Draw)
    requires Conforms(db)
    ensures var first := FirstSelection(db, syllables, gender, firstDraw);
      var second := SecondSelection(db, syllables, gender, first, secondDraw);
      && GenerateNameSuggestion(db, syllables, gender, firstDraw, secondDraw).chineseName == first.glyph + second.glyph
      && PlainGlyph(first.glyph) && PlainGlyph(second.glyph)
      && first.glyph in FirstCandidates(db, TokenKey(syllables, 0), gender)
      && second.glyph in SecondCandidates(db, first.glyph, gender)
      && GetForbiddenChars(db, first.glyph) == []
      && Pair(first.glyph, second.glyph) !in db.forbiddenCombinations
  {
    var first := FirstSelection(db, syllables, gender, firstDraw);
    var second := SecondSelection(db, syllables, gender, first, secondDraw);
    FirstCandidatesSafe(db, TokenKey(syllables, 0), gender);
    SecondCandidatesSafe(db, first.glyph, gender);
    CandidateIsPlainGlyph(FirstCandidates(db, TokenKey(syllables, 0), gender), first.glyph);
    CandidateIsPlainGlyph(SecondCandidates(db, first.glyph, gender), second.glyph);
    assert LeadsNothing(db.forbiddenCombinations, first.glyph);
  }

  lemma CandidateIsPlainGlyph(candidates: seq<string>, g: string)
    requires AllPlainGlyphs(candidates) && g in candidates
    ensures PlainGlyph(g)
  {
    var i :| 0 <= i < |candidates| && candidates[i] == g;
  }

  /** A masculine request whose syllables the segmenter produced never gets
      a first glyph of the feminine pool: its transliteration options come
      from a rule keyed by a token (or there are none, for an empty name),
      and the masculine pool shares nothing with the feminine one. */
  lemma MasculineNeverFeminine(db: NameDatabase, syllables: seq<string>, draw: Draw)
    requires Conforms(db) && WellShaped(syllables)
    ensures FirstSelection(db, syllables, "masculine", draw).glyph !in Glyphs(db.firstChar["feminine"])
  {
    var t := TokenKey(syllables, 0);
    var options := TransliterationOptions(db.transliterationRules, t);
    var g := FirstSelection(db, syllables, "masculine", draw).glyph;
    FirstCandidatesSafe(db, t, "masculine");
    if |syllables| == 0 {
      LongFragmentHasNoOptions(db, t);
    }
    assert IsToken(t) || options == [];
    if g in options {
      OptionsFromRule(db.transliterationRules, t, g);
      var r :| r in db.transliterationRules && r.fragment == t && g in r.glyphs;
      var j :| 0 <= j < |r.glyphs| && r.glyphs[j] == g;
    } else {
      assert GenderPool(db.firstChar, "masculine") == db.firstChar["masculine"];
      var i :| 0 <= i < |Glyphs(db.firstChar["masculine"])| && Glyphs(db.firstChar["masculine"])[i] == g;
    }
  }

  /** Every text of the record of a single glyph is plain. */
  lemma DetailsOfGlyphPlain(db: NameDatabase, g: string)
    requires Conforms(db) && PlainGlyph(g)
    ensures DetailsPlain(GetCharacterDetails(db, g))
  {
    FallbacksPlain();
    assert Plain("undefined");
    assert Plain(g) by { assert g == [g[0]]; }
  }

  /** The texts of a suggestion: the reading is never known, so the
      pronunciation is always `undefined undefined`; the explanation and the
      two per-glyph texts are the templates with every slot holding the
      corresponding value from the two glyphs' records, and no slot is left
      in any of them. */
  lemma SuggestionTexts(db: NameDatabase, syllables: seq<string>, gender: string, firstDraw: Draw, secondDraw: Draw)
    requires Conforms(db)
    ensures var s := GenerateNameSuggestion(db, syllables, gender, firstDraw, secondDraw);
      var first := FirstSelection(db, syllables, gender, firstDraw);
      var second := SecondSelection(db, syllables, gender, first, secondDraw);
      && first == GetCharacterDetails(db, first.glyph)
      && second == GetCharacterDetails(db, second.glyph)
      && s.pronunciation == "undefined" + " " + "undefined"
      && s.meaning == Layout(CombinationHead, CombinationValues(first, second), CombinationChunks)
      && s.culturalContext.individual.first == Layout("", SingleCharValues(first), SingleCharChunks)
      && s.culturalContext.individual.second == Layout("", SingleCharValues(second), SingleCharChunks)
      && Plain(s.meaning) && Plain(s.culturalContext.individual.first) && Plain(s.culturalContext.individual.second)
  {
    SuggestionGlyphs(db, syllables, gender, firstDraw, secondDraw);
    var first := FirstSelection(db, syllables, gender, firstDraw);
    var second := SecondSelection(db, syllables, gender, first, secondDraw);
    DetailsOfGlyphPlain(db, first.glyph);
    DetailsOfGlyphPlain(db, second.glyph);
    TextsOf(db, first, second);
  }

  /** The explanation and the cultural context of two plain records. */
  lemma TextsOf(db: NameDatabase, first: CharDetails, second: CharDetails)
    requires db.culturalTemplates == Templates(SingleCharFormat, CombinationFormat)
    requires DetailsPlain(first) && DetailsPlain(second)
    ensures GenerateMeaning(db, first, second) == Layout(CombinationHead, CombinationValues(first, second), CombinationChunks)
    ensures GenerateCulturalContext(db, first, second).individual.first == Layout("", SingleCharValues(first), SingleCharChunks)
    ensures GenerateCulturalContext(db, first, second).individual.second == Layout("", SingleCharValues(second), SingleCharChunks)
    ensures Plain(GenerateMeaning(db, first, second))
    ensures Plain(GenerateCulturalContext(db, first, second).individual.first)
    ensures Plain(GenerateCulturalContext(db, first, second).individual.second)
  {
    MeaningFillsTemplate(db, first, second);
    DescribeFillsTemplate(db, first);
    DescribeFillsTemplate(db, second);
  }

  /** The syllable handed to the second selection makes no difference. */
  lemma SecondSelectionIgnoresSyllable(db: NameDatabase, s1: string, s2: string, gender: string, first: CharDetails, draw: Draw)
    requires Valid(db)
    ensures SelectSecondCharacter(db, s1, gender, first, draw) == SelectSecondCharacter(db, s2, gender, first, draw)
  {
  }
}
