/**
 * Properties of the knowledge base as it is shipped: each is stated about
 * one table of `nameDatabase` and is what the suggestions built from that
 * table rely on.
 */
module NameDataFacts {
  import opened Wrappers
  import opened JsText
  import opened NameData
  import opened Translator

  const Vowels: seq<string> := ["a", "e", "i", "o", "u"]

  /** One character, and not the opening brace of a template slot. */
  predicate PlainGlyph(g: string)
  {
    |g| == 1 && g[0] != '{'
  }

  predicate AllPlainGlyphs(gs: seq<string>)
  {
    forall i :: 0 <= i < |gs| ==> PlainGlyph(gs[i])
  }

  /** One character, and not one of the (one-character) leading glyphs of
      the forbidden pairs. */
  predicate FreeLeader(g: string)
  {
    |g| == 1 && g[0] != '死' && g[0] != '亡' && g[0] != '绝' && g[0] != '哀' && g[0] != '病' && g[0] != '灾'
  }

  predicate NoForbiddenLeaderIn(gs: seq<string>)
  {
    forall i :: 0 <= i < |gs| ==> FreeLeader(gs[i])
  }

  /** `g` leads none of `pairs`. */
  predicate LeadsNothing(pairs: seq<Pair>, g: string)
  {
    forall p :: p in pairs ==> p.lead != g
  }

  /** Every forbidden pair is made of two single glyphs, and the leading
      ones are the six that `FreeLeader` excludes. */
  lemma ForbiddenPairsShape()
    ensures forall p :: p in ForbiddenCombinations ==> |p.lead| == 1 && |p.follow| == 1 && !FreeLeader(p.lead)
  {
  }

  lemma FreeLeaderLeadsNothing(g: string)
    requires FreeLeader(g)
    ensures LeadsNothing(ForbiddenCombinations, g)
  {
    ForbiddenPairsShape();
  }

  // ---------------------------------------------------------------------
  // Character pools and recommendations
  // ---------------------------------------------------------------------

  /** No two transliteration rules share a key, so the first rule with a key
      is the one the object literal maps that key to. */
  lemma TransliterationKeysDistinct()
    ensures forall i, j :: 0 <= i < j < |TransliterationRules| ==>
      TransliterationRules[i].fragment != TransliterationRules[j].fragment
  {
  }

  /** Each gender-keyed table exists for exactly the three genders and no
      pool is empty. */
  lemma PoolsNonEmpty()
    ensures FirstCharPools.Keys == SecondCharPools.Keys == RecommendedCombinations.Keys == {"masculine", "feminine", "neutral"}
    ensures forall g :: g in FirstCharPools ==> |FirstCharPools[g]| > 0
    ensures forall g :: g in SecondCharPools ==> |SecondCharPools[g]| > 0
  {
  }

  /** Glyphs are unique within each (position, gender) pool. */
  lemma PoolGlyphsUnique()
    ensures forall g, i, j :: g in FirstCharPools && 0 <= i < j < |FirstCharPools[g]| ==>
      FirstCharPools[g][i].glyph != FirstCharPools[g][j].glyph
    ensures forall g, i, j :: g in SecondCharPools && 0 <= i < j < |SecondCharPools[g]| ==>
      SecondCharPools[g][i].glyph != SecondCharPools[g][j].glyph
  {
  }

  /** Every pooled glyph, and both glyphs of every recommended pair, is a
      single character other than `{`. */
  lemma PoolGlyphsSingle()
    ensures forall k :: k in FirstCharPools ==> AllPlainGlyphs(Glyphs(FirstCharPools[k]))
    ensures forall k :: k in SecondCharPools ==> AllPlainGlyphs(Glyphs(SecondCharPools[k]))
    ensures forall k, i :: k in RecommendedCombinations && 0 <= i < |RecommendedCombinations[k]| ==>
      PlainGlyph(RecommendedCombinations[k][i].chars.lead) && PlainGlyph(RecommendedCombinations[k][i].chars.follow)
  {
  }

  /** No first-character pool holds the leading glyph of a forbidden pair,
      and neither is any default glyph one. */
  lemma ForbiddenLeadersNotInFirstPools()
    ensures forall k :: k in FirstCharPools ==> NoForbiddenLeaderIn(Glyphs(FirstCharPools[k]))
    ensures forall g :: FreeLeader(DefaultGlyph(g))
  {
  }

  /** No second-character pool holds the following glyph of a forbidden pair. */
  lemma ForbiddenFollowersUnused()
    ensures forall p, k :: p in ForbiddenCombinations && k in SecondCharPools ==> p.follow !in Glyphs(SecondCharPools[k])
  {
  }

  /** The feminine first-character pool. */
  const FeminineFirstGlyphs: seq<string> := ["雅", "婷", "美"]

  /** One character, and none of the feminine first-character glyphs. */
  predicate NotFeminineFirst(g: string)
  {
    |g| == 1 && g[0] != '雅' && g[0] != '婷' && g[0] != '美'
  }

  lemma FeminineFirstPool()
    ensures Glyphs(FirstCharPools["feminine"]) == FeminineFirstGlyphs
    ensures forall g :: NotFeminineFirst(g) ==> g !in FeminineFirstGlyphs
    ensures forall i :: 0 <= i < |FirstCharPools["masculine"]| ==> NotFeminineFirst(FirstCharPools["masculine"][i].glyph)
  {
  }

  // ---------------------------------------------------------------------
  // Transliteration rules
  // ---------------------------------------------------------------------

  /** The keys of the syllable and cluster groups. */
  const SyllableKeys: seq<string> := ["an", "en", "in", "on", "un"]
  const ClusterKeys: seq<string> := ["ch", "th", "ph", "sh", "wh"]

  /** A one-letter vowel key. */
  predicate IsVowel(t: string)
  {
    |t| == 1 && t[0] in "aeiou"
  }

  /** A two-letter key ending in a vowel or in `y`: the onset and ending keys. */
  predicate IsDeadKey(t: string)
  {
    |t| == 2 && t[1] in "aeiouy"
  }

  /** The clusters are `ch th ph sh wh` and `an en in on un`. */
  lemma CommonCombinationShape(t: string)
    ensures IsCommonCombination(t) <==>
      |t| == 2 && ((t[1] == 'h' && t[0] in "ctpsw") || (t[1] == 'n' && t[0] in "aeiou"))
  {
    if |t| == 2 && ((t[1] == 'h' && t[0] in "ctpsw") || (t[1] == 'n' && t[0] in "aeiou")) {
      assert t == [t[0], t[1]];
    }
  }

  /** No onset or ending key is a token the segmenter can produce. */
  lemma DeadKeyIsNoToken(t: string)
    ensures IsDeadKey(t) ==> |t| != 1 && !IsCommonCombination(t)
  {
    CommonCombinationShape(t);
  }

  lemma VowelIsListed(t: string)
    ensures IsVowel(t) <==> t in Vowels
  {
    if IsVowel(t) {
      assert t == [t[0]];
    }
  }

  /** The fragments of a rule list, in order. */
  function Fragments(rules: seq<Rule>): (fs: seq<string>)
    ensures |fs| == |rules|
    ensures forall i :: 0 <= i < |rules| ==> fs[i] == rules[i].fragment
  {
    seq(|rules|, i requires 0 <= i < |rules| => rules[i].fragment)
  }

  lemma FragmentOfMember(rules: seq<Rule>, r: Rule)
    requires r in rules
    ensures r.fragment in Fragments(rules)
  {
    var k :| 0 <= k < |rules| && rules[k] == r;
    assert Fragments(rules)[k] == r.fragment;
  }

  /** A fragment has a rule exactly when it is one of the keys. */
  lemma FindRuleIffKey(rules: seq<Rule>, t: string)
    ensures FindRule(rules, t).Some? <==> t in Fragments(rules)
  {
    if t in Fragments(rules) {
      var k :| 0 <= k < |rules| && Fragments(rules)[k] == t;
      assert rules[k].fragment == t;
    }
  }

  /** A rule of `rules` whose key is `t`. */
  lemma RuleWithKey(rules: seq<Rule>, t: string) returns (r: Rule)
    requires t in Fragments(rules)
    ensures r in rules && r.fragment == t
  {
    var k :| 0 <= k < |rules| && Fragments(rules)[k] == t;
    r := rules[k];
  }

  /** A rule with a non-empty list of one-character glyphs, none of which
      leads a forbidden pair, and a key of at most two letters. */
  predicate RuleSafe(r: Rule)
  {
    |r.fragment| <= 2 && |r.glyphs| > 0 && AllPlainGlyphs(r.glyphs) && NoForbiddenLeaderIn(r.glyphs)
  }

  lemma VowelRulesSafe()
    ensures forall i :: 0 <= i < |VowelRules| ==> RuleSafe(VowelRules[i])
  {
  }

  lemma VowelRuleKeys()
    ensures forall i :: 0 <= i < |VowelRules| ==> IsVowel(VowelRules[i].fragment)
  {
  }

  lemma SyllableRulesSafe()
    ensures forall i :: 0 <= i < |SyllableRules| ==> RuleSafe(SyllableRules[i])
  {
  }

  lemma SyllableRuleKeys()
    ensures forall i :: 0 <= i < |SyllableRules| ==> IsCommonCombination(SyllableRules[i].fragment)
  {
  }

  lemma MOnsetRulesSafe()
    ensures forall i :: 0 <= i < |MOnsetRules| ==> RuleSafe(MOnsetRules[i])
  {
  }

  lemma MOnsetRuleKeys()
    ensures forall i :: 0 <= i < |MOnsetRules| ==> IsDeadKey(MOnsetRules[i].fragment)
  {
  }

  lemma JOnsetRulesSafe()
    ensures forall i :: 0 <= i < |JOnsetRules| ==> RuleSafe(JOnsetRules[i])
  {
  }

  lemma JOnsetRuleKeys()
    ensures forall i :: 0 <= i < |JOnsetRules| ==> IsDeadKey(JOnsetRules[i].fragment)
  {
  }

  lemma ClusterRulesSafe()
    ensures forall i :: 0 <= i < |ClusterRules| ==> RuleSafe(ClusterRules[i])
  {
  }

  lemma ClusterRuleKeys()
    ensures forall i :: 0 <= i < |ClusterRules| ==> IsCommonCombination(ClusterRules[i].fragment)
  {
  }

  lemma EndingRulesSafe()
    ensures forall i :: 0 <= i < |EndingRules| ==> RuleSafe(EndingRules[i])
  {
  }

  lemma EndingRuleKeys()
    ensures forall i :: 0 <= i < |EndingRules| ==> IsDeadKey(EndingRules[i].fragment)
  {
  }

  /** The rules of the groups whose keys the segmenter can produce. */
  const LiveRules: seq<Rule> := VowelRules + SyllableRules + ClusterRules

  /** Every rule of the table is safe. */
  lemma TableSafe()
    ensures forall r :: r in TransliterationRules ==> RuleSafe(r)
  {
    VowelRulesSafe();
    SyllableRulesSafe();
    MOnsetRulesSafe();
    JOnsetRulesSafe();
    ClusterRulesSafe();
    EndingRulesSafe();
  }

  /** The rules of the onset and ending groups. */
  const DeadRules: seq<Rule> := MOnsetRules + JOnsetRules + EndingRules

  /** Every rule is a live or a dead one. */
  lemma LiveOrDead(r: Rule)
    ensures r in TransliterationRules ==> r in LiveRules || r in DeadRules
  {
  }

  /** The live rules are keyed by vowels and clusters. */
  lemma LiveKinds()
    ensures forall r :: r in LiveRules ==> IsVowel(r.fragment) || IsCommonCombination(r.fragment)
  {
    VowelRuleKeys();
    SyllableRuleKeys();
    ClusterRuleKeys();
  }

  /** The dead rules are keyed by onset and ending keys. */
  lemma DeadKinds()
    ensures forall r :: r in DeadRules ==> IsDeadKey(r.fragment)
  {
    MOnsetRuleKeys();
    JOnsetRuleKeys();
    EndingRuleKeys();
  }

  /** The rule found for a fragment satisfies what every rule does. */
  lemma FoundRuleSafe(t: string)
    requires FindRule(TransliterationRules, t).Some?
    ensures TransliterationRules[FindRule(TransliterationRules, t).value] in TransliterationRules
    ensures |TransliterationOptions(TransliterationRules, t)| > 0
    ensures AllPlainGlyphs(TransliterationOptions(TransliterationRules, t))
    ensures NoForbiddenLeaderIn(TransliterationOptions(TransliterationRules, t))
  {
    TableSafe();
    var r := TransliterationRules[FindRule(TransliterationRules, t).value];
    assert r in TransliterationRules;
  }

  /** A transliteration list may repeat a glyph, so candidate lists are
      sequences and not sets. */
  lemma TransliterationListsMayRepeat()
    ensures |TransliterationOptions(TransliterationRules, "na")| == 5
    ensures TransliterationOptions(TransliterationRules, "na")[0] == TransliterationOptions(TransliterationRules, "na")[2] == "娜"
  {
    assert EndingRules[3] in TransliterationRules;
    FragmentOfMember(TransliterationRules, EndingRules[3]);
    FindRuleIffKey(TransliterationRules, "na");
    var r := TransliterationRules[FindRule(TransliterationRules, "na").value];
    assert r in TransliterationRules && r.fragment == "na";
    NaRule(r);
  }

  /** The only rule keyed `na` is the last ending. */
  lemma NaRule(r: Rule)
    requires r in TransliterationRules && r.fragment == "na"
    ensures r == EndingRules[3]
  {
    LiveOrDead(r);
    NaIsNotLive();
    OnsetLetters();
    assert r in EndingRules;
    NaEnding();
  }

  lemma NaIsNotLive()
    ensures forall r :: r in LiveRules ==> r.fragment != "na"
  {
    LiveKinds();
    DeadKeyIsNoToken("na");
  }

  lemma NaEnding()
    ensures forall r :: r in EndingRules && r.fragment == "na" ==> r == EndingRules[3]
  {
  }

  lemma OnsetLetters()
    ensures forall r :: r in MOnsetRules + JOnsetRules ==> r.fragment[0] != 'n'
  {
    assert forall i :: 0 <= i < |MOnsetRules| ==> MOnsetRules[i].fragment[0] == 'm';
    assert forall i :: 0 <= i < |JOnsetRules| ==> JOnsetRules[i].fragment[0] == 'j';
  }

  /** Every vowel and cluster is a key of the table. */
  lemma SegmenterTokensAreKeys(t: string)
    requires IsVowel(t) || IsCommonCombination(t)
    ensures FindRule(TransliterationRules, t).Some?
  {
    VowelIsListed(t);
    assert Fragments(VowelRules) == Vowels;
    assert Fragments(SyllableRules) == SyllableKeys;
    assert Fragments(ClusterRules) == ClusterKeys;
    assert CommonCombinations == ClusterKeys + SyllableKeys;
    var group := if t in Vowels then VowelRules else if t in SyllableKeys then SyllableRules else ClusterRules;
    assert t in Fragments(group);
    var r := RuleWithKey(group, t);
    assert r in TransliterationRules;
    FragmentOfMember(TransliterationRules, r);
    FindRuleIffKey(TransliterationRules, t);
  }

  /** Every vowel and every cluster of the segmenter has transliteration options. */
  lemma SegmenterTokensHaveRules()
    ensures forall t :: IsVowel(t) || IsCommonCombination(t) ==> |TransliterationOptions(TransliterationRules, t)| > 0
  {
    forall t | IsVowel(t) || IsCommonCombination(t)
      ensures |TransliterationOptions(TransliterationRules, t)| > 0
    {
      SegmenterTokensAreKeys(t);
      FoundRuleSafe(t);
    }
  }

  /** A rule whose key is a token the segmenter can produce is a live one. */
  lemma TokenRuleIsLive(r: Rule)
    requires r in TransliterationRules
    requires IsToken(r.fragment)
    ensures r in LiveRules
    ensures IsVowel(r.fragment) || IsCommonCombination(r.fragment)
  {
    LiveOrDead(r);
    DeadKeyIsNoToken(r.fragment);
    if r in DeadRules {
      DeadKinds();
    }
    LiveKinds();
  }

  /** The key a missing syllable is looked up under has no options. */
  lemma UndefinedIsNoKey()
    ensures TransliterationOptions(TransliterationRules, "undefined") == []
  {
    if FindRule(TransliterationRules, "undefined").Some? {
      FoundRuleSafe("undefined");
      TableSafe();
    }
  }

  lemma VowelGlyphsNotFeminine()
    ensures forall i, j :: 0 <= i < |VowelRules| && 0 <= j < |VowelRules[i].glyphs| ==> NotFeminineFirst(VowelRules[i].glyphs[j])
  {
  }

  lemma SyllableGlyphsNotFeminine()
    ensures forall i, j :: 0 <= i < |SyllableRules| && 0 <= j < |SyllableRules[i].glyphs| ==> NotFeminineFirst(SyllableRules[i].glyphs[j])
  {
  }

  lemma ClusterGlyphsNotFeminine()
    ensures forall i, j :: 0 <= i < |ClusterRules| && 0 <= j < |ClusterRules[i].glyphs| ==> NotFeminineFirst(ClusterRules[i].glyphs[j])
  {
  }

  /** No rule the segmenter can reach offers a feminine first-character glyph. */
  lemma LiveGlyphsNotFeminine()
    ensures forall r, j :: r in LiveRules && 0 <= j < |r.glyphs| ==> NotFeminineFirst(r.glyphs[j])
  {
    VowelGlyphsNotFeminine();
    SyllableGlyphsNotFeminine();
    ClusterGlyphsNotFeminine();
  }

  /** An unreachable rule does: `me` offers 美, the last entry of the feminine
      first pool. Were `me` a token, a masculine request could draw it. */
  lemma DeadRuleOffersFeminineGlyph()
    ensures MOnsetRules[1].fragment == "me" && IsDeadKey("me")
    ensures MOnsetRules[1].glyphs[1] == "美" && "美" in FeminineFirstGlyphs
  {
  }

  // ---------------------------------------------------------------------
  // Cultural annotations
  // ---------------------------------------------------------------------

  /** The texts of an annotation hold no `{`, so none can be mistaken for a
      template slot. */
  predicate AnnotationPlain(a: Annotation)
  {
    Plain(a.meaning) && Plain(a.culture) && Plain(a.personality)
  }

  lemma MingMeaningPlain()
    ensures Plain("bright, clear, intelligent")
  {
  }

  lemma MingCulturePlain()
    ensures Plain("Represents wisdom and " + "clarity in Chinese culture")
  {
    PlainJoin("Represents wisdom and ", "clarity in Chinese culture");
  }

  lemma MingPersonalityPlain()
    ensures Plain("Intelligent and " + "insightful person")
  {
    PlainJoin("Intelligent and ", "insightful person");
  }

  lemma MingPlain()
    ensures AnnotationPlain(MingAnnotation)
  {
    MingMeaningPlain();
    MingCulturePlain();
    MingPersonalityPlain();
  }

  lemma HuaMeaningPlain()
    ensures Plain("splendid, magnificent, China")
  {
  }

  lemma HuaCulturePlain()
    ensures Plain("Often represents Chinese " + "culture and civilization")
  {
    PlainJoin("Often represents Chinese ", "culture and civilization");
  }

  lemma HuaPersonalityPlain()
    ensures Plain("Cultured and " + "refined character")
  {
    PlainJoin("Cultured and ", "refined character");
  }

  lemma HuaPlain()
    ensures AnnotationPlain(HuaAnnotation)
  {
    HuaMeaningPlain();
    HuaCulturePlain();
    HuaPersonalityPlain();
  }

  lemma ZhiMeaningPlain()
    ensures Plain("ambition, aspiration")
  {
  }

  lemma ZhiCulturePlain()
    ensures Plain("Represents determination " + "and noble goals")
  {
    PlainJoin("Represents determination ", "and noble goals");
  }

  lemma ZhiPersonalityPlain()
    ensures Plain("Determined and goal-oriented")
  {
  }

  lemma ZhiPlain()
    ensures AnnotationPlain(ZhiAnnotation)
  {
    ZhiMeaningPlain();
    ZhiCulturePlain();
    ZhiPersonalityPlain();
  }

  lemma WenMeaningPlain()
    ensures Plain("culture, literature, " + "refinement")
  {
    PlainJoin("culture, literature, ", "refinement");
  }

  lemma WenCulturePlain()
    ensures Plain("Symbolizes education and " + "cultural accomplishment")
  {
    PlainJoin("Symbolizes education and ", "cultural accomplishment");
  }

  lemma WenPersonalityPlain()
    ensures Plain("Scholarly and cultured")
  {
  }

  lemma WenPlain()
    ensures AnnotationPlain(WenAnnotation)
  {
    WenMeaningPlain();
    WenCulturePlain();
    WenPersonalityPlain();
  }

  lemma DeMeaningPlain()
    ensures Plain("virtue, morality")
  {
  }

  lemma DeCulturePlain()
    ensures Plain("Embodies traditional " + "Chinese virtues")
  {
    PlainJoin("Embodies traditional ", "Chinese virtues");
  }

  lemma DePersonalityPlain()
    ensures Plain("Virtuous and ethical")
  {
  }

  lemma DePlain()
    ensures AnnotationPlain(DeAnnotation)
  {
    DeMeaningPlain();
    DeCulturePlain();
    DePersonalityPlain();
  }

  lemma AnMeaningPlain()
    ensures Plain("peace, tranquility, " + "contentment")
  {
    PlainJoin("peace, tranquility, ", "contentment");
  }

  lemma AnCulturePlain()
    ensures Plain("Represents stability and " + "serenity in Chinese culture")
  {
    PlainJoin("Represents stability and ", "serenity in Chinese culture");
  }

  lemma AnPersonalityPlain()
    ensures Plain("Peaceful, stable, " + "and reliable character")
  {
    PlainJoin("Peaceful, stable, ", "and reliable character");
  }

  lemma AnPlain()
    ensures AnnotationPlain(AnAnnotation)
  {
    AnMeaningPlain();
    AnCulturePlain();
    AnPersonalityPlain();
  }

  lemma LongMeaningPlain()
    ensures Plain("dragon")
  {
  }

  lemma LongCulturePlain()
    ensures Plain("Symbol of power, strength, " + "and good fortune " + "in Chinese culture")
  {
    PlainJoin("Symbol of power, strength, ", "and good fortune ");
    PlainJoin("Symbol of power, strength, " + "and good fortune ", "in Chinese culture");
  }

  lemma LongPersonalityPlain()
    ensures Plain("Strong, ambitious, " + "and successful")
  {
    PlainJoin("Strong, ambitious, ", "and successful");
  }

  lemma LongPlain()
    ensures AnnotationPlain(LongAnnotation)
  {
    LongMeaningPlain();
    LongCulturePlain();
    LongPersonalityPlain();
  }

  lemma YaMeaningPlain()
    ensures Plain("elegant, refined, graceful")
  {
  }

  lemma YaCulturePlain()
    ensures Plain("Embodies classical " + "Chinese aesthetics")
  {
    PlainJoin("Embodies classical ", "Chinese aesthetics");
  }

  lemma YaPersonalityPlain()
    ensures Plain("Cultured and sophisticated")
  {
  }

  lemma YaPlain()
    ensures AnnotationPlain(YaAnnotation)
  {
    YaMeaningPlain();
    YaCulturePlain();
    YaPersonalityPlain();
  }

  lemma AnnotationsPlain()
    ensures forall g :: g in CulturalMeanings ==> AnnotationPlain(CulturalMeanings[g])
  {
    MingPlain();
    HuaPlain();
    ZhiPlain();
    WenPlain();
    DePlain();
    AnPlain();
    LongPlain();
    YaPlain();
  }

  /** The fallback texts of `getCharacterDetails` hold no `{` either. */
  lemma FallbacksPlain()
    ensures Plain(UnknownMeaning) && Plain(UnknownCulture) && Plain(UnknownPersonality)
  {
  }
}
