/**
 * The shape of a knowledge base that the translator's guarantees rest on,
 * stated for any database, and the proof that the shipped one has it.
 */
module Conformance {
  import opened Wrappers
  import opened JsText
  import opened NameData
  import opened Translator
  import opened NameDataFacts

  /** Every rule has a key of at most two letters and offers single,
      plain glyphs, none of which leads a forbidden pair. */
  predicate RulesConform(db: NameDatabase)
  {
    forall r :: r in db.transliterationRules ==>
      && |r.fragment| <= 2
      && AllPlainGlyphs(r.glyphs)
      && forall j :: 0 <= j < |r.glyphs| ==> LeadsNothing(db.forbiddenCombinations, r.glyphs[j])
  }

  /** No rule keyed by a token offers a glyph of the feminine first pool. */
  predicate TokenRulesNotFeminine(db: NameDatabase)
    requires "feminine" in db.firstChar
  {
    forall r, j :: r in db.transliterationRules && IsToken(r.fragment) && 0 <= j < |r.glyphs| ==>
      r.glyphs[j] !in Glyphs(db.firstChar["feminine"])
  }

  /** Every first-character pool is non-empty and holds single glyphs, none
      of which leads a forbidden pair; the masculine pool shares no glyph
      with the feminine one. */
  predicate FirstPoolsConform(db: NameDatabase)
  {
    && "masculine" in db.firstChar && "feminine" in db.firstChar
    && (forall k :: k in db.firstChar ==>
         && |db.firstChar[k]| > 0
         && AllPlainGlyphs(Glyphs(db.firstChar[k]))
         && forall i :: 0 <= i < |db.firstChar[k]| ==> LeadsNothing(db.forbiddenCombinations, db.firstChar[k][i].glyph))
    && forall i :: 0 <= i < |db.firstChar["masculine"]| ==>
         db.firstChar["masculine"][i].glyph !in Glyphs(db.firstChar["feminine"])
  }

  /** Every second-character pool is non-empty and holds single glyphs, none
      of which follows in a forbidden pair; every recommended follower is a
      single glyph. */
  predicate SecondPoolsConform(db: NameDatabase)
  {
    && (forall k :: k in db.secondChar ==>
         && |db.secondChar[k]| > 0
         && AllPlainGlyphs(Glyphs(db.secondChar[k]))
         && forall p :: p in db.forbiddenCombinations ==> p.follow !in Glyphs(db.secondChar[k]))
    && forall k, i :: k in db.recommendedCombinations && 0 <= i < |db.recommendedCombinations[k]| ==>
         PlainGlyph(db.recommendedCombinations[k][i].chars.follow)
  }

  /** No annotation text holds a `{`. */
  predicate AnnotationsConform(db: NameDatabase)
  {
    forall g :: g in db.culturalMeanings ==> AnnotationPlain(db.culturalMeanings[g])
  }

  /** A knowledge base shaped like the shipped one. */
  predicate Conforms(db: NameDatabase)
  {
    && Valid(db)
    && db.culturalTemplates == Templates(SingleCharFormat, CombinationFormat)
    && RulesConform(db)
    && FirstPoolsConform(db)
    && TokenRulesNotFeminine(db)
    && SecondPoolsConform(db)
    && AnnotationsConform(db)
  }

  // ---------------------------------------------------------------------
  // The shipped knowledge base conforms
  // ---------------------------------------------------------------------

  lemma RulesConformWhen(db: NameDatabase)
    requires db.transliterationRules == TransliterationRules
    requires db.forbiddenCombinations == ForbiddenCombinations
    ensures RulesConform(db)
  {
    TableSafe();
    forall r, j | r in TransliterationRules && 0 <= j < |r.glyphs|
      ensures LeadsNothing(ForbiddenCombinations, r.glyphs[j])
    {
      FreeLeaderLeadsNothing(r.glyphs[j]);
    }
  }

  /** A rule keyed by a token is a live one. */
  lemma TokenRulesAreLive()
    ensures forall r :: r in TransliterationRules && IsToken(r.fragment) ==> r in LiveRules
  {
    forall r | r in TransliterationRules && IsToken(r.fragment)
      ensures r in LiveRules
    {
      TokenRuleIsLive(r);
    }
  }

  lemma TokenRulesNotFeminineWhen(db: NameDatabase)
    requires db.transliterationRules == TransliterationRules
    requires db.firstChar == FirstCharPools
    ensures "feminine" in db.firstChar && TokenRulesNotFeminine(db)
  {
    TokenRulesAreLive();
    LiveGlyphsNotFeminine();
    FeminineFirstPool();
  }

  lemma FirstPoolsConformWhen(db: NameDatabase)
    requires db.firstChar == FirstCharPools
    requires db.forbiddenCombinations == ForbiddenCombinations
    ensures FirstPoolsConform(db)
  {
    PoolsNonEmpty();
    PoolGlyphsSingle();
    ForbiddenLeadersNotInFirstPools();
    FeminineFirstPool();
    forall k, i | k in FirstCharPools && 0 <= i < |FirstCharPools[k]|
      ensures LeadsNothing(ForbiddenCombinations, FirstCharPools[k][i].glyph)
    {
      assert Glyphs(FirstCharPools[k])[i] == FirstCharPools[k][i].glyph;
      FreeLeaderLeadsNothing(FirstCharPools[k][i].glyph);
    }
  }

  lemma SecondPoolsConformWhen(db: NameDatabase)
    requires db.secondChar == SecondCharPools
    requires db.recommendedCombinations == RecommendedCombinations
    requires db.forbiddenCombinations == ForbiddenCombinations
    ensures SecondPoolsConform(db)
  {
    PoolsNonEmpty();
    PoolGlyphsSingle();
    ForbiddenFollowersUnused();
  }

  lemma AnnotationsConformWhen(db: NameDatabase)
    requires db.culturalMeanings == CulturalMeanings
    ensures AnnotationsConform(db)
  {
    AnnotationsPlain();
  }

  /** The shipped knowledge base has the shape the guarantees rest on. */
  lemma DatabaseConforms()
    ensures Conforms(Database)
  {
    var db := Database;
    assert db.transliterationRules == TransliterationRules && db.firstChar == FirstCharPools
      && db.secondChar == SecondCharPools && db.culturalMeanings == CulturalMeanings
      && db.forbiddenCombinations == ForbiddenCombinations
      && db.recommendedCombinations == RecommendedCombinations;
    PoolsNonEmpty();
    RulesConformWhen(db);
    TokenRulesNotFeminineWhen(db);
    FirstPoolsConformWhen(db);
    SecondPoolsConformWhen(db);
    AnnotationsConformWhen(db);
  }
}
