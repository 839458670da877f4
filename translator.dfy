/**
 * The logic of class `NameTranslator`: the phonetic segmenter, candidate
 * selection, the compatibility filter, annotation lookup and template
 * filling. Every function takes the knowledge base `db` (the translator's
 * `database` field) explicitly; the random pick takes the value `draw` that
 * `Math.random()` would have returned.
 */
module Translator {
  import opened Wrappers
  import opened JsText
  import opened NameData

  // ---------------------------------------------------------------------
  // Phonetic segmenter
  // ---------------------------------------------------------------------

  /** The ten two-letter clusters the segmenter keeps together. */
  const CommonCombinations: seq<string> := ["ch", "th", "ph", "sh", "wh", "an", "en", "in", "on", "un"]

  /** `isCommonCombination`. */
  predicate IsCommonCombination(chars: string)
  {
    chars in CommonCombinations
  }

  lemma CommonCombinationLength(chars: string)
    requires IsCommonCombination(chars)
    ensures |chars| == 2
  {
  }

  function Min(a: int, b: int): int
  {
    if a < b then a else b
  }

  /** A token the segmenter can produce: any single character or one of the clusters. */
  predicate IsToken(t: string)
  {
    |t| == 1 || (|t| == 2 && IsCommonCombination(t))
  }

  /** Every token is one the segmenter can produce. */
  predicate WellShaped(tokens: seq<string>)
  {
    forall i :: 0 <= i < |tokens| ==> IsToken(tokens[i])
  }

  /** No single-character token could have been joined with the first
      character of the token after it into a cluster. */
  predicate Greedy(tokens: seq<string>)
    requires WellShaped(tokens)
  {
    forall i :: 0 <= i < |tokens| - 1 && |tokens[i]| == 1 ==> !IsCommonCombination(tokens[i] + tokens[i + 1][..1])
  }

  /** The result of `splitIntoSyllables`, as a function: the greedy
      left-to-right scan that takes the next two characters together when
      they form a cluster, and one character otherwise. At the last
      position the two-character window (`substr(pos, 2)`) holds a single
      character and so never matches. */
  function Segment(name: string): (tokens: seq<string>)
    decreases |name|
  {
    if name == [] then []
    else
      var twoChars := name[..Min(2, |name|)];
      if IsCommonCombination(twoChars) then
        CommonCombinationLength(twoChars);
        [twoChars] + Segment(name[2..])
      else
        [name[..1]] + Segment(name[1..])
  }

  /** The tokens concatenate back to the name, and each is one character
      or one of the clusters. */
  lemma {:induction false} SegmentShape(name: string)
    ensures Concat(Segment(name)) == name
    ensures WellShaped(Segment(name))
    decreases |name|
  {
    if name != [] {
      var twoChars := name[..Min(2, |name|)];
      var k := if IsCommonCombination(twoChars) then 2 else 1;
      if k == 2 { CommonCombinationLength(twoChars); }
      var tokens := Segment(name);
      var rest := Segment(name[k..]);
      assert tokens == [name[..k]] + rest;
      SegmentShape(name[k..]);
      assert name[..k] + name[k..] == name;
      assert forall i :: 1 <= i < |tokens| ==> tokens[i] == rest[i - 1];
    }
  }

  lemma {:induction false} SegmentIsGreedy(name: string)
    requires WellShaped(Segment(name))
    ensures Greedy(Segment(name))
    decreases |name|
  {
    if name != [] {
      SegmentShape(name);
      var tokens := Segment(name);
      var twoChars := name[..Min(2, |name|)];
      var k := if IsCommonCombination(twoChars) then 2 else 1;
      if k == 2 { CommonCombinationLength(twoChars); }
      var rest := Segment(name[k..]);
      assert tokens == [name[..k]] + rest;
      SegmentShape(name[k..]);
      SegmentIsGreedy(name[k..]);
      if k == 1 && |rest| > 0 {
        assert |name| >= 2 by { assert Concat(rest) == name[1..] && |rest[0]| >= 1; }
        assert rest[0][..1] == name[1..2] by {
          assert Concat(rest) == rest[0] + Concat(rest[1..]);
          assert name[1..][0] == rest[0][0];
        }
        assert tokens[0] + tokens[1][..1] == twoChars;
      }
      assert forall i :: 1 <= i < |tokens| ==> tokens[i] == rest[i - 1];
    }
  }

  /** Any cover of `name` by well-shaped, greedy tokens is the segmenter's. */
  lemma {:induction false} GreedySplitIsSegment(name: string, tokens: seq<string>)
    requires Concat(tokens) == name && WellShaped(tokens) && Greedy(tokens)
    ensures tokens == Segment(name)
    decreases |name|
  {
    if tokens == [] {
    } else {
      var t := tokens[0];
      var rest := tokens[1..];
      assert name == t + Concat(rest);
      assert WellShaped(rest) by { assert forall i :: 0 <= i < |rest| ==> rest[i] == tokens[i + 1]; }
      assert Greedy(rest) by { assert forall i :: 0 <= i < |rest| ==> rest[i] == tokens[i + 1]; }
      var twoChars := name[..Min(2, |name|)];
      if |t| == 2 {
        assert twoChars == t;
        assert name[2..] == Concat(rest);
        GreedySplitIsSegment(name[2..], rest);
      } else {
        assert |t| == 1;
        assert !IsCommonCombination(twoChars) by {
          if |name| >= 2 {
            assert rest != [] by { assert |Concat(rest)| == |name| - 1; }
            assert Concat(rest) == rest[0] + Concat(rest[1..]);
            assert |rest[0]| >= 1;
            assert rest[0][..1] == name[1..2];
            assert t + tokens[1][..1] == twoChars;
          } else {
            assert |twoChars| == 1;
          }
        }
        assert name[..1] == t;
        assert name[1..] == Concat(rest);
        GreedySplitIsSegment(name[1..], rest);
      }
    }
  }

  /** The segmenter's output is characterised by three properties: its
      tokens concatenate back to the input, each is one character or one of
      the clusters, and the scan is greedy. */
  lemma SegmentCharacterization(name: string, tokens: seq<string>)
    ensures (Concat(tokens) == name && WellShaped(tokens) && Greedy(tokens)) <==> tokens == Segment(name)
  {
    if tokens == Segment(name) {
      SegmentShape(name);
      SegmentIsGreedy(name);
    }
    if Concat(tokens) == name && WellShaped(tokens) && Greedy(tokens) {
      GreedySplitIsSegment(name, tokens);
    }
  }

  /** Only the ten clusters are kept together: in `john` neither `jo` nor
      `oh` nor `hn` is one, so every letter is a token of its own. */
  lemma SegmentJohn()
    ensures Segment("john") == ["j", "o", "h", "n"]
  {
    assert !IsCommonCombination("jo") && !IsCommonCombination("oh") && !IsCommonCombination("hn");
    assert Segment("n") == ["n"] by {
      assert "n"[..Min(2, |"n"|)] == "n"[..1] == "n" && "n"[1..] == [];
      assert !IsCommonCombination("n");
    }
    assert Segment("hn") == ["h"] + Segment("n") by {
      assert "hn"[..Min(2, |"hn"|)] == "hn" && "hn"[..1] == "h" && "hn"[1..] == "n";
    }
    assert Segment("ohn") == ["o"] + Segment("hn") by {
      assert "ohn"[..Min(2, |"ohn"|)] == "oh" && "ohn"[..1] == "o" && "ohn"[1..] == "hn";
    }
    assert Segment("john") == ["j"] + Segment("ohn") by {
      assert "john"[..Min(2, |"john"|)] == "jo" && "john"[..1] == "j" && "john"[1..] == "ohn";
    }
  }

  // ---------------------------------------------------------------------
  // Candidate selection
  // ---------------------------------------------------------------------

  /** The position of the rule for `fragment`, the first one when several
      share it; None when no rule has that fragment. */
  function FindRule(rules: seq<Rule>, fragment: string): (r: Option<nat>)
    ensures r.Some? ==> r.value < |rules| && rules[r.value].fragment == fragment
    ensures r.None? ==> forall j :: 0 <= j < |rules| ==> rules[j].fragment != fragment
  {
    if rules == [] then None
    else if rules[0].fragment == fragment then Some(0)
    else match FindRule(rules[1..], fragment)
      case None => None
      case Some(k) => Some(k + 1)
  }

  /** The rule found is the first with that key. Over the shipped table,
      whose keys are distinct (`NameDataFacts.TransliterationKeysDistinct`),
      it is the only one, the rule `transliterationRules[syllable]` names. */
  lemma {:induction false} FindRuleIsFirst(rules: seq<Rule>, fragment: string)
    ensures FindRule(rules, fragment).Some? ==>
      forall j :: 0 <= j < FindRule(rules, fragment).value ==> rules[j].fragment != fragment
  {
    if rules != [] && rules[0].fragment != fragment {
      FindRuleIsFirst(rules[1..], fragment);
      assert forall j :: 1 <= j < |rules| ==> rules[j] == rules[1..][j - 1];
    }
  }

  /** `transliterationRules[syllable] || []`. */
  function TransliterationOptions(rules: seq<Rule>, syllable: string): seq<string>
  {
    match FindRule(rules, syllable)
    case Some(i) => rules[i].glyphs
    case None => []
  }

  /** `pools[gender] || pools.neutral`. */
  function GenderPool(pools: map<string, seq<CharEntry>>, gender: string): seq<CharEntry>
    requires "neutral" in pools
  {
    if gender in pools then pools[gender] else pools["neutral"]
  }

  /** `entries.map(c => c.char)`. */
  function Glyphs(entries: seq<CharEntry>): seq<string>
  {
    seq(|entries|, i requires 0 <= i < |entries| => entries[i].glyph)
  }

  /** The candidate list of `selectFirstCharacter`: the transliteration
      options of the syllable followed by the gender's first-character pool. */
  function FirstCandidates(db: NameDatabase, syllable: string, gender: string): seq<string>
    requires Valid(db)
  {
    TransliterationOptions(db.transliterationRules, syllable) + Glyphs(GenderPool(db.firstChar, gender))
  }

  /** The glyph `selectBestCharacter` falls back to on an empty list. */
  function DefaultGlyph(gender: string): string
  {
    if gender == "feminine" then "雅" else if gender == "masculine" then "文" else "安"
  }

  /** A value of `Math.random()`: a real in [0, 1). */
  type Draw = r: real | 0.0 <= r < 1.0

  /** `Math.floor(draw * n)`. */
  function PickIndex(n: nat, draw: Draw): (k: nat)
    requires n > 0
    ensures k < n
  {
    assert 0.0 <= draw * n as real < n as real;
    (draw * n as real).Floor
  }

  /** `selectBestCharacter`: the per-gender default for an empty list,
      otherwise the element at the drawn index. */
  function SelectBestCharacter(candidates: seq<string>, gender: string, draw: Draw): (r: string)
    ensures candidates == [] && gender == "feminine" ==> r == "雅"
    ensures candidates == [] && gender == "masculine" ==> r == "文"
    ensures candidates == [] && gender != "feminine" && gender != "masculine" ==> r == "安"
    ensures candidates != [] ==> r in candidates
  {
    if |candidates| == 0 then DefaultGlyph(gender)
    else candidates[PickIndex(|candidates|, draw)]
  }

  /** Every candidate can be drawn: the draw k/n picks the k-th of n. */
  lemma EveryCandidateDrawable(candidates: seq<string>, gender: string, k: nat)
    requires k < |candidates|
    ensures 0.0 <= k as real / |candidates| as real < 1.0
    ensures SelectBestCharacter(candidates, gender, k as real / |candidates| as real) == candidates[k]
  {
    var n := |candidates| as real;
    var d := k as real / n;
    assert d * n == k as real;
    assert (1.0 - d) * n == n - k as real;
    assert PickIndex(|candidates|, d) == k;
  }

  /** What `getCharacterDetails` returns. The records carry no reading:
      neither the annotation table nor the fallback has one. The fallback
      has no `combinations` either. */
  datatype CharDetails = CharDetails(
    glyph: string,
    pinyin: Option<string>,
    meaning: string,
    culture: string,
    personality: string,
    combinations: Option<seq<string>>)

  const UnknownMeaning := "未知含义"
  const UnknownCulture := "暂无文化解释"
  const UnknownPersonality := "暂无性格特征描述"

  /** `getCharacterDetails`: the stored annotation of the glyph, or the
      fixed "unknown" strings when the glyph has none. It never fails. */
  function GetCharacterDetails(db: NameDatabase, glyph: string): (r: CharDetails)
    ensures r.glyph == glyph && r.pinyin == None
    ensures glyph in db.culturalMeanings ==>
      var a := db.culturalMeanings[glyph];
      r.meaning == a.meaning && r.culture == a.culture && r.personality == a.personality
      && r.combinations == Some(a.combinations)
    ensures glyph !in db.culturalMeanings ==>
      r.meaning == UnknownMeaning && r.culture == UnknownCulture && r.personality == UnknownPersonality
      && r.combinations == None
  {
    if glyph in db.culturalMeanings then
      var a := db.culturalMeanings[glyph];
      CharDetails(glyph, None, a.meaning, a.culture, a.personality, Some(a.combinations))
    else
      CharDetails(glyph, None, UnknownMeaning, UnknownCulture, UnknownPersonality, None)
  }

  /** `selectFirstCharacter`. */
  function SelectFirstCharacter(db: NameDatabase, syllable: string, gender: string, draw: Draw): (r: CharDetails)
    requires Valid(db)
    ensures r == GetCharacterDetails(db, r.glyph)
    ensures FirstCandidates(db, syllable, gender) != [] ==>
      r.glyph in TransliterationOptions(db.transliterationRules, syllable) || r.glyph in Glyphs(GenderPool(db.firstChar, gender))
    ensures FirstCandidates(db, syllable, gender) == [] ==> r.glyph == DefaultGlyph(gender)
  {
    var candidates := FirstCandidates(db, syllable, gender);
    GetCharacterDetails(db, SelectBestCharacter(candidates, gender, draw))
  }

  // ---------------------------------------------------------------------
  // Compatibility filter and recommended followers
  // ---------------------------------------------------------------------

  /** The followers of the pairs led by `lead`, in table order
      (`pairs.filter(p => p[0] === lead).map(p => p[1])`). */
  function Followers(pairs: seq<Pair>, lead: string): (r: seq<string>)
    ensures forall g :: g in r <==> Pair(lead, g) in pairs
    ensures |r| <= |pairs|
  {
    if pairs == [] then []
    else (if pairs[0].lead == lead then [pairs[0].follow] else []) + Followers(pairs[1..], lead)
  }

  /** `getForbiddenChars`: exactly the glyphs forbidden right after `firstGlyph`. */
  function GetForbiddenChars(db: NameDatabase, firstGlyph: string): (r: seq<string>)
    ensures forall g :: g in r <==> Pair(firstGlyph, g) in db.forbiddenCombinations
    ensures r == [] <==> forall p :: p in db.forbiddenCombinations ==> p.lead != firstGlyph
  {
    var r := Followers(db.forbiddenCombinations, firstGlyph);
    assert r != [] ==> Pair(firstGlyph, r[0]) in db.forbiddenCombinations;
    assert forall p :: p in db.forbiddenCombinations && p.lead == firstGlyph ==> p.follow in r by {
      forall p | p in db.forbiddenCombinations && p.lead == firstGlyph ensures p.follow in r {
        assert p == Pair(firstGlyph, p.follow);
      }
    }
    r
  }

  /** `recommendedCombinations[gender] || recommendedCombinations.neutral`. */
  function RecommendationTable(db: NameDatabase, gender: string): seq<Recommendation>
    requires Valid(db)
  {
    if gender in db.recommendedCombinations then db.recommendedCombinations[gender]
    else db.recommendedCombinations["neutral"]
  }

  /** `recs.map(combo => combo.chars)`. */
  function RecommendedPairs(recs: seq<Recommendation>): seq<Pair>
  {
    seq(|recs|, i requires 0 <= i < |recs| => recs[i].chars)
  }

  /** `getRecommendedSecondChars`: the recommended followers of `firstGlyph`
      for the gender (or the neutral table when the gender has none). */
  function GetRecommendedSecondChars(db: NameDatabase, firstGlyph: string, gender: string): (r: seq<string>)
    requires Valid(db)
    ensures forall g :: g in r <==>
      exists k :: 0 <= k < |RecommendationTable(db, gender)| && RecommendationTable(db, gender)[k].chars == Pair(firstGlyph, g)
  {
    var table := RecommendationTable(db, gender);
    var pairs := RecommendedPairs(table);
    var r := Followers(pairs, firstGlyph);
    assert forall g :: Pair(firstGlyph, g) in pairs <==> exists k :: 0 <= k < |table| && table[k].chars == Pair(firstGlyph, g) by {
      forall g ensures Pair(firstGlyph, g) in pairs ==> exists k :: 0 <= k < |table| && table[k].chars == Pair(firstGlyph, g) {
        if Pair(firstGlyph, g) in pairs {
          var k :| 0 <= k < |pairs| && pairs[k] == Pair(firstGlyph, g);
          assert table[k].chars == Pair(firstGlyph, g);
        }
      }
      forall g, k | 0 <= k < |table| && table[k].chars == Pair(firstGlyph, g) ensures Pair(firstGlyph, g) in pairs {
        assert pairs[k] == table[k].chars;
      }
    }
    r
  }

  /** `xs.filter(x => !banned.includes(x))`. */
  function Without(xs: seq<string>, banned: seq<string>): (r: seq<string>)
    ensures forall x :: x in r <==> x in xs && x !in banned
    ensures |r| <= |xs|
  {
    if xs == [] then []
    else (if xs[0] in banned then [] else [xs[0]]) + Without(xs[1..], banned)
  }

  /** The candidate list of `selectSecondCharacter`: recommended followers of
      the first glyph, then the gender's second-character pool, with every
      forbidden follower removed. */
  function SecondCandidates(db: NameDatabase, firstGlyph: string, gender: string): seq<string>
    requires Valid(db)
  {
    Without(GetRecommendedSecondChars(db, firstGlyph, gender) + Glyphs(GenderPool(db.secondChar, gender)),
            GetForbiddenChars(db, firstGlyph))
  }

  /** `selectSecondCharacter`. Its syllable argument is not used. */
  function SelectSecondCharacter(db: NameDatabase, syllable: string, gender: string, first: CharDetails, draw: Draw): (r: CharDetails)
    requires Valid(db)
    ensures r == GetCharacterDetails(db, r.glyph)
    ensures SecondCandidates(db, first.glyph, gender) != [] ==>
      && (r.glyph in GetRecommendedSecondChars(db, first.glyph, gender) || r.glyph in Glyphs(GenderPool(db.secondChar, gender)))
      && Pair(first.glyph, r.glyph) !in db.forbiddenCombinations
    ensures SecondCandidates(db, first.glyph, gender) == [] ==> r.glyph == DefaultGlyph(gender)
  {
    var candidates := SecondCandidates(db, first.glyph, gender);
    GetCharacterDetails(db, SelectBestCharacter(candidates, gender, draw))
  }

  // ---------------------------------------------------------------------
  // Template filling
  // ---------------------------------------------------------------------

  /** The slots of the combination template, in the order `generateMeaning`
      replaces them. */
  const CombinationSlots: seq<string> :=
    ["{name}", "{char1}", "{meaning1}", "{char2}", "{meaning2}", "{overall_meaning}", "{cultural_value}", "{personality_traits}"]

  /** The value `generateMeaning` puts in each of those slots. */
  function CombinationValues(first: CharDetails, second: CharDetails): (vs: seq<string>)
    ensures |vs| == |CombinationSlots|
  {
    [first.glyph + second.glyph, first.glyph, first.meaning, second.glyph, second.meaning,
     first.meaning + " and " + second.meaning,
     first.culture + " combined with " + second.culture,
     first.personality + " and " + second.personality]
  }

  /** `generateMeaning`: the combination template with each slot replaced,
      in order, at its first occurrence. */
  function GenerateMeaning(db: NameDatabase, first: CharDetails, second: CharDetails): string
  {
    var t := ReplaceFirst(db.culturalTemplates.combination, "{name}", first.glyph + second.glyph);
    var t := ReplaceFirst(t, "{char1}", first.glyph);
    var t := ReplaceFirst(t, "{meaning1}", first.meaning);
    var t := ReplaceFirst(t, "{char2}", second.glyph);
    var t := ReplaceFirst(t, "{meaning2}", second.meaning);
    var t := ReplaceFirst(t, "{overall_meaning}", first.meaning + " and " + second.meaning);
    var t := ReplaceFirst(t, "{cultural_value}", first.culture + " combined with " + second.culture);
    ReplaceFirst(t, "{personality_traits}", first.personality + " and " + second.personality)
  }

  /** The slots of the single-character template, in replacement order. */
  const SingleCharSlots: seq<string> := ["{char}", "{pinyin}", "{meaning}", "{culture}", "{personality}"]

  /** The value put in each of those slots for one glyph; a missing reading
      is rendered as `undefined`. */
  function SingleCharValues(c: CharDetails): (vs: seq<string>)
    ensures |vs| == |SingleCharSlots|
  {
    [c.glyph, JsString(c.pinyin), c.meaning, c.culture, c.personality]
  }

  /** The single-character template filled for one glyph, as
      `generateCulturalContext` does for each of the two. */
  function DescribeCharacter(db: NameDatabase, c: CharDetails): string
  {
    var t := ReplaceFirst(db.culturalTemplates.singleChar, "{char}", c.glyph);
    var t := ReplaceFirst(t, "{pinyin}", JsString(c.pinyin));
    var t := ReplaceFirst(t, "{meaning}", c.meaning);
    var t := ReplaceFirst(t, "{culture}", c.culture);
    ReplaceFirst(t, "{personality}", c.personality)
  }

  datatype Individual = Individual(first: string, second: string)
  datatype CulturalContext = CulturalContext(overall: string, individual: Individual)

  /** `generateCulturalContext`. */
  function GenerateCulturalContext(db: NameDatabase, first: CharDetails, second: CharDetails): CulturalContext
  {
    CulturalContext(
      "This name combines the cultural elements of " + first.culture + " with " + second.culture,
      Individual(DescribeCharacter(db, first), DescribeCharacter(db, second)))
  }

  // ---------------------------------------------------------------------
  // One suggestion
  // ---------------------------------------------------------------------

  datatype NameSuggestion = NameSuggestion(
    chineseName: string,
    pronunciation: string,
    meaning: string,
    culturalContext: CulturalContext)

  /** `syllables[i]` used as a property key: past the end the value is
      `undefined`, which names the key "undefined". */
  function TokenKey(syllables: seq<string>, i: nat): string
  {
    if i < |syllables| then syllables[i] else "undefined"
  }

  /** The first selection of `generateNameSuggestion`: from the first syllable. */
  function FirstSelection(db: NameDatabase, syllables: seq<string>, gender: string, draw: Draw): CharDetails
    requires Valid(db)
  {
    SelectFirstCharacter(db, TokenKey(syllables, 0), gender, draw)
  }

  /** The second selection: from the second syllable, or the first again
      when there is only one. */
  function SecondSelection(db: NameDatabase, syllables: seq<string>, gender: string, first: CharDetails, draw: Draw): CharDetails
    requires Valid(db)
  {
    SelectSecondCharacter(db, TokenKey(syllables, if |syllables| > 1 then 1 else 0), gender, first, draw)
  }

  /** `generateNameSuggestion`: the two selections, then the texts. */
  function GenerateNameSuggestion(db: NameDatabase, syllables: seq<string>, gender: string, firstDraw: Draw, secondDraw: Draw): NameSuggestion
    requires Valid(db)
  {
    var first := FirstSelection(db, syllables, gender, firstDraw);
    var second := SecondSelection(db, syllables, gender, first, secondDraw);
    NameSuggestion(
      first.glyph + second.glyph,
      JsString(first.pinyin) + " " + JsString(second.pinyin),
      GenerateMeaning(db, first, second),
      GenerateCulturalContext(db, first, second))
  }
}
