/**
 * Class `NameTranslator`: the knowledge base it is built with and its two
 * step-by-step operations, the syllable scan and the three-suggestion loop.
 * Each selection's `Math.random()` value is taken from `draws`, in the order
 * the calls are made.
 */
module Engine {
  import opened Wrappers
  import opened JsText
  import opened NameData
  import opened Translator
  import opened NameDataFacts
  import opened Conformance
  import opened SuggestionFacts

  /** The gender tag `translateName` passes on: its default `neutral` when the
      argument is left out, the given tag otherwise. */
  function GenderTag(gender: Option<string>): string
  {
    match gender
    case None => "neutral"
    case Some(g) => g
  }

  /** The property names every JavaScript object inherits from
      `Object.prototype`. A gender tag among them finds an inherited value in
      `firstChar[gender]` that is truthy but not an array, so the `|| neutral`
      fallback is skipped and the `.map` call on it throws a TypeError. */
  const ObjectPrototypeKeys: seq<string> := [
    "constructor", "__proto__", "__defineGetter__", "__defineSetter__",
    "__lookupGetter__", "__lookupSetter__", "hasOwnProperty", "isPrototypeOf",
    "propertyIsEnumerable", "toLocaleString", "toString", "valueOf"]

  class NameTranslator {
    /** `this.database`, fixed at construction. */
    const database: NameDatabase

    /** The translator's invariant: its knowledge base has the shape the
        guarantees of `translateName` rest on. */
    predicate Valid()
    {
      Conforms(database)
    }

    /** `new NameTranslator()`: built with the shipped knowledge base. */
    constructor()
      ensures database == Database && Valid()
    {
      database := Database;
      DatabaseConforms();
    }

    /** `splitIntoSyllables`: scans left to right, taking the next two
        characters together when they form a cluster and one character
        otherwise. */
    method SplitIntoSyllables(name: string) returns (syllables: seq<string>)
      ensures syllables == Segment(name)
      ensures Concat(syllables) == name && WellShaped(syllables) && Greedy(syllables)
    {
      syllables := [];
      var currentPos := 0;
      while currentPos < |name|
        invariant 0 <= currentPos <= |name|
        invariant syllables + Segment(name[currentPos..]) == Segment(name)
        decreases |name| - currentPos
      {
        var twoChars := name[currentPos..Min(currentPos + 2, |name|)];
        ScanStep(name, currentPos, syllables);
        if IsCommonCombination(twoChars) {
          syllables := syllables + [twoChars];
          currentPos := currentPos + 2;
          continue;
        }
        syllables := syllables + [name[currentPos..currentPos + 1]];
        currentPos := currentPos + 1;
      }
      assert name[currentPos..] == [];
      SegmentShape(name);
      SegmentIsGreedy(name);
    }

    /** `translateName`: lower-cases the name, splits it and builds three
        suggestions from the same syllables, each taking the next two values
        of the random source. A gender tag naming an `Object.prototype`
        property makes the source throw and is excluded. Every suggestion is
        two single glyphs that never form a forbidden pair, and a masculine
        request never starts with a glyph of the feminine first pool. */
    method TranslateName(englishName: string, gender: Option<string>, draws: seq<Draw>) returns (suggestions: seq<NameSuggestion>)
      requires Valid()
      requires GenderTag(gender) !in ObjectPrototypeKeys
      requires |draws| == 6
      ensures suggestions == Suggestions(database, Segment(ToLowerCase(englishName)), GenderTag(gender), draws)
      ensures |suggestions| == 3
      ensures forall i :: 0 <= i < 3 ==> Allowed(database, suggestions[i].chineseName)
      ensures GenderTag(gender) == "masculine" ==> forall i :: 0 <= i < 3 ==>
        !FeminineLead(database, suggestions[i].chineseName)
    {
      var name := ToLowerCase(englishName);
      var syllables := SplitIntoSyllables(name);
      var tag := GenderTag(gender);
      suggestions := [];
      var rest := draws;
      for i := 0 to 3
        invariant |rest| == 6 - 2 * i
        invariant suggestions + Suggestions(database, syllables, tag, rest) == Suggestions(database, syllables, tag, draws)
      {
        var suggestion := GenerateNameSuggestion(database, syllables, tag, rest[0], rest[1]);
        AppendAssoc(suggestions, [suggestion], Suggestions(database, syllables, tag, rest[2..]));
        suggestions := suggestions + [suggestion];
        rest := rest[2..];
      }
      assert suggestions + [] == suggestions;
      SuggestionsSafe(database, syllables, tag, draws);
    }
  }

  /** The suggestions made from successive pairs of values of the random
      source: the first two values make the first suggestion, and so on. */
  function Suggestions(db: NameDatabase, syllables: seq<string>, gender: string, draws: seq<Draw>): (s: seq<NameSuggestion>)
    requires Valid(db)
    ensures |s| == |draws| / 2
    decreases |draws|
  {
    if |draws| < 2 then []
    else [GenerateNameSuggestion(db, syllables, gender, draws[0], draws[1])] + Suggestions(db, syllables, gender, draws[2..])
  }

  /** A name of two glyphs that is not a forbidden pair. */
  predicate Allowed(db: NameDatabase, name: string)
  {
    |name| == 2 && Pair(name[..1], name[1..]) !in db.forbiddenCombinations
  }

  /** The name starts with a glyph of the feminine first pool. */
  predicate FeminineLead(db: NameDatabase, name: string)
  {
    "feminine" in db.firstChar && |name| >= 1 && name[..1] in Glyphs(db.firstChar["feminine"])
  }

  /** What `translateName` guarantees of one suggestion for a gender tag. */
  predicate SafeSuggestion(db: NameDatabase, gender: string, s: NameSuggestion)
  {
    Allowed(db, s.chineseName) && (gender == "masculine" ==> !FeminineLead(db, s.chineseName))
  }

  /** Every suggestion made from any draws is an allowed two-glyph name, and
      for a masculine request its first glyph is not in the feminine pool. */
  lemma {:induction false} SuggestionsSafe(db: NameDatabase, syllables: seq<string>, gender: string, draws: seq<Draw>)
    requires Conforms(db) && WellShaped(syllables)
    ensures forall i :: 0 <= i < |Suggestions(db, syllables, gender, draws)| ==>
      SafeSuggestion(db, gender, Suggestions(db, syllables, gender, draws)[i])
    decreases |draws|
  {
    if |draws| >= 2 {
      var s := Suggestions(db, syllables, gender, draws);
      var tail := Suggestions(db, syllables, gender, draws[2..]);
      NameFacts(db, syllables, gender, draws[0], draws[1]);
      SuggestionsSafe(db, syllables, gender, draws[2..]);
      forall i | 0 <= i < |s|
        ensures SafeSuggestion(db, gender, s[i])
      {
        if i > 0 {
          assert s[i] == tail[i - 1];
        }
      }
    }
  }

  /** Nothing in the loop or in the random pick removes repeats: when the
      random source yields the same two values for every suggestion, the
      three suggestions coincide. */
  lemma SuggestionsMayRepeat(db: NameDatabase, syllables: seq<string>, gender: string, d: Draw, e: Draw)
    requires Valid(db)
    ensures var s := Suggestions(db, syllables, gender, [d, e, d, e, d, e]);
      |s| == 3 && s[0] == s[1] == s[2]
  {
    var ds: seq<Draw> := [d, e, d, e, d, e];
    var one := GenerateNameSuggestion(db, syllables, gender, d, e);
    assert ds[2..] == [d, e, d, e] && ds[2..][2..] == [d, e] && ds[2..][2..][2..] == [];
    var s3 := Suggestions(db, syllables, gender, ds[2..][2..][2..]);
    assert s3 == [];
    var s2 := Suggestions(db, syllables, gender, ds[2..][2..]);
    assert s2 == [one] + s3;
    var s1 := Suggestions(db, syllables, gender, ds[2..]);
    assert s1 == [one] + s2;
    var s := Suggestions(db, syllables, gender, ds);
    assert s == [one] + s1;
    assert s[1] == s1[0] && s[2] == s1[1] == s2[0];
  }

  lemma AppendAssoc<T>(a: seq<T>, b: seq<T>, c: seq<T>)
    ensures a + b + c == a + (b + c)
  {
  }

  /** One step of the scan from position `p`: the segmentation of the rest
      of the name starts with the cluster at `p` when there is one, and with
      the single character at `p` otherwise. */
  lemma SegmentFrom(name: string, p: nat)
    requires p < |name|
    ensures IsCommonCombination(name[p..Min(p + 2, |name|)]) ==>
      p + 2 <= |name| && Segment(name[p..]) == [name[p..p + 2]] + Segment(name[p + 2..])
    ensures !IsCommonCombination(name[p..Min(p + 2, |name|)]) ==>
      Segment(name[p..]) == [name[p..p + 1]] + Segment(name[p + 1..])
  {
    var rest := name[p..];
    assert name[p..Min(p + 2, |name|)] == rest[..Min(2, |rest|)];
    if IsCommonCombination(name[p..Min(p + 2, |name|)]) {
      CommonCombinationLength(name[p..Min(p + 2, |name|)]);
      assert rest[2..] == name[p + 2..];
    } else {
      assert rest[..1] == name[p..p + 1];
      assert rest[1..] == name[p + 1..];
    }
  }

  /** One iteration of the scan keeps its invariant: the tokens found so far,
      with the next token and the segmentation of what follows it, make up
      the segmentation of the whole name. */
  lemma ScanStep(name: string, p: nat, syllables: seq<string>)
    requires p < |name| && syllables + Segment(name[p..]) == Segment(name)
    ensures IsCommonCombination(name[p..Min(p + 2, |name|)]) ==>
      p + 2 <= |name| && syllables + [name[p..Min(p + 2, |name|)]] + Segment(name[p + 2..]) == Segment(name)
    ensures !IsCommonCombination(name[p..Min(p + 2, |name|)]) ==>
      syllables + [name[p..p + 1]] + Segment(name[p + 1..]) == Segment(name)
  {
    SegmentFrom(name, p);
    if IsCommonCombination(name[p..Min(p + 2, |name|)]) {
      AppendAssoc(syllables, [name[p..p + 2]], Segment(name[p + 2..]));
    } else {
      AppendAssoc(syllables, [name[p..p + 1]], Segment(name[p + 1..]));
    }
  }

  /** The facts about one suggestion that `translateName` collects, in terms
      of its two-glyph name. */
  lemma NameFacts(db: NameDatabase, syllables: seq<string>, gender: string, firstDraw: Draw, secondDraw: Draw)
    requires Conforms(db) && WellShaped(syllables)
    ensures SafeSuggestion(db, gender, GenerateNameSuggestion(db, syllables, gender, firstDraw, secondDraw))
  {
    SuggestionGlyphs(db, syllables, gender, firstDraw, secondDraw);
    if gender == "masculine" {
      MasculineNeverFeminine(db, syllables, firstDraw);
    }
    var first := FirstSelection(db, syllables, gender, firstDraw);
    var second := SecondSelection(db, syllables, gender, first, secondDraw);
    var name := first.glyph + second.glyph;
    assert name[..1] == first.glyph && name[1..] == second.glyph;
  }
}
