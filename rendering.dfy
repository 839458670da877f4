/**
 * What the two explanation templates of the knowledge base render to. The
 * templates are laid out as text between slots; when every value put into
 * a slot is plain (holds no `{`), the chain of `replace` calls puts each
 * value exactly where its slot was, and no slot survives.
 */
module Rendering {
  import opened Wrappers
  import opened JsText
  import opened NameData
  import opened Translator

  /** The text of the single-character template after each of its slots. */
  const SingleCharChunks: seq<string> :=
    ["(", ") means '", "'. In Chinese culture, it ",
     ". People with this " + "character in their name " + "often show ", " traits."]

  /** The text of the combination template before its first slot, and after
      each of them. */
  const CombinationHead := "The name "
  const CombinationChunks: seq<string> :=
    [" combines ", "(", ") and ", "(", "), suggesting ", ". This name reflects ",
     " in Chinese culture " + "and implies a personality " + "that is ", "."]

  lemma SingleCharLayout()
    ensures SingleCharFormat == Layout("", SingleCharSlots, SingleCharChunks)
  {
  }

  lemma CombinationLayout()
    ensures CombinationFormat == Layout(CombinationHead, CombinationSlots, CombinationChunks)
  {
  }

  lemma ShortChunksPlain()
    ensures Plain("(") && Plain(") means '") && Plain(" traits.") && Plain(" combines ") && Plain(") and ") && Plain(".")
  {
  }

  lemma CultureChunkPlain()
    ensures Plain("'. In Chinese culture, it ")
  {
  }

  lemma TraitsChunkPlain()
    ensures Plain(". People with this " + "character in their name " + "often show ")
  {
    PlainJoin(". People with this ", "character in their name ");
    PlainJoin(". People with this " + "character in their name ", "often show ");
  }

  lemma SuggestingChunkPlain()
    ensures Plain("), suggesting ")
  {
  }

  lemma ReflectsChunkPlain()
    ensures Plain(". This name reflects ")
  {
  }

  lemma ImpliesChunkPlain()
    ensures Plain(" in Chinese culture " + "and implies a personality " + "that is ")
  {
    PlainJoin(" in Chinese culture ", "and implies a personality ");
    PlainJoin(" in Chinese culture " + "and implies a personality ", "that is ");
  }

  lemma HeadPlain()
    ensures Plain(CombinationHead) && Plain("")
  {
  }

  /** The text between the slots holds no `{`. */
  lemma ChunksPlain()
    ensures AllPlain(SingleCharChunks) && AllPlain(CombinationChunks)
  {
    ShortChunksPlain();
    CultureChunkPlain();
    TraitsChunkPlain();
    SuggestingChunkPlain();
    ReflectsChunkPlain();
    ImpliesChunkPlain();
  }

  lemma SlotsAreSlots()
    ensures AllSlots(SingleCharSlots) && AllSlots(CombinationSlots)
  {
  }

  /** `generateMeaning` is the chain of `replace` calls over the combination
      slots, each given its value. */
  lemma MeaningIsReplaceChain(db: NameDatabase, first: CharDetails, second: CharDetails)
    ensures GenerateMeaning(db, first, second)
      == ReplaceEach(db.culturalTemplates.combination, CombinationSlots, CombinationValues(first, second))
  {
  }

  /** The per-glyph text is the chain of `replace` calls over the
      single-character slots, each given its value. */
  lemma DescribeIsReplaceChain(db: NameDatabase, c: CharDetails)
    ensures DescribeCharacter(db, c) == ReplaceEach(db.culturalTemplates.singleChar, SingleCharSlots, SingleCharValues(c))
  {
  }

  /** Every text of a record is plain, the rendering of a missing reading
      included. */
  predicate DetailsPlain(c: CharDetails)
  {
    Plain(c.glyph) && Plain(JsString(c.pinyin)) && Plain(c.meaning) && Plain(c.culture) && Plain(c.personality)
  }

  lemma SingleCharValuesPlain(c: CharDetails)
    requires DetailsPlain(c)
    ensures AllPlain(SingleCharValues(c))
  {
  }

  lemma CombinationValuesPlain(first: CharDetails, second: CharDetails)
    requires DetailsPlain(first) && DetailsPlain(second)
    ensures AllPlain(CombinationValues(first, second))
  {
    PlainJoin(first.glyph, second.glyph);
    PlainJoin(first.meaning, " and ");
    PlainJoin(first.meaning + " and ", second.meaning);
    PlainJoin(first.culture, " combined with ");
    PlainJoin(first.culture + " combined with ", second.culture);
    PlainJoin(first.personality, " and ");
    PlainJoin(first.personality + " and ", second.personality);
  }

  /** The explanation of one glyph is the single-character sentence with the
      glyph, its reading, its meaning, its culture and its personality in
      their places, and no slot is left in it. */
  lemma DescribeFillsTemplate(db: NameDatabase, c: CharDetails)
    requires db.culturalTemplates.singleChar == SingleCharFormat
    requires DetailsPlain(c)
    ensures DescribeCharacter(db, c) == Layout("", SingleCharValues(c), SingleCharChunks)
    ensures Plain(DescribeCharacter(db, c))
  {
    SingleCharLayout();
    ChunksPlain();
    SlotsAreSlots();
    HeadPlain();
    SingleCharValuesPlain(c);
    DescribeIsReplaceChain(db, c);
    FillLayout("", SingleCharSlots, SingleCharChunks, SingleCharValues(c));
    LayoutPlain("", SingleCharValues(c), SingleCharChunks);
  }

  /** The explanation of a name is the combination sentence with the name,
      both glyphs, both meanings and the joined meanings, cultures and
      personalities in their places, and no slot is left in it. */
  lemma MeaningFillsTemplate(db: NameDatabase, first: CharDetails, second: CharDetails)
    requires db.culturalTemplates.combination == CombinationFormat
    requires DetailsPlain(first) && DetailsPlain(second)
    ensures GenerateMeaning(db, first, second) == Layout(CombinationHead, CombinationValues(first, second), CombinationChunks)
    ensures Plain(GenerateMeaning(db, first, second))
  {
    CombinationLayout();
    ChunksPlain();
    SlotsAreSlots();
    HeadPlain();
    CombinationValuesPlain(first, second);
    MeaningIsReplaceChain(db, first, second);
    FillLayout(CombinationHead, CombinationSlots, CombinationChunks, CombinationValues(first, second));
    LayoutPlain(CombinationHead, CombinationValues(first, second), CombinationChunks);
  }
}
