/**
 * The static knowledge base of the name engine: the parts of `nameDatabase`
 * that the translator reads. Gender-keyed tables are maps from the gender tag
 * ("masculine", "feminine", "neutral") to their entries, in table order.
 */
module NameData {

  /** One transliteration rule: a Latin fragment and its candidate glyphs. */
  datatype Rule = Rule(fragment: string, glyphs: seq<string>)

  /** An entry of a first- or second-character pool. The translator reads
      only its `char` field; the reading and the glosses stored beside it are
      never used, so the model keeps the glyph alone. */
  datatype CharEntry = CharEntry(glyph: string)

  /** A cultural annotation of one glyph. It carries no reading. */
  datatype Annotation = Annotation(
    meaning: string,
    culture: string,
    personality: string,
    combinations: seq<string>)

  /** An ordered pair of glyphs: the leading one and the one that follows. */
  datatype Pair = Pair(lead: string, follow: string)

  /** A recommended two-glyph combination. The translator reads only its
      `chars`; the gloss stored beside them is never used. */
  datatype Recommendation = Recommendation(chars: Pair)

  /** The single-character and the two-character explanation templates. */
  datatype Templates = Templates(singleChar: string, combination: string)

  datatype NameDatabase = NameDatabase(
    transliterationRules: seq<Rule>,
    firstChar: map<string, seq<CharEntry>>,
    secondChar: map<string, seq<CharEntry>>,
    culturalMeanings: map<string, Annotation>,
    forbiddenCombinations: seq<Pair>,
    recommendedCombinations: map<string, seq<Recommendation>>,
    culturalTemplates: Templates)

  /** The translator dereferences the neutral entry of each gender-keyed table
      when the requested gender has none; a database without it would make the
      lookups fail. */
  predicate Valid(db: NameDatabase)
  {
    && "neutral" in db.firstChar
    && "neutral" in db.secondChar
    && "neutral" in db.recommendedCombinations
  }

  /** `transliterationRules`, its properties in the order of the object
      literal, grouped as the source's comments group them. */
  const TransliterationRules: seq<Rule> := VowelRules + SyllableRules + MOnsetRules + JOnsetRules + ClusterRules + EndingRules

  const VowelRules: seq<Rule> := [
    Rule("a", ["安", "艾", "爱", "昂", "奥"]),
    Rule("e", ["埃", "恩", "厄", "尔", "伊"]),
    Rule("i", ["伊", "依", "易", "意", "艺"]),
    Rule("o", ["奥", "欧", "鸥", "澳", "敖"]),
    Rule("u", ["优", "宇", "玉", "育", "瑜"])
  ]

  /** Common syllables. */
  const SyllableRules: seq<Rule> := [
    Rule("an", ["安", "岸", "暗", "昂", "盎"]),
    Rule("en", ["恩", "摁", "嗯"]),
    Rule("in", ["因", "音", "银", "茵", "寅"]),
    Rule("on", ["翁", "旺", "昂"]),
    Rule("un", ["温", "文", "汶", "纹"])
  ]

  /** Consonant onsets, in two blocks: `m`, then `j`. */
  const MOnsetRules: seq<Rule> := [
    Rule("ma", ["马", "玛", "麦", "茉", "梅"]),
    Rule("me", ["梅", "美", "媚", "眉"]),
    Rule("mi", ["米", "密", "蜜", "敏", "明"]),
    Rule("mo", ["莫", "默", "漠", "墨", "慕"]),
    Rule("mu", ["穆", "木", "牧", "慕"])
  ]

  const JOnsetRules: seq<Rule> := [
    Rule("ja", ["佳", "嘉", "家", "加", "珈"]),
    Rule("je", ["杰", "婕", "洁", "捷"]),
    Rule("ji", ["吉", "基", "济", "继", "纪"]),
    Rule("jo", ["乔", "焦", "娇", "佼"]),
    Rule("ju", ["居", "菊", "俊", "君", "钧"])
  ]

  /** More common combinations. */
  const ClusterRules: seq<Rule> := [
    Rule("ch", ["志", "智", "昌", "晨", "辰"]),
    Rule("th", ["思", "斯", "司", "泰", "廷"]),
    Rule("ph", ["菲", "芬", "凤", "芳", "枫"]),
    Rule("sh", ["世", "书", "舒", "诗", "尚"]),
    Rule("wh", ["维", "威", "伟", "卫", "文"])
  ]

  /** Common endings. */
  const EndingRules: seq<Rule> := [
    Rule("ry", ["莉", "丽", "瑞", "蕊", "睿"]),
    Rule("ly", ["莉", "丽", "理", "黎", "俐"]),
    Rule("ny", ["妮", "尼", "倪", "妳", "霓"]),
    Rule("na", ["娜", "纳", "娜", "妮", "楠"])
  ]

  const FirstCharPools: map<string, seq<CharEntry>> := map[
    "masculine" := [
      CharEntry("志"),
      CharEntry("文"),
      CharEntry("俊")
    ],
    "feminine" := [
      CharEntry("雅"),
      CharEntry("婷"),
      CharEntry("美")
    ],
    "neutral" := [
      CharEntry("明"),
      CharEntry("安")
    ]
  ]

  const SecondCharPools: map<string, seq<CharEntry>> := map[
    "masculine" := [
      CharEntry("杰"),
      CharEntry("强")
    ],
    "feminine" := [
      CharEntry("玲"),
      CharEntry("琳")
    ],
    "neutral" := [
      CharEntry("华")
    ]
  ]

  /** `culturalMeanings`: the annotation of each glyph that has one. */
  const CulturalMeanings: map<string, Annotation> := map[
    "明" := MingAnnotation,
    "华" := HuaAnnotation,
    "志" := ZhiAnnotation,
    "文" := WenAnnotation,
    "德" := DeAnnotation,
    "安" := AnAnnotation,
    "龙" := LongAnnotation,
    "雅" := YaAnnotation
  ]

  const MingAnnotation := Annotation("bright, clear, intelligent",
    "Represents wisdom and " + "clarity in Chinese culture",
    "Intelligent and " + "insightful person",
    ["明华", "明月", "明德"])
  const HuaAnnotation := Annotation("splendid, magnificent, China",
    "Often represents Chinese " + "culture and civilization",
    "Cultured and " + "refined character",
    ["华明", "华安", "华龙"])
  const ZhiAnnotation := Annotation("ambition, aspiration",
    "Represents determination " + "and noble goals",
    "Determined and goal-oriented",
    ["志远", "志强", "志华"])
  const WenAnnotation := Annotation("culture, literature, " + "refinement",
    "Symbolizes education and " + "cultural accomplishment",
    "Scholarly and cultured",
    ["文华", "文德", "文明"])
  const DeAnnotation := Annotation("virtue, morality",
    "Embodies traditional " + "Chinese virtues",
    "Virtuous and ethical",
    ["德明", "德华", "德志"])
  const AnAnnotation := Annotation("peace, tranquility, " + "contentment",
    "Represents stability and " + "serenity in Chinese culture",
    "Peaceful, stable, " + "and reliable character",
    ["安然", "安宁", "安康", "安泰"])
  const LongAnnotation := Annotation("dragon",
    "Symbol of power, strength, " + "and good fortune " + "in Chinese culture",
    "Strong, ambitious, " + "and successful",
    ["华龙", "明龙", "天龙"])
  const YaAnnotation := Annotation("elegant, refined, graceful",
    "Embodies classical " + "Chinese aesthetics",
    "Cultured and sophisticated",
    ["雅致", "雅韵", "雅婷", "雅芝"])

  /** Pairs that must not appear adjacent because their joint meaning is inauspicious. */
  const ForbiddenCombinations: seq<Pair> := [
    Pair("死", "亡"),
    Pair("亡", "命"),
    Pair("绝", "望"),
    Pair("哀", "伤"),
    Pair("病", "痛"),
    Pair("灾", "祸")
  ]

  const RecommendedCombinations: map<string, seq<Recommendation>> := map[
    "masculine" := [
      Recommendation(Pair("志", "华")),
      Recommendation(Pair("文", "杰"))
    ],
    "feminine" := [
      Recommendation(Pair("雅", "琳")),
      Recommendation(Pair("婷", "玲"))
    ],
    "neutral" := [
      Recommendation(Pair("安", "华"))
    ]
  ]

  /** The single-character explanation template. The sentence is the
      original one; each `{slot}` is written as a literal of its own so that
      the text between the slots can be named, and a long stretch of text
      between two slots is written in parenthesised pieces. */
  const SingleCharFormat :=
    "{char}" + "(" + "{pinyin}" + ") means '" + "{meaning}" + "'. In Chinese culture, it " + "{culture}"
    + (". People with this " + "character in their name " + "often show ") + "{personality}" + " traits."

  /** The two-character explanation template, slots set apart in the same way. */
  const CombinationFormat :=
    "The name " + "{name}" + " combines " + "{char1}" + "(" + "{meaning1}" + ") and " + "{char2}" + "("
    + "{meaning2}" + "), suggesting " + "{overall_meaning}" + ". This name reflects " + "{cultural_value}"
    + (" in Chinese culture " + "and implies a personality " + "that is ") + "{personality_traits}" + "."

  const Database := NameDatabase(
    TransliterationRules,
    FirstCharPools,
    SecondCharPools,
    CulturalMeanings,
    ForbiddenCombinations,
    RecommendedCombinations,
    Templates(SingleCharFormat, CombinationFormat))
}
