/** What the language model hands back: either free text or an already structured object.
    The object's fields are JSON values of unknown shape; each is modelled by what the
    normaliser can observe of it. A field that `Array.isArray` rejects is `None`; an
    array entry that is `null` is `None`, and reading a property of it throws. The texts
    `summary`, `name`, `analysis`, `scene`, `materialExplanation` and the entries of
    `tags` and `benefits` are held as strings: a truthy value of another type is passed
    on unchanged into the record, which this model does not express. */
module ModelAnswer {
  import opened Wrappers

  datatype CoreStone = CoreStone(name: Option<string>, tags: Option<seq<string>>, summary: Option<string>)

  /** `element` is the field as a template literal renders it (`undefined` when absent,
      `null` for a JSON `null`), which is also the key `emojiMap` is indexed with;
      `analysis` is `None` when falsy. */
  datatype FiveElementEntry = FiveElementEntry(element: string, analysis: Option<string>)

  /** One recommended piece; `benefits` entries may themselves be falsy. */
  datatype StoneAdvice = StoneAdvice(name: Option<string>, benefits: Option<seq<Option<string>>>, scene: Option<string>)

  /** A value passed through `(x || '').trim()`: falsy (`undefined`, `null`, `0`, `false`,
      `''`), a string, or a truthy value that is not a string and so has no `trim`.
      A `personality` that is a string is indexed character by character, which is the
      sequence of its one-character strings. */
  datatype Slot = Falsy | Str(s: string) | NonString

  datatype StructuredAnswer = StructuredAnswer(
    coreStone: Option<CoreStone>,
    fiveElements: Option<seq<Option<FiveElementEntry>>>,
    personality: Option<seq<Slot>>,
    recommendations: Option<seq<Option<StoneAdvice>>>,
    materialExplanation: Option<string>)

  /** The value `generateJewelryRecommendation` resolves to, told apart by `typeof`. */
  datatype ModelResult = TextResult(text: string) | ObjectResult(answer: StructuredAnswer)
}
