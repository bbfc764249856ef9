/** What the result page shows for a recommendation: every field falls back to a fixed or
    templated text when it is empty, the tags and the one-line insight fall back to the
    tables for the chosen direction, and the advice and jewellery texts are cut into
    paragraphs at line breaks, blank lines dropped. */
module ResultView {
  import opened Text

  /** The recommendation as the page receives it; a missing text reads as `""`, which
      `||` and the ternary treat alike. */
  datatype PageCore = PageCore(tags: seq<string>, insight: string)

  datatype PagePsychology = PagePsychology(currentState: string, personalityDuality: string, logicConnection: string)

  datatype PageRecommendation = PageRecommendation(
    coreConclusion: PageCore,
    personality: string,
    fatePattern: string,
    psychologicalAnalysis: PagePsychology,
    transportationAdvice: string,
    jewelryDecision: string)

  /** The texts and lists the page renders. */
  datatype Shown = Shown(
    tags: seq<string>,
    insight: string,
    personality: string,
    fatePattern: string,
    currentState: string,
    personalityDuality: string,
    logicConnection: string,
    adviceParagraphs: seq<string>,
    jewelryParagraphs: seq<string>)

  const Directions: seq<string> := ["姻缘", "事业", "财运", "健康", "人际关系", "学业"]

  const TagTable: seq<seq<string>> := [
    ["温润如玉", "情比金坚", "心心相印"],
    ["烈火真金", "步步高升", "运筹帷幄"],
    ["招财进宝", "金玉满堂", "财源广进"],
    ["宁静致远", "身心健康", "平衡和谐"],
    ["左右逢源", "广结善缘", "和衷共济"],
    ["通透智者", "博学多才", "智慧之光"]]

  const FallbackTags: seq<string> := ["开运吉祥", "心想事成", "万事如意"]

  const InsightTable: seq<string> := [
    "执子之手，与子偕老，愿得一人心，白首不相离。",
    "长风破浪会有时，直挂云帆济沧海。",
    "君子爱财，取之有道，用之有度。",
    "身体是革命的本钱，健康是最大的财富。",
    "己欲立而立人，己欲达而达人。",
    "书山有路勤为径，学海无涯苦作舟。"]

  const FallbackInsight := "天行健，君子以自强不息。"

  const DefaultPersonality := "基于您的日干（日主）分析，您具有诚实、厚重、包容的性格特质，但可能略显固执。"

  const DefaultFatePattern := "您的八字组合形成了独特的命理格局，为您带来了先天的优势和挑战。"

  /** The default jewellery text, held clause by clause. */
  const JewelryClauses: seq<string> := [
    "基于您的八字分析和测试结果，", "我们为您推荐的首饰不仅考虑了美观性，", "更注重其与您命理的契合度。",
    "选择适合的材质和款式，", "能够更好地发挥首饰的能量，", "为您带来好运和正能量。"]

  const DefaultJewelry := JewelryClauses[0] + JewelryClauses[1] + JewelryClauses[2] + JewelryClauses[3] + JewelryClauses[4] + JewelryClauses[5]

  /** The position of a direction in the tables, or `-1` for any other string. */
  function DirectionIndex(direction: string): (k: int)
    ensures -1 <= k < |Directions|
    ensures k == -1 ==> forall i :: 0 <= i < |Directions| ==> Directions[i] != direction
    ensures k >= 0 ==> Directions[k] == direction
  {
    if direction == "姻缘" then 0
    else if direction == "事业" then 1
    else if direction == "财运" then 2
    else if direction == "健康" then 3
    else if direction == "人际关系" then 4
    else if direction == "学业" then 5
    else -1
  }

  /** `generateTags`: the direction's three tags, or the three general ones. */
  function GenerateTags(direction: string): (t: seq<string>)
    ensures |t| == 3
    ensures DirectionIndex(direction) >= 0 ==> t == TagTable[DirectionIndex(direction)]
    ensures DirectionIndex(direction) == -1 ==> t == FallbackTags
  {
    var k := DirectionIndex(direction);
    if k >= 0 then TagTable[k] else FallbackTags
  }

  /** `generateInsight`: the direction's line, or the general one. */
  function GenerateInsight(direction: string): (s: string)
    ensures s != ""
    ensures DirectionIndex(direction) >= 0 ==> s == InsightTable[DirectionIndex(direction)]
    ensures DirectionIndex(direction) == -1 ==> s == FallbackInsight
  {
    var k := DirectionIndex(direction);
    if k >= 0 then InsightTable[k] else FallbackInsight
  }

  /** The general tags and the general line are given exactly for the strings that name
      none of the six directions: no direction's own entry coincides with them. */
  lemma FallbackExactlyForUnknown(direction: string)
    ensures GenerateTags(direction) == FallbackTags <==> DirectionIndex(direction) == -1
    ensures GenerateInsight(direction) == FallbackInsight <==> DirectionIndex(direction) == -1
  {
    var k := DirectionIndex(direction);
    if k >= 0 {
      assert TagTable[k][0] != FallbackTags[0];
      assert InsightTable[k][0] != FallbackInsight[0];
    }
  }

  /** Two directions never share their tags or their line. */
  lemma TablesDistinct(d1: string, d2: string)
    requires DirectionIndex(d1) >= 0 && DirectionIndex(d2) >= 0 && d1 != d2
    ensures GenerateTags(d1) != GenerateTags(d2)
    ensures GenerateInsight(d1) != GenerateInsight(d2)
  {
    var i, j := DirectionIndex(d1), DirectionIndex(d2);
    assert i != j;
    assert TagTable[i][0] != TagTable[j][0];
    assert InsightTable[i][0] != InsightTable[j][0];
  }

  /** `x || d` on strings. */
  function Or(x: string, d: string): string {
    if x != "" then x else d
  }

  /** `p.trim() !== ''`. */
  predicate NotBlank(p: string) {
    Trim(p) != ""
  }

  /** `text.split('\n').filter(p => p.trim() !== '')`. */
  function Paragraphs(text: string): (ps: seq<string>)
    ensures forall k :: 0 <= k < |ps| ==> NotBlank(ps[k]) && OneLine(ps[k])
  {
    LinesOneLine(text);
    FilterPreserves(Lines(text), NotBlank, OneLine);
    Filter(Lines(text), NotBlank)
  }

  /** Paragraphs without line breaks, none of them blank, joined by line breaks are read
      back unchanged: untrimmed, in order, none lost. */
  lemma ParagraphsRoundTrip(ps: seq<string>)
    requires ps != []
    requires forall k :: 0 <= k < |ps| ==> NotBlank(ps[k]) && OneLine(ps[k])
    ensures Paragraphs(Join(ps, "\n")) == ps
  {
    JoinSplit(ps, '\n', IsNewline);
    FilterAll(ps, NotBlank);
  }

  /** A text that is blank throughout has no paragraphs. */
  lemma BlankHasNoParagraphs(text: string)
    requires Blank(text)
    ensures Paragraphs(text) == []
  {
    var ls := Lines(text);
    SplitChars(text, IsNewline, IsSpace);
    forall k | 0 <= k < |ls|
      ensures !NotBlank(ls[k])
    {
      BlankIffTrimEmpty(ls[k]);
    }
    FilterNone(ls, NotBlank);
  }

  /** The advice paragraphs (`transportationAdvice ? … : []`). */
  function AdviceParagraphs(advice: string): seq<string> {
    if advice != "" then Paragraphs(advice) else []
  }

  /** The ternary changes nothing: an empty text already has no paragraphs. */
  lemma AdviceTernaryRedundant(advice: string)
    ensures AdviceParagraphs(advice) == Paragraphs(advice)
  {
    if advice == "" {
      BlankHasNoParagraphs(advice);
    }
  }

  /** `answers[i] > 10`, false where `answers[i]` is `undefined`. */
  predicate Above10(answers: seq<int>, i: nat) {
    i < |answers| && answers[i] > 10
  }

  function CurrentStateDefault(direction: string): string {
    "基于您的测试结果，您在" + direction + "方面表现出积极的态度和良好的适应能力。"
  }

  /** The duality template: the outward word says `外向活泼` exactly when `answers[0] > 10`,
      the inward word says `传统保守` exactly when `answers[2] > 10`. */
  function DualityDefault(answers: seq<int>): (s: string)
    ensures |s| == 27
    ensures s[9..13] == "外向活泼" <==> Above10(answers, 0)
    ensures s[22..26] == "传统保守" <==> Above10(answers, 2)
  {
    DualityText(if Above10(answers, 0) then "外向活泼" else "内向沉稳", if Above10(answers, 2) then "传统保守" else "创新独特")
  }

  function DualityText(outer: string, inner: string): (s: string)
    requires |outer| == 4 && |inner| == 4
    ensures |s| == 27 && s[9..13] == outer && s[22..26] == inner
  {
    "您的显性性格表现为" + outer + "，而隐性性格则更加" + inner + "。"
  }

  /** The answers the quiz hands over are option indices or `-1`, never above ten, so the
      template always reads the same. */
  lemma QuizAnswersDuality(answers: seq<int>)
    requires forall i :: 0 <= i < |answers| ==> answers[i] <= 10
    ensures DualityDefault(answers) == "您的显性性格表现为内向沉稳，而隐性性格则更加创新独特。"
  {
  }

  function LogicConnectionDefault(direction: string): string {
    "分析显示，您的八字特质与测试结果高度吻合，表明您在" + direction + "方面具有独特的优势。"
  }

  /** Lines 106-114 of the page: each field is its own value when non-empty, its default
      otherwise; the jewellery text is cut into paragraphs after the default is applied. */
  function Show(rec: PageRecommendation, direction: string, answers: seq<int>): (s: Shown)
    ensures s.tags != []
    ensures s.insight != "" && s.personality != "" && s.fatePattern != ""
    ensures s.currentState != "" && s.personalityDuality != "" && s.logicConnection != ""
    ensures |rec.coreConclusion.tags| > 0 <==> s.tags == rec.coreConclusion.tags
    ensures rec.coreConclusion.insight != "" <==> s.insight == rec.coreConclusion.insight
    ensures rec.personality != "" <==> s.personality == rec.personality
    ensures rec.fatePattern != "" <==> s.fatePattern == rec.fatePattern
    ensures rec.psychologicalAnalysis.currentState != "" <==> s.currentState == rec.psychologicalAnalysis.currentState
    ensures rec.psychologicalAnalysis.personalityDuality != "" <==> s.personalityDuality == rec.psychologicalAnalysis.personalityDuality
    ensures rec.psychologicalAnalysis.logicConnection != "" <==> s.logicConnection == rec.psychologicalAnalysis.logicConnection
    ensures rec.coreConclusion.tags == [] ==> s.tags == GenerateTags(direction)
    ensures rec.coreConclusion.insight == "" ==> s.insight == GenerateInsight(direction)
    ensures rec.personality == "" ==> s.personality == DefaultPersonality
    ensures rec.fatePattern == "" ==> s.fatePattern == DefaultFatePattern
    ensures rec.psychologicalAnalysis.currentState == "" ==> s.currentState == CurrentStateDefault(direction)
    ensures rec.psychologicalAnalysis.personalityDuality == "" ==> s.personalityDuality == DualityDefault(answers)
    ensures rec.psychologicalAnalysis.logicConnection == "" ==> s.logicConnection == LogicConnectionDefault(direction)
    ensures s.adviceParagraphs == Paragraphs(rec.transportationAdvice)
    ensures rec.jewelryDecision == "" ==> s.jewelryParagraphs == [DefaultJewelry]
    ensures rec.jewelryDecision != "" ==> s.jewelryParagraphs == Paragraphs(rec.jewelryDecision)
  {
    AdviceTernaryRedundant(rec.transportationAdvice);
    DefaultJewelryParagraph();
    var core := rec.coreConclusion;
    var psy := rec.psychologicalAnalysis;
    Shown(
      if |core.tags| > 0 then core.tags else GenerateTags(direction),
      Or(core.insight, GenerateInsight(direction)),
      Or(rec.personality, DefaultPersonality),
      Or(rec.fatePattern, DefaultFatePattern),
      Or(psy.currentState, CurrentStateDefault(direction)),
      Or(psy.personalityDuality, DualityDefault(answers)),
      Or(psy.logicConnection, LogicConnectionDefault(direction)),
      AdviceParagraphs(rec.transportationAdvice),
      Paragraphs(Or(rec.jewelryDecision, DefaultJewelry)))
  }

  lemma JewelryOneLine()
    ensures OneLine(DefaultJewelry)
  {
    var c := JewelryClauses;
    assert Avoids(c[0], '\n') && Avoids(c[1], '\n') && Avoids(c[2], '\n');
    assert Avoids(c[3], '\n') && Avoids(c[4], '\n') && Avoids(c[5], '\n');
    AvoidsConcat(c[0], c[1], '\n');
    AvoidsConcat(c[0] + c[1], c[2], '\n');
    AvoidsConcat(c[0] + c[1] + c[2], c[3], '\n');
    AvoidsConcat(c[0] + c[1] + c[2] + c[3], c[4], '\n');
    AvoidsConcat(c[0] + c[1] + c[2] + c[3] + c[4], c[5], '\n');
  }

  /** The default jewellery text is a single paragraph. */
  lemma DefaultJewelryParagraph()
    ensures Paragraphs(DefaultJewelry) == [DefaultJewelry]
  {
    JewelryOneLine();
    SplitNoSeparator(DefaultJewelry, IsNewline);
    assert DefaultJewelry[0] == '基';
    assert NotBlank(DefaultJewelry) by {
      BlankIffTrimEmpty(DefaultJewelry);
    }
    FilterAll([DefaultJewelry], NotBlank);
  }

  /** A record with nothing in it shows the direction's tables and the fixed texts, no
      advice paragraphs and the default jewellery paragraph. */
  lemma EmptyRecordShown(direction: string, answers: seq<int>)
    ensures var s := Show(PageRecommendation(PageCore([], ""), "", "", PagePsychology("", "", ""), "", ""), direction, answers);
      && s.tags == GenerateTags(direction) && s.insight == GenerateInsight(direction)
      && s.personality == DefaultPersonality && s.fatePattern == DefaultFatePattern
      && s.currentState == CurrentStateDefault(direction) && s.personalityDuality == DualityDefault(answers)
      && s.logicConnection == LogicConnectionDefault(direction)
      && s.adviceParagraphs == [] && s.jewelryParagraphs == [DefaultJewelry]
  {
    DefaultJewelryParagraph();
  }
}
