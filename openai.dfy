/** The language-model service: the prompt it sends, the summary of the quiz answers
    that goes into it, the canned recommendation it falls back on, and how the provider's
    reply becomes the service's result. The provider itself is a parameter: a function
    from the prompt to its reply. */
module OpenAi {
  import opened Wrappers
  import opened Text
  import opened Calendar
  import opened ModelAnswer

  /** The request body the route hands over. `direction` and `birthday` are only ever
      rendered as text, so they are `None` when absent and otherwise the text they render
      as (`"null"` for a JSON `null`). `answers` is `None` when it is not an array: every
      other JSON value lacks `forEach`, so the call throws before the `try`. */
  datatype UserData = UserData(
    chineseCalendar: Option<CalendarInfo>,
    direction: Option<string>,
    answers: Option<seq<int>>,
    birthday: Option<string>)

  // ---------------------------------------------------------------------------------
  // The answer summary (`analyzeAnswers`)

  const Traits: seq<string> := ["外向活泼、自信果断", "内向沉稳、理性思考", "传统保守、注重实际", "创新独特、追求个性"]

  /** How often option `k` was chosen. */
  function CountOf(answers: seq<int>, k: int): (n: nat)
    ensures n <= |answers|
  {
    if answers == [] then 0
    else CountOf(answers[..|answers| - 1], k) + (if answers[|answers| - 1] == k then 1 else 0)
  }

  function Counts(answers: seq<int>): (c: seq<nat>)
    ensures |c| == 4 && forall k :: 0 <= k < 4 ==> c[k] == CountOf(answers, k)
  {
    [CountOf(answers, 0), CountOf(answers, 1), CountOf(answers, 2), CountOf(answers, 3)]
  }

  /** The entry for option `k`: the trait, the count and `次，`. */
  function Piece(k: nat, count: nat): string
    requires k < 4
  {
    Traits[k] + ": " + NatToString(count) + "次，"
  }

  /** The entries of the options below `n` that were chosen at least once, in order. */
  function Accumulated(counts: seq<nat>, n: nat): string
    requires n <= |counts| <= 4
  {
    if n == 0 then ""
    else Accumulated(counts, n - 1) + (if counts[n - 1] > 0 then Piece(n - 1, counts[n - 1]) else "")
  }

  /** `s.slice(0, -1)`. */
  function DropLast(s: string): (r: string)
    ensures s != [] ==> r + [s[|s| - 1]] == s
    ensures s == [] ==> r == []
  {
    if s == [] then [] else s[..|s| - 1]
  }

  function Analysis(answers: seq<int>): string {
    DropLast(Accumulated(Counts(answers), 4))
  }

  /** `analyzeAnswers`: count each option, then concatenate the entries of the chosen
      options and drop the final `，`. An answer other than 0 to 3 adds no entry: `-1` is
      skipped; a negative or fractional key creates a property that is no array index;
      an index of 4 or more makes the array longer and stores `NaN` there, which the
      second loop visits (holes it skips) and passes over because `NaN > 0` is false. */
  method AnalyzeAnswers(answers: seq<int>) returns (analysis: string)
    ensures analysis == Analysis(answers)
  {
    var optionCounts: seq<nat> := [0, 0, 0, 0];
    for i := 0 to |answers|
      invariant |optionCounts| == 4
      invariant forall k :: 0 <= k < 4 ==> optionCounts[k] == CountOf(answers[..i], k)
    {
      var answer := answers[i];
      assert answers[..i + 1][..i] == answers[..i];
      if answer != -1 && 0 <= answer < 4 {
        optionCounts := optionCounts[answer := optionCounts[answer] + 1];
      }
    }
    assert answers[..|answers|] == answers;
    assert optionCounts == Counts(answers);
    analysis := "";
    for k := 0 to 4
      invariant analysis == Accumulated(optionCounts, k)
    {
      if optionCounts[k] > 0 {
        analysis := analysis + Piece(k, optionCounts[k]);
      }
    }
    analysis := DropLast(analysis);
  }

  predicate IsOption(x: int) {
    0 <= x < 4
  }

  /** The summary is empty exactly when no answer is one of the options 0 to 3 (all
      skipped, or no answers). */
  lemma AnalysisEmptyIff(answers: seq<int>)
    ensures Analysis(answers) == "" <==> forall i :: 0 <= i < |answers| ==> !IsOption(answers[i])
  {
    AccumulatedEmptyIff(Counts(answers), 4);
    AccumulatedShort(Counts(answers), 4);
    forall k | 0 <= k < 4
      ensures CountOf(answers, k) == 0 <==> forall i :: 0 <= i < |answers| ==> answers[i] != k
    {
      CountZeroIff(answers, k);
    }
  }

  lemma {:induction false} CountZeroIff(answers: seq<int>, k: int)
    ensures CountOf(answers, k) == 0 <==> forall i :: 0 <= i < |answers| ==> answers[i] != k
  {
    if answers != [] {
      var init := answers[..|answers| - 1];
      CountZeroIff(init, k);
      assert forall i :: 0 <= i < |init| ==> init[i] == answers[i];
    }
  }

  lemma {:induction false} AccumulatedEmptyIff(counts: seq<nat>, n: nat)
    requires n <= |counts| <= 4
    ensures Accumulated(counts, n) == "" <==> forall k :: 0 <= k < n ==> counts[k] == 0
  {
    if n > 0 {
      AccumulatedEmptyIff(counts, n - 1);
    }
  }

  /** A non-empty concatenation of entries is at least two characters long and ends in `，`. */
  lemma {:induction false} AccumulatedShort(counts: seq<nat>, n: nat)
    requires n <= |counts| <= 4
    ensures Accumulated(counts, n) == "" || (|Accumulated(counts, n)| >= 2 && Accumulated(counts, n)[|Accumulated(counts, n)| - 1] == '，')
  {
    if n > 0 {
      AccumulatedShort(counts, n - 1);
      if counts[n - 1] > 0 {
        var p := Piece(n - 1, counts[n - 1]);
        assert p[|p| - 1] == '，';
      }
    }
  }

  /** A non-empty summary is the chosen options' entries with the last `，` removed. */
  lemma AnalysisDropsComma(answers: seq<int>)
    ensures Analysis(answers) != "" ==> Analysis(answers) + "，" == Accumulated(Counts(answers), 4)
  {
    AccumulatedShort(Counts(answers), 4);
  }

  /** An answer outside 0 to 3 changes nothing. */
  lemma OthersIgnored(answers: seq<int>, x: int)
    requires !IsOption(x)
    ensures Analysis(answers + [x]) == Analysis(answers)
  {
    assert (answers + [x])[..|answers|] == answers;
    assert Counts(answers + [x]) == Counts(answers);
  }

  // ---------------------------------------------------------------------------------
  // The prompt

  /** The lines of the prompt template, its four data lines filled in. */
  function PromptLines(birthday: string, date: string, direction: string, analysis: string): (r: seq<string>)
    ensures |r| == 36
    ensures r[3] == "    1. 生日：" + birthday && r[4] == "    2. 天干地支：" + date
    ensures r[5] == "    3. 关注方向：" + direction && r[6] == "    4. 性格测试答案分布：" + analysis
  {
    ["",
     "    基于以下用户信息，为用户提供详细的首饰推荐分析：",
     "    ",
     "    1. 生日：" + birthday,
     "    2. 天干地支：" + date,
     "    3. 关注方向：" + direction,
     "    4. 性格测试答案分布：" + analysis]
    + PromptTemplate
  }

  /** The template after the data lines, in four parts. */
  const PromptTemplate: seq<string> := TemplateHead + TemplateCore + TemplatePsycho + TemplateTail

  const TemplateHead: seq<string> := [
      "    ",
      "    请按照以下格式提供详细分析，每个部分都要有明确的标题：",
      "    ",
      "    【核心结论：开运守护石】",
      "    推荐关键词标签（3-4个）",
      "    一句话点睛",
      "    ",
      "    【性格画像】"]

  const TemplateCore: seq<string> := [
      "    基于日干（日主）和性格测试结果分析用户的性格特质",
      "    ",
      "    【命理格局】",
      "    基于八字组合分析用户的命理格局，包括先天优势和挑战",
      "    ",
      "    【深度心理行为分析】",
      "    当前状态：基于测试结果分析用户在关注方向的表现"]

  const TemplatePsycho: seq<string> := [
      "    性格双面性：分析显性性格和隐性性格",
      "    逻辑关联：分析八字特质与测试结果的关联",
      "    ",
      "    【专属转运建议】",
      "    个性化的首饰推荐（至少3种）",
      "    每种推荐的详细理由，结合用户的天干地支、关注方向和性格特点",
      "    佩戴建议和注意事项"]

  const TemplateTail: seq<string> := [
      "    ",
      "    【首饰定案与材质解读】",
      "    推荐的首饰定案",
      "    材质解读和能量说明",
      "    ",
      "    分析要详细、专业，语言要温暖、友好。",
      "    "]

  /** The prompt template literal: its lines joined by line breaks; the second data line
      is the calendar's stem, branch, animal and element as `formatChineseDate` writes them. */
  function BuildPrompt(info: CalendarInfo, direction: Option<string>, answers: seq<int>, birthday: Option<string>): string {
    Join(PromptLines(Show(birthday), FormatChineseDate(info), Show(direction), Analysis(answers)), "\n")
  }


  /** Every line of the prompt can be read back when the user's values hold no line break. */
  lemma PromptRoundTrip(info: CalendarInfo, direction: Option<string>, answers: seq<int>, birthday: Option<string>)
    requires OneLine(Show(birthday)) && OneLine(FormatChineseDate(info)) && OneLine(Show(direction))
    ensures Lines(BuildPrompt(info, direction, answers, birthday))
            == PromptLines(Show(birthday), FormatChineseDate(info), Show(direction), Analysis(answers))
  {
    var ls := PromptLines(Show(birthday), FormatChineseDate(info), Show(direction), Analysis(answers));
    AnalysisOneLine(answers);
    PromptLinesOneLine(Show(birthday), FormatChineseDate(info), Show(direction), Analysis(answers));
    JoinSplit(ls, '\n', IsNewline);
  }

  lemma PromptLinesOneLine(b: string, d: string, dir: string, a: string)
    requires OneLine(b) && OneLine(d) && OneLine(dir) && OneLine(a)
    ensures var ls := PromptLines(b, d, dir, a);
      forall k, i :: 0 <= k < |ls| && 0 <= i < |ls[k]| ==> !IsNewline(ls[k][i])
  {
    var ls := PromptLines(b, d, dir, a);
    TemplateOneLine();
    forall k | 0 <= k < |ls|
      ensures OneLine(ls[k])
    {
      if k >= 7 {
        assert ls[k] == PromptTemplate[k - 7];
      } else if k == 3 {
        PrefixedOneLine("    1. 生日：", b);
      } else if k == 4 {
        PrefixedOneLine("    2. 天干地支：", d);
      } else if k == 5 {
        PrefixedOneLine("    3. 关注方向：", dir);
      } else if k == 6 {
        PrefixedOneLine("    4. 性格测试答案分布：", a);
      }
    }
  }

  lemma PrefixedOneLine(head: string, v: string)
    requires OneLine(head) && OneLine(v)
    ensures OneLine(head + v)
  {
    assert forall i :: |head| <= i < |head + v| ==> (head + v)[i] == v[i - |head|];
  }

  lemma TemplateOneLine()
    ensures forall k :: 0 <= k < |PromptTemplate| ==> OneLine(PromptTemplate[k])
  {
    HeadOneLine();
    CoreOneLine();
    PsychoOneLine();
    TailOneLine();
    forall k | 0 <= k < |PromptTemplate|
      ensures OneLine(PromptTemplate[k])
    {
      if k < 8 {
        assert PromptTemplate[k] == TemplateHead[k];
      } else if k < 15 {
        assert PromptTemplate[k] == TemplateCore[k - 8];
      } else if k < 22 {
        assert PromptTemplate[k] == TemplatePsycho[k - 15];
      } else {
        assert PromptTemplate[k] == TemplateTail[k - 22];
      }
    }
  }

  lemma HeadOneLine()
    ensures forall k :: 0 <= k < |TemplateHead| ==> OneLine(TemplateHead[k])
  {
  }

  lemma CoreOneLine()
    ensures forall k :: 0 <= k < |TemplateCore| ==> OneLine(TemplateCore[k])
  {
  }

  lemma PsychoOneLine()
    ensures forall k :: 0 <= k < |TemplatePsycho| ==> OneLine(TemplatePsycho[k])
  {
  }

  lemma TailOneLine()
    ensures forall k :: 0 <= k < |TemplateTail| ==> OneLine(TemplateTail[k])
  {
  }

  lemma AnalysisOneLine(answers: seq<int>)
    ensures OneLine(Analysis(answers))
  {
    AccumulatedOneLine(Counts(answers), 4);
  }

  lemma {:induction false} AccumulatedOneLine(counts: seq<nat>, n: nat)
    requires n <= |counts| <= 4
    ensures OneLine(Accumulated(counts, n))
  {
    if n > 0 {
      AccumulatedOneLine(counts, n - 1);
      if counts[n - 1] > 0 {
        PieceOneLine(n - 1, counts[n - 1]);
        PrefixedOneLine(Accumulated(counts, n - 1), Piece(n - 1, counts[n - 1]));
      }
    }
  }

  lemma PieceOneLine(k: nat, count: nat)
    requires k < 4
    ensures OneLine(Piece(k, count))
  {
    var digits := NatToString(count);
    assert OneLine(digits);
    assert OneLine(Traits[k]);
    PrefixedOneLine(Traits[k], ": ");
    PrefixedOneLine(Traits[k] + ": ", digits);
    PrefixedOneLine(Traits[k] + ": " + digits, "次，");
  }

  // ---------------------------------------------------------------------------------
  // The canned recommendation (`getDefaultRecommendation`)

  /** Three recommended pieces, one per line of the table entry. */
  datatype Triple = Triple(first: string, second: string, third: string)

  /** The table entry as the source writes it: three items separated by line breaks. */
  function Entry(t: Triple): string {
    t.first + "\n" + t.second + "\n" + t.third
  }

  const Platitude := "建议佩戴适合自己的首饰，保持积极乐观的心态。"
  const Prefix := "基于您的信息，推荐以下首饰："
  const WearingAdvice := "佩戴建议：选择适合自己风格的首饰，定期清洁保养，保持积极乐观的心态。"
  const Farewell := "祝您生活愉快，心想事成！"

  /** `recommendations[direction]?.[element] || recommendations[direction]?.['金'] || …`:
      the entry of the direction and the element, else the direction's 金 entry, else the
      platitude. A missing element or direction is the key `undefined`, which the table
      does not have. */
  function BaseRecommendation(direction: Option<string>, element: Option<string>): string {
    var d := direction.GetOr("undefined");
    var e := element.GetOr("undefined");
    if Cell(d, e).Some? then Entry(Cell(d, e).value)
    else if Cell(d, "金").Some? then Entry(Cell(d, "金").value)
    else Platitude
  }

  /** The fixed opening, the base recommendation and the fixed wearing advice and farewell. */
  function DefaultRecommendation(info: CalendarInfo, direction: Option<string>): string {
    Prefix + "\n\n" + BaseRecommendation(direction, info.fiveElement) + "\n\n" + WearingAdvice + "\n\n" + Farewell
  }

  const Directions: set<string> := {"姻缘", "事业", "财运", "健康", "人际关系", "学业"}
  const ElementNames: set<string> := {"木", "火", "土", "金", "水"}

  /** A table item: a non-empty line. */
  predicate Item(s: string) {
    s != "" && OneLine(s)
  }

  predicate Items(t: Triple) {
    Item(t.first) && Item(t.second) && Item(t.third)
  }

  /** No item holds the bracket that opens a section header. */
  predicate Bare(t: Triple) {
    Avoids(t.first, '【') && Avoids(t.second, '【') && Avoids(t.third, '【')
  }

  /** `recommendations[direction]?.[element]`: the table entry, if the direction is one of
      its six keys and the element one of its row's five keys. */
  function Cell(direction: string, element: string): Option<Triple> {
    if direction == "姻缘" then MarriageCell(element)
    else if direction == "事业" then CareerCell(element)
    else if direction == "财运" then WealthCell(element)
    else if direction == "健康" then HealthCell(element)
    else if direction == "人际关系" then RelationsCell(element)
    else if direction == "学业" then StudyCell(element)
    else None
  }

  function MarriageCell(element: string): Option<Triple> {
    if element == "木" then Some(MarriageWood)
    else if element == "火" then Some(MarriageFire)
    else if element == "土" then Some(MarriageEarth)
    else if element == "金" then Some(MarriageMetal)
    else if element == "水" then Some(MarriageWater)
    else None
  }

  function CareerCell(element: string): Option<Triple> {
    if element == "木" then Some(CareerWood)
    else if element == "火" then Some(CareerFire)
    else if element == "土" then Some(CareerEarth)
    else if element == "金" then Some(CareerMetal)
    else if element == "水" then Some(CareerWater)
    else None
  }

  function WealthCell(element: string): Option<Triple> {
    if element == "木" then Some(WealthWood)
    else if element == "火" then Some(WealthFire)
    else if element == "土" then Some(WealthEarth)
    else if element == "金" then Some(WealthMetal)
    else if element == "水" then Some(WealthWater)
    else None
  }

  function HealthCell(element: string): Option<Triple> {
    if element == "木" then Some(HealthWood)
    else if element == "火" then Some(HealthFire)
    else if element == "土" then Some(HealthEarth)
    else if element == "金" then Some(HealthMetal)
    else if element == "水" then Some(HealthWater)
    else None
  }

  function RelationsCell(element: string): Option<Triple> {
    if element == "木" then Some(RelationsWood)
    else if element == "火" then Some(RelationsFire)
    else if element == "土" then Some(RelationsEarth)
    else if element == "金" then Some(RelationsMetal)
    else if element == "水" then Some(RelationsWater)
    else None
  }

  function StudyCell(element: string): Option<Triple> {
    if element == "木" then Some(StudyWood)
    else if element == "火" then Some(StudyFire)
    else if element == "土" then Some(StudyEarth)
    else if element == "金" then Some(StudyMetal)
    else if element == "水" then Some(StudyWater)
    else None
  }

  const MarriageWood := Triple("翡翠项链 - 象征着爱情的纯洁与永恒，有助于增进感情和谐。", "和田玉手镯 - 温润养人，能够稳定感情，促进婚姻美满。", "粉晶手链 - 招桃花，提升异性缘。")
  const MarriageFire := Triple("红宝石戒指 - 热情似火，能够吸引异性缘，增强魅力。", "红玛瑙手串 - 增强自信，提升个人魅力。", "石榴石吊坠 - 促进感情升温。")
  const MarriageEarth := Triple("黄水晶手链 - 稳定感情，促进婚姻美满。", "琥珀项链 - 温和包容，增进人缘。", "和田玉挂件 - 守护感情。")
  const MarriageMetal := Triple("黄金耳环 - 富贵吉祥，提升女性魅力。", "钻石戒指 - 象征永恒的爱情。", "铂金项链 - 高贵典雅。")
  const MarriageWater := Triple("珍珠吊坠 - 温柔典雅，象征着纯洁的爱情。", "海蓝宝石手链 - 平静心灵，改善人际关系。", "月光石戒指 - 增进感情和谐。")

  const CareerWood := Triple("绿幽灵水晶 - 助力事业发展，增强创造力。", "小叶紫檀手串 - 招财纳福，事业有成。", "绿松石吊坠 - 促进人际关系和谐。")
  const CareerFire := Triple("红玛瑙手链 - 增强自信，提升领导力。", "红碧玺吊坠 - 热情奔放，财运亨通。", "太阳石手串 - 增强正能量。")
  const CareerEarth := Triple("黄玉吊坠 - 稳定事业，招财进宝。", "黄水晶聚宝盆 - 聚财招财，财富增长。", "和田玉印章 - 提升权威。")
  const CareerMetal := Triple("钻石胸针 - 象征成功，提升职场地位。", "黄金转运珠 - 转运招财，吉祥如意。", "铂金戒指 - 高贵优雅。")
  const CareerWater := Triple("蓝纹石手串 - 冷静思考，做出明智决策。", "海蓝宝石吊坠 - 增强沟通能力。", "黑曜石手链 - 辟邪化煞。")

  const WealthWood := Triple("小叶紫檀手串 - 招财纳福，事业有成。", "绿幽灵水晶 - 助力事业发展，增强财运。", "黄花梨手串 - 保值增值。")
  const WealthFire := Triple("红碧玺吊坠 - 热情奔放，财运亨通。", "红玛瑙手链 - 增强自信，提升财运。", "太阳石手串 - 增强正能量，吸引财富。")
  const WealthEarth := Triple("黄水晶聚宝盆 - 聚财招财，财富增长。", "黄玉吊坠 - 稳定财运，招财进宝。", "琥珀项链 - 招财纳福。")
  const WealthMetal := Triple("黄金转运珠 - 转运招财，吉祥如意。", "钻石戒指 - 象征财富和成功。", "铂金手链 - 高贵典雅，提升财运。")
  const WealthWater := Triple("黑曜石手链 - 辟邪化煞，招财进宝。", "海蓝宝石吊坠 - 增强沟通能力，促进财运。", "珍珠项链 - 招财纳福。")

  const HealthWood := Triple("沉香手串 - 静心安神，促进身心健康。", "绿松石手链 - 促进身体健康。", "小叶紫檀手串 - 养生保健。")
  const HealthFire := Triple("红珊瑚项链 - 活血养颜，身体健康。", "红玛瑙手链 - 增强活力。", "太阳石手串 - 增强正能量。")
  const HealthEarth := Triple("和田玉手镯 - 温润养人，保健养生。", "琥珀项链 - 缓解压力。", "黄玉吊坠 - 平衡能量。")
  const HealthMetal := Triple("纯银手镯 - 杀菌消炎，促进血液循环。", "黄金手链 - 保健养生。", "铂金戒指 - 高贵典雅。")
  const HealthWater := Triple("珍珠项链 - 美容养颜，延缓衰老。", "海蓝宝石吊坠 - 平静心灵。", "月光石手链 - 促进睡眠。")

  const RelationsWood := Triple("绿松石手链 - 促进人际关系和谐，增强沟通能力。", "小叶紫檀手串 - 提升个人魅力。", "绿幽灵水晶 - 促进人缘。")
  const RelationsFire := Triple("红珊瑚项链 - 热情友好，容易与人相处。", "红玛瑙手链 - 增强自信，提升魅力。", "太阳石手串 - 增强正能量。")
  const RelationsEarth := Triple("琥珀项链 - 温和包容，增进人缘。", "黄玉吊坠 - 平衡人际关系。", "和田玉挂件 - 提升个人魅力。")
  const RelationsMetal := Triple("铂金戒指 - 高贵优雅，提升个人气质。", "黄金耳环 - 富贵吉祥，提升魅力。", "钻石胸针 - 提升个人品味。")
  const RelationsWater := Triple("海蓝宝石吊坠 - 平静心灵，改善人际关系。", "珍珠项链 - 温柔典雅，提升人缘。", "月光石手链 - 增进和谐。")

  const StudyWood := Triple("文昌塔挂件 - 助力学业，增强记忆力。", "绿幽灵水晶 - 增强创造力，提升学习能力。", "绿松石手链 - 促进思维清晰。")
  const StudyFire := Triple("紫水晶吊坠 - 增强智慧，提高学习能力。", "红玛瑙手链 - 增强专注力。", "太阳石手串 - 增强学习动力。")
  const StudyEarth := Triple("黄玉吊坠 - 稳定学习状态，提高效率。", "琥珀项链 - 缓解学习压力。", "和田玉挂件 - 提升专注力。")
  const StudyMetal := Triple("钛钢书签 - 象征知识，提升学习效率。", "黄金转运珠 - 转运提升学业。", "铂金戒指 - 提升学习专注力。")
  const StudyWater := Triple("蓝水晶手串 - 思维清晰，逻辑推理能力强。", "海蓝宝石吊坠 - 增强沟通能力。", "珍珠项链 - 提升学习效率。")

  lemma MarriageRowShape()
    ensures forall e :: MarriageCell(e).Some? <==> e in ElementNames
    ensures forall e :: MarriageCell(e).Some? ==> Items(MarriageCell(e).value) && Bare(MarriageCell(e).value)
  {
    MarriageWoodBare();
    MarriageFireBare();
    MarriageEarthBare();
    MarriageMetalBare();
    MarriageWaterBare();
    MarriageWoodItems();
    MarriageFireItems();
    MarriageEarthItems();
    MarriageMetalItems();
    MarriageWaterItems();
  }

  lemma CareerRowShape()
    ensures forall e :: CareerCell(e).Some? <==> e in ElementNames
    ensures forall e :: CareerCell(e).Some? ==> Items(CareerCell(e).value) && Bare(CareerCell(e).value)
  {
    CareerWoodBare();
    CareerFireBare();
    CareerEarthBare();
    CareerMetalBare();
    CareerWaterBare();
    CareerWoodItems();
    CareerFireItems();
    CareerEarthItems();
    CareerMetalItems();
    CareerWaterItems();
  }

  lemma WealthRowShape()
    ensures forall e :: WealthCell(e).Some? <==> e in ElementNames
    ensures forall e :: WealthCell(e).Some? ==> Items(WealthCell(e).value) && Bare(WealthCell(e).value)
  {
    WealthWoodBare();
    WealthFireBare();
    WealthEarthBare();
    WealthMetalBare();
    WealthWaterBare();
    WealthWoodItems();
    WealthFireItems();
    WealthEarthItems();
    WealthMetalItems();
    WealthWaterItems();
  }

  lemma HealthRowShape()
    ensures forall e :: HealthCell(e).Some? <==> e in ElementNames
    ensures forall e :: HealthCell(e).Some? ==> Items(HealthCell(e).value) && Bare(HealthCell(e).value)
  {
    HealthWoodBare();
    HealthFireBare();
    HealthEarthBare();
    HealthMetalBare();
    HealthWaterBare();
    HealthWoodItems();
    HealthFireItems();
    HealthEarthItems();
    HealthMetalItems();
    HealthWaterItems();
  }

  lemma RelationsRowShape()
    ensures forall e :: RelationsCell(e).Some? <==> e in ElementNames
    ensures forall e :: RelationsCell(e).Some? ==> Items(RelationsCell(e).value) && Bare(RelationsCell(e).value)
  {
    RelationsWoodBare();
    RelationsFireBare();
    RelationsEarthBare();
    RelationsMetalBare();
    RelationsWaterBare();
    RelationsWoodItems();
    RelationsFireItems();
    RelationsEarthItems();
    RelationsMetalItems();
    RelationsWaterItems();
  }

  lemma StudyRowShape()
    ensures forall e :: StudyCell(e).Some? <==> e in ElementNames
    ensures forall e :: StudyCell(e).Some? ==> Items(StudyCell(e).value) && Bare(StudyCell(e).value)
  {
    StudyWoodBare();
    StudyFireBare();
    StudyEarthBare();
    StudyMetalBare();
    StudyWaterBare();
    StudyWoodItems();
    StudyFireItems();
    StudyEarthItems();
    StudyMetalItems();
    StudyWaterItems();
  }

  lemma MarriageWoodItems()
    ensures Items(MarriageWood)
  {
  }

  lemma MarriageFireItems()
    ensures Items(MarriageFire)
  {
  }

  lemma MarriageEarthItems()
    ensures Items(MarriageEarth)
  {
  }

  lemma MarriageMetalItems()
    ensures Items(MarriageMetal)
  {
  }

  lemma MarriageWaterItems()
    ensures Items(MarriageWater)
  {
  }

  lemma CareerWoodItems()
    ensures Items(CareerWood)
  {
  }

  lemma CareerFireItems()
    ensures Items(CareerFire)
  {
  }

  lemma CareerEarthItems()
    ensures Items(CareerEarth)
  {
  }

  lemma CareerMetalItems()
    ensures Items(CareerMetal)
  {
  }

  lemma CareerWaterItems()
    ensures Items(CareerWater)
  {
  }

  lemma WealthWoodItems()
    ensures Items(WealthWood)
  {
  }

  lemma WealthFireItems()
    ensures Items(WealthFire)
  {
  }

  lemma WealthEarthItems()
    ensures Items(WealthEarth)
  {
  }

  lemma WealthMetalItems()
    ensures Items(WealthMetal)
  {
  }

  lemma WealthWaterItems()
    ensures Items(WealthWater)
  {
  }

  lemma HealthWoodItems()
    ensures Items(HealthWood)
  {
  }

  lemma HealthFireItems()
    ensures Items(HealthFire)
  {
  }

  lemma HealthEarthItems()
    ensures Items(HealthEarth)
  {
  }

  lemma HealthMetalItems()
    ensures Items(HealthMetal)
  {
  }

  lemma HealthWaterItems()
    ensures Items(HealthWater)
  {
  }

  lemma RelationsWoodItems()
    ensures Items(RelationsWood)
  {
  }

  lemma RelationsFireItems()
    ensures Items(RelationsFire)
  {
  }

  lemma RelationsEarthItems()
    ensures Items(RelationsEarth)
  {
  }

  lemma RelationsMetalItems()
    ensures Items(RelationsMetal)
  {
  }

  lemma RelationsWaterItems()
    ensures Items(RelationsWater)
  {
  }

  lemma StudyWoodItems()
    ensures Items(StudyWood)
  {
  }

  lemma StudyFireItems()
    ensures Items(StudyFire)
  {
  }

  lemma StudyEarthItems()
    ensures Items(StudyEarth)
  {
  }

  lemma StudyMetalItems()
    ensures Items(StudyMetal)
  {
  }

  lemma StudyWaterItems()
    ensures Items(StudyWater)
  {
  }

  /** The table covers six directions by five elements, and every entry is three items. */
  lemma TableShape(d: string, e: string)
    ensures Cell(d, e).Some? <==> d in Directions && e in ElementNames
    ensures Cell(d, e).Some? ==> Items(Cell(d, e).value) && Bare(Cell(d, e).value)
  {
    if d == "姻缘" {
      MarriageRowShape();
    } else if d == "事业" {
      CareerRowShape();
    } else if d == "财运" {
      WealthRowShape();
    } else if d == "健康" {
      HealthRowShape();
    } else if d == "人际关系" {
      RelationsRowShape();
    } else if d == "学业" {
      StudyRowShape();
    }
  }

  /** The canned text never contains `【`, so it holds no section header. */
  lemma DefaultRecommendationBare(info: CalendarInfo, direction: Option<string>)
    ensures Avoids(DefaultRecommendation(info, direction), '【')
  {
    var base := BaseRecommendation(direction, info.fiveElement);
    BaseRecommendationBare(direction, info.fiveElement);
    FixedBare();
    AvoidsConcat(Prefix, "\n\n", '【');
    AvoidsConcat(Prefix + "\n\n", base, '【');
    AvoidsConcat(Prefix + "\n\n" + base, "\n\n", '【');
    AvoidsConcat(Prefix + "\n\n" + base + "\n\n", WearingAdvice, '【');
    AvoidsConcat(Prefix + "\n\n" + base + "\n\n" + WearingAdvice, "\n\n", '【');
    AvoidsConcat(Prefix + "\n\n" + base + "\n\n" + WearingAdvice + "\n\n", Farewell, '【');
  }

  lemma BaseRecommendationBare(direction: Option<string>, element: Option<string>)
    ensures Avoids(BaseRecommendation(direction, element), '【')
  {
    var d := direction.GetOr("undefined");
    var e := element.GetOr("undefined");
    TableShape(d, e);
    TableShape(d, "金");
    FixedBare();
    if Cell(d, e).Some? {
      EntryBare(Cell(d, e).value);
    } else if Cell(d, "金").Some? {
      EntryBare(Cell(d, "金").value);
    }
  }

  lemma EntryBare(t: Triple)
    requires Bare(t)
    ensures Avoids(Entry(t), '【')
  {
    AvoidsConcat(t.first, "\n", '【');
    AvoidsConcat(t.first + "\n", t.second, '【');
    AvoidsConcat(t.first + "\n" + t.second, "\n", '【');
    AvoidsConcat(t.first + "\n" + t.second + "\n", t.third, '【');
  }

  /** An entry splits back into its three items. */
  lemma EntryLines(t: Triple)
    requires Items(t)
    ensures Lines(Entry(t)) == [t.first, t.second, t.third]
  {
    Join3(t.first, t.second, t.third, "\n");
    JoinSplit([t.first, t.second, t.third], '\n', IsNewline);
  }

  lemma Join3(a: string, b: string, c: string, sep: string)
    ensures Join([a, b, c], sep) == a + sep + b + sep + c
  {
    assert [a, b, c][1..] == [b, c];
    assert [b, c][1..] == [c];
    assert Join([b, c], sep) == b + sep + c;
  }

  /** The three tiers of the lookup: a known direction always finds an entry (its row has
      every element, 金 included), and only an unknown direction gets the platitude. */
  lemma BaseRecommendationTiers(direction: Option<string>, element: Option<string>)
    ensures direction.Some? && direction.value in Directions && element.Some? && element.value in ElementNames ==>
      BaseRecommendation(direction, element) == Entry(Cell(direction.value, element.value).value)
    ensures direction.Some? && direction.value in Directions && !(element.Some? && element.value in ElementNames) ==>
      BaseRecommendation(direction, element) == Entry(Cell(direction.value, "金").value)
    ensures !(direction.Some? && direction.value in Directions) ==> BaseRecommendation(direction, element) == Platitude
  {
    var d := direction.GetOr("undefined");
    TableShape(d, element.GetOr("undefined"));
    TableShape(d, "金");
  }

  /** A known direction gives a base recommendation of three lines, the table entry's items,
      and an unknown one the single line of the platitude. */
  lemma BaseRecommendationLines(direction: Option<string>, element: Option<string>)
    ensures direction.Some? && direction.value in Directions ==>
      var t := if element.Some? && element.value in ElementNames then Cell(direction.value, element.value).value
               else Cell(direction.value, "金").value;
      Lines(BaseRecommendation(direction, element)) == [t.first, t.second, t.third]
    ensures !(direction.Some? && direction.value in Directions) ==> Lines(BaseRecommendation(direction, element)) == [Platitude]
  {
    BaseRecommendationTiers(direction, element);
    if direction.Some? && direction.value in Directions {
      var d := direction.value;
      var e := element.GetOr("undefined");
      TableShape(d, e);
      TableShape(d, "金");
      var t := if element.Some? && element.value in ElementNames then Cell(d, e).value else Cell(d, "金").value;
      EntryLines(t);
    } else {
      FixedOneLine();
      SplitNoSeparator(Platitude, IsNewline);
    }
  }

  /** The canned text line by line: the opening, a blank line, the base recommendation's
      lines, a blank line, the wearing advice, a blank line and the farewell. */
  lemma DefaultRecommendationLines(info: CalendarInfo, direction: Option<string>)
    ensures Lines(DefaultRecommendation(info, direction))
            == [Prefix, ""] + Lines(BaseRecommendation(direction, info.fiveElement)) + ["", WearingAdvice, "", Farewell]
  {
    FixedOneLine();
    FrameLines(Prefix, BaseRecommendation(direction, info.fiveElement), WearingAdvice, Farewell);
  }

  lemma FixedOneLine()
    ensures OneLine(Prefix) && OneLine(WearingAdvice) && OneLine(Farewell) && OneLine(Platitude)
  {
  }

  lemma FixedBare()
    ensures Avoids(Prefix, '【') && Avoids(WearingAdvice, '【') && Avoids(Farewell, '【') && Avoids(Platitude, '【')
  {
  }

  lemma FrameLines(p: string, base: string, w: string, f: string)
    requires OneLine(p) && OneLine(w) && OneLine(f)
    ensures Lines(p + "\n\n" + base + "\n\n" + w + "\n\n" + f) == [p, ""] + Lines(base) + ["", w, "", f]
  {
    var z := [] + ['\n'] + (base + ['\n'] + ([] + ['\n'] + (w + "\n\n" + f)));
    FrameShape(p, base, w, f);
    InnerLines(base, w, f);
    SplitNoSeparator(p, IsNewline);
    SplitAppend(p, '\n', z, IsNewline);
    assert Lines(p + ['\n'] + z) == [p] + ([""] + Lines(base) + ["", w, "", f]);
  }

  lemma InnerLines(base: string, w: string, f: string)
    requires OneLine(w) && OneLine(f)
    ensures Lines([] + ['\n'] + (base + ['\n'] + ([] + ['\n'] + (w + "\n\n" + f)))) == [""] + Lines(base) + ["", w, "", f]
  {
    var tail := w + "\n\n" + f;
    var x := [] + ['\n'] + tail;
    var y := base + ['\n'] + x;
    TailLines(w, f);
    SplitAppend([], '\n', tail, IsNewline);
    assert Lines(x) == ["", w, "", f];
    SplitAppend(base, '\n', x, IsNewline);
    SplitAppend([], '\n', y, IsNewline);
  }

  lemma FrameShape(p: string, base: string, w: string, f: string)
    ensures p + "\n\n" + base + "\n\n" + w + "\n\n" + f
            == p + ['\n'] + ([] + ['\n'] + (base + ['\n'] + ([] + ['\n'] + (w + "\n\n" + f))))
  {
  }

  lemma TailLines(w: string, f: string)
    requires OneLine(w) && OneLine(f)
    ensures Lines(w + "\n\n" + f) == [w, "", f]
  {
    Join3(w, "", f, "\n");
    assert w + "\n" + "" + "\n" + f == w + "\n\n" + f;
    JoinSplit([w, "", f], '\n', IsNewline);
  }

  // ---------------------------------------------------------------------------------
  // The outcomes of `generateJewelryRecommendation`

  /** What the provider call gives: a response with its status and the message content,
      or a failure (network error, the 30-second abort, a body that is not the expected
      JSON). The content is `None` for every falsy value other than the empty string
      (missing, `null`, `0`, `false`, `NaN`), as `Wrappers.Option` says. */
  datatype Reply = Response(status: int, content: Option<ModelResult>) | Failure

  /** The service's result: the value the promise resolves to, or a rejection when the
      prompt cannot be built (no calendar object or no answers array: a `TypeError` thrown
      before the `try`). */
  datatype Outcome = Resolved(result: ModelResult) | Rejected

  const RetryMessage := "生成推荐失败，请重试"

  /** JavaScript truthiness of the content: `None` and the empty string are falsy, every
      other string and every object truthy. */
  predicate Present(c: Option<ModelResult>) {
    c.Some? && c.value != TextResult("")
  }

  function Generate(user: UserData, ask: string -> Reply): Outcome {
    if user.chineseCalendar.None? || user.answers.None? then Rejected
    else
      var info := user.chineseCalendar.value;
      var prompt := BuildPrompt(info, user.direction, user.answers.value, user.birthday);
      var fallback := TextResult(DefaultRecommendation(info, user.direction));
      match ask(prompt)
      case Failure => Resolved(fallback)
      case Response(status, content) =>
        if !(200 <= status < 300) then Resolved(fallback)
        else if Present(content) then Resolved(content.value)
        else Resolved(TextResult(RetryMessage))
  }

  /** A failed or non-ok call gives the canned recommendation, an ok call with empty
      content the retry message, and any other ok call its content unchanged; the provider
      is asked with the prompt built from the user's data. */
  lemma GenerateOutcomes(user: UserData, ask: string -> Reply)
    requires user.chineseCalendar.Some? && user.answers.Some?
    ensures var info := user.chineseCalendar.value;
      var reply := ask(BuildPrompt(info, user.direction, user.answers.value, user.birthday));
      var r := Generate(user, ask);
      && r.Resolved?
      && ((reply.Failure? || !(200 <= reply.status < 300)) ==> r.result == TextResult(DefaultRecommendation(info, user.direction)))
      && (reply.Response? && 200 <= reply.status < 300 && !Present(reply.content) ==> r.result == TextResult(RetryMessage))
      && (reply.Response? && 200 <= reply.status < 300 && Present(reply.content) ==> r.result == reply.content.value)
  {
  }

  /** The service never resolves to empty text. */
  lemma GenerateNeverEmpty(user: UserData, ask: string -> Reply)
    ensures Generate(user, ask).Resolved? ==> Generate(user, ask).result != TextResult("")
  {
  }

  /** The service rejects exactly when the calendar or the answers are missing. */
  lemma GenerateRejects(user: UserData, ask: string -> Reply)
    ensures Generate(user, ask).Rejected? <==> user.chineseCalendar.None? || user.answers.None?
  {
  }

  /** Whenever the answer is not used, the text the service resolves to, the canned
      recommendation or the retry message, holds no `【`. */
  lemma GenerateFallbackBare(user: UserData, ask: string -> Reply)
    requires user.chineseCalendar.Some? && user.answers.Some?
    requires var reply := ask(BuildPrompt(user.chineseCalendar.value, user.direction, user.answers.value, user.birthday));
      reply.Failure? || !(200 <= reply.status < 300) || !Present(reply.content)
    ensures Generate(user, ask).Resolved? && Generate(user, ask).result.TextResult?
    ensures Avoids(Generate(user, ask).result.text, '【')
  {
    GenerateOutcomes(user, ask);
    DefaultRecommendationBare(user.chineseCalendar.value, user.direction);
    RetryMessageBare();
  }

  lemma RetryMessageBare()
    ensures Avoids(RetryMessage, '【')
  {
  }

  lemma MarriageWoodBare()
    ensures Bare(MarriageWood)
  {
  }

  lemma MarriageFireBare()
    ensures Bare(MarriageFire)
  {
  }

  lemma MarriageEarthBare()
    ensures Bare(MarriageEarth)
  {
  }

  lemma MarriageMetalBare()
    ensures Bare(MarriageMetal)
  {
  }

  lemma MarriageWaterBare()
    ensures Bare(MarriageWater)
  {
  }

  lemma CareerWoodBare()
    ensures Bare(CareerWood)
  {
  }

  lemma CareerFireBare()
    ensures Bare(CareerFire)
  {
  }

  lemma CareerEarthBare()
    ensures Bare(CareerEarth)
  {
  }

  lemma CareerMetalBare()
    ensures Bare(CareerMetal)
  {
  }

  lemma CareerWaterBare()
    ensures Bare(CareerWater)
  {
  }

  lemma WealthWoodBare()
    ensures Bare(WealthWood)
  {
  }

  lemma WealthFireBare()
    ensures Bare(WealthFire)
  {
  }

  lemma WealthEarthBare()
    ensures Bare(WealthEarth)
  {
  }

  lemma WealthMetalBare()
    ensures Bare(WealthMetal)
  {
  }

  lemma WealthWaterBare()
    ensures Bare(WealthWater)
  {
  }

  lemma HealthWoodBare()
    ensures Bare(HealthWood)
  {
  }

  lemma HealthFireBare()
    ensures Bare(HealthFire)
  {
  }

  lemma HealthEarthBare()
    ensures Bare(HealthEarth)
  {
  }

  lemma HealthMetalBare()
    ensures Bare(HealthMetal)
  {
  }

  lemma HealthWaterBare()
    ensures Bare(HealthWater)
  {
  }

  lemma RelationsWoodBare()
    ensures Bare(RelationsWood)
  {
  }

  lemma RelationsFireBare()
    ensures Bare(RelationsFire)
  {
  }

  lemma RelationsEarthBare()
    ensures Bare(RelationsEarth)
  {
  }

  lemma RelationsMetalBare()
    ensures Bare(RelationsMetal)
  {
  }

  lemma RelationsWaterBare()
    ensures Bare(RelationsWater)
  {
  }

  lemma StudyWoodBare()
    ensures Bare(StudyWood)
  {
  }

  lemma StudyFireBare()
    ensures Bare(StudyFire)
  {
  }

  lemma StudyEarthBare()
    ensures Bare(StudyEarth)
  {
  }

  lemma StudyMetalBare()
    ensures Bare(StudyMetal)
  {
  }

  lemma StudyWaterBare()
    ensures Bare(StudyWater)
  {
  }
}
