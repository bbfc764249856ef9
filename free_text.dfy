/** The free-text path of the recommendation route (`parseFromText`): the five
    `【Section】` sections of the answer are cut out and each is read by its own matcher.
    The section pattern is built from a template literal, where `\s` and `\S` are not
    escapes and collapse to the letters `s` and `S`. `ParseFromText` runs that pattern as
    compiled (`GetSectionAsWritten`); `FromText` is the same path with the intended
    pattern (`Recommend.GetSection`), the corrected text path. */
module FreeText {
  import opened Wrappers
  import opened Text
  import opened Recommend

  const CoreName := "核心结论：开运守护石"
  const FateName := "命理格局"
  const PsychoName := "深度心理行为分析"
  const AdviceName := "专属转运建议"
  const MaterialName := "首饰定案与材质解读"

  // ---------------------------------------------------------------------------------
  // The record built from the five section strings

  /** What `parseFromText` returns once the sections are cut out. */
  function TextRecord(core: string, fate: string, psycho: string, advice: string, material: string): (r: Recommendation)
    ensures r.personality == "" && r.transportationAdvice == "" && r.jewelryDecision == material
    ensures r.elements == Displays(r.elementsItems) && |r.elementsItems| <= 3
    ensures Aliased(r.psychologicalAnalysis)
    ensures CleanTags(r.coreConclusion.tags)
  {
    var items := FateItems(fate);
    Recommendation(
      CoreConclusion(TagsOf(core), LabelValue(core, "一句话点睛"), LabelValue(core, "守护石名")),
      "", Displays(items), items,
      Psychology(LabelValue(psycho, "表面"), LabelValue(psycho, "内核"), LabelValue(psycho, "真相")),
      AdviceBlocks(AdviceLines(advice)), "", material)
  }

  /** The corrected text path: the record read from the sections as they are meant to be
      cut. */
  function FromText(text: string): Recommendation {
    TextRecord(GetSection(text, CoreName), GetSection(text, FateName), GetSection(text, PsychoName),
               GetSection(text, AdviceName), GetSection(text, MaterialName))
  }

  /** `parseFromText` as written: the sections are cut by the compiled pattern, the field
      matchers are expressions, and the advice blocks are built by the loop of
      `ParseAdvice`. */
  method ParseFromText(text: string) returns (r: Recommendation)
    ensures r == FromTextAsWritten(text)
  {
    var core := GetSectionAsWritten(text, CoreName);
    var fate := GetSectionAsWritten(text, FateName);
    var psycho := GetSectionAsWritten(text, PsychoName);
    var advice := GetSectionAsWritten(text, AdviceName);
    var material := GetSectionAsWritten(text, MaterialName);
    var items := FateItems(fate);
    var recs := ParseAdvice(AdviceLines(advice));
    r := Recommendation(
      CoreConclusion(TagsOf(core), LabelValue(core, "一句话点睛"), LabelValue(core, "守护石名")),
      "", Displays(items), items,
      Psychology(LabelValue(psycho, "表面"), LabelValue(psycho, "内核"), LabelValue(psycho, "真相")),
      recs, "", material);
  }

  /** The element items of the text path are at most three well-formed items, and the
      advice blocks follow the marker lines of the advice section one to one and in order. */
  lemma FromTextShape(text: string)
    ensures var r := FromText(text);
      var lines := AdviceLines(GetSection(text, AdviceName));
      && (forall k :: 0 <= k < |r.elementsItems| ==> WellFormedItem(r.elementsItems[k]))
      && |r.recommendations| == |Filter(lines, IsMarker)|
      && Map(r.recommendations, TitleOf) == Map(Filter(lines, IsMarker), MarkerTitle)
      && Bullets(r.recommendations) == Filter(lines[LeadingBullets(lines, IsMarker)..], Plain(IsMarker))
  {
    var lines := AdviceLines(GetSection(text, AdviceName));
    FateItemsShape(GetSection(text, FateName));
    BlocksTitles(lines, IsMarker, MarkerTitle);
    BlocksBullets(lines, IsMarker, MarkerTitle);
  }

  /** A text without `【` has no sections, and its record is empty throughout. */
  lemma FromTextUnsectioned(text: string)
    requires Avoids(text, '【')
    ensures FromText(text) == EmptyRecord
  {
    NoSection(text, CoreName);
    NoSection(text, FateName);
    NoSection(text, PsychoName);
    NoSection(text, AdviceName);
    NoSection(text, MaterialName);
    EmptySections();
  }

  /** The record of a text whose five sections are all empty. */
  const EmptyRecord := Recommendation(CoreConclusion([], "", ""), "", [], [], Psychology("", "", ""), [], "", "")

  lemma NoSection(text: string, name: string)
    requires Avoids(text, '【')
    ensures GetSection(text, name) == ""
  {
    HeaderShape(name);
    NoHeaderAfter(text, Header(name), 0);
  }

  lemma EmptySections()
    ensures TextRecord("", "", "", "", "") == EmptyRecord
  {
    NoLabel("", "标签", 0);
    NoLabel("", "一句话点睛", 0);
    NoLabel("", "守护石名", 0);
    NoLabel("", "表面", 0);
    NoLabel("", "内核", 0);
    NoLabel("", "真相", 0);
    NoFateLines("");
    NoMarkers("");
  }

  // ---------------------------------------------------------------------------------
  // The section pattern as written: `【name】([sS]*?)(?=\ns*【|$)`

  predicate IsLetterS(c: char) {
    c == 's' || c == 'S'
  }

  /** The lookahead `(?=\ns*【|$)` at `j`. */
  predicate LiteralEnd(t: string, j: nat)
    requires j <= |t|
  {
    j == |t| || (t[j] == '\n' && var e := SkipWhile(t, j + 1, c => c == 's'); e < |t| && t[e] == '【')
  }

  /** The end of the lazy `[sS]*?` started at `j`: the first position, reached over letters
      `s` and `S` only, where the lookahead holds; none if a different character comes first. */
  function LazyLetters(t: string, j: nat): (e: Option<nat>)
    requires j <= |t|
    ensures e.Some? ==> j <= e.value <= |t| && LiteralEnd(t, e.value)
    ensures e.Some? ==> forall i :: j <= i < e.value ==> IsLetterS(t[i])
    decreases |t| - j
  {
    if LiteralEnd(t, j) then Some(j)
    else if j < |t| && IsLetterS(t[j]) then LazyLetters(t, j + 1)
    else None
  }

  /** The bounds of the group of the leftmost match at or after `p`: each occurrence of the
      header is tried in turn. */
  function LiteralMatchFrom(t: string, h: string, p: nat): (r: Option<(nat, nat)>)
    requires p <= |t|
    ensures r.Some? ==> r.value.0 <= r.value.1 <= |t|
    ensures r.Some? ==> forall i :: r.value.0 <= i < r.value.1 ==> IsLetterS(t[i])
    decreases |t| - p
  {
    match FindFrom(t, h, p)
    case None => None
    case Some(i) =>
      match LazyLetters(t, i + |h|)
      case Some(e) => Some((i + |h|, e))
      case None => if i < |t| then LiteralMatchFrom(t, h, i + 1) else None
  }

  /** `getSection` as the compiled pattern behaves: whatever it returns is made of the
      letters `s` and `S` only. */
  function GetSectionAsWritten(t: string, name: string): (r: string)
    ensures forall i :: 0 <= i < |r| ==> IsLetterS(r[i])
  {
    match LiteralMatchFrom(t, Header(name), 0)
    case Some((a, e)) =>
      TrimChars(t[a..e], IsLetterS);
      Trim(t[a..e])
    case None => ""
  }

  function FromTextAsWritten(text: string): Recommendation {
    TextRecord(GetSectionAsWritten(text, CoreName), GetSectionAsWritten(text, FateName),
               GetSectionAsWritten(text, PsychoName), GetSectionAsWritten(text, AdviceName),
               GetSectionAsWritten(text, MaterialName))
  }

  /** As written, too, a text without `【` has no sections and gives the empty record. */
  lemma AsWrittenUnsectioned(text: string)
    requires Avoids(text, '【')
    ensures FromTextAsWritten(text) == EmptyRecord
  {
    NoSectionAsWritten(text, CoreName);
    NoSectionAsWritten(text, FateName);
    NoSectionAsWritten(text, PsychoName);
    NoSectionAsWritten(text, AdviceName);
    NoSectionAsWritten(text, MaterialName);
    EmptySections();
  }

  lemma NoSectionAsWritten(text: string, name: string)
    requires Avoids(text, '【')
    ensures GetSectionAsWritten(text, name) == ""
  {
    HeaderShape(name);
    NoHeaderAfter(text, Header(name), 0);
  }

  /** A fate section opened by the only `【` of the text and followed by a line break: the
      corrected path reads its element lines, the path as written reads none. */
  lemma FateSectionLost(pre: string, body: string)
    requires '【' !in pre && '【' !in body
    requires body != [] && !IsLetterS(body[0]) && !IsSpace(body[|body| - 1])
    ensures FromTextAsWritten(pre + Header(FateName) + body).elementsItems == []
    ensures FromText(pre + Header(FateName) + body).elementsItems == FateItems(Trim(body))
  {
    SectionLost(pre, FateName, body);
    AsWrittenLosesEverything(pre + Header(FateName) + body);
  }

  predicate Letters(s: string) {
    forall i :: 0 <= i < |s| ==> IsLetterS(s[i])
  }

  /** With the pattern as written every field of the text path is empty, whatever the
      text: the labels, glyphs, element characters and the `推荐` marker cannot occur in a
      run of `s` and `S`. Only the material explanation can be non-empty, and then it is
      such a run. */
  lemma AsWrittenLosesEverything(text: string)
    ensures var r := FromTextAsWritten(text);
      && r.coreConclusion == CoreConclusion([], "", "")
      && r.elements == [] && r.elementsItems == []
      && r.psychologicalAnalysis == Psychology("", "", "")
      && r.recommendations == []
      && Letters(r.jewelryDecision)
  {
    var core := GetSectionAsWritten(text, CoreName);
    var psycho := GetSectionAsWritten(text, PsychoName);
    NoLabel(core, "标签", 0);
    NoLabel(core, "一句话点睛", 0);
    NoLabel(core, "守护石名", 0);
    NoLabel(psycho, "表面", 0);
    NoLabel(psycho, "内核", 0);
    NoLabel(psycho, "真相", 0);
    NoFateLines(GetSectionAsWritten(text, FateName));
    NoMarkers(GetSectionAsWritten(text, AdviceName));
  }

  /** A key that does not start with `s` or `S` never matches inside a run of them. */
  lemma {:induction false} NoLabel(s: string, key: string, i: nat)
    requires i <= |s| && Letters(s) && key != [] && !IsLetterS(key[0])
    ensures MatchLabelFrom(s, key, i).None?
    decreases |s| - i
  {
    if i + |key| + 1 <= |s| {
      assert s[i..i + |key|][0] == s[i];
      NoLabel(s, key, i + 1);
    }
  }

  /** Every trimmed line of a run of letters is a run of letters. */
  lemma TrimmedLines(s: string)
    requires Letters(s)
    ensures forall k :: 0 <= k < |Map(Lines(s), Trim)| ==> Letters(Map(Lines(s), Trim)[k])
  {
    SplitChars(s, IsNewline, IsLetterS);
    forall k | 0 <= k < |Lines(s)|
      ensures Letters(Trim(Lines(s)[k]))
    {
      TrimChars(Lines(s)[k], IsLetterS);
    }
  }

  lemma NoFateLines(fate: string)
    requires Letters(fate)
    ensures FateItems(fate) == []
  {
    var ls := Map(Lines(fate), Trim);
    TrimmedLines(fate);
    forall k | 0 <= k < |ls|
      ensures !IsFateLine(ls[k])
    {
      LettersNotFateLine(ls[k]);
    }
    FilterNone(ls, IsFateLine);
  }

  lemma LettersNotFateLine(l: string)
    requires Letters(l)
    ensures !IsFateLine(l)
  {
    if l != [] {
      assert IsLetterS(l[0]);
    }
  }

  lemma NoMarkers(advice: string)
    requires Letters(advice)
    ensures AdviceBlocks(AdviceLines(advice)) == []
  {
    var ls := Map(Lines(advice), Trim);
    TrimmedLines(advice);
    var lines := AdviceLines(advice);
    forall k | 0 <= k < |lines|
      ensures !IsMarker(lines[k])
    {
      assert lines[k] in ls;
      LettersNotMarker(lines[k]);
    }
    BlocksPreamble(lines, [], IsMarker, MarkerTitle);
    assert lines + [] == lines;
  }

  lemma LettersNotMarker(l: string)
    requires Letters(l)
    ensures !IsMarker(l)
  {
    var a := SkipWhile(l, 0, IsLeadChar);
    if a < |l| {
      assert IsLetterS(l[a]);
    }
  }

  /** A section whose header is the only `【` of the text and whose body starts with a
      character other than `s` and `S` (for instance the line break after the header) is
      lost by the pattern as written, while the intended pattern returns the trimmed body. */
  lemma SectionLost(pre: string, name: string, body: string)
    requires '【' !in pre && '【' !in name && '【' !in body
    requires body != [] && !IsLetterS(body[0]) && !IsSpace(body[|body| - 1])
    ensures GetSectionAsWritten(pre + Header(name) + body, name) == ""
    ensures GetSection(pre + Header(name) + body, name) == Trim(body)
  {
    var h := Header(name);
    var t := pre + h + body;
    HeaderShape(name);
    HeaderBrackets(name);
    assert t == pre + h + body + "";
    LayoutHeader(pre, h, body, "");
    LayoutBody(pre, h, body, "");
    LayoutPrefix(pre, h, body, "");
    LayoutBodySlice(pre, h, body, "");
    OnlyBracket(t, h, |pre|, |body|);
    LiteralLostAt(t, h, |pre|);
    SectionRoundTrip(pre, name, body, "");
  }

  lemma HeaderBrackets(name: string)
    requires '【' !in name
    ensures forall i :: 1 <= i < |Header(name)| ==> Header(name)[i] != '【'
  {
    assert forall i :: 1 <= i < |Header(name)| - 1 ==> Header(name)[i] == name[i - 1];
  }

  /** The positions of a header, a body and what precedes them hold no further `【`. */
  lemma OnlyBracket(t: string, h: string, p: nat, n: nat)
    requires p + |h| + n == |t| && HeaderAt(t, h, p)
    requires forall i :: 1 <= i < |h| ==> h[i] != '【'
    requires forall i :: 0 <= i < p ==> t[i] != '【'
    requires forall i :: p + |h| <= i < p + |h| + n ==> t[i] != '【'
    ensures forall i :: 0 <= i < |t| && i != p ==> t[i] != '【'
  {
    forall i | p < i < p + |h|
      ensures t[i] != '【'
    {
      assert t[i] == t[p..p + |h|][i - p];
    }
  }

  /** When the header at `p` is the only `【` and the character after it is neither `s`
      nor `S`, no match exists: the lazy group cannot move past that character, and the
      lookahead cannot hold before it. */
  lemma LiteralLostAt(t: string, h: string, p: nat)
    requires h != [] && h[0] == '【' && HeaderAt(t, h, p) && p + |h| < |t|
    requires forall i :: 0 <= i < |t| && i != p ==> t[i] != '【'
    requires !IsLetterS(t[p + |h|])
    ensures LiteralMatchFrom(t, h, 0).None?
  {
    NoHeaderBefore(t, h, p);
    FindFromExact(t, h, 0, p);
    var q := p + |h|;
    if t[q] == '\n' {
      var e := SkipWhile(t, q + 1, c => c == 's');
      assert e < |t| ==> t[e] != '【';
    }
    assert LazyLetters(t, q).None?;
    NoHeaderAfter(t, h, p + 1);
  }

  /** No header starts after the last `【`. */
  lemma NoHeaderAfter(t: string, h: string, p: nat)
    requires p <= |t| && h != [] && h[0] == '【'
    requires forall i :: p <= i < |t| ==> t[i] != '【'
    ensures FindFrom(t, h, p).None?
  {
    forall i | p <= i <= |t| && i + |h| <= |t|
      ensures t[i..i + |h|][0] == t[i]
    {
    }
  }
}
