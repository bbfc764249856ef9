/** The recommendation route: it turns whatever the language model answered into the
    canonical recommendation record. A structured answer is remapped field by field
    (`transformResult`); free text is cut into `【Section】` sections and each section
    is read by its own small matcher (`parseFromText`). */
module Recommend {
  import opened Wrappers
  import opened Text
  import opened ModelAnswer

  // ---------------------------------------------------------------------------------
  // The canonical record

  datatype ElementItem = ElementItem(emoji: string, title: string, desc: string)

  datatype Advice = Advice(title: string, bullets: seq<string>)

  datatype CoreConclusion = CoreConclusion(tags: seq<string>, insight: string, stone: string)

  /** Three slots under two generations of names: `currentState`, `logicConnection` and
      `personalityDuality` are the older names of `surface`, `innerCore` and `truth`. */
  datatype PsychologicalAnalysis = PsychologicalAnalysis(
    currentState: string,
    personalityDuality: string,
    logicConnection: string,
    surface: string,
    innerCore: string,
    truth: string)

  datatype Recommendation = Recommendation(
    coreConclusion: CoreConclusion,
    personality: string,
    elements: seq<string>,
    elementsItems: seq<ElementItem>,
    psychologicalAnalysis: PsychologicalAnalysis,
    recommendations: seq<Advice>,
    transportationAdvice: string,
    jewelryDecision: string)

  /** Both generations of names carry the same three values. */
  predicate Aliased(p: PsychologicalAnalysis) {
    p.currentState == p.surface && p.logicConnection == p.innerCore && p.personalityDuality == p.truth
  }

  function Psychology(surface: string, innerCore: string, truth: string): (p: PsychologicalAnalysis)
    ensures Aliased(p) && p.surface == surface && p.innerCore == innerCore && p.truth == truth
  {
    PsychologicalAnalysis(surface, truth, innerCore, surface, innerCore, truth)
  }

  /** The display line of an element item: glyph and a space if there is a glyph, the
      title, and ` → ` with the description if there is one. */
  function Display(e: ElementItem): string {
    (if e.emoji != "" then e.emoji + " " else "") + e.title + (if e.desc != "" then " → " + e.desc else "")
  }

  function Displays(items: seq<ElementItem>): (r: seq<string>)
    ensures |r| == |items| && forall i :: 0 <= i < |items| ==> r[i] == Display(items[i])
  {
    Map(items, Display)
  }

  // ---------------------------------------------------------------------------------
  // Structured answers

  const EmojiMap: map<string, string> := map["金" := "⚪", "木" := "🌳", "水" := "💧", "火" := "🔥", "土" := "🪨"]

  /** `emojiMap[fe.element] || ''`. */
  function ElementEmoji(element: string): string {
    if element in EmojiMap then EmojiMap[element] else ""
  }

  function ItemOf(fe: FiveElementEntry): ElementItem {
    ElementItem(ElementEmoji(fe.element), fe.element + "元素", fe.analysis.GetOr(""))
  }

  /** `filter(Boolean)` over values that are strings or falsy. */
  function Truthy(xs: seq<Option<string>>): (r: seq<string>)
    ensures |r| <= |xs|
    ensures forall i :: 0 <= i < |r| ==> r[i] != "" && Some(r[i]) in xs
  {
    if xs == [] then []
    else (if xs[0].Some? && xs[0].value != "" then [xs[0].value] else []) + Truthy(xs[1..])
  }

  lemma {:induction false} TruthyAppend(a: seq<Option<string>>, b: seq<Option<string>>)
    ensures Truthy(a + b) == Truthy(a) + Truthy(b)
  {
    if a == [] {
      assert a + b == b;
    } else {
      assert (a + b)[1..] == a[1..] + b;
      TruthyAppend(a[1..], b);
    }
  }

  function AdviceOf(r: StoneAdvice): Advice {
    Advice(r.name.GetOr(""), Truthy(r.benefits.GetOr([]) + [r.scene]))
  }

  /** `(result?.personality?.[i] || '').trim()`, or `None` when the slot holds a truthy
      value that is not a string, whose missing `trim` throws. */
  function PersonalityAt(p: Option<seq<Slot>>, i: nat): (r: Option<string>)
    ensures r.None? <==> p.Some? && i < |p.value| && p.value[i].NonString?
    ensures r.Some? ==> Trimmed(r.value)
  {
    if p.None? || i >= |p.value| then Some("")
    else match p.value[i]
      case Falsy => Some("")
      case Str(s) => Some(Trim(s))
      case NonString => None
  }

  /** What makes `transformResult` throw a `TypeError`: a `null` entry among the five
      elements (`fe.element`) or the recommendations (`r.name`), or one of the first three
      personality slots holding a truthy value that is not a string (`.trim()`). */
  predicate Throws(a: StructuredAnswer) {
    || (a.fiveElements.Some? && None in a.fiveElements.value)
    || (a.recommendations.Some? && None in a.recommendations.value)
    || PersonalityAt(a.personality, 0).None?
    || PersonalityAt(a.personality, 1).None?
    || PersonalityAt(a.personality, 2).None?
  }

  /** `transformResult`, `None` when it throws. */
  function TransformResult(a: StructuredAnswer): (r: Option<Recommendation>)
    ensures r.None? <==> Throws(a)
    ensures r.Some? ==> var rec := r.value;
      && rec.coreConclusion.tags == (if a.coreStone.Some? && a.coreStone.value.tags.Some? then a.coreStone.value.tags.value else [])
      && rec.coreConclusion.insight == (if a.coreStone.Some? then a.coreStone.value.summary.GetOr("") else "")
      && rec.coreConclusion.stone == (if a.coreStone.Some? then a.coreStone.value.name.GetOr("") else "")
      && rec.personality == "" && rec.transportationAdvice == ""
      && rec.jewelryDecision == a.materialExplanation.GetOr("")
    ensures r.Some? ==> var items := r.value.elementsItems;
      && |items| == (if a.fiveElements.Some? then |a.fiveElements.value| else 0)
      && (forall i :: 0 <= i < |items| ==> a.fiveElements.value[i].Some? && items[i] == ItemOf(a.fiveElements.value[i].value))
      && |r.value.elements| == |items|
      && (forall i :: 0 <= i < |items| ==> r.value.elements[i] == Display(items[i]))
    ensures r.Some? ==> var recs := r.value.recommendations;
      && |recs| == (if a.recommendations.Some? then |a.recommendations.value| else 0)
      && (forall i :: 0 <= i < |recs| ==> a.recommendations.value[i].Some? && recs[i] == AdviceOf(a.recommendations.value[i].value))
    ensures r.Some? ==> var p := r.value.psychologicalAnalysis;
      && Aliased(p)
      && PersonalityAt(a.personality, 0) == Some(p.surface)
      && PersonalityAt(a.personality, 1) == Some(p.innerCore)
      && PersonalityAt(a.personality, 2) == Some(p.truth)
  {
    if Throws(a) then None
    else
      var items := if a.fiveElements.Some? then Map(Values(a.fiveElements.value), ItemOf) else [];
      var recs := if a.recommendations.Some? then Map(Values(a.recommendations.value), AdviceOf) else [];
      var core := match a.coreStone
        case Some(c) => CoreConclusion(c.tags.GetOr([]), c.summary.GetOr(""), c.name.GetOr(""))
        case None => CoreConclusion([], "", "");
      Some(Recommendation(
        core, "", Displays(items), items,
        Psychology(PersonalityAt(a.personality, 0).value, PersonalityAt(a.personality, 1).value,
                   PersonalityAt(a.personality, 2).value),
        recs, "", a.materialExplanation.GetOr("")))
  }

  /** A structured answer throws exactly when a `null` entry or an untrimmable personality
      slot is present; tags, the core stone and the material explanation never make it
      throw, whatever they hold. */
  lemma ThrowsOnlyOnEntries(a: StructuredAnswer, core: Option<CoreStone>, material: Option<string>)
    ensures TransformResult(a).None? <==> TransformResult(a.(coreStone := core, materialExplanation := material)).None?
  {
  }

  /** A single `null` among the five elements makes the whole answer throw, whatever else
      it holds. */
  lemma NullElementThrows(a: StructuredAnswer, i: nat)
    requires a.fiveElements.Some? && i < |a.fiveElements.value| && a.fiveElements.value[i].None?
    ensures TransformResult(a).None?
  {
    assert a.fiveElements.value[i] in a.fiveElements.value;
  }

  /** The element glyph comes from the fixed five-entry map and is empty exactly for an
      element outside 金木水火土; the title is the element as rendered followed by `元素`,
      so a `null` element gives `null元素`. */
  lemma ElementItemSpec(fe: FiveElementEntry)
    ensures var e := ItemOf(fe);
      && (e.emoji == "" <==> fe.element !in {"金", "木", "水", "火", "土"})
      && (fe.element == "金" ==> e.emoji == "⚪")
      && (fe.element == "木" ==> e.emoji == "🌳")
      && (fe.element == "水" ==> e.emoji == "💧")
      && (fe.element == "火" ==> e.emoji == "🔥")
      && (fe.element == "土" ==> e.emoji == "🪨")
      && e.title == fe.element + "元素"
      && e.desc == (if fe.analysis.Some? then fe.analysis.value else "")
  {
  }

  /** The bullets are the present, non-empty benefits in order, followed by the scene if
      it is present and non-empty. */
  lemma {:induction false} AdviceOfSpec(r: StoneAdvice)
    ensures var b := AdviceOf(r).bullets;
      && (forall i :: 0 <= i < |b| ==> b[i] != "")
      && b == Truthy(r.benefits.GetOr([])) + (if r.scene.Some? && r.scene.value != "" then [r.scene.value] else [])
      && AdviceOf(r).title == (if r.name.Some? then r.name.value else "")
  {
    TruthyAppend(r.benefits.GetOr([]), [r.scene]);
    assert [r.scene][1..] == [];
  }

  // ---------------------------------------------------------------------------------
  // Free text: the line matchers

  predicate IsColon(c: char) {
    c == ':' || c == '：'
  }

  /** The first line terminator at or after `j`, or `|s|`. */
  function LineEnd(s: string, j: nat): (e: nat)
    requires j <= |s|
    ensures j <= e <= |s|
  {
    SkipWhile(s, j, c => !IsLineTerminator(c))
  }

  /** The last index in `[j, e)` whose character is not a line terminator. */
  function LastInline(s: string, j: nat, e: nat): (r: Option<nat>)
    requires j <= e <= |s|
    ensures r.Some? ==> j <= r.value < e && !IsLineTerminator(s[r.value])
    ensures r.Some? ==> forall i :: r.value < i < e ==> IsLineTerminator(s[i])
    ensures r.None? ==> forall i :: j <= i < e ==> IsLineTerminator(s[i])
    decreases e - j
  {
    if e == j then None
    else if !IsLineTerminator(s[e - 1]) then Some(e - 1)
    else LastInline(s, j, e - 1)
  }

  /** The group of `\s*(.+)` matched at `j`: greedy white space, then the rest of that
      line; when only white space is left, the backtracking `\s*` hands `.+` the last
      white-space character that is not a line terminator. */
  function CaptureAt(s: string, j: nat): (r: Option<string>)
    requires j <= |s|
    ensures r.Some? ==> r.value != [] && forall i :: 0 <= i < |r.value| ==> !IsLineTerminator(r.value[i])
  {
    var e := SkipWhile(s, j, IsSpace);
    if e < |s| then
      var l := LineEnd(s, e);
      assert l > e by { assert !IsLineTerminator(s[e]); }
      Some(s[e..l])
    else
      match LastInline(s, j, e)
      case Some(k) => Some([s[k]])
      case None => None
  }

  /** The group of the leftmost match of `key[:：]\s*(.+)` at or after `i`. */
  function MatchLabelFrom(s: string, key: string, i: nat): (r: Option<string>)
    requires i <= |s|
    ensures r.Some? ==> r.value != [] && forall k :: 0 <= k < |r.value| ==> !IsLineTerminator(r.value[k])
    decreases |s| - i
  {
    if i + |key| + 1 > |s| then None
    else if s[i..i + |key|] == key && IsColon(s[i + |key|]) && CaptureAt(s, i + |key| + 1).Some? then
      CaptureAt(s, i + |key| + 1)
    else MatchLabelFrom(s, key, i + 1)
  }

  function MatchLabel(s: string, key: string): Option<string> {
    MatchLabelFrom(s, key, 0)
  }

  /** `m ? m[1].trim() : ''` for the match of `key[:：]\s*(.+)`. */
  function LabelValue(s: string, key: string): (r: string)
    ensures MatchLabel(s, key).None? ==> r == ""
  {
    match MatchLabel(s, key)
    case Some(v) => Trim(v)
    case None => ""
  }

  /** A key at the very start of a line-free value reads back the value itself. */
  lemma LabelRoundTrip(key: string, colon: char, v: string, post: string)
    requires IsColon(colon) && v != [] && Trimmed(v)
    requires forall i :: 0 <= i < |v| ==> !IsLineTerminator(v[i])
    requires post == [] || IsLineTerminator(post[0])
    ensures LabelValue(key + [colon] + v + post, key) == v
  {
    LabelRoundTripCapture(key, colon, v, post);
    TrimmedFixed(v);
  }

  predicate IsTagSeparator(c: char) {
    c == '，' || c == ',' || c == '、' || IsSpace(c)
  }

  /** Tags as the splitter leaves them: none empty, none holding a separator. */
  predicate CleanTags(ts: seq<string>) {
    && (forall k :: 0 <= k < |ts| ==> ts[k] != [])
    && (forall k, i :: 0 <= k < |ts| && 0 <= i < |ts[k]| ==> !IsTagSeparator(ts[k][i]))
  }

  /** The tags of the core section: the `标签[:：]` line split on runs of `，`, `,`, `、`
      and white space, empty pieces dropped. */
  function TagsOf(core: string): (r: seq<string>)
    ensures CleanTags(r)
    ensures MatchLabel(core, "标签").None? ==> r == []
  {
    match MatchLabel(core, "标签")
    case Some(v) => Tokens(v, IsTagSeparator)
    case None => []
  }

  /** A `标签` line of joined tags reads back exactly those tags. */
  lemma TagsRoundTrip(ts: seq<string>, colon: char, c: char, post: string)
    requires IsColon(colon) && IsTagSeparator(c) && !IsLineTerminator(c)
    requires ts != [] && CleanTags(ts)
    requires post == [] || IsLineTerminator(post[0])
    ensures TagsOf("标签" + [colon] + Join(ts, [c]) + post) == ts
  {
    var v := Join(ts, [c]);
    JoinChars(ts, [c], (x: char) => !IsLineTerminator(x));
    JoinHead(ts, [c]);
    assert v != [] && v[0] == ts[0][0];
    assert Trimmed(v) by {
      JoinLast(ts, [c]);
    }
    LabelRoundTripCapture("标签", colon, v, post);
    TokensJoin(ts, c, IsTagSeparator);
  }

  /** The capture of a key followed by a line-free value that starts with a non-space
      character is that value. */
  lemma LabelRoundTripCapture(key: string, colon: char, v: string, post: string)
    requires IsColon(colon) && v != [] && !IsSpace(v[0])
    requires forall i :: 0 <= i < |v| ==> !IsLineTerminator(v[i])
    requires post == [] || IsLineTerminator(post[0])
    ensures MatchLabel(key + [colon] + v + post, key) == Some(v)
  {
    var s := key + [colon] + v + post;
    var j := |key| + 1;
    assert s[..|key|] == key && s[|key|] == colon;
    assert s[j..j + |v|] == v;
    assert SkipWhile(s, j, IsSpace) == j;
    var l := LineEnd(s, j);
    assert l == j + |v| by {
      assert forall i :: j <= i < j + |v| ==> !IsLineTerminator(s[i]);
    }
    assert CaptureAt(s, j) == Some(v);
  }

  // ---------------------------------------------------------------------------------
  // Free text: the element lines of the fate section

  predicate IsFateGlyph(c: char) {
    c == '🔥' || c == '💧' || c == '🌳' || c == '🪨'
  }

  /** The first characters that make a line of the fate section an element line. */
  predicate IsFateLeader(c: char) {
    IsFateGlyph(c) || c == '土' || c == '火' || c == '水' || c == '木'
  }

  predicate IsFateLine(l: string) {
    l != [] && IsFateLeader(l[0])
  }

  /** The trimmed lines of the fate section that start with a glyph or an element. */
  function FateLines(fate: string): (r: seq<string>)
    ensures forall k :: 0 <= k < |r| ==> IsFateLine(r[k])
  {
    Filter(Map(Lines(fate), Trim), IsFateLine)
  }

  predicate IsArrow(c: char) {
    c == '→'
  }

  /** The text before and after the first `→`, each trimmed; no arrow, no description. */
  function ReadArrow(rest: string): (r: (string, string))
    ensures Trimmed(r.0) && Trimmed(r.1)
  {
    var parts := Split(rest, IsArrow);
    (Trim(parts[0]), if |parts| > 1 then Trim(parts[1]) else "")
  }

  /** An element line read back: the leading glyph if there is one, then the text before
      and after the first `→` of the rest of the line. */
  function ParseFateLine(l: string): (e: ElementItem)
    ensures e.emoji == "" || (|e.emoji| == 1 && IsFateGlyph(e.emoji[0]))
    ensures Trimmed(e.title) && Trimmed(e.desc)
  {
    var glyph := l != [] && IsFateGlyph(l[0]);
    var rest := if glyph then TrimStart(l[1..]) else l;
    var (title, desc) := ReadArrow(rest);
    ElementItem(if glyph then [l[0]] else "", title, desc)
  }

  /** At most three element items, one per element line, in order (`slice(0, 3)`). */
  function FirstItems(ls: seq<string>): (r: seq<ElementItem>)
    ensures |r| == if |ls| < 3 then |ls| else 3
    ensures forall k :: 0 <= k < |r| ==> r[k] == ParseFateLine(ls[k])
  {
    var n := if |ls| < 3 then |ls| else 3;
    Map(ls[..n], ParseFateLine)
  }

  function FateItems(fate: string): seq<ElementItem> {
    FirstItems(FateLines(fate))
  }

  /** An item as the display line can carry it: a glyph or nothing, trimmed title and
      description without arrows, and a title that cannot be mistaken for a glyph. */
  predicate WellFormedItem(e: ElementItem) {
    && (e.emoji == "" || (|e.emoji| == 1 && IsFateGlyph(e.emoji[0])))
    && Trimmed(e.title) && Trimmed(e.desc)
    && '→' !in e.title && '→' !in e.desc
    && (e.emoji == "" && e.title != [] ==> !IsFateGlyph(e.title[0]))
  }

  /** The part of the display line after the glyph. */
  function DisplayBody(e: ElementItem): string {
    e.title + (if e.desc != "" then " → " + e.desc else "")
  }

  lemma SplitAtArrow(title: string, desc: string)
    requires '→' !in title && '→' !in desc
    ensures Split(title + " → " + desc, IsArrow) == [title + " ", " " + desc]
  {
    SplitAround(title + " ", '→', " " + desc, IsArrow);
    ConcatAssoc(title, " ", ['→']);
    assert title + " " + ['→'] + (" " + desc) == title + " → " + desc;
  }

  lemma SplitLeadingArrow(desc: string)
    requires '→' !in desc
    ensures Split("→ " + desc, IsArrow) == ["", " " + desc]
  {
    SplitAround("", '→', " " + desc, IsArrow);
    assert "" + ['→'] + (" " + desc) == "→ " + desc;
  }

  lemma SplitArrowFree(title: string)
    requires '→' !in title
    ensures Split(title, IsArrow) == [title]
  {
    SplitNoSeparator(title, IsArrow);
  }

  lemma TrimTrailingSpace(x: string)
    requires Trimmed(x)
    ensures Trim(x + " ") == x
  {
    TrimPadding("", x, " ");
    assert "" + x + " " == x + " ";
  }

  lemma TrimLeadingSpace(x: string)
    requires Trimmed(x)
    ensures Trim(" " + x) == x
  {
    TrimPadding(" ", x, "");
    assert " " + x + "" == " " + x;
  }

  lemma ReadArrowTwo(rest: string, a: string, b: string)
    requires Split(rest, IsArrow) == [a, b]
    ensures ReadArrow(rest) == (Trim(a), Trim(b))
  {
  }

  lemma ReadArrowOne(rest: string, a: string)
    requires Split(rest, IsArrow) == [a]
    ensures ReadArrow(rest) == (Trim(a), "")
  {
  }

  lemma ReadArrowTitled(title: string, desc: string)
    requires Trimmed(title) && Trimmed(desc) && '→' !in title && '→' !in desc
    ensures ReadArrow(title + " → " + desc) == (title, desc)
  {
    SplitAtArrow(title, desc);
    ReadArrowTwo(title + " → " + desc, title + " ", " " + desc);
    TrimTrailingSpace(title);
    TrimLeadingSpace(desc);
  }

  lemma ReadArrowPlain(title: string)
    requires Trimmed(title) && '→' !in title
    ensures ReadArrow(title) == (title, "")
  {
    SplitArrowFree(title);
    ReadArrowOne(title, title);
    TrimmedFixed(title);
  }

  /** Without a title the arrow is the first thing after the glyph's white space. */
  lemma ReadArrowUntitled(desc: string)
    requires Trimmed(desc) && '→' !in desc
    ensures ReadArrow("→ " + desc) == ("", desc)
  {
    SplitLeadingArrow(desc);
    ReadArrowTwo("→ " + desc, "", " " + desc);
    TrimLeadingSpace(desc);
  }

  lemma BodyShape(e: ElementItem)
    ensures DisplayBody(e) == if e.desc != "" then e.title + " → " + e.desc else e.title
  {
    if e.desc == "" {
      assert e.title + "" == e.title;
    }
  }

  lemma ReadArrowBody(e: ElementItem)
    requires WellFormedItem(e)
    ensures ReadArrow(DisplayBody(e)) == (e.title, e.desc)
  {
    BodyShape(e);
    if e.desc != "" {
      ReadArrowTitled(e.title, e.desc);
    } else {
      ReadArrowPlain(e.title);
    }
  }

  lemma DisplayShape(e: ElementItem)
    ensures Display(e) == if e.emoji != "" then e.emoji + (" " + DisplayBody(e)) else DisplayBody(e)
  {
    if e.emoji == "" {
      assert "" + DisplayBody(e) == DisplayBody(e);
    }
  }

  /** After a glyph the line is the glyph, a space and the body. */
  lemma GlyphLine(e: ElementItem)
    requires |e.emoji| == 1
    ensures Display(e) != [] && Display(e)[0] == e.emoji[0] && Display(e)[1..] == " " + DisplayBody(e)
    ensures e.emoji == [Display(e)[0]]
  {
    DisplayShape(e);
  }

  lemma ParseGlyphLine(l: string)
    requires l != [] && IsFateGlyph(l[0])
    ensures ParseFateLine(l) == ElementItem([l[0]], ReadArrow(TrimStart(l[1..])).0, ReadArrow(TrimStart(l[1..])).1)
  {
  }

  lemma ParsePlainLine(l: string)
    requires l == [] || !IsFateGlyph(l[0])
    ensures ParseFateLine(l) == ElementItem("", ReadArrow(l).0, ReadArrow(l).1)
  {
  }

  /** What follows the glyph, once its white space is skipped. */
  lemma AfterGlyph(e: ElementItem)
    requires WellFormedItem(e)
    ensures TrimStart(" " + DisplayBody(e)) == if e.title == [] && e.desc != "" then "→ " + e.desc else DisplayBody(e)
  {
    BodyShape(e);
    var body := DisplayBody(e);
    if e.title != [] {
      assert body[0] == e.title[0];
      TrimStartAfterBlank(" ", body);
    } else if e.desc != "" {
      BlankPrefix(body, e.desc);
      TrimStartAfterBlank("  ", "→ " + e.desc);
    } else {
      TrimStartBlank(" ", []);
      assert " " + [] == " ";
    }
  }

  lemma BlankPrefix(body: string, desc: string)
    requires body == [] + " → " + desc
    ensures " " + body == "  " + ("→ " + desc)
  {
  }

  /** Reading an element line back from its display line gives the item again. */
  lemma DisplayRoundTrip(e: ElementItem)
    requires WellFormedItem(e)
    ensures ParseFateLine(Display(e)) == e
  {
    if e.emoji != "" {
      GlyphLine(e);
      ParseGlyphLine(Display(e));
      AfterGlyph(e);
      if e.title == [] && e.desc != "" {
        ReadArrowUntitled(e.desc);
      } else {
        ReadArrowBody(e);
      }
    } else {
      DisplayShape(e);
      BodyShape(e);
      if e.title == [] && e.desc != "" {
        assert DisplayBody(e)[0] == ' ';
      }
      ParsePlainLine(Display(e));
      ReadArrowBody(e);
    }
  }

  /** Every element line's title and description are trimmed and free of arrows, and a
      glyph is taken only from the head of the line. */
  lemma FateItemsShape(fate: string)
    ensures forall k :: 0 <= k < |FateItems(fate)| ==> WellFormedItem(FateItems(fate)[k])
  {
    forall k | 0 <= k < |FateItems(fate)|
      ensures WellFormedItem(FateItems(fate)[k])
    {
      ParseFateLineShape(FateLines(fate)[k]);
    }
  }

  lemma ParseFateLineShape(l: string)
    requires IsFateLine(l)
    ensures WellFormedItem(ParseFateLine(l))
  {
    if IsFateGlyph(l[0]) {
      ParseGlyphLine(l);
      ReadArrowArrowFree(TrimStart(l[1..]));
    } else {
      ParsePlainLine(l);
      ReadArrowArrowFree(l);
      FirstPiece(l);
      TrimHead(Split(l, IsArrow)[0]);
    }
  }

  lemma ReadArrowArrowFree(rest: string)
    ensures '→' !in ReadArrow(rest).0 && '→' !in ReadArrow(rest).1
  {
    var parts := Split(rest, IsArrow);
    TrimChars(parts[0], (c: char) => !IsArrow(c));
    if |parts| > 1 {
      TrimChars(parts[1], (c: char) => !IsArrow(c));
    }
  }

  lemma FirstPiece(l: string)
    requires l != [] && !IsArrow(l[0])
    ensures Split(l, IsArrow)[0] != [] && Split(l, IsArrow)[0][0] == l[0]
  {
  }

  lemma TrimHead(x: string)
    requires x != [] && !IsSpace(x[0])
    ensures Trim(x) != [] && Trim(x)[0] == x[0]
  {
    TrimStartKeeps(x);
  }

  // ---------------------------------------------------------------------------------
  // Free text: the advice section

  /** The trimmed, non-empty lines of the advice section. */
  function AdviceLines(advice: string): (r: seq<string>)
    ensures forall k :: 0 <= k < |r| ==> r[k] != []
  {
    NonEmpty(Map(Lines(advice), Trim))
  }

  predicate IsLeadChar(c: char) {
    c == '-' || c == '•' || IsSpace(c)
  }

  /** The end of the marker `^[-•\s]*推荐\s*\d+[:：]` at the head of `l`, if there is one. */
  function MarkerEnd(l: string): (r: Option<nat>)
    ensures r.Some? ==> 0 < r.value <= |l| && IsColon(l[r.value - 1])
  {
    var a := SkipWhile(l, 0, IsLeadChar);
    if a + 2 <= |l| && l[a] == '推' && l[a + 1] == '荐' then NumberColonEnd(l, a + 2) else None
  }

  /** The end of `\s*\d+[:：]` from `j` on, if it is there. */
  function NumberColonEnd(l: string, j: nat): (r: Option<nat>)
    requires j <= |l|
    ensures r.Some? ==> j < r.value <= |l| && IsColon(l[r.value - 1])
  {
    var b := SkipWhile(l, j, IsSpace);
    var d := SkipWhile(l, b, IsDigit);
    if b < d < |l| && IsColon(l[d]) then Some(d + 1) else None
  }

  predicate IsMarker(l: string) {
    MarkerEnd(l).Some?
  }

  /** The line with its marker and the white space after it removed. */
  function MarkerTitle(l: string): string {
    match MarkerEnd(l)
    case Some(e) => TrimStart(l[e..])
    case None => l
  }

  /** How many lines come before the next line that satisfies `marker`. */
  function LeadingBullets(lines: seq<string>, marker: string -> bool): (n: nat)
    ensures n <= |lines|
    ensures forall i :: 0 <= i < n ==> !marker(lines[i])
    ensures n < |lines| ==> marker(lines[n])
  {
    if lines == [] || marker(lines[0]) then 0 else 1 + LeadingBullets(lines[1..], marker)
  }

  /** The blocks of a list of lines: lines before the first marker line are dropped, and
      each marker line opens a block, titled by `title`, that collects the lines up to the
      next marker line. */
  function Blocks(lines: seq<string>, marker: string -> bool, title: string -> string): seq<Advice>
    decreases |lines|
  {
    if lines == [] then []
    else if !marker(lines[0]) then Blocks(lines[1..], marker, title)
    else
      var n := LeadingBullets(lines[1..], marker);
      [Advice(title(lines[0]), lines[1..1 + n])] + Blocks(lines[1 + n..], marker, title)
  }

  /** The recommendations read from the advice lines. */
  function AdviceBlocks(lines: seq<string>): seq<Advice> {
    Blocks(lines, IsMarker, MarkerTitle)
  }

  function AddBullet(a: Advice, line: string): Advice {
    a.(bullets := a.bullets + [line])
  }

  /** The effect of one more line on a list of blocks: a marker line opens a new block,
      any other line goes to the last block, or is dropped when there is none. */
  function Step(b: seq<Advice>, line: string, isMarker: bool, title: string): seq<Advice> {
    if isMarker then b + [Advice(title, [])]
    else if b == [] then []
    else b[..|b| - 1] + [AddBullet(b[|b| - 1], line)]
  }

  /** The closed blocks followed by the open one. */
  function Close(recs: seq<Advice>, current: Option<Advice>): seq<Advice> {
    recs + if current.Some? then [current.value] else []
  }

  /** The loop over the advice lines: a marker closes the open block and opens a new one,
      any other line is added to the open block, if there is one. */
  method ParseAdvice(lines: seq<string>) returns (recs: seq<Advice>)
    ensures recs == AdviceBlocks(lines)
  {
    recs := [];
    var current: Option<Advice> := None;
    for i := 0 to |lines|
      invariant current.None? ==> recs == []
      invariant Close(recs, current) == AdviceBlocks(lines[..i])
    {
      var line := lines[i];
      ghost var before := Close(recs, current);
      var marker := IsMarker(line);
      var title := MarkerTitle(line);
      if marker {
        if current.Some? {
          recs := recs + [current.value];
        }
        current := Some(Advice(title, []));
      } else if current.Some? {
        StepBullet(recs, current.value, line);
        current := Some(AddBullet(current.value, line));
      }
      assert Close(recs, current) == Step(before, line, marker, title);
      AdviceBlocksSnoc(lines, i);
    }
    assert lines[..|lines|] == lines;
    recs := Close(recs, current);
  }

  lemma AdviceBlocksSnoc(lines: seq<string>, i: nat)
    requires i < |lines|
    ensures AdviceBlocks(lines[..i + 1]) == Step(AdviceBlocks(lines[..i]), lines[i], IsMarker(lines[i]), MarkerTitle(lines[i]))
  {
    assert lines[..i + 1] == lines[..i] + [lines[i]];
    BlocksSnoc(lines[..i], lines[i], IsMarker, MarkerTitle);
  }

  lemma StepBullet(recs: seq<Advice>, last: Advice, line: string)
    ensures Close(recs, Some(AddBullet(last, line))) == Step(Close(recs, Some(last)), line, false, "")
  {
    var s := recs + [last];
    assert s[..|s| - 1] == recs;
  }

  /** One more line changes the blocks as `Step` says. */
  lemma {:induction false} BlocksSnoc(xs: seq<string>, l: string, marker: string -> bool, title: string -> string)
    ensures Blocks(xs + [l], marker, title) == Step(Blocks(xs, marker, title), l, marker(l), title(l))
    decreases |xs|
  {
    if xs == [] {
      assert xs + [l] == [l];
      OneLine(l, marker, title);
    } else if !marker(xs[0]) {
      BlocksSnoc(xs[1..], l, marker, title);
      SnocSkip(xs, l, marker, title);
    } else {
      var n := LeadingBullets(xs[1..], marker);
      if n < |xs| - 1 {
        var rest := xs[1 + n..];
        BlocksSnoc(rest, l, marker, title);
        SnocInnerStep(xs, n, rest, l, marker, title);
      } else {
        SnocLast(xs, n, l, marker, title);
      }
    }
  }

  /** The inner case of `BlocksSnoc`, given its claim for the lines after the first block. */
  lemma SnocInnerStep(xs: seq<string>, n: nat, rest: seq<string>, l: string, marker: string -> bool, title: string -> string)
    requires xs != [] && marker(xs[0])
    requires n == LeadingBullets(xs[1..], marker) && n < |xs| - 1 && rest == xs[1 + n..]
    requires Blocks(rest + [l], marker, title) == Step(Blocks(rest, marker, title), l, marker(l), title(l))
    ensures Blocks(xs + [l], marker, title) == Step(Blocks(xs, marker, title), l, marker(l), title(l))
  {
    var head := Advice(title(xs[0]), xs[1..1 + n]);
    SnocInner(xs, n, rest, l, marker, title);
    BlocksOfMarker(rest, marker, title);
    StepCons(head, Blocks(rest, marker, title), l, marker(l), title(l));
  }

  /** The case of `BlocksSnoc` where the first line is dropped, given its claim for the rest. */
  lemma SnocSkip(xs: seq<string>, l: string, marker: string -> bool, title: string -> string)
    requires xs != [] && !marker(xs[0])
    requires Blocks(xs[1..] + [l], marker, title) == Step(Blocks(xs[1..], marker, title), l, marker(l), title(l))
    ensures Blocks(xs + [l], marker, title) == Step(Blocks(xs, marker, title), l, marker(l), title(l))
  {
    assert (xs + [l])[1..] == xs[1..] + [l];
  }

  /** A list that starts with a marker line starts with that marker's block. */
  lemma BlocksHead(xs: seq<string>, n: nat, marker: string -> bool, title: string -> string)
    requires xs != [] && marker(xs[0]) && n == LeadingBullets(xs[1..], marker)
    ensures Blocks(xs, marker, title) == [Advice(title(xs[0]), xs[1..1 + n])] + Blocks(xs[1 + n..], marker, title)
  {
  }

  lemma SnocSlices(xs: seq<string>, l: string, n: nat)
    requires n < |xs|
    ensures (xs + [l])[1..] == xs[1..] + [l]
    ensures (xs + [l])[1..1 + n] == xs[1..1 + n]
    ensures (xs + [l])[1 + n..] == xs[1 + n..] + [l]
  {
  }

  /** Adding a line after a block that is followed by another marker leaves that block. */
  lemma SnocInner(xs: seq<string>, n: nat, rest: seq<string>, l: string, marker: string -> bool, title: string -> string)
    requires xs != [] && marker(xs[0])
    requires n == LeadingBullets(xs[1..], marker) && n < |xs| - 1 && rest == xs[1 + n..]
    ensures Blocks(xs, marker, title) == [Advice(title(xs[0]), xs[1..1 + n])] + Blocks(rest, marker, title)
    ensures Blocks(xs + [l], marker, title) == [Advice(title(xs[0]), xs[1..1 + n])] + Blocks(rest + [l], marker, title)
  {
    BlocksHead(xs, n, marker, title);
    SnocLayout(xs, n, l, marker);
    BlocksHeadAt(xs + [l], xs[0], xs[1..1 + n], rest + [l], marker, title);
  }

  /** Where the first block of `xs + [l]` starts and ends, when `xs` has a later marker. */
  lemma SnocLayout(xs: seq<string>, n: nat, l: string, marker: string -> bool)
    requires xs != [] && marker(xs[0])
    requires n == LeadingBullets(xs[1..], marker) && n < |xs| - 1
    ensures (xs + [l])[0] == xs[0] && LeadingBullets((xs + [l])[1..], marker) == n
    ensures (xs + [l])[1..1 + n] == xs[1..1 + n] && (xs + [l])[1 + n..] == xs[1 + n..] + [l]
  {
    SnocSlices(xs, l, n);
    LeadingBulletsSnoc(xs[1..], l, marker);
  }

  /** `BlocksHead` with the head, the block's lines and the rest named. */
  lemma BlocksHeadAt(ys: seq<string>, head: string, body: seq<string>, rest: seq<string>, marker: string -> bool, title: string -> string)
    requires ys != [] && ys[0] == head && marker(head) && LeadingBullets(ys[1..], marker) == |body|
    requires ys[1..1 + |body|] == body && ys[1 + |body|..] == rest
    ensures Blocks(ys, marker, title) == [Advice(title(head), body)] + Blocks(rest, marker, title)
  {
    BlocksHead(ys, |body|, marker, title);
  }

  /** Adding a line after the last block either extends it or opens one more. */
  lemma SnocLast(xs: seq<string>, n: nat, l: string, marker: string -> bool, title: string -> string)
    requires xs != [] && marker(xs[0])
    requires n == LeadingBullets(xs[1..], marker) && n == |xs| - 1
    ensures Blocks(xs + [l], marker, title) == Step(Blocks(xs, marker, title), l, marker(l), title(l))
  {
    var ys := xs[1..];
    LeadingBulletsSnoc(ys, l, marker);
    EndSlices(xs, l);
    var head := Advice(title(xs[0]), ys);
    BlocksHeadAt(xs, xs[0], ys, [], marker, title);
    assert Blocks(xs, marker, title) == [head];
    if marker(l) {
      BlocksHeadAt(xs + [l], xs[0], ys, [l], marker, title);
      OneLine(l, marker, title);
    } else {
      BlocksHeadAt(xs + [l], xs[0], ys + [l], [], marker, title);
      assert [head][..0] == [];
    }
  }

  lemma EndSlices(xs: seq<string>, l: string)
    requires xs != []
    ensures (xs + [l])[0] == xs[0] && (xs + [l])[1..] == xs[1..] + [l]
    ensures xs[1 + (|xs| - 1)..] == [] && xs[1..1 + (|xs| - 1)] == xs[1..]
    ensures (xs + [l])[1..1 + (|xs| - 1)] == xs[1..] && (xs + [l])[1 + (|xs| - 1)..] == [l]
    ensures (xs + [l])[1..1 + |xs|] == xs[1..] + [l] && (xs + [l])[1 + |xs|..] == []
  {
  }

  lemma OneLine(l: string, marker: string -> bool, title: string -> string)
    ensures Blocks([l], marker, title) == if marker(l) then [Advice(title(l), [])] else []
  {
    assert [l][1..] == [];
    if marker(l) {
      assert [l][1..1 + 0] == [];
    }
  }

  /** `Step` acts on the last block only. */
  lemma StepCons(head: Advice, rest: seq<Advice>, l: string, isMarker: bool, title: string)
    requires rest != []
    ensures Step([head] + rest, l, isMarker, title) == [head] + Step(rest, l, isMarker, title)
  {
    if !isMarker {
      var b := [head] + rest;
      assert b[..|b| - 1] == [head] + rest[..|rest| - 1];
    }
  }

  lemma BlocksOfMarker(xs: seq<string>, marker: string -> bool, title: string -> string)
    requires xs != [] && marker(xs[0])
    ensures Blocks(xs, marker, title) != []
  {
  }

  lemma {:induction false} LeadingBulletsSnoc(ys: seq<string>, l: string, marker: string -> bool)
    ensures LeadingBullets(ys + [l], marker) ==
      if LeadingBullets(ys, marker) < |ys| then LeadingBullets(ys, marker)
      else if marker(l) then |ys| else |ys| + 1
  {
    if ys == [] {
      assert ys + [l] == [l];
      assert [l][1..] == [];
    } else {
      assert (ys + [l])[1..] == ys[1..] + [l];
      if !marker(ys[0]) {
        LeadingBulletsSnoc(ys[1..], l, marker);
      }
    }
  }

  function TitleOf(a: Advice): string {
    a.title
  }

  /** There is one block per marker line, in order, titled after that line. */
  lemma {:induction false} BlocksTitles(lines: seq<string>, marker: string -> bool, title: string -> string)
    ensures Map(Blocks(lines, marker, title), TitleOf) == Map(Filter(lines, marker), title)
    ensures |Blocks(lines, marker, title)| == |Filter(lines, marker)|
    decreases |lines|
  {
    if lines != [] {
      if !marker(lines[0]) {
        BlocksTitles(lines[1..], marker, title);
        TitlesSkip(lines, marker, title);
      } else {
        var n := LeadingBullets(lines[1..], marker);
        var rest := lines[1 + n..];
        BlocksTitles(rest, marker, title);
        TitlesHead(lines, n, rest, marker, title);
      }
    }
  }

  /** The case of `BlocksTitles` where the first line is dropped, given its claim for the rest. */
  lemma TitlesSkip(lines: seq<string>, marker: string -> bool, title: string -> string)
    requires lines != [] && !marker(lines[0])
    requires Map(Blocks(lines[1..], marker, title), TitleOf) == Map(Filter(lines[1..], marker), title)
    requires |Blocks(lines[1..], marker, title)| == |Filter(lines[1..], marker)|
    ensures Map(Blocks(lines, marker, title), TitleOf) == Map(Filter(lines, marker), title)
    ensures |Blocks(lines, marker, title)| == |Filter(lines, marker)|
  {
  }

  /** The case of `BlocksTitles` where a block opens, given its claim for the lines after it. */
  lemma TitlesHead(lines: seq<string>, n: nat, rest: seq<string>, marker: string -> bool, title: string -> string)
    requires lines != [] && marker(lines[0])
    requires n == LeadingBullets(lines[1..], marker) && rest == lines[1 + n..]
    requires Map(Blocks(rest, marker, title), TitleOf) == Map(Filter(rest, marker), title)
    requires |Blocks(rest, marker, title)| == |Filter(rest, marker)|
    ensures Map(Blocks(lines, marker, title), TitleOf) == Map(Filter(lines, marker), title)
    ensures |Blocks(lines, marker, title)| == |Filter(lines, marker)|
  {
    var head := Advice(title(lines[0]), lines[1..1 + n]);
    var blocks, kept := Blocks(rest, marker, title), Filter(rest, marker);
    BlocksHead(lines, n, marker, title);
    FilterMarkerHead(lines, n, rest, marker);
    MapAppend([head], blocks, TitleOf);
    MapAppend([lines[0]], kept, title);
    assert Map([head], TitleOf) == Map([lines[0]], title);
  }

  /** The marker lines of a list that starts with a block: its marker, then those after it. */
  lemma FilterMarkerHead(lines: seq<string>, n: nat, rest: seq<string>, marker: string -> bool)
    requires lines != [] && marker(lines[0])
    requires n == LeadingBullets(lines[1..], marker) && rest == lines[1 + n..]
    ensures Filter(lines, marker) == [lines[0]] + Filter(rest, marker)
  {
    var t := lines[1..];
    assert Filter(lines, marker) == [lines[0]] + Filter(t, marker);
    FilterSkip(t, n, marker);
    assert t[n..] == rest;
  }

  /** The lines that are not markers. */
  function Plain(marker: string -> bool): string -> bool {
    x => !marker(x)
  }

  function Bullets(bs: seq<Advice>): seq<string> {
    if bs == [] then [] else bs[0].bullets + Bullets(bs[1..])
  }

  lemma BulletsCons(head: Advice, rest: seq<Advice>)
    ensures Bullets([head] + rest) == head.bullets + Bullets(rest)
  {
    assert ([head] + rest)[1..] == rest;
  }

  /** The bullets of all blocks, in order, are exactly the lines from the first marker on
      that are not markers: no line after the first marker is lost or repeated. */
  lemma {:induction false} BlocksBullets(lines: seq<string>, marker: string -> bool, title: string -> string)
    ensures Bullets(Blocks(lines, marker, title)) == Filter(lines[LeadingBullets(lines, marker)..], Plain(marker))
    decreases |lines|
  {
    if lines == [] {
    } else if !marker(lines[0]) {
      BlocksBullets(lines[1..], marker, title);
      BulletsSkip(lines, marker, title);
    } else {
      var n := LeadingBullets(lines[1..], marker);
      var rest := lines[1 + n..];
      BlocksBullets(rest, marker, title);
      BulletsHead(lines, n, rest, marker, title);
    }
  }

  /** The case of `BlocksBullets` where the first line is dropped, given its claim for the rest. */
  lemma BulletsSkip(lines: seq<string>, marker: string -> bool, title: string -> string)
    requires lines != [] && !marker(lines[0])
    requires Bullets(Blocks(lines[1..], marker, title)) == Filter(lines[1..][LeadingBullets(lines[1..], marker)..], Plain(marker))
    ensures Bullets(Blocks(lines, marker, title)) == Filter(lines[LeadingBullets(lines, marker)..], Plain(marker))
  {
    var k := LeadingBullets(lines[1..], marker);
    assert lines[1 + k..] == lines[1..][k..];
  }

  /** The case of `BlocksBullets` where a block opens, given its claim for the lines after it. */
  lemma BulletsHead(lines: seq<string>, n: nat, rest: seq<string>, marker: string -> bool, title: string -> string)
    requires lines != [] && marker(lines[0])
    requires n == LeadingBullets(lines[1..], marker) && rest == lines[1 + n..]
    requires Bullets(Blocks(rest, marker, title)) == Filter(rest[LeadingBullets(rest, marker)..], Plain(marker))
    ensures Bullets(Blocks(lines, marker, title)) == Filter(lines[LeadingBullets(lines, marker)..], Plain(marker))
  {
    var body := lines[1..1 + n];
    BlocksHead(lines, n, marker, title);
    BulletsCons(Advice(title(lines[0]), body), Blocks(rest, marker, title));
    FromMarker(rest, marker);
    FromMarker(lines, marker);
    FilterPlainHead(lines, n, rest, marker);
  }

  /** A list that is empty or starts with a marker has no leading bullets. */
  lemma FromMarker(lines: seq<string>, marker: string -> bool)
    requires lines == [] || marker(lines[0])
    ensures lines[LeadingBullets(lines, marker)..] == lines
  {
  }

  /** The plain lines of a list that starts with a block: that block's lines, then the
      plain lines after it. */
  lemma FilterPlainHead(lines: seq<string>, n: nat, rest: seq<string>, marker: string -> bool)
    requires lines != [] && marker(lines[0])
    requires n == LeadingBullets(lines[1..], marker) && rest == lines[1 + n..]
    ensures Filter(lines, Plain(marker)) == lines[1..1 + n] + Filter(rest, Plain(marker))
  {
    var t := lines[1..];
    assert Filter(lines, Plain(marker)) == Filter(t, Plain(marker));
    FilterKeep(t, n, Plain(marker));
    TailSlices(lines, n);
  }

  lemma TailSlices(lines: seq<string>, n: nat)
    requires n < |lines|
    ensures lines[1..][..n] == lines[1..1 + n] && lines[1..][n..] == lines[1 + n..]
  {
  }

  /** Lines before the first marker are dropped. */
  lemma {:induction false} BlocksPreamble(pre: seq<string>, rest: seq<string>, marker: string -> bool, title: string -> string)
    requires forall i :: 0 <= i < |pre| ==> !marker(pre[i])
    ensures Blocks(pre + rest, marker, title) == Blocks(rest, marker, title)
  {
    if pre == [] {
      assert pre + rest == rest;
    } else {
      assert (pre + rest)[1..] == pre[1..] + rest;
      BlocksPreamble(pre[1..], rest, marker, title);
    }
  }

  lemma {:induction false} LeadingBulletsExact(body: seq<string>, rest: seq<string>, marker: string -> bool)
    requires forall i :: 0 <= i < |body| ==> !marker(body[i])
    requires rest == [] || marker(rest[0])
    ensures LeadingBullets(body + rest, marker) == |body|
  {
    if body == [] {
      assert body + rest == rest;
    } else {
      assert (body + rest)[1..] == body[1..] + rest;
      LeadingBulletsExact(body[1..], rest, marker);
    }
  }

  /** A marker line followed by plain lines, up to the next marker or the end, is one
      block whose bullets are those lines. */
  lemma BlocksCons(m: string, body: seq<string>, rest: seq<string>, marker: string -> bool, title: string -> string)
    requires marker(m)
    requires forall i :: 0 <= i < |body| ==> !marker(body[i])
    requires rest == [] || marker(rest[0])
    ensures Blocks([m] + body + rest, marker, title) == [Advice(title(m), body)] + Blocks(rest, marker, title)
  {
    ConsLayout(m, body, rest, marker);
    BlocksHeadAt([m] + body + rest, m, body, rest, marker, title);
  }

  lemma ConsLayout(m: string, body: seq<string>, rest: seq<string>, marker: string -> bool)
    requires forall i :: 0 <= i < |body| ==> !marker(body[i])
    requires rest == [] || marker(rest[0])
    ensures var xs := [m] + body + rest;
      && xs != [] && xs[0] == m && LeadingBullets(xs[1..], marker) == |body|
      && xs[1..1 + |body|] == body && xs[1 + |body|..] == rest
  {
    var xs := [m] + body + rest;
    assert xs[1..] == body + rest;
    LeadingBulletsExact(body, rest, marker);
  }

  /** A line made of bullet characters, `推荐`, white space, a number, a colon and a title
      is a marker, and its title is what follows the colon. */
  lemma MarkerRoundTrip(lead: string, gap: string, num: string, colon: char, t: string)
    requires forall i :: 0 <= i < |lead| ==> IsLeadChar(lead[i])
    requires Blank(gap) && num != [] && AllDigits(num) && IsColon(colon)
    requires t == [] || !IsSpace(t[0])
    ensures var l := lead + "推荐" + gap + num + [colon] + t;
      IsMarker(l) && MarkerTitle(l) == t
  {
    var l := lead + "推荐" + gap + num + [colon] + t;
    var d := |lead| + 2 + |gap| + |num|;
    MarkerLayout(lead, gap, num, colon, t);
    MarkerEndAt(l, |lead|, |lead| + 2 + |gap|, d);
    if t != [] {
      TrimStartKeeps(t);
    }
  }

  /** The marker's parts found where they lie. */
  lemma MarkerEndAt(l: string, a: nat, b: nat, d: nat)
    requires a + 2 <= b < d < |l|
    requires forall i :: 0 <= i < a ==> IsLeadChar(l[i])
    requires l[a] == '推' && l[a + 1] == '荐'
    requires forall i :: a + 2 <= i < b ==> IsSpace(l[i])
    requires forall i :: b <= i < d ==> IsDigit(l[i])
    requires IsColon(l[d])
    ensures MarkerEnd(l) == Some(d + 1)
  {
    SkipWhileExact(l, 0, a, IsLeadChar);
    NumberColonAt(l, a + 2, b, d);
  }

  lemma NumberColonAt(l: string, j: nat, b: nat, d: nat)
    requires j <= b < d < |l|
    requires forall i :: j <= i < b ==> IsSpace(l[i])
    requires forall i :: b <= i < d ==> IsDigit(l[i])
    requires IsColon(l[d])
    ensures NumberColonEnd(l, j) == Some(d + 1)
  {
    SkipWhileExact(l, j, b, IsSpace);
    SkipWhileExact(l, b, d, IsDigit);
  }

  lemma MarkerLayout(lead: string, gap: string, num: string, colon: char, t: string)
    requires forall i :: 0 <= i < |lead| ==> IsLeadChar(lead[i])
    requires Blank(gap) && AllDigits(num)
    ensures var l := lead + "推荐" + gap + num + [colon] + t;
      var a := |lead|; var b := a + 2 + |gap|; var d := b + |num|;
      && |l| == d + 1 + |t|
      && (forall i :: 0 <= i < a ==> IsLeadChar(l[i]))
      && l[a] == '推' && l[a + 1] == '荐'
      && (forall i :: a + 2 <= i < b ==> IsSpace(l[i]))
      && (forall i :: b <= i < d ==> IsDigit(l[i]))
      && l[d] == colon && l[d + 1..] == t
  {
    var l := lead + "推荐" + gap + num + [colon] + t;
    var a := |lead|; var b := a + 2 + |gap|; var d := b + |num|;
    assert forall i :: 0 <= i < a ==> l[i] == lead[i];
    assert forall i :: a + 2 <= i < b ==> l[i] == gap[i - a - 2];
    assert forall i :: b <= i < d ==> l[i] == num[i - b];
  }

  // ---------------------------------------------------------------------------------
  // Free text: the sections

  function Header(name: string): string {
    "【" + name + "】"
  }

  predicate HeaderAt(t: string, h: string, p: nat) {
    p + |h| <= |t| && t[p..p + |h|] == h
  }

  /** The first position at or after `p` where `h` occurs. */
  function FindFrom(t: string, h: string, p: nat): (r: Option<nat>)
    requires p <= |t|
    ensures r.Some? ==> p <= r.value && HeaderAt(t, h, r.value)
    ensures r.Some? ==> forall i :: p <= i < r.value ==> !HeaderAt(t, h, i)
    ensures r.None? ==> forall i :: p <= i <= |t| ==> !HeaderAt(t, h, i)
    decreases |t| - p
  {
    if p + |h| > |t| then None
    else if t[p..p + |h|] == h then Some(p)
    else FindFrom(t, h, p + 1)
  }

  /** The lookahead `(?=\n\s*【|$)` at `j`. */
  predicate SectionEnd(t: string, j: nat)
    requires j <= |t|
  {
    j == |t| || (t[j] == '\n' && var e := SkipWhile(t, j + 1, IsSpace); e < |t| && t[e] == '【')
  }

  /** The first position at or after `j` where the lookahead holds: the end of the lazy
      `[\s\S]*?`. */
  function SectionEndFrom(t: string, j: nat): (e: nat)
    requires j <= |t|
    ensures j <= e <= |t| && SectionEnd(t, e)
    decreases |t| - j
  {
    if SectionEnd(t, j) then j else SectionEndFrom(t, j + 1)
  }

  /** A section as the pattern `【name】([\s\S]*?)(?=\n\s*【|$)` is meant to cut it, for the
      header `h` = `【name】`: from the first header to the next line that starts with `【`
      (after white space), or to the end, trimmed; empty when the header does not occur. */
  function SectionOf(t: string, h: string): (r: string)
    ensures FindFrom(t, h, 0).None? ==> r == ""
  {
    match FindFrom(t, h, 0)
    case Some(p) => Trim(t[p + |h|..SectionEndFrom(t, p + |h|)])
    case None => ""
  }

  function GetSection(t: string, name: string): string {
    SectionOf(t, Header(name))
  }

  lemma {:induction false} FindFromExact(t: string, h: string, p: nat, p0: nat)
    requires p <= p0 && HeaderAt(t, h, p0)
    requires forall i :: p <= i < p0 ==> !HeaderAt(t, h, i)
    ensures FindFrom(t, h, p) == Some(p0)
    decreases p0 - p
  {
    if p < p0 {
      FindFromExact(t, h, p + 1, p0);
    }
  }

  lemma LayoutLength(pre: string, h: string, body: string, post: string)
    ensures |pre + h + body + post| == |pre| + |h| + |body| + |post|
  {
  }

  lemma LayoutHeader(pre: string, h: string, body: string, post: string)
    ensures HeaderAt(pre + h + body + post, h, |pre|)
  {
    var t := pre + h + body + post;
    assert t[|pre|..|pre| + |h|] == h;
  }

  lemma LayoutBodySlice(pre: string, h: string, body: string, post: string)
    ensures var t := pre + h + body + post; var q := |pre| + |h|;
      q + |body| <= |t| && t[q..q + |body|] == body
  {
  }

  lemma LayoutPost(pre: string, h: string, body: string, post: string)
    requires post == [] || StartsWith(post, "\n【")
    ensures var t := pre + h + body + post; var j := |pre| + |h| + |body|;
      j == |t| || (j + 1 < |t| && t[j] == '\n' && t[j + 1] == '【')
  {
    var t := pre + h + body + post;
    var j := |pre| + |h| + |body|;
    if post != [] {
      assert post[0] == '\n' && post[1] == '【';
      assert t[j] == post[0] && t[j + 1] == post[1];
    }
  }

  lemma LayoutPrefix(pre: string, h: string, body: string, post: string)
    requires '【' !in pre
    ensures var t := pre + h + body + post;
      forall i :: 0 <= i < |pre| ==> t[i] != '【'
  {
    var t := pre + h + body + post;
    assert forall i :: 0 <= i < |pre| ==> t[i] == pre[i];
  }

  lemma LayoutBody(pre: string, h: string, body: string, post: string)
    requires '【' !in body
    ensures var t := pre + h + body + post; var q := |pre| + |h|;
      && (forall i :: q <= i < q + |body| ==> t[i] != '【')
      && (body != [] ==> t[q + |body| - 1] == body[|body| - 1])
  {
    var t := pre + h + body + post;
    var q := |pre| + |h|;
    assert forall i :: q <= i < q + |body| ==> t[i] == body[i - q];
  }

  /** The section cut out at a known header and a known end. */
  lemma SectionAt(t: string, h: string, p0: nat, e: nat)
    requires FindFrom(t, h, 0) == Some(p0)
    requires p0 + |h| <= e <= |t| && SectionEndFrom(t, p0 + |h|) == e
    ensures SectionOf(t, h) == Trim(t[p0 + |h|..e])
  {
  }

  /** No header starts inside a prefix without `【`. */
  lemma NoHeaderBefore(t: string, h: string, n: nat)
    requires n <= |t| && forall i :: 0 <= i < n ==> t[i] != '【'
    requires h != [] && h[0] == '【'
    ensures forall i :: 0 <= i < n ==> !HeaderAt(t, h, i)
  {
    forall i | 0 <= i < n && i + |h| <= |t|
      ensures t[i..i + |h|][0] == t[i]
    {
    }
  }

  /** Inside a body without `【` that ends in a non-space character no line break is
      followed by a header, so the section runs to the end of the body. */
  lemma {:induction false} EndAfterBody(t: string, j: nat, last: nat)
    requires j <= last < |t| && !IsSpace(t[last])
    requires forall i :: j <= i <= last ==> t[i] != '【'
    requires SectionEnd(t, last + 1)
    ensures SectionEndFrom(t, j) == last + 1
    decreases last - j
  {
    if t[j] == '\n' {
      var e := SkipWhile(t, j + 1, IsSpace);
      assert e <= last;
    }
    if j < last {
      EndAfterBody(t, j + 1, last);
    }
  }

  lemma EndHere(t: string, j: nat)
    requires j <= |t| && SectionEnd(t, j)
    ensures SectionEndFrom(t, j) == j
  {
  }

  lemma EndAtPost(t: string, j: nat)
    requires j == |t| || (j + 1 < |t| && t[j] == '\n' && t[j + 1] == '【')
    ensures SectionEnd(t, j)
  {
    if j < |t| {
      assert SkipWhile(t, j + 1, IsSpace) == j + 1;
    }
  }

  /** A header, a body without `【` that ends in a non-space character, and then the end of
      the text or a new line starting with `【`: the section read back is the trimmed body. */
  lemma SectionRoundTrip(pre: string, name: string, body: string, post: string)
    requires '【' !in pre && '【' !in body
    requires body == [] || !IsSpace(body[|body| - 1])
    requires post == [] || StartsWith(post, "\n【")
    ensures GetSection(pre + Header(name) + body + post, name) == Trim(body)
  {
    HeaderShape(name);
    SectionOfRoundTrip(pre, Header(name), body, post);
  }

  lemma HeaderShape(name: string)
    ensures Header(name) != [] && Header(name)[0] == '【'
  {
  }

  lemma SectionOfRoundTrip(pre: string, h: string, body: string, post: string)
    requires h != [] && h[0] == '【'
    requires '【' !in pre && '【' !in body
    requires body == [] || !IsSpace(body[|body| - 1])
    requires post == [] || StartsWith(post, "\n【")
    ensures SectionOf(pre + h + body + post, h) == Trim(body)
  {
    var t := pre + h + body + post;
    LayoutLength(pre, h, body, post);
    LayoutHeader(pre, h, body, post);
    LayoutPrefix(pre, h, body, post);
    LayoutBody(pre, h, body, post);
    LayoutPost(pre, h, body, post);
    SectionBetween(t, h, |pre|, |pre| + |h| + |body|);
    LayoutBodySlice(pre, h, body, post);
  }

  /** The section of a text with a first header at `p` and a body up to `e` that holds no
      `【` and ends in a non-space character, followed by the end or by `\n【`. */
  lemma SectionBetween(t: string, h: string, p: nat, e: nat)
    requires h != [] && h[0] == '【'
    requires p + |h| <= e <= |t| && HeaderAt(t, h, p)
    requires forall i :: 0 <= i < p ==> t[i] != '【'
    requires forall i :: p + |h| <= i < e ==> t[i] != '【'
    requires p + |h| < e ==> !IsSpace(t[e - 1])
    requires e == |t| || (e + 1 < |t| && t[e] == '\n' && t[e + 1] == '【')
    ensures SectionOf(t, h) == Trim(t[p + |h|..e])
  {
    NoHeaderBefore(t, h, p);
    FindFromExact(t, h, 0, p);
    EndAtPost(t, e);
    if p + |h| < e {
      EndAfterBody(t, p + |h|, e - 1);
    } else {
      EndHere(t, e);
    }
    SectionAt(t, h, p, e);
  }
}
