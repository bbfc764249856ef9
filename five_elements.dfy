/** The five-element energy route (`generateFiveElementsData`): one value per element,
    `50` plus a random variation, clamped to `0..100`. The random draw of each element is
    passed in as the integer `k = floor(random * 40)`, in `0..39`. */
module FiveElements {
  const Elements: seq<string> := ["金", "木", "水", "火", "土"]

  datatype Energy = Energy(element: string, value: int)

  function Max(a: int, b: int): int {
    if a >= b then a else b
  }

  function Min(a: int, b: int): int {
    if a <= b then a else b
  }

  /** `Math.max(0, Math.min(100, 50 + (k - 20)))`. */
  function ElementValue(k: int): (v: int)
    ensures 0 <= v <= 100
  {
    Max(0, Min(100, 50 + (k - 20)))
  }

  /** For every draw the route can make the value is `30 + k`, within `30..69`: the clamp
      never changes anything, and the variation reaches `-20` but never `+20`. */
  lemma ClampIsIdle(k: int)
    requires 0 <= k < 40
    ensures Min(100, 50 + (k - 20)) == 50 + (k - 20)
    ensures Max(0, Min(100, 50 + (k - 20))) == 50 + (k - 20)
    ensures ElementValue(k) == 30 + k && 30 <= ElementValue(k) <= 69
  {
  }

  /** The data for the five elements, in the order 金 木 水 火 土; `draws[i]` is the draw
      made for the `i`-th element. */
  function GenerateFiveElementsData(chineseCalendar: string, draws: seq<int>): (r: seq<Energy>)
    requires |draws| == |Elements|
    ensures |r| == 5
    ensures forall i :: 0 <= i < 5 ==> r[i].element == Elements[i] && r[i].value == ElementValue(draws[i])
    ensures forall i :: 0 <= i < 5 ==> 0 <= r[i].value <= 100
  {
    seq(|Elements|, i requires 0 <= i < |Elements| => Energy(Elements[i], ElementValue(draws[i])))
  }

  /** With draws in `0..39` every value lies in `30..69`. */
  lemma ValuesInRange(chineseCalendar: string, draws: seq<int>)
    requires |draws| == 5 && forall i :: 0 <= i < 5 ==> 0 <= draws[i] < 40
    ensures forall i :: 0 <= i < 5 ==> 30 <= GenerateFiveElementsData(chineseCalendar, draws)[i].value <= 69
  {
    forall i | 0 <= i < 5
      ensures 30 <= GenerateFiveElementsData(chineseCalendar, draws)[i].value <= 69
    {
      ClampIsIdle(draws[i]);
    }
  }

  /** The calendar text is not read: two calendars with the same draws get the same data. */
  lemma CalendarIgnored(c1: string, c2: string, draws: seq<int>)
    requires |draws| == 5
    ensures GenerateFiveElementsData(c1, draws) == GenerateFiveElementsData(c2, draws)
  {
  }

  /** The five element names are distinct, so each element has exactly one entry. */
  lemma ElementsDistinct()
    ensures forall i, j :: 0 <= i < j < 5 ==> Elements[i] != Elements[j]
  {
    assert forall i, j :: 0 <= i < j < 5 ==> Elements[i][0] != Elements[j][0];
  }
}
