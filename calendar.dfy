/** The simplified sexagenary-year calculation: stem, branch, zodiac animal and element
    of a Gregorian year, by remainders of `year - 4`. */
module Calendar {
  import opened Wrappers

  const HeavenlyStems: seq<string> := ["甲", "乙", "丙", "丁", "戊", "己", "庚", "辛", "壬", "癸"]
  const EarthlyBranches: seq<string> := ["子", "丑", "寅", "卯", "辰", "巳", "午", "未", "申", "酉", "戌", "亥"]
  const ChineseZodiac: seq<string> := ["鼠", "牛", "虎", "兔", "龙", "蛇", "马", "羊", "猴", "鸡", "狗", "猪"]
  const FiveElements: seq<string> := ["木", "火", "土", "金", "水"]

  /** The calendar record; a label is `None` where the table lookup gives `undefined`. */
  datatype CalendarInfo = CalendarInfo(
    heavenlyStem: Option<string>,
    earthlyBranch: Option<string>,
    zodiac: Option<string>,
    fiveElement: Option<string>,
    year: int,
    month: int,
    day: int)

  /** JavaScript's `%` on integers: the remainder has the sign of the dividend. */
  function JsRem(a: int, b: int): (r: int)
    requires b > 0
    ensures a >= 0 ==> r == a % b
    ensures a < 0 ==> -b < r <= 0
  {
    if a >= 0 then a % b else -((-a) % b)
  }

  /** `table[i]`, which is `undefined` outside the table. */
  function At(table: seq<string>, i: int): Option<string> {
    if 0 <= i < |table| then Some(table[i]) else None
  }

  function CalculateChineseCalendar(year: int, month: int, day: int): (info: CalendarInfo)
    ensures info.year == year && info.month == month && info.day == day
    ensures year >= 4 ==>
      && info.heavenlyStem == Some(HeavenlyStems[(year - 4) % 10])
      && info.earthlyBranch == Some(EarthlyBranches[(year - 4) % 12])
      && info.zodiac == Some(ChineseZodiac[(year - 4) % 12])
      && info.fiveElement == Some(FiveElements[(year - 4) % 10 % 5])
  {
    var stemIndex := JsRem(year - 4, 10);
    var branchIndex := JsRem(year - 4, 12);
    CalendarInfo(
      At(HeavenlyStems, stemIndex),
      At(EarthlyBranches, branchIndex),
      At(ChineseZodiac, branchIndex),
      At(FiveElements, JsRem(stemIndex, 5)),
      year, month, day)
  }

  /** Before year 4 the remainders turn negative and the lookups give `undefined`, except
      where the remainder is zero. */
  lemma UndefinedBeforeYearFour(year: int, month: int, day: int)
    ensures var info := CalculateChineseCalendar(year, month, day);
      && (info.heavenlyStem.None? <==> year < 4 && (4 - year) % 10 != 0)
      && (info.earthlyBranch.None? <==> year < 4 && (4 - year) % 12 != 0)
      && (info.zodiac.None? <==> info.earthlyBranch.None?)
      && (info.fiveElement.None? <==> year < 4 && (4 - year) % 5 != 0)
  {
    var a := year - 4;
    if a < 0 {
      var s := (4 - year) % 10;
      assert JsRem(a, 10) == -s;
      assert JsRem(a, 12) == -((4 - year) % 12);
      assert JsRem(-s, 5) == -(s % 5);
      FifthOfTenth(4 - year);
    }
  }

  /** The remainder by 5 of the remainder by 10 is the remainder by 5. */
  lemma FifthOfTenth(x: int)
    ensures x % 10 % 5 == x % 5
  {
    var q, r := x / 10, x % 10;
    assert x == 5 * (2 * q) + r;
    Linear5(2 * q, r % 5, r / 5);
  }

  lemma Linear5(q: int, r: int, h: int)
    requires 0 <= r < 5 && 0 <= h <= 1
    ensures (5 * q + (5 * h + r)) % 5 == r && (5 * h + r) % 5 == r
  {
    assert 5 * q + (5 * h + r) == 5 * (q + h) + r;
  }

  /** The zodiac animal is read at the branch's index. */
  lemma ZodiacFollowsBranch(year: int, month: int, day: int, i: int)
    requires 0 <= i < 12
    ensures var info := CalculateChineseCalendar(year, month, day);
      info.earthlyBranch == Some(EarthlyBranches[i]) <==> info.zodiac == Some(ChineseZodiac[i])
  {
    var info := CalculateChineseCalendar(year, month, day);
    var b := JsRem(year - 4, 12);
    if info.earthlyBranch == Some(EarthlyBranches[i]) {
      assert b == i;
    }
    if info.zodiac == Some(ChineseZodiac[i]) {
      assert b == i;
    }
  }

  /** Years sixty apart get the same labels. */
  lemma SixtyYearCycle(year: int, month: int, day: int)
    requires year >= 4
    ensures var a, b := CalculateChineseCalendar(year, month, day), CalculateChineseCalendar(year + 60, month, day);
      a.heavenlyStem == b.heavenlyStem && a.earthlyBranch == b.earthlyBranch && a.zodiac == b.zodiac
      && a.fiveElement == b.fiveElement
  {
    assert (year + 60 - 4) % 10 == (year - 4) % 10;
    assert (year + 60 - 4) % 12 == (year - 4) % 12;
  }

  /** 1984 is a 甲子 year of the rat. */
  lemma Year1984()
    ensures CalculateChineseCalendar(1984, 1, 1) == CalendarInfo(Some("甲"), Some("子"), Some("鼠"), Some("木"), 1984, 1, 1)
  {
    assert (1984 - 4) % 10 == 0 && (1984 - 4) % 12 == 0;
  }

  /** `${x}` of a possibly undefined label. */
  function Show(o: Option<string>): string {
    o.GetOr("undefined")
  }

  function FormatChineseDate(info: CalendarInfo): string {
    Show(info.heavenlyStem) + Show(info.earthlyBranch) + "年 " + Show(info.zodiac) + "年 " + Show(info.fiveElement) + "命"
  }

  /** From year 4 on the formatted date is nine characters: stem, branch, `年`, a space,
      the animal, `年`, a space, the element and `命`. */
  lemma FormatShape(year: int, month: int, day: int)
    requires year >= 4
    ensures var info := CalculateChineseCalendar(year, month, day);
      var r := FormatChineseDate(info);
      |r| == 9 && [r[0]] == info.heavenlyStem.value && [r[1]] == info.earthlyBranch.value
      && r[2..4] == "年 " && [r[4]] == info.zodiac.value && r[5..7] == "年 "
      && [r[7]] == info.fiveElement.value && r[8] == '命'
  {
    var info := CalculateChineseCalendar(year, month, day);
    assert |HeavenlyStems[(year - 4) % 10]| == 1;
    assert |EarthlyBranches[(year - 4) % 12]| == 1;
    assert |ChineseZodiac[(year - 4) % 12]| == 1;
    assert |FiveElements[(year - 4) % 10 % 5]| == 1;
  }

  /** Remainders of a multiple plus a small remainder, by the fixed moduli used here. */
  lemma Linear10(q: int, r: int)
    requires 0 <= r < 10
    ensures (10 * q + r) % 10 == r
  {
  }

  lemma Linear12(q: int, r: int)
    requires 0 <= r < 12
    ensures (12 * q + r) % 12 == r
  {
  }

  lemma Linear60(q: int)
    ensures (60 * q) % 60 == 0
  {
  }

  lemma SixthPart(k: int, q: int)
    requires 5 * k == 6 * q
    ensures k % 6 == 0
  {
    var r := k % 6;
    assert k == 6 * (k / 6) + r;
    assert 5 * r == 6 * (q - 5 * (k / 6));
  }

  lemma CommonMultiple(d: int)
    requires d % 10 == 0 && d % 12 == 0
    ensures d % 60 == 0
  {
    var k, q := d / 10, d / 12;
    SixthPart(k, q);
    assert d == 60 * (k / 6);
    Linear60(k / 6);
  }

  /** From year 4 on, two years format alike exactly when they lie a multiple of sixty
      years apart: the stem and the branch together pin down the year of the cycle. */
  lemma FormatDeterminesCycle(y1: int, y2: int, month: int, day: int)
    requires y1 >= 4 && y2 >= 4
    ensures FormatChineseDate(CalculateChineseCalendar(y1, month, day)) == FormatChineseDate(CalculateChineseCalendar(y2, month, day))
            <==> (y1 - y2) % 60 == 0
  {
    if (y1 - y2) % 60 == 0 {
      SixtyApart(y1, y2, month, day);
    }
    if FormatChineseDate(CalculateChineseCalendar(y1, month, day)) == FormatChineseDate(CalculateChineseCalendar(y2, month, day)) {
      SameFormat(y1, y2, month, day);
    }
  }

  lemma SixtyApart(y1: int, y2: int, month: int, day: int)
    requires y1 >= 4 && y2 >= 4 && (y1 - y2) % 60 == 0
    ensures FormatChineseDate(CalculateChineseCalendar(y1, month, day)) == FormatChineseDate(CalculateChineseCalendar(y2, month, day))
  {
    var a, b := CalculateChineseCalendar(y1, month, day), CalculateChineseCalendar(y2, month, day);
    ShiftBySixty(y1 - 4, y2 - 4);
    assert a.heavenlyStem == b.heavenlyStem && a.earthlyBranch == b.earthlyBranch;
    assert a.zodiac == b.zodiac && a.fiveElement == b.fiveElement;
  }

  lemma SameFormat(y1: int, y2: int, month: int, day: int)
    requires y1 >= 4 && y2 >= 4
    requires FormatChineseDate(CalculateChineseCalendar(y1, month, day)) == FormatChineseDate(CalculateChineseCalendar(y2, month, day))
    ensures (y1 - y2) % 60 == 0
  {
    var fa := FormatChineseDate(CalculateChineseCalendar(y1, month, day));
    var fb := FormatChineseDate(CalculateChineseCalendar(y2, month, day));
    FormatShape(y1, month, day);
    FormatShape(y2, month, day);
    var s1, s2 := (y1 - 4) % 10, (y2 - 4) % 10;
    var b1, b2 := (y1 - 4) % 12, (y2 - 4) % 12;
    assert [fa[0]] == HeavenlyStems[s1] && [fb[0]] == HeavenlyStems[s2];
    TableIndex(HeavenlyStems, s1, s2);
    assert [fa[1]] == EarthlyBranches[b1] && [fb[1]] == EarthlyBranches[b2];
    TableIndex(EarthlyBranches, b1, b2);
    SameRemainders(y1 - 4, y2 - 4);
  }

  /** The entries of the stem and branch tables are pairwise distinct. */
  lemma TableIndex(table: seq<string>, i: int, j: int)
    requires table == HeavenlyStems || table == EarthlyBranches
    requires 0 <= i < |table| && 0 <= j < |table| && table[i] == table[j]
    ensures i == j
  {
  }

  lemma SameRemainders(x: int, y: int)
    requires x % 10 == y % 10 && x % 12 == y % 12
    ensures (x - y) % 60 == 0
  {
    assert x - y == 10 * (x / 10 - y / 10);
    Linear10(x / 10 - y / 10, 0);
    assert x - y == 12 * (x / 12 - y / 12);
    Linear12(x / 12 - y / 12, 0);
    CommonMultiple(x - y);
  }

  lemma ShiftBySixty(x: int, y: int)
    requires (x - y) % 60 == 0
    ensures x % 10 == y % 10 && x % 12 == y % 12
  {
    var m := (x - y) / 60;
    assert x == 10 * (y / 10 + 6 * m) + y % 10;
    Linear10(y / 10 + 6 * m, y % 10);
    assert x == 12 * (y / 12 + 5 * m) + y % 12;
    Linear12(y / 12 + 5 * m, y % 12);
  }
}
