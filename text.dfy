/** String helpers with the meaning JavaScript gives them: the `\s` class, `trim`,
    `split` on single characters, `filter(Boolean)` and decimal rendering of numbers. */
module Text {

  /** The characters JavaScript's `\s` and `String.prototype.trim` treat as white space
      (WhiteSpace and LineTerminator of the ECMAScript grammar). */
  predicate IsSpace(c: char) {
    || c == '\t' || c == '\n' || c == '\U{000B}' || c == '\U{000C}' || c == '\r' || c == ' '
    || c == '\U{00A0}' || c == '\U{1680}' || ('\U{2000}' <= c <= '\U{200A}')
    || c == '\U{2028}' || c == '\U{2029}' || c == '\U{202F}' || c == '\U{205F}'
    || c == '\U{3000}' || c == '\U{FEFF}'
  }

  /** The characters a regular-expression `.` does not match. */
  predicate IsLineTerminator(c: char) {
    c == '\n' || c == '\r' || c == '\U{2028}' || c == '\U{2029}'
  }

  /** An ASCII decimal digit, the class `\d`. */
  predicate IsDigit(c: char) {
    '0' <= c <= '9'
  }

  /** No character of `s` is `c`. */
  predicate Avoids(s: string, c: char) {
    forall i :: 0 <= i < |s| ==> s[i] != c
  }

  lemma AvoidsConcat(a: string, b: string, c: char)
    requires Avoids(a, c) && Avoids(b, c)
    ensures Avoids(a + b, c)
  {
    assert forall i :: |a| <= i < |a + b| ==> (a + b)[i] == b[i - |a|];
  }

  predicate StartsWith(s: string, prefix: string) {
    |prefix| <= |s| && s[..|prefix|] == prefix
  }

  /** The first index at or after `j` whose character does not satisfy `p`, or `|s|`. */
  function SkipWhile(s: string, j: nat, p: char -> bool): (e: nat)
    requires j <= |s|
    ensures j <= e <= |s|
    ensures forall i :: j <= i < e ==> p(s[i])
    ensures e < |s| ==> !p(s[e])
    decreases |s| - j
  {
    if j < |s| && p(s[j]) then SkipWhile(s, j + 1, p) else j
  }

  /** `s` with its leading white space removed. */
  function TrimStart(s: string): (r: string)
    ensures |r| <= |s| && r == s[|s| - |r|..]
    ensures r == [] || !IsSpace(r[0])
    ensures forall i :: 0 <= i < |s| - |r| ==> IsSpace(s[i])
  {
    if s == [] || !IsSpace(s[0]) then s else TrimStart(s[1..])
  }

  /** `s` with its trailing white space removed. */
  function TrimEnd(s: string): (r: string)
    ensures |r| <= |s| && r == s[..|r|]
    ensures r == [] || !IsSpace(r[|r| - 1])
    ensures forall i :: |r| <= i < |s| ==> IsSpace(s[i])
  {
    if s == [] || !IsSpace(s[|s| - 1]) then s else TrimEnd(s[..|s| - 1])
  }

  /** `String.prototype.trim`. */
  function Trim(s: string): (r: string)
    ensures Trimmed(r)
  {
    var t := TrimStart(s);
    var r := TrimEnd(t);
    assert r != [] ==> r[0] == t[0];
    r
  }

  /** Neither end of `s` is white space. */
  predicate Trimmed(s: string) {
    s == [] || (!IsSpace(s[0]) && !IsSpace(s[|s| - 1]))
  }

  /** `Trim` removes white space from both ends and nothing else: it returns the infix of
      `s` that starts and ends at a non-space character, and is the identity on such strings. */
  lemma TrimSpec(s: string)
    ensures Trimmed(Trim(s))
    ensures exists i, j :: 0 <= i <= j <= |s| && Trim(s) == s[i..j]
    ensures Trimmed(s) ==> Trim(s) == s
    ensures Trim(Trim(s)) == Trim(s)
  {
    var i, j := TrimInfix(s);
    assert Trim(s) == s[i..j];
    if Trimmed(s) {
      TrimmedFixed(s);
    }
    TrimmedFixed(Trim(s));
  }

  /** The bounds of the infix that `Trim` keeps. */
  lemma TrimInfix(s: string) returns (i: nat, j: nat)
    ensures i <= j <= |s| && Trim(s) == s[i..j]
  {
    var t := TrimStart(s);
    i := |s| - |t|;
    j := i + |TrimEnd(t)|;
    assert t == s[i..];
  }

  lemma TrimmedFixed(s: string)
    requires Trimmed(s)
    ensures Trim(s) == s
  {
  }

  /** A string made only of white space (`p.trim() === ''`). */
  predicate Blank(s: string) {
    forall i :: 0 <= i < |s| ==> IsSpace(s[i])
  }

  lemma BlankIffTrimEmpty(s: string)
    ensures Blank(s) <==> Trim(s) == []
  {
  }

  /** `s.split(c)` for every `c` with `sep(c)`: the pieces between the separator characters,
      in order, one more piece than there are separators. */
  function Split(s: string, sep: char -> bool): (r: seq<string>)
    ensures |r| >= 1
    ensures forall k, i :: 0 <= k < |r| && 0 <= i < |r[k]| ==> !sep(r[k][i])
  {
    if s == [] then [[]]
    else
      var rest := Split(s[1..], sep);
      if sep(s[0]) then [[]] + rest
      else [[s[0]] + rest[0]] + rest[1..]
  }

  /** `s.split('\n')`. */
  function Lines(s: string): (r: seq<string>) {
    Split(s, IsNewline)
  }

  predicate IsNewline(c: char) {
    c == '\n'
  }

  /** A string without a line break. */
  predicate OneLine(s: string) {
    forall i :: 0 <= i < |s| ==> !IsNewline(s[i])
  }

  /** Every line of a text is a single line. */
  lemma LinesOneLine(s: string)
    ensures forall k :: 0 <= k < |Lines(s)| ==> OneLine(Lines(s)[k])
  {
  }

  /** The pieces joined back together with `sep` between them. */
  function Join(pieces: seq<string>, sep: string): string {
    if pieces == [] then []
    else if |pieces| == 1 then pieces[0]
    else pieces[0] + sep + Join(pieces[1..], sep)
  }

  /** Splitting on a single character and joining with it gives back the input. */
  lemma {:induction false} SplitJoin(s: string, c: char)
    ensures Join(Split(s, x => x == c), [c]) == s
  {
    if s != [] {
      var rest := Split(s[1..], x => x == c);
      SplitJoin(s[1..], c);
      if s[0] == c {
        assert Split(s, x => x == c) == [[]] + rest;
        assert ([[]] + rest)[1..] == rest;
      } else {
        assert Split(s, x => x == c) == [[s[0]] + rest[0]] + rest[1..];
        if |rest| == 1 {
          assert s == [s[0]] + s[1..];
        } else {
          assert Join(rest, [c]) == rest[0] + [c] + Join(rest[1..], [c]);
          assert ([[s[0]] + rest[0]] + rest[1..])[1..] == rest[1..];
          assert s == [s[0]] + s[1..];
        }
      }
    }
  }

  /** Splitting distributes over a separator character. */
  lemma {:induction false} SplitAppend(a: string, c: char, b: string, sep: char -> bool)
    requires sep(c)
    ensures Split(a + [c] + b, sep) == Split(a, sep) + Split(b, sep)
  {
    if a == [] {
      assert [c] + b == a + [c] + b;
      assert (a + [c] + b)[1..] == b;
    } else {
      assert (a + [c] + b)[1..] == a[1..] + [c] + b;
      SplitAppend(a[1..], c, b, sep);
    }
  }

  /** A string without a separator is a single piece. */
  lemma {:induction false} SplitNoSeparator(s: string, sep: char -> bool)
    requires forall i :: 0 <= i < |s| ==> !sep(s[i])
    ensures Split(s, sep) == [s]
  {
    if s != [] {
      SplitNoSeparator(s[1..], sep);
      assert [s[0]] + s[1..] == s;
    }
  }

  /** Keeps the elements satisfying `p`, in order (`Array.prototype.filter`). */
  function Filter<T>(s: seq<T>, p: T -> bool): (r: seq<T>)
    ensures |r| <= |s|
    ensures forall i :: 0 <= i < |r| ==> p(r[i]) && r[i] in s
  {
    if s == [] then []
    else if p(s[0]) then [s[0]] + Filter(s[1..], p)
    else Filter(s[1..], p)
  }

  lemma {:induction false} FilterAppend<T>(a: seq<T>, b: seq<T>, p: T -> bool)
    ensures Filter(a + b, p) == Filter(a, p) + Filter(b, p)
  {
    if a == [] {
      assert a + b == b;
    } else {
      assert (a + b)[1..] == a[1..] + b;
      FilterAppend(a[1..], b, p);
    }
  }

  /** A prefix with no element satisfying `p` contributes nothing. */
  lemma {:induction false} FilterSkip<T>(s: seq<T>, n: nat, p: T -> bool)
    requires n <= |s| && forall i :: 0 <= i < n ==> !p(s[i])
    ensures Filter(s, p) == Filter(s[n..], p)
  {
    if n > 0 {
      var t := s[1..];
      assert !p(s[0]);
      assert forall i :: 0 <= i < n - 1 ==> t[i] == s[i + 1];
      FilterSkip(t, n - 1, p);
      assert t[n - 1..] == s[n..];
    }
  }

  /** A prefix whose elements all satisfy `p` is kept whole. */
  lemma FilterKeep<T>(s: seq<T>, n: nat, p: T -> bool)
    requires n <= |s| && forall i :: 0 <= i < n ==> p(s[i])
    ensures Filter(s, p) == s[..n] + Filter(s[n..], p)
  {
    var kept, tail := s[..n], s[n..];
    assert s == kept + tail;
    assert forall i :: 0 <= i < |kept| ==> p(kept[i]);
    FilterAppend(kept, tail, p);
    FilterAll(kept, p);
  }

  /** `splice(k, 1)` on an array: the entry at `k` is taken out and the later ones move
      down by one. */
  function Remove<T>(s: seq<T>, k: nat): (r: seq<T>)
    requires k < |s|
    ensures |r| == |s| - 1
    ensures forall i :: 0 <= i < |r| ==> r[i] == if i < k then s[i] else s[i + 1]
  {
    s[..k] + s[k + 1..]
  }

  /** Exactly the one entry at `k` is taken out. */
  lemma RemoveMultiset<T>(s: seq<T>, k: nat)
    requires k < |s|
    ensures multiset(Remove(s, k)) + multiset{s[k]} == multiset(s)
  {
    assert s == s[..k] + [s[k]] + s[k + 1..];
  }

  /** `Array.prototype.map`. */
  function Map<T, U>(s: seq<T>, f: T -> U): (r: seq<U>)
    ensures |r| == |s|
    ensures forall i :: 0 <= i < |s| ==> r[i] == f(s[i])
  {
    seq(|s|, i requires 0 <= i < |s| => f(s[i]))
  }

  /** `filter(Boolean)` over strings: the empty string is the only falsy string. */
  function NonEmpty(ss: seq<string>): seq<string> {
    Filter(ss, (x: string) => x != [])
  }

  /** The maximal runs of characters outside `sep`: `s.split(/[...]+/).filter(Boolean)`
      (splitting on runs or on single separators differs only in empty pieces). */
  function Tokens(s: string, sep: char -> bool): (r: seq<string>)
    ensures forall k :: 0 <= k < |r| ==> r[k] != []
    ensures forall k, i :: 0 <= k < |r| && 0 <= i < |r[k]| ==> !sep(r[k][i])
  {
    NonEmpty(Split(s, sep))
  }

  /** Joining non-empty separator-free tokens with one separator and splitting them again
      gives the tokens back. */
  lemma {:induction false} TokensJoin(ts: seq<string>, c: char, sep: char -> bool)
    requires sep(c)
    requires forall k :: 0 <= k < |ts| ==> ts[k] != []
    requires forall k, i :: 0 <= k < |ts| && 0 <= i < |ts[k]| ==> !sep(ts[k][i])
    ensures Tokens(Join(ts, [c]), sep) == ts
  {
    if ts == [] {
    } else if |ts| == 1 {
      SplitNoSeparator(ts[0], sep);
    } else {
      var rest := Join(ts[1..], [c]);
      assert Join(ts, [c]) == ts[0] + [c] + rest;
      TokensCons(ts[0], c, rest, sep);
      TokensJoin(ts[1..], c, sep);
      assert [ts[0]] + ts[1..] == ts;
    }
  }

  lemma TokensCons(a: string, c: char, rest: string, sep: char -> bool)
    requires sep(c) && a != []
    requires forall i :: 0 <= i < |a| ==> !sep(a[i])
    ensures Tokens(a + [c] + rest, sep) == [a] + Tokens(rest, sep)
  {
    SplitAppend(a, c, rest, sep);
    SplitNoSeparator(a, sep);
    FilterAppend([a], Split(rest, sep), (x: string) => x != []);
  }

  /** The character of a decimal digit. */
  function DigitChar(d: nat): (c: char)
    requires d < 10
    ensures IsDigit(c)
  {
    "0123456789"[d]
  }

  function DigitValue(c: char): nat
    requires IsDigit(c)
  {
    (c as int - '0' as int) as nat
  }

  predicate AllDigits(s: string) {
    forall i :: 0 <= i < |s| ==> IsDigit(s[i])
  }

  /** Decimal rendering of a natural number, as `String(n)` or a template literal gives it. */
  function NatToString(n: nat): (r: string)
    ensures |r| >= 1 && AllDigits(r)
    ensures |r| > 1 ==> r[0] != '0'
  {
    if n < 10 then [DigitChar(n)]
    else NatToString(n / 10) + [DigitChar(n % 10)]
  }

  /** The number a string of decimal digits denotes. */
  function DigitsValue(s: string): nat
    requires AllDigits(s)
  {
    if s == [] then 0 else DigitsValue(s[..|s| - 1]) * 10 + DigitValue(s[|s| - 1])
  }

  lemma DigitRoundTrip(d: nat)
    requires d < 10
    ensures DigitValue(DigitChar(d)) == d
  {
    assert "0123456789"[d] as int == '0' as int + d;
  }

  /** Reading a rendered number gives the number back. */
  lemma {:induction false} NatToStringRoundTrip(n: nat)
    ensures DigitsValue(NatToString(n)) == n
  {
    var s := NatToString(n);
    if n < 10 {
      DigitRoundTrip(n);
    } else {
      NatToStringRoundTrip(n / 10);
      DigitRoundTrip(n % 10);
      assert s[..|s| - 1] == NatToString(n / 10);
    }
  }

  /** Numbers from 1000 to 9999 render as exactly four digits, the first of them non-zero. */
  lemma FourDigits(n: nat)
    requires 1000 <= n <= 9999
    ensures |NatToString(n)| == 4 && NatToString(n)[0] != '0'
  {
    assert |NatToString(n / 1000)| == 1;
    assert |NatToString(n / 100)| == 2;
    assert |NatToString(n / 10)| == 3;
  }

  /** Every character of a joined string comes from a piece or from the separator. */
  lemma {:induction false} JoinChars(pieces: seq<string>, sep: string, p: char -> bool)
    requires forall k, i :: 0 <= k < |pieces| && 0 <= i < |pieces[k]| ==> p(pieces[k][i])
    requires forall i :: 0 <= i < |sep| ==> p(sep[i])
    ensures forall i :: 0 <= i < |Join(pieces, sep)| ==> p(Join(pieces, sep)[i])
  {
    if |pieces| > 1 {
      JoinChars(pieces[1..], sep, p);
      var rest := Join(pieces[1..], sep);
      var r := pieces[0] + sep + rest;
      assert Join(pieces, sep) == r;
      forall i | 0 <= i < |r| ensures p(r[i]) {
        if i < |pieces[0]| {
          assert r[i] == pieces[0][i];
        } else if i < |pieces[0]| + |sep| {
          assert r[i] == sep[i - |pieces[0]|];
        } else {
          assert r[i] == rest[i - |pieces[0]| - |sep|];
        }
      }
    }
  }

  /** A join starts with its first piece. */
  lemma JoinHead(pieces: seq<string>, sep: string)
    requires pieces != []
    ensures StartsWith(Join(pieces, sep), pieces[0])
  {
    if |pieces| > 1 {
      assert Join(pieces, sep) == pieces[0] + (sep + Join(pieces[1..], sep));
    }
  }

  /** A join ends with its last piece. */
  lemma {:induction false} JoinLast(pieces: seq<string>, sep: string)
    requires pieces != []
    ensures var j, l := Join(pieces, sep), pieces[|pieces| - 1];
      |l| <= |j| && j[|j| - |l|..] == l
  {
    if |pieces| > 1 {
      JoinLast(pieces[1..], sep);
      var rest := Join(pieces[1..], sep);
      assert Join(pieces, sep) == (pieces[0] + sep) + rest;
    }
  }

  /** Every character of a trimmed string is a character of the original. */
  lemma TrimChars(s: string, p: char -> bool)
    requires forall i :: 0 <= i < |s| ==> p(s[i])
    ensures forall i :: 0 <= i < |Trim(s)| ==> p(Trim(s)[i])
  {
    var t := TrimStart(s);
    forall i | 0 <= i < |t| ensures p(t[i]) {
      assert t[i] == s[|s| - |t| + i];
    }
    var r := TrimEnd(t);
    forall i | 0 <= i < |r| ensures p(r[i]) {
      assert r[i] == t[i];
    }
    assert r == Trim(s);
  }

  /** Every character of a piece of a split is a character of the original. */
  lemma {:induction false} SplitChars(s: string, sep: char -> bool, p: char -> bool)
    requires forall i :: 0 <= i < |s| ==> p(s[i])
    ensures forall k, i :: 0 <= k < |Split(s, sep)| && 0 <= i < |Split(s, sep)[k]| ==> p(Split(s, sep)[k][i])
  {
    if s != [] {
      SplitChars(s[1..], sep, p);
    }
  }

  lemma TrimStartKeeps(s: string)
    requires s != [] && !IsSpace(s[0])
    ensures TrimStart(s) == s
  {
  }

  /** Leading white space goes, and the rest stays from its first non-space character on. */
  lemma TrimStartPadded(pre: string, x: string, post: string)
    requires Blank(pre) && x != [] && !IsSpace(x[0])
    ensures TrimStart(pre + x + post) == x + post
  {
    assert (x + post)[0] == x[0];
    TrimStartAfterBlank(pre, x + post);
    ConcatAssoc(pre, x, post);
  }

  lemma TrimStartAfterBlank(pre: string, xp: string)
    requires Blank(pre) && xp != [] && !IsSpace(xp[0])
    ensures TrimStart(pre + xp) == xp
  {
    TrimStartBlank(pre, xp);
    TrimStartKeeps(xp);
  }

  lemma ConcatAssoc<T>(a: seq<T>, b: seq<T>, c: seq<T>)
    ensures a + b + c == a + (b + c)
  {
  }

  /** White space around a trimmed string is exactly what `Trim` removes. */
  lemma TrimPadding(pre: string, x: string, post: string)
    requires Blank(pre) && Blank(post) && Trimmed(x)
    ensures Trim(pre + x + post) == x
  {
    if x == [] {
      assert pre + x + post == pre + post;
      TrimStartBlank(pre, post);
      TrimStartBlank(post, []);
      assert post + [] == post;
    } else {
      TrimStartPadded(pre, x, post);
      TrimEndBlank(x, post);
    }
  }

  lemma {:induction false} TrimStartBlank(pre: string, rest: string)
    requires Blank(pre)
    ensures TrimStart(pre + rest) == TrimStart(rest)
  {
    if pre != [] {
      assert (pre + rest)[1..] == pre[1..] + rest;
      TrimStartBlank(pre[1..], rest);
    } else {
      assert pre + rest == rest;
    }
  }

  lemma {:induction false} TrimEndBlank(rest: string, post: string)
    requires Blank(post) && (rest == [] || !IsSpace(rest[|rest| - 1]))
    ensures TrimEnd(rest + post) == rest
  {
    if post != [] {
      assert (rest + post)[..|rest + post| - 1] == rest + post[..|post| - 1];
      TrimEndBlank(rest, post[..|post| - 1]);
    } else {
      assert rest + post == rest;
    }
  }

  /** Splitting at the one separator of a string gives the parts on either side. */
  lemma SplitAround(a: string, c: char, b: string, sep: char -> bool)
    requires sep(c)
    requires forall i :: 0 <= i < |a| ==> !sep(a[i])
    requires forall i :: 0 <= i < |b| ==> !sep(b[i])
    ensures Split(a + [c] + b, sep) == [a, b]
  {
    SplitAppend(a, c, b, sep);
    SplitNoSeparator(a, sep);
    SplitNoSeparator(b, sep);
  }

  /** `SkipWhile` stops exactly at the end of the run it is given. */
  lemma {:induction false} SkipWhileExact(s: string, j: nat, e: nat, p: char -> bool)
    requires j <= e <= |s|
    requires forall i :: j <= i < e ==> p(s[i])
    requires e == |s| || !p(s[e])
    ensures SkipWhile(s, j, p) == e
    decreases e - j
  {
    if j < e {
      SkipWhileExact(s, j + 1, e, p);
    }
  }

  /** What holds of every element holds of every element kept. */
  lemma {:induction false} FilterPreserves<T>(s: seq<T>, p: T -> bool, q: T -> bool)
    requires forall i :: 0 <= i < |s| ==> q(s[i])
    ensures forall i :: 0 <= i < |Filter(s, p)| ==> q(Filter(s, p)[i])
  {
    if s != [] {
      FilterPreserves(s[1..], p, q);
    }
  }

  lemma {:induction false} FilterNone<T>(s: seq<T>, p: T -> bool)
    requires forall i :: 0 <= i < |s| ==> !p(s[i])
    ensures Filter(s, p) == []
  {
    if s != [] {
      FilterNone(s[1..], p);
    }
  }

  lemma MapAppend<T, U>(a: seq<T>, b: seq<T>, f: T -> U)
    ensures Map(a + b, f) == Map(a, f) + Map(b, f)
  {
  }

  lemma {:induction false} FilterAll<T>(s: seq<T>, p: T -> bool)
    requires forall i :: 0 <= i < |s| ==> p(s[i])
    ensures Filter(s, p) == s
  {
    if s != [] {
      FilterAll(s[1..], p);
      assert [s[0]] + s[1..] == s;
    }
  }

  /** Joining pieces that hold no separator with one separator character and splitting
      again gives the pieces back. */
  lemma {:induction false} JoinSplit(pieces: seq<string>, c: char, sep: char -> bool)
    requires pieces != [] && sep(c)
    requires forall k, i :: 0 <= k < |pieces| && 0 <= i < |pieces[k]| ==> !sep(pieces[k][i])
    ensures Split(Join(pieces, [c]), sep) == pieces
  {
    SplitNoSeparator(pieces[0], sep);
    if |pieces| > 1 {
      JoinSplit(pieces[1..], c, sep);
      SplitAppend(pieces[0], c, Join(pieces[1..], [c]), sep);
      assert [pieces[0]] + pieces[1..] == pieces;
    }
  }
}
