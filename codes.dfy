/** What both verification-code stores share: the five-day lifetime and the way a code is
    drawn, `Math.floor(1000 + Math.random() * 9000).toString()`. The random draw is an
    input: the integer the expression lands on. */
module Codes {
  import opened Text

  /** Five days in milliseconds. */
  const Ttl: int := 5 * 24 * 60 * 60 * 1000

  /** The values `Math.floor(1000 + r * 9000)` takes for `0 <= r < 1`. */
  predicate IsDraw(d: int) {
    1000 <= d <= 9999
  }

  /** A drawn code renders as exactly four decimal digits, the first one non-zero, that
      read back as the drawn number; so distinct draws give distinct codes. */
  function CodeOf(draw: int): (c: string)
    requires IsDraw(draw)
    ensures |c| == 4 && AllDigits(c) && c[0] != '0'
    ensures DigitsValue(c) == draw
  {
    FourDigits(draw);
    NatToStringRoundTrip(draw);
    NatToString(draw)
  }

}
