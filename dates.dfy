/** The two renderings of the clock the replacement run uses:
    `strftime("%Y-%m-%d")` for the quota day and the log file name, and
    `strftime('%d/%m/%Y')` for the invoice date and the log header. */
module Dates {
  import opened TotalCodec

  /** A calendar day as the clock reports it. */
  datatype Date = Date(year: int, month: int, day: int)

  predicate ValidDate(d: Date) {
    1 <= d.year <= 9999 && 1 <= d.month <= 12 && 1 <= d.day <= 31
  }

  function Pow10(w: nat): (p: nat)
    ensures p >= 1
  {
    if w == 0 then 1 else 10 * Pow10(w - 1)
  }

  /** `n` in exactly `w` decimal digits, with leading zeros (`%02d`, `%04d`). */
  function Pad(n: nat, w: nat): (s: string)
    ensures |s| == w && forall i :: 0 <= i < |s| ==> IsDigit(s[i])
  {
    if w == 0 then [] else Pad(n / 10, w - 1) + [DigitChar(n % 10)]
  }

  /** The padded digits denote the number again when it fits in the width. */
  lemma {:induction false} PadValue(n: nat, w: nat)
    requires n < Pow10(w)
    ensures DigitsValue(Pad(n, w)) == n
  {
    if w > 0 {
      PadValue(n / 10, w - 1);
      var s := Pad(n, w);
      assert s[..|s| - 1] == Pad(n / 10, w - 1);
    }
  }

  /** `strftime("%Y-%m-%d")`. */
  function IsoDate(d: Date): (s: string)
    requires ValidDate(d)
    ensures |s| == 10 && s[4] == '-' && s[7] == '-'
  {
    Pad(d.year, 4) + "-" + Pad(d.month, 2) + "-" + Pad(d.day, 2)
  }

  /** `strftime('%d/%m/%Y')`. */
  function DisplayDate(d: Date): (s: string)
    requires ValidDate(d)
    ensures |s| == 10 && s[2] == '/' && s[5] == '/'
  {
    Pad(d.day, 2) + "/" + Pad(d.month, 2) + "/" + Pad(d.year, 4)
  }

  lemma IsoDateFields(d: Date)
    requires ValidDate(d)
    ensures DigitsValue(IsoDate(d)[..4]) == d.year
    ensures DigitsValue(IsoDate(d)[5..7]) == d.month
    ensures DigitsValue(IsoDate(d)[8..]) == d.day
  {
    var s := IsoDate(d);
    assert s[..4] == Pad(d.year, 4);
    assert s[5..7] == Pad(d.month, 2);
    assert s[8..] == Pad(d.day, 2);
    PadValue(d.year, 4);
    PadValue(d.month, 2);
    PadValue(d.day, 2);
  }

  /** Two different days never share a quota key: the stored date of one day
      does not block the run of another. */
  lemma IsoDateInjective(a: Date, b: Date)
    requires ValidDate(a) && ValidDate(b) && IsoDate(a) == IsoDate(b)
    ensures a == b
  {
    IsoDateFields(a);
    IsoDateFields(b);
  }
}
