/** Amounts written in invoice file names: `500.000đ` and back
    (automation/daily_beverage_invoices.py, `parse_total_from_stem` and the
    `f"{total:,}".replace(',', '.')` that names a rewritten file). */
module TotalCodec {
  import opened Wrappers
  import opened PyStr

  predicate IsDigit(c: char) {
    '0' <= c <= '9'
  }

  function DigitChar(d: nat): (c: char)
    requires d < 10
    ensures IsDigit(c)
  {
    ('0' as int + d) as char
  }

  /** The number a string of ASCII digits denotes. */
  function DigitsValue(s: string): nat
    requires forall i :: 0 <= i < |s| ==> IsDigit(s[i])
  {
    if s == [] then 0
    else
      assert IsDigit(s[|s| - 1]);
      DigitsValue(s[..|s| - 1]) * 10 + (s[|s| - 1] as int - '0' as int)
  }

  /** `str(n)` for a natural number: decimal digits, no leading zero. */
  function Digits(n: nat): (s: string)
    ensures s != [] && forall i :: 0 <= i < |s| ==> IsDigit(s[i])
    ensures n >= 10 ==> s == Digits(n / 10) + [DigitChar(n % 10)]
  {
    if n < 10 then [DigitChar(n)] else Digits(n / 10) + [DigitChar(n % 10)]
  }

  lemma {:induction false} DigitsBack(n: nat)
    ensures DigitsValue(Digits(n)) == n
  {
    if n >= 10 {
      DigitsBack(n / 10);
      assert Digits(n)[..|Digits(n)| - 1] == Digits(n / 10);
    }
  }

  /** The three digits of `m` with leading zeros, as `:,` prints every group after the first. */
  function Pad3(m: nat): (s: string)
    requires m < 1000
    ensures |s| == 3 && forall i :: 0 <= i < 3 ==> IsDigit(s[i])
  {
    [DigitChar(m / 100), DigitChar(m / 10 % 10), DigitChar(m % 10)]
  }

  /** Digits of `n` with `sep` between every group of three, from the right. */
  function Grouped(n: nat, sep: char): (s: string)
    ensures s != [] && IsDigit(s[0]) && IsDigit(s[|s| - 1])
    ensures forall i :: 0 <= i < |s| ==> IsDigit(s[i]) || s[i] == sep
  {
    if n < 1000 then Digits(n) else Grouped(n / 1000, sep) + [sep] + Pad3(n % 1000)
  }

  /** Python's `f"{n:,}"`. */
  function Thousands(n: int): (s: string)
  {
    if n < 0 then "-" + Grouped(-n, ',') else Grouped(n, ',')
  }

  /** `f"{n:,}".replace(',', '.')`, the total as it appears in a file name. */
  function TotalString(n: int): string {
    ReplaceChar(Thousands(n), ',', '.')
  }

  /** Python's `int(s)` on a string of ASCII characters: surrounding
      whitespace, an optional sign, then digits with single underscores
      allowed between them; anything else is a ValueError (None). */
  function ParseInt(s: string): Option<int> {
    SignedValue(Strip(s))
  }

  function SignedValue(t: string): Option<int> {
    if t != [] && t[0] == '-' then
      match UnsignedValue(t[1..])
      case Some(v) => Some(-v)
      case None => None
    else if t != [] && t[0] == '+' then UnsignedValue(t[1..])
    else UnsignedValue(t)
  }

  function UnsignedValue(b: string): Option<int> {
    if IntegerBody(b) then
      IntegerBodyChars(b);
      RemoveKeepsDigits(b, '_');
      Some(DigitsValue(Remove(b, '_')))
    else None
  }

  /** The digit part `int()` accepts: digits, with single underscores between
      digits (`digit ("_"? digit)*`). */
  predicate IntegerBody(s: string)
    decreases |s|
  {
    s != [] && IsDigit(s[0])
    && (|s| == 1 || (if s[1] == '_' then |s| > 2 && IntegerBody(s[2..]) else IntegerBody(s[1..])))
  }

  lemma {:induction false} IntegerBodyChars(s: string)
    requires IntegerBody(s)
    ensures forall i :: 0 <= i < |s| ==> IsDigit(s[i]) || s[i] == '_'
    decreases |s|
  {
    if |s| > 1 {
      if s[1] == '_' {
        IntegerBodyChars(s[2..]);
        assert forall i :: 2 <= i < |s| ==> s[i] == s[2..][i - 2];
      } else {
        IntegerBodyChars(s[1..]);
        assert forall i :: 1 <= i < |s| ==> s[i] == s[1..][i - 1];
      }
    }
  }

  lemma {:induction false} DigitsAreIntegerBody(s: string)
    requires s != [] && forall i :: 0 <= i < |s| ==> IsDigit(s[i])
    ensures IntegerBody(s)
    decreases |s|
  {
    if |s| > 1 {
      assert IsDigit(s[1]);
      DigitsAreIntegerBody(s[1..]);
    }
  }

  lemma {:induction false} RemoveKeepsDigits(s: string, c: char)
    requires forall i :: 0 <= i < |s| ==> IsDigit(s[i]) || s[i] == c
    ensures forall i :: 0 <= i < |Remove(s, c)| ==> IsDigit(Remove(s, c)[i])
  {
    if s != [] {
      RemoveKeepsDigits(s[1..], c);
    }
  }

  /** `parse_total_from_stem`: strip, drop every `đ`, `.` and `,`, then `int()`. */
  function ParseTotal(token: string): Option<int> {
    ParseInt(Remove(Remove(Remove(Strip(token), 'đ'), '.'), ','))
  }

  /** The `(total_str or "")` coercion: a missing token parses like the empty one. */
  function ParseTotalFromStem(token: Option<string>): (r: Option<int>)
    ensures token.None? ==> r.None?
  {
    ParseTotal(token.GetOr(""))
  }

  lemma {:induction false} GroupedPlain(n: nat)
    ensures var p := Remove(Grouped(n, '.'), '.');
            p != [] && (forall i :: 0 <= i < |p| ==> IsDigit(p[i])) && DigitsValue(p) == n
  {
    if n < 1000 {
      RemoveAbsent(Digits(n), '.');
      DigitsBack(n);
    } else {
      var hi := Grouped(n / 1000, '.');
      var lo := Pad3(n % 1000);
      GroupedPlain(n / 1000);
      DropGroupSeparator(hi, lo);
      ValueOfAppendedGroup(Remove(hi, '.'), n % 1000);
    }
  }

  lemma DropGroupSeparator(hi: string, lo: string)
    requires '.' !in lo
    ensures Remove(hi + ['.'] + lo, '.') == Remove(hi, '.') + lo
  {
    RemoveAppend(hi + ['.'], lo, '.');
    RemoveAppend(hi, ['.'], '.');
    RemoveAbsent(lo, '.');
  }

  lemma ValueOfAppendedGroup(p: string, m: nat)
    requires m < 1000 && forall i :: 0 <= i < |p| ==> IsDigit(p[i])
    ensures forall i :: 0 <= i < |p + Pad3(m)| ==> IsDigit((p + Pad3(m))[i])
    ensures DigitsValue(p + Pad3(m)) == DigitsValue(p) * 1000 + m
  {
    var a, b, c := m / 100, m / 10 % 10, m % 10;
    var q1, q2, q3 := p + [DigitChar(a)], p + [DigitChar(a), DigitChar(b)], p + Pad3(m);
    assert q1[..|q1| - 1] == p;
    assert q2[..|q2| - 1] == q1;
    assert q3[..|q3| - 1] == q2;
    assert DigitsValue(q1) == DigitsValue(p) * 10 + a;
    assert DigitsValue(q2) == DigitsValue(q1) * 10 + b;
    assert DigitsValue(q3) == DigitsValue(q2) * 10 + c;
  }

  lemma {:induction false} GroupedCommasToDots(n: nat)
    ensures ReplaceChar(Grouped(n, ','), ',', '.') == Grouped(n, '.')
  {
    if n < 1000 {
      ReplaceAbsent(Digits(n), ',', '.');
    } else {
      GroupedCommasToDots(n / 1000);
      var hi, lo := Grouped(n / 1000, ','), Pad3(n % 1000);
      ReplaceAppend(hi + [','], lo, ',', '.');
      ReplaceAppend(hi, [','], ',', '.');
      ReplaceAbsent(lo, ',', '.');
    }
  }

  /** The sign a total string starts with, if any. */
  function SignPrefix(n: int): string {
    if n < 0 then "-" else ""
  }

  function Magnitude(n: int): nat {
    if n < 0 then -n else n
  }

  lemma TotalStringShape(n: int)
    ensures TotalString(n) == SignPrefix(n) + Grouped(Magnitude(n), '.')
  {
    GroupedCommasToDots(Magnitude(n));
    ReplaceAppend(SignPrefix(n), Grouped(Magnitude(n), ','), ',', '.');
    ReplaceAbsent(SignPrefix(n), ',', '.');
  }

  lemma StripTotal(n: int)
    ensures Strip(TotalString(n) + "đ") == TotalString(n) + "đ"
  {
    TotalStringShape(n);
    var g := Grouped(Magnitude(n), '.');
    var s := SignPrefix(n) + g + "đ";
    assert s[0] == (if n < 0 then '-' else g[0]);
    assert s[|s| - 1] == 'đ';
    StripUnspaced(s);
  }

  lemma DropCurrency(n: int)
    ensures Remove(TotalString(n) + "đ", 'đ') == SignPrefix(n) + Grouped(Magnitude(n), '.')
  {
    TotalStringShape(n);
    var t := SignPrefix(n) + Grouped(Magnitude(n), '.');
    assert 'đ' !in t;
    RemoveAppend(t, "đ", 'đ');
    RemoveAbsent(t, 'đ');
    assert Remove("đ", 'đ') == [];
  }

  lemma DropSeparators(n: int)
    ensures Remove(Remove(SignPrefix(n) + Grouped(Magnitude(n), '.'), '.'), ',')
         == SignPrefix(n) + Remove(Grouped(Magnitude(n), '.'), '.')
  {
    var sign, g := SignPrefix(n), Grouped(Magnitude(n), '.');
    RemoveAppend(sign, g, '.');
    RemoveAbsent(sign, '.');
    var p := Remove(g, '.');
    GroupedPlain(Magnitude(n));
    assert ',' !in p;
    RemoveAppend(sign, p, ',');
    RemoveAbsent(sign, ',');
    RemoveAbsent(p, ',');
  }

  /** What `int()` is handed once the token is stripped and its separators dropped. */
  lemma CleanedTotal(n: int)
    ensures Remove(Remove(Remove(Strip(TotalString(n) + "đ"), 'đ'), '.'), ',')
         == SignPrefix(n) + Remove(Grouped(Magnitude(n), '.'), '.')
  {
    StripTotal(n);
    DropCurrency(n);
    DropSeparators(n);
  }

  lemma UnsignedDigits(p: string)
    requires p != [] && forall i :: 0 <= i < |p| ==> IsDigit(p[i])
    ensures UnsignedValue(p) == Some(DigitsValue(p))
  {
    DigitsAreIntegerBody(p);
    RemoveAbsent(p, '_');
  }

  lemma SignedDigits(n: int, p: string)
    requires p != [] && (forall i :: 0 <= i < |p| ==> IsDigit(p[i])) && DigitsValue(p) == Magnitude(n)
    ensures SignedValue(SignPrefix(n) + p) == Some(n)
  {
    if n < 0 {
      NegativeDigits(n, p);
    } else {
      assert SignPrefix(n) + p == p;
      UnsignedDigits(p);
    }
  }

  lemma NegativeDigits(n: int, p: string)
    requires n < 0 && p != [] && (forall i :: 0 <= i < |p| ==> IsDigit(p[i])) && DigitsValue(p) == -n
    ensures SignedValue("-" + p) == Some(n)
  {
    UnsignedDigits(p);
    assert ("-" + p)[1..] == p;
  }

  lemma SignedEnds(n: int, p: string)
    requires p != [] && forall i :: 0 <= i < |p| ==> IsDigit(p[i])
    ensures var t := SignPrefix(n) + p; t != [] && !IsSpace(t[0]) && !IsSpace(t[|t| - 1])
  {
    var t := SignPrefix(n) + p;
    assert t[0] == (if n < 0 then '-' else p[0]);
    assert t[|t| - 1] == p[|p| - 1];
  }

  lemma ParseSignedDigits(n: int, p: string)
    requires p != [] && (forall i :: 0 <= i < |p| ==> IsDigit(p[i])) && DigitsValue(p) == Magnitude(n)
    ensures ParseInt(SignPrefix(n) + p) == Some(n)
  {
    SignedEnds(n, p);
    StripUnspaced(SignPrefix(n) + p);
    SignedDigits(n, p);
  }

  /** A total written by a file name parses back to itself, for every integer. */
  lemma TotalRoundTrip(n: int)
    ensures ParseTotal(TotalString(n) + "đ") == Some(n)
  {
    CleanedTotal(n);
    GroupedPlain(Magnitude(n));
    ParseSignedDigits(n, Remove(Grouped(Magnitude(n), '.'), '.'));
  }
}
