/** The parts of Python's `str` that the invoice scripts rely on: strip, lower,
    upper, startswith, endswith, `in`, replace of one character, split on a
    separator, join, and the code-point ordering used by `sorted`. */
module PyStr {

  /** The characters `str.isspace` accepts (and so `str.strip()` removes). */
  predicate IsSpace(c: char) {
    c == ' ' || ('\t' <= c <= '\r') || ('\U{1c}' <= c <= '\U{1f}')
    || c == '\U{85}' || c == '\U{a0}' || c == '\U{1680}'
    || ('\U{2000}' <= c <= '\U{200a}') || c == '\U{2028}' || c == '\U{2029}'
    || c == '\U{202f}' || c == '\U{205f}' || c == '\U{3000}'
  }

  /** `s.strip()`: whitespace removed from both ends. */
  function Strip(s: string): (r: string)
    ensures r == [] || (!IsSpace(r[0]) && !IsSpace(r[|r| - 1]))
    ensures |r| <= |s|
    decreases |s|
  {
    if s != [] && IsSpace(s[0]) then Strip(s[1..])
    else if s != [] && IsSpace(s[|s| - 1]) then Strip(s[..|s| - 1])
    else s
  }

  lemma StripUnspaced(s: string)
    requires s != [] && !IsSpace(s[0]) && !IsSpace(s[|s| - 1])
    ensures Strip(s) == s
  {
  }

  /** `c.lower()` on the letters a Vietnamese invoice uses: ASCII, Latin-1,
      the even/odd pairs of Latin Extended-A up to U+0137, O/U with horn, and
      the Latin Extended Additional block U+1EA0..U+1EF9. U+0130 is left as it
      is: Python lowers it to two code points. */
  function LowerChar(c: char): char {
    if 'A' <= c <= 'Z' then (c as int + 32) as char
    else if '\U{c0}' <= c <= '\U{de}' && c != '\U{d7}' then (c as int + 32) as char
    else if '\U{100}' <= c <= '\U{137}' && c != '\U{130}' && c as int % 2 == 0 then (c as int + 1) as char
    else if c == '\U{1a0}' || c == '\U{1af}' then (c as int + 1) as char
    else if '\U{1ea0}' <= c <= '\U{1ef9}' && c as int % 2 == 0 then (c as int + 1) as char
    else c
  }

  /** `s.lower()`, character by character. */
  function Lower(s: string): (r: string)
    ensures |r| == |s|
  {
    if s == [] then [] else [LowerChar(s[0])] + Lower(s[1..])
  }

  lemma {:induction false} LowerPointwise(s: string)
    ensures forall i :: 0 <= i < |s| ==> Lower(s)[i] == LowerChar(s[i])
  {
    if s != [] {
      LowerPointwise(s[1..]);
      assert forall i :: 1 <= i < |s| ==> Lower(s)[i] == Lower(s[1..])[i - 1];
    }
  }

  lemma LowercaseKept(s: string)
    requires forall i :: 0 <= i < |s| ==> 'a' <= s[i] <= 'z'
    ensures Lower(s) == s
  {
  }

  /** `s.upper()` on ASCII letters. */
  function UpperAscii(s: string): (r: string)
    ensures |r| == |s|
    ensures forall i :: 0 <= i < |s| ==> ('a' <= s[i] <= 'z' ==> r[i] as int == s[i] as int - 32)
  {
    if s == [] then []
    else [if 'a' <= s[0] <= 'z' then (s[0] as int - 32) as char else s[0]] + UpperAscii(s[1..])
  }

  predicate StartsWith(s: string, prefix: string) {
    |prefix| <= |s| && s[..|prefix|] == prefix
  }

  predicate EndsWith(s: string, suffix: string) {
    |suffix| <= |s| && s[|s| - |suffix|..] == suffix
  }

  /** Python's `sub in s`. */
  predicate Contains(s: string, sub: string)
    decreases |s|
  {
    StartsWith(s, sub) || (s != [] && Contains(s[1..], sub))
  }

  lemma {:induction false} ContainsAt(s: string, sub: string, i: nat)
    requires i + |sub| <= |s| && s[i..i + |sub|] == sub
    ensures Contains(s, sub)
    decreases i
  {
    if i > 0 {
      assert s[1..][i - 1..i - 1 + |sub|] == s[i..i + |sub|];
      ContainsAt(s[1..], sub, i - 1);
    }
  }

  /** A string that has no occurrence of `c` has no occurrence of any substring using `c`. */
  lemma {:induction false} NotContainsWithoutChar(s: string, sub: string, k: nat, c: char)
    requires k < |sub| && sub[k] == c && c !in s
    ensures !Contains(s, sub)
    decreases |s|
  {
    if s != [] {
      NotContainsWithoutChar(s[1..], sub, k, c);
    }
  }

  /** `s.replace(c, "")` for a one-character `c`. */
  function Remove(s: string, c: char): (r: string)
    ensures c !in r
  {
    if s == [] then [] else (if s[0] == c then [] else [s[0]]) + Remove(s[1..], c)
  }

  lemma {:induction false} RemoveAppend(a: string, b: string, c: char)
    ensures Remove(a + b, c) == Remove(a, c) + Remove(b, c)
  {
    if a != [] {
      assert (a + b)[0] == a[0] && (a + b)[1..] == a[1..] + b;
      RemoveAppend(a[1..], b, c);
      assert Remove(a + b, c) == (if a[0] == c then [] else [a[0]]) + (Remove(a[1..], c) + Remove(b, c));
    } else {
      assert a + b == b;
    }
  }

  lemma {:induction false} RemoveAbsent(s: string, c: char)
    requires c !in s
    ensures Remove(s, c) == s
  {
    if s != [] {
      RemoveAbsent(s[1..], c);
    }
  }

  /** `s.replace(a, b)` for one-character `a` and `b`. */
  function ReplaceChar(s: string, a: char, b: char): (r: string)
    ensures |r| == |s|
  {
    if s == [] then [] else [if s[0] == a then b else s[0]] + ReplaceChar(s[1..], a, b)
  }

  lemma {:induction false} ReplaceAbsent(s: string, a: char, b: char)
    requires a !in s
    ensures ReplaceChar(s, a, b) == s
  {
    if s != [] {
      ReplaceAbsent(s[1..], a, b);
    }
  }

  lemma {:induction false} ReplaceAppend(s: string, t: string, a: char, b: char)
    ensures ReplaceChar(s + t, a, b) == ReplaceChar(s, a, b) + ReplaceChar(t, a, b)
  {
    if s != [] {
      assert (s + t)[0] == s[0] && (s + t)[1..] == s[1..] + t;
      ReplaceAppend(s[1..], t, a, b);
      assert ReplaceChar(s + t, a, b)
          == [if s[0] == a then b else s[0]] + (ReplaceChar(s[1..], a, b) + ReplaceChar(t, a, b));
    } else {
      assert s + t == t;
    }
  }

  /** `s.split(sep)`: the pieces between the non-overlapping occurrences of
      `sep`, found from left to right. */
  function Split(s: string, sep: string): (r: seq<string>)
    requires sep != []
    ensures |r| >= 1
    decreases |s|
  {
    if |s| < |sep| then [s]
    else if s[..|sep|] == sep then [[]] + Split(s[|sep|..], sep)
    else
      var rest := Split(s[1..], sep);
      [[s[0]] + rest[0]] + rest[1..]
  }

  /** No occurrence of `sep` starts inside `a` when `a` is followed by `sep`. */
  predicate SeparatorFreeBefore(a: string, sep: string)
    decreases |a|
  {
    a == [] || (!StartsWith(a + sep, sep) && SeparatorFreeBefore(a[1..], sep))
  }

  lemma {:induction false} SplitAfterPiece(a: string, sep: string, rest: string)
    requires sep != [] && SeparatorFreeBefore(a, sep)
    ensures Split(a + sep + rest, sep) == [a] + Split(rest, sep)
    decreases |a|
  {
    var s := a + sep + rest;
    if a == [] {
      assert s == sep + rest;
      assert s[..|sep|] == sep;
      assert s[|sep|..] == rest;
    } else {
      assert s[..|sep|] == (a + sep)[..|sep|];
      assert s[1..] == a[1..] + sep + rest;
      SplitAfterPiece(a[1..], sep, rest);
      assert a == [a[0]] + a[1..];
    }
  }

  lemma {:induction false} SplitWithoutSeparator(s: string, sep: string)
    requires sep != [] && !Contains(s, sep)
    ensures Split(s, sep) == [s]
    decreases |s|
  {
    if |s| >= |sep| {
      SplitWithoutSeparator(s[1..], sep);
      assert s == [s[0]] + s[1..];
    }
  }

  /** `sep.join(pieces)`. */
  function Join(pieces: seq<string>, sep: string): string {
    if pieces == [] then []
    else if |pieces| == 1 then pieces[0]
    else pieces[0] + sep + Join(pieces[1..], sep)
  }

  /** Python's `a <= b` on strings: code-point lexicographic order. */
  predicate LexLe(a: string, b: string)
    decreases |a|
  {
    a == [] || (b != [] && (a[0] < b[0] || (a[0] == b[0] && LexLe(a[1..], b[1..]))))
  }

  lemma {:induction false} LexLeTotal(a: string, b: string)
    ensures LexLe(a, b) || LexLe(b, a)
    decreases |a|
  {
    if a != [] && b != [] && a[0] == b[0] {
      LexLeTotal(a[1..], b[1..]);
    }
  }

  lemma {:induction false} LexLeTransitive(a: string, b: string, c: string)
    requires LexLe(a, b) && LexLe(b, c)
    ensures LexLe(a, c)
    decreases |a|
  {
    if a != [] && a[0] == b[0] && b[0] == c[0] {
      LexLeTransitive(a[1..], b[1..], c[1..]);
    }
  }

  lemma {:induction false} LexLeAntisymmetric(a: string, b: string)
    requires LexLe(a, b) && LexLe(b, a)
    ensures a == b
    decreases |a|
  {
    if a != [] {
      LexLeAntisymmetric(a[1..], b[1..]);
      assert a == [a[0]] + a[1..] && b == [b[0]] + b[1..];
    }
  }

  predicate Sorted(s: seq<string>) {
    forall i, j :: 0 <= i < j < |s| ==> LexLe(s[i], s[j])
  }

  function Insert(x: string, s: seq<string>): (r: seq<string>)
    requires Sorted(s)
    ensures Sorted(r) && multiset(r) == multiset(s) + multiset{x}
  {
    if s == [] then [x]
    else if LexLe(x, s[0]) then
      InsertFront(x, s);
      [x] + s
    else
      var tail := Insert(x, s[1..]);
      InsertBehind(x, s, tail);
      [s[0]] + tail
  }

  lemma InsertFront(x: string, s: seq<string>)
    requires Sorted(s) && s != [] && LexLe(x, s[0])
    ensures Sorted([x] + s)
  {
    forall j | 0 < j < |s| ensures LexLe(x, s[j]) {
      LexLeTransitive(x, s[0], s[j]);
    }
  }

  lemma InsertBehind(x: string, s: seq<string>, tail: seq<string>)
    requires Sorted(s) && s != [] && !LexLe(x, s[0])
    requires Sorted(tail) && multiset(tail) == multiset(s[1..]) + multiset{x}
    ensures Sorted([s[0]] + tail) && multiset([s[0]] + tail) == multiset(s) + multiset{x}
  {
    LexLeTotal(x, s[0]);
    assert s == [s[0]] + s[1..];
    assert forall y :: y in multiset(tail) ==> LexLe(s[0], y);
    forall j | 0 <= j < |tail| ensures LexLe(s[0], tail[j]) {
      assert tail[j] in multiset(tail);
    }
  }

  /** Python's `sorted(names)`: the same names, in code-point order. */
  function SortStrings(s: seq<string>): (r: seq<string>)
    ensures Sorted(r) && multiset(r) == multiset(s)
  {
    if s == [] then [] else
      assert s == [s[0]] + s[1..];
      Insert(s[0], SortStrings(s[1..]))
  }

  /** Two sorted lists with the same elements start alike. */
  lemma SortedHeads(a: seq<string>, b: seq<string>)
    requires Sorted(a) && Sorted(b) && multiset(a) == multiset(b) && a != []
    ensures b != [] && a[0] == b[0]
  {
    assert a[0] in multiset(b) && |multiset(b)| == |b|;
    var j :| 0 <= j < |b| && b[j] == a[0];
    assert b[0] in multiset(a);
    var i :| 0 <= i < |a| && a[i] == b[0];
    if j != 0 && i != 0 {
      LexLeAntisymmetric(a[0], b[0]);
    }
  }

  /** A sorted list is determined by its elements: `sorted` has one answer. */
  lemma {:induction false} SortedUnique(a: seq<string>, b: seq<string>)
    requires Sorted(a) && Sorted(b) && multiset(a) == multiset(b)
    ensures a == b
    decreases |a|
  {
    if a == [] {
      assert |multiset(b)| == |b|;
    } else {
      SortedHeads(a, b);
      HeadAndTail(a);
      HeadAndTail(b);
      SortedUnique(a[1..], b[1..]);
    }
  }

  lemma HeadAndTail(a: seq<string>)
    requires Sorted(a) && a != []
    ensures Sorted(a[1..]) && multiset(a[1..]) == multiset(a) - multiset{a[0]}
  {
    assert a == [a[0]] + a[1..];
  }

  /** A list without repeats holds each name at most once. */
  lemma {:induction false} DistinctCount(s: seq<string>, x: string)
    requires forall i, j :: 0 <= i < j < |s| ==> s[i] != s[j]
    ensures multiset(s)[x] <= 1
    decreases |s|
  {
    if s != [] {
      var t := s[1..];
      DistinctCount(t, x);
      assert s == [s[0]] + t;
      assert forall k :: 0 <= k < |t| ==> t[k] == s[k + 1];
      assert s[0] !in t;
    }
  }

  /** Two equal entries make a name occur twice. */
  lemma RepeatCounted(s: seq<string>, i: int, j: int)
    requires 0 <= i < j < |s|
    ensures s[i] == s[j] ==> multiset(s)[s[i]] >= 2
  {
    assert s == s[..j] + s[j..];
    assert s[..j][i] == s[i] && s[j..][0] == s[j];
    assert s[i] in multiset(s[..j]) && s[j] in multiset(s[j..]);
  }

  /** A list that holds each name at most once has no repeats. */
  lemma CountDistinct(s: seq<string>)
    requires forall x :: multiset(s)[x] <= 1
    ensures forall i, j :: 0 <= i < j < |s| ==> s[i] != s[j]
  {
    forall i, j | 0 <= i < j < |s| ensures s[i] != s[j] {
      RepeatCounted(s, i, j);
    }
  }

  /** Sorting a list without repeats gives a list without repeats. */
  lemma SortedDistinct(s: seq<string>)
    requires forall i, j :: 0 <= i < j < |s| ==> s[i] != s[j]
    ensures var r := SortStrings(s);
      forall i, j :: 0 <= i < j < |r| ==> r[i] != r[j]
  {
    forall x { DistinctCount(s, x); }
    CountDistinct(SortStrings(s));
  }
}
