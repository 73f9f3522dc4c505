/**
 The pieces of JavaScript's string library the program relies on:
 `String.prototype.trim`, `split` on one character, decimal formatting and
 parsing of whole numbers, and `Array.prototype.map` followed by `join('')`.
 */
module Text {
  import opened Wrappers

  /** ECMAScript LineTerminator: the characters a regular-expression `.` does not match. */
  predicate IsLineTerminator(c: char)
  {
    c == '\n' || c == '\r' || c == '\U{2028}' || c == '\U{2029}'
  }

  /** ECMAScript WhiteSpace or LineTerminator: what `trim` removes. */
  predicate IsWhitespace(c: char)
  {
    || IsLineTerminator(c)
    || c == '\t' || c == '\U{0B}' || c == '\U{0C}' || c == ' ' || c == '\U{A0}' || c == '\U{FEFF}'
    || c == '\U{1680}' || ('\U{2000}' <= c <= '\U{200A}') || c == '\U{202F}' || c == '\U{205F}' || c == '\U{3000}'
  }

  predicate AllWhitespace(s: string)
  {
    forall i :: 0 <= i < |s| ==> IsWhitespace(s[i])
  }

  /** How many whitespace characters `trimStart` removes. */
  function LeadingSpace(s: string): (n: nat)
    ensures n <= |s|
    ensures forall i :: 0 <= i < n ==> IsWhitespace(s[i])
    ensures n < |s| ==> !IsWhitespace(s[n])
  {
    if s != [] && IsWhitespace(s[0]) then 1 + LeadingSpace(s[1..]) else 0
  }

  /** How many whitespace characters `trimEnd` removes. */
  function TrailingSpace(s: string): (n: nat)
    ensures n <= |s|
    ensures forall i :: |s| - n <= i < |s| ==> IsWhitespace(s[i])
    ensures n < |s| ==> !IsWhitespace(s[|s| - 1 - n])
  {
    if s != [] && IsWhitespace(s[|s| - 1]) then 1 + TrailingSpace(s[..|s| - 1]) else 0
  }

  /** `s.trim()`: the input without the whitespace at either end. */
  function Trim(s: string): (r: string)
    ensures exists lead, trail :: AllWhitespace(lead) && AllWhitespace(trail) && s == lead + r + trail
    ensures r == [] <==> AllWhitespace(s)
    ensures r != [] ==> !IsWhitespace(r[0]) && !IsWhitespace(r[|r| - 1])
  {
    var a := LeadingSpace(s);
    var b := if a == |s| then |s| else |s| - TrailingSpace(s);
    TrimShape(s, a, b);
    s[a..b]
  }

  /** The characters outside s[a..b] are whitespace and its end characters are not: the shape `trim` leaves. */
  lemma TrimShape(s: string, a: nat, b: nat)
    requires a <= b <= |s|
    requires forall i :: 0 <= i < a ==> IsWhitespace(s[i])
    requires forall i :: b <= i < |s| ==> IsWhitespace(s[i])
    requires a < b ==> !IsWhitespace(s[a]) && !IsWhitespace(s[b - 1])
    ensures exists lead, trail :: AllWhitespace(lead) && AllWhitespace(trail) && s == lead + s[a..b] + trail
    ensures s[a..b] == [] <==> AllWhitespace(s)
  {
    assert s == s[..a] + s[a..b] + s[b..];
    assert AllWhitespace(s[..a]) && AllWhitespace(s[b..]);
    if a < b {
      assert !IsWhitespace(s[a]);
    }
  }

  /** `s.split(sep)` for a one-character separator: never empty, and "" splits to [""]. */
  function Split(s: string, sep: char): (parts: seq<string>)
    ensures |parts| >= 1
  {
    if s == [] then [""]
    else
      var rest := Split(s[1..], sep);
      if s[0] == sep then [""] + rest else [[s[0]] + rest[0]] + rest[1..]
  }

  /** A string without the separator splits to itself alone. */
  lemma {:induction false} SplitNoSeparator(s: string, sep: char)
    requires sep !in s
    ensures Split(s, sep) == [s]
  {
    if s != [] {
      SplitNoSeparator(s[1..], sep);
      assert [s[0]] + s[1..] == s;
    }
  }

  /** Splitting at the first separator: the piece before it, then the split of the rest. */
  lemma {:induction false} SplitAtFirst(a: string, sep: char, b: string)
    requires sep !in a
    ensures Split(a + [sep] + b, sep) == [a] + Split(b, sep)
  {
    if a == [] {
      assert a + [sep] + b == [sep] + b;
      assert ([sep] + b)[1..] == b;
    } else {
      SplitAtFirst(a[1..], sep, b);
      assert (a + [sep] + b)[1..] == a[1..] + [sep] + b;
      assert [a[0]] + a[1..] == a;
    }
  }

  predicate IsDigit(c: char)
  {
    '0' <= c <= '9'
  }

  predicate AllDigits(s: string)
  {
    forall i :: 0 <= i < |s| ==> IsDigit(s[i])
  }

  function DigitChar(d: nat): (c: char)
    requires d < 10
    ensures IsDigit(c)
  {
    ['0', '1', '2', '3', '4', '5', '6', '7', '8', '9'][d]
  }

  /** The value of a string of decimal digits, most significant first. */
  function DigitsValue(s: string): nat
    requires AllDigits(s)
  {
    if s == [] then 0 else 10 * DigitsValue(s[..|s| - 1]) + (s[|s| - 1] as int - '0' as int)
  }

  /** `${n}` for a whole number: its decimal digits, without leading zeros. */
  function NatToString(n: nat): (s: string)
    ensures s != [] && AllDigits(s)
    ensures |s| > 1 ==> s[0] != '0'
    ensures DigitsValue(s) == n
  {
    if n < 10 then [DigitChar(n)]
    else
      var s := NatToString(n / 10) + [DigitChar(n % 10)];
      assert s[..|s| - 1] == NatToString(n / 10);
      s
  }

  /**
   `Number(s)` where `s` is a non-empty run of decimal digits (leading zeros allowed,
   as `Number("007")` is 7); every other string is `None`.
   */
  function ParseNat(s: string): (r: Option<nat>)
    ensures r.Some? <==> s != [] && AllDigits(s)
    ensures r.Some? ==> r.value == DigitsValue(s)
  {
    if s != [] && AllDigits(s) then Some(DigitsValue(s)) else None
  }

  /** `xs.map(f).join('')`: the pieces laid end to end. */
  function Join<T>(f: T -> string, xs: seq<T>): string
  {
    if xs == [] then "" else f(xs[0]) + Join(f, xs[1..])
  }

  /** Joining distributes over concatenation of the list. */
  lemma {:induction false} JoinAppend<T>(f: T -> string, xs: seq<T>, ys: seq<T>)
    ensures Join(f, xs + ys) == Join(f, xs) + Join(f, ys)
  {
    if xs != [] {
      JoinAppend(f, xs[1..], ys);
      assert (xs + ys)[1..] == xs[1..] + ys;
    } else {
      assert xs + ys == ys;
    }
  }

  /** The piece for the i-th element stands right after the pieces of the elements before it. */
  lemma JoinPieceAt<T>(f: T -> string, xs: seq<T>, i: nat)
    requires i < |xs|
    ensures var at := |Join(f, xs[..i])|;
      at + |f(xs[i])| <= |Join(f, xs)| && Join(f, xs)[at..at + |f(xs[i])|] == f(xs[i])
  {
    assert xs == xs[..i] + [xs[i]] + xs[i + 1..];
    JoinAppend(f, xs[..i] + [xs[i]], xs[i + 1..]);
    JoinAppend(f, xs[..i], [xs[i]]);
    assert Join(f, [xs[i]]) == f(xs[i]);
  }
}
