/**
 * The few JavaScript string operations the tool relies on: rendering an integer
 * inside a template literal, reading a field back with unary `+`,
 * `String.prototype.split` on one character, `Array.prototype.join`,
 * substring search and `String.prototype.replace` with a string pattern.
 */
module JsStrings {
  import opened Wrappers

  predicate IsDigit(c: char) { '0' <= c <= '9' }

  predicate AllDigits(s: string) { forall i :: 0 <= i < |s| ==> IsDigit(s[i]) }

  function DigitChar(d: nat): (c: char)
    requires d < 10
    ensures IsDigit(c) && c as int - '0' as int == d
  {
    ('0' as int + d) as char
  }

  /** The value of a string of decimal digits (leading zeros allowed). */
  function DecimalValue(s: string): nat
    requires AllDigits(s)
    decreases |s|
  {
    if s == [] then 0
    else 10 * DecimalValue(s[..|s| - 1]) + (s[|s| - 1] as int - '0' as int)
  }

  /** How a template literal renders a non-negative integral number. */
  function NatToDecimal(n: nat): (s: string)
    ensures |s| >= 1 && AllDigits(s)
    ensures DecimalValue(s) == n
    ensures |s| == 1 || s[0] != '0'
    decreases n
  {
    if n < 10 then [DigitChar(n)]
    else
      var high := NatToDecimal(n / 10);
      assert (high + [DigitChar(n % 10)])[..|high|] == high;
      high + [DigitChar(n % 10)]
  }

  /** How a template literal renders an integral number: `${n}`. */
  function IntToDecimal(n: int): (s: string)
    ensures |s| >= 1
    ensures forall i :: 0 <= i < |s| ==> IsDigit(s[i]) || (i == 0 && s[i] == '-')
  {
    if n < 0 then "-" + NatToDecimal(-n) else NatToDecimal(n)
  }

  /**
   * Unary `+` applied to a string field, with `None` for NaN: the empty string
   * reads as 0 and an optionally signed run of decimal digits as its value.
   */
  function ReadNumber(s: string): (r: Option<int>)
    ensures AllDigits(s) ==> r == Some(DecimalValue(s))
    ensures r.Some? && s != [] ==> IsDigit(s[0]) || s[0] == '-' || s[0] == '+'
  {
    if AllDigits(s) then Some(DecimalValue(s))
    else if |s| > 1 && s[0] == '-' && AllDigits(s[1..]) then Some(-(DecimalValue(s[1..]) as int))
    else if |s| > 1 && s[0] == '+' && AllDigits(s[1..]) then Some(DecimalValue(s[1..]))
    else None
  }

  /** Reading a rendered integer back gives the integer. */
  lemma {:induction false} ReadRenderedNumber(n: int)
    ensures ReadNumber(IntToDecimal(n)) == Some(n)
  {
    if n < 0 {
      var digits := NatToDecimal(-n);
      assert ("-" + digits)[1..] == digits;
      assert !IsDigit(("-" + digits)[0]);
    }
  }

  /** Distinct integers render as distinct strings. */
  lemma {:induction false} IntToDecimalInjective(a: int, b: int)
    requires IntToDecimal(a) == IntToDecimal(b)
    ensures a == b
  {
    ReadRenderedNumber(a);
    ReadRenderedNumber(b);
  }

  /** `s.split(sep)` for a one-character separator: never empty, one piece per separator plus one. */
  function Split(s: string, sep: char): (parts: seq<string>)
    ensures |parts| >= 1
    ensures forall k :: 0 <= k < |parts| ==> sep !in parts[k]
    ensures sep !in s ==> parts == [s]
    decreases |s|
  {
    if s == [] then [""]
    else
      var rest := Split(s[1..], sep);
      assert s == [s[0]] + s[1..];
      if s[0] == sep then [""] + rest
      else [[s[0]] + rest[0]] + rest[1..]
  }

  /** Splitting at the first separator: the text before it is the first piece. */
  lemma {:induction false} SplitAtFirst(a: string, sep: char, b: string)
    requires sep !in a
    ensures Split(a + [sep] + b, sep) == [a] + Split(b, sep)
    decreases |a|
  {
    if a == [] {
      assert a + [sep] + b == [sep] + b;
      assert ([sep] + b)[1..] == b;
    } else {
      var s := a + [sep] + b;
      var rest := Split(s[1..], sep);
      assert rest == [a[1..]] + Split(b, sep) by {
        assert s[1..] == a[1..] + [sep] + b;
        SplitAtFirst(a[1..], sep, b);
      }
      assert s[0] == a[0] && [a[0]] + a[1..] == a;
      assert Split(s, sep) == [[a[0]] + rest[0]] + rest[1..];
    }
  }

  /** `parts.join(sep)` */
  function Join(parts: seq<string>, sep: string): string
    decreases |parts|
  {
    if parts == [] then ""
    else if |parts| == 1 then parts[0]
    else parts[0] + sep + Join(parts[1..], sep)
  }

  /** Splitting what was joined on a separator no part contains gives the parts back. */
  lemma {:induction false} SplitJoin(parts: seq<string>, sep: char)
    requires |parts| >= 1
    requires forall k :: 0 <= k < |parts| ==> sep !in parts[k]
    ensures Split(Join(parts, [sep]), sep) == parts
    decreases |parts|
  {
    if |parts| == 1 {
    } else {
      SplitJoin(parts[1..], sep);
      SplitAtFirst(parts[0], sep, Join(parts[1..], [sep]));
      assert parts[0] + [sep] + Join(parts[1..], [sep]) == Join(parts, [sep]);
      assert [parts[0]] + parts[1..] == parts;
    }
  }

  /** `pattern` occurs in `s` starting at index `i`. */
  predicate OccursAt(s: string, pattern: string, i: nat)
  {
    i + |pattern| <= |s| && s[i..i + |pattern|] == pattern
  }

  /** The first index at or after `from` where `pattern` occurs. */
  function IndexOfFrom(s: string, pattern: string, from: nat): (r: Option<nat>)
    requires from <= |s|
    ensures r.Some? ==> from <= r.value && OccursAt(s, pattern, r.value)
    ensures r.Some? ==> forall j :: from <= j < r.value ==> !OccursAt(s, pattern, j)
    ensures r.None? ==> forall j :: from <= j <= |s| ==> !OccursAt(s, pattern, j)
    decreases |s| - from
  {
    if OccursAt(s, pattern, from) then Some(from)
    else if from == |s| then None
    else IndexOfFrom(s, pattern, from + 1)
  }

  /** `pattern` occurs somewhere in `s`: the line match of `grep pattern`. */
  predicate Contains(s: string, pattern: string)
  {
    IndexOfFrom(s, pattern, 0).Some?
  }

  lemma {:induction false} OccurrenceContained(s: string, pattern: string, i: nat)
    requires OccursAt(s, pattern, i)
    ensures Contains(s, pattern)
  {
  }

  /**
   * `s.replace(pattern, replacement)` with a string pattern: only the first
   * occurrence is replaced, and `s` is returned as it is when there is none.
   */
  function ReplaceFirst(s: string, pattern: string, replacement: string): (r: string)
    ensures (forall j :: 0 <= j <= |s| ==> !OccursAt(s, pattern, j)) ==> r == s
    ensures forall i: nat :: FirstOccurrence(s, pattern, i) ==> r == s[..i] + replacement + s[i + |pattern|..]
    ensures |replacement| == |pattern| ==> |r| == |s|
  {
    match IndexOfFrom(s, pattern, 0)
    case None => s
    case Some(i) =>
      assert forall i': nat :: FirstOccurrence(s, pattern, i') ==> i' == i;
      s[..i] + replacement + s[i + |pattern|..]
  }

  /** `i` is where `pattern` occurs first in `s`. */
  predicate FirstOccurrence(s: string, pattern: string, i: nat)
  {
    OccursAt(s, pattern, i) && forall j :: 0 <= j < i ==> !OccursAt(s, pattern, j)
  }

  /** Wherever `pattern` occurs, it has a first occurrence at or before that place. */
  lemma {:induction false} FirstOccurrenceExists(s: string, pattern: string, j: nat)
    requires OccursAt(s, pattern, j)
    ensures exists i: nat :: i <= j && FirstOccurrence(s, pattern, i)
  {
    var i := IndexOfFrom(s, pattern, 0).value;
    assert FirstOccurrence(s, pattern, i);
  }
}
