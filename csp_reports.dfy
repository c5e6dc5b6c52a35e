/**
 * What both runtime collectors share: the `csp-report` member of a violation
 * payload, the total of the evidence lists, and the summary line printed
 * before the list (src/ttruntime.js:93-97, src/ttruntime.ts:112-115).
 */
module CspReports {
  import opened Wrappers
  import opened JsStrings

  /** The fields of a `csp-report` the tool reads; the payload is taken as already parsed. */
  datatype CspReport = CspReport(sourceFile: string, lineNumber: int, columnNumber: int, scriptSample: string)

  /** The sum of a list of lengths, the reference the folds are compared with. */
  function Sum(xs: seq<nat>): nat
    decreases |xs|
  {
    if xs == [] then 0 else xs[0] + Sum(xs[1..])
  }

  /** `xs.reduce((x, y) => x + y, acc)`: a fold from the left. */
  function FoldAdd(acc: nat, xs: seq<nat>): nat
    decreases |xs|
  {
    if xs == [] then acc else FoldAdd(acc + xs[0], xs[1..])
  }

  /** The left fold adds the list to its starting value. */
  lemma {:induction false} FoldAddIsSum(acc: nat, xs: seq<nat>)
    ensures FoldAdd(acc, xs) == acc + Sum(xs)
    decreases |xs|
  {
    if xs != [] {
      FoldAddIsSum(acc + xs[0], xs[1..]);
    }
  }

  /**
   * `xs.reduce((x, y) => x + y)` with no initial value: it throws on an empty
   * array (`None`), and otherwise starts from the first element.
   */
  function ReduceWithoutInitial(xs: seq<nat>): (r: Option<nat>)
    ensures r.None? <==> xs == []
    ensures r.Some? ==> r.value == Sum(xs)
  {
    if xs == [] then None
    else
      FoldAddIsSum(xs[0], xs[1..]);
      Some(FoldAdd(xs[0], xs[1..]))
  }

  /** `xs.reduce((x, y) => x + y, 0)`: the sum, 0 for an empty array. */
  function ReduceFromZero(xs: seq<nat>): (r: nat)
    ensures r == Sum(xs)
    ensures xs == [] ==> r == 0
  {
    FoldAddIsSum(0, xs);
    FoldAdd(0, xs)
  }

  /** Sums of concatenated lists add up. */
  lemma {:induction false} SumAppend(xs: seq<nat>, ys: seq<nat>)
    ensures Sum(xs + ys) == Sum(xs) + Sum(ys)
    decreases |xs|
  {
    if xs == [] {
      assert xs + ys == ys;
    } else {
      SumAppend(xs[1..], ys);
      assert (xs + ys)[1..] == xs[1..] + ys;
    }
  }

  /** Adding one to one element adds one to the sum. */
  lemma {:induction false} SumIncrement(xs: seq<nat>, i: nat)
    requires i < |xs|
    ensures Sum(xs[i := xs[i] + 1]) == Sum(xs) + 1
    decreases |xs|
  {
    if i > 0 {
      SumIncrement(xs[1..], i - 1);
      assert xs[i := xs[i] + 1][1..] == xs[1..][i - 1 := xs[i] + 1];
    }
  }

  /** The plural suffix: none for exactly one. */
  function Plural(count: nat): string
  {
    if count == 1 then "" else "s"
  }

  /** `Found N violation.` for one, `Found N violations.` otherwise. */
  function SummaryLine(count: nat): (line: string)
    ensures count == 1 ==> line == "Found 1 violation."
    ensures count != 1 ==> line == "Found " + IntToDecimal(count) + " violations."
  {
    "Found " + IntToDecimal(count) + " violation" + Plural(count) + "."
  }

  /** The count is the first word after `Found `: the line gives the count back. */
  lemma {:induction false} SummaryLineCount(count: nat)
    ensures Split(SummaryLine(count)[6..], ' ')[0] == IntToDecimal(count)
    ensures ReadNumber(Split(SummaryLine(count)[6..], ' ')[0]) == Some(count as int)
  {
    var digits := IntToDecimal(count);
    var rest := "violation" + Plural(count) + ".";
    assert SummaryLine(count)[6..] == digits + [' '] + rest by {
      assert SummaryLine(count) == "Found " + (digits + [' '] + rest);
      AfterPrefix("Found ", digits + [' '] + rest);
    }
    assert Split(digits + [' '] + rest, ' ')[0] == digits by {
      assert ' ' !in digits by {
        assert forall i :: 0 <= i < |digits| ==> digits[i] != ' ';
      }
      SplitAtFirst(digits, ' ', rest);
    }
    ReadRenderedNumber(count);
  }

  /** What follows a prefix. */
  lemma {:induction false} AfterPrefix(prefix: string, text: string)
    ensures (prefix + text)[|prefix|..] == text
  {
  }

  /** Different totals give different summary lines. */
  lemma {:induction false} SummaryLineInjective(a: nat, b: nat)
    requires SummaryLine(a) == SummaryLine(b)
    ensures a == b
  {
    SummaryLineCount(a);
    SummaryLineCount(b);
  }
}
