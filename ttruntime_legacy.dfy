/**
 * The first collector (src/ttruntime.js): violation payloads are merged in a
 * `Map` keyed by the string `file:line:column`, and the report prints the
 * total number of sightings.
 */
module LegacyRuntime {
  import opened Wrappers
  import opened JsStrings
  import opened CspReports
  import opened ViolationReports

  /** The length of the list stored under `key`, 0 when there is none. */
  function LengthAt(lists: map<string, seq<CspReport>>, key: string): nat
  {
    if key in lists then |lists[key]| else 0
  }

  /**
   * A JavaScript `Map` from key strings to lists of whole reports: the keys in
   * insertion order, which is the order `values()` visits them in.
   */
  datatype ViolationMap = ViolationMap(keys: seq<string>, lists: map<string, seq<CspReport>>)
  {
    ghost predicate Valid()
    {
      (forall i, j :: 0 <= i < j < |keys| ==> keys[i] != keys[j])
      && (forall k :: k in lists <==> k in keys)
    }

    /** `map.set(key, value)`: a new key goes last, an existing one keeps its place. */
    function Set(key: string, value: seq<CspReport>): ViolationMap
    {
      ViolationMap(if key in lists then keys else keys + [key], lists[key := value])
    }

    /** `Array.from(map.values()).map((arr) => arr.length)` */
    function Lengths(): seq<nat>
    {
      seq(|keys|, i requires 0 <= i < |keys| => LengthAt(lists, keys[i]))
    }
  }

  const Empty: ViolationMap := ViolationMap([], map[])

  /** The key `parseViolation` files a report under. */
  function ReportKey(report: CspReport): string
  {
    ViolationReport.ToKey(report.sourceFile, report.lineNumber, report.columnNumber)
  }

  /**
   * The map after `parseViolation`: a payload without `csp-report` changes
   * nothing; otherwise the whole report is appended to the list under its key,
   * which is created (last, empty) on first sighting, and no other list changes.
   */
  function Parsed(m: ViolationMap, payload: Option<CspReport>): (r: ViolationMap)
    ensures payload.None? ==> r == m
    ensures payload.Some? ==>
      var key := ReportKey(payload.value);
      && key in r.lists
      && r.lists[key] == (if key in m.lists then m.lists[key] else []) + [payload.value]
      && r.keys == (if key in m.lists then m.keys else m.keys + [key])
      && forall k :: k != key ==> (k in r.lists <==> k in m.lists) && (k in m.lists ==> r.lists[k] == m.lists[k])
  {
    match payload
    case None => m
    case Some(report) =>
      var location := ReportKey(report);
      var created := if location in m.lists then m else m.Set(location, []);
      created.Set(location, created.lists[location] + [report])
  }

  /** Payloads arriving one after the other. */
  function ParsedAll(m: ViolationMap, payloads: seq<Option<CspReport>>): ViolationMap
    decreases |payloads|
  {
    if payloads == [] then m
    else Parsed(ParsedAll(m, payloads[..|payloads| - 1]), payloads[|payloads| - 1])
  }

  /** One more payload is parsed onto the map the earlier ones built. */
  lemma {:induction false} ParsedAllSnoc(m: ViolationMap, payloads: seq<Option<CspReport>>, payload: Option<CspReport>)
    ensures ParsedAll(m, payloads + [payload]) == Parsed(ParsedAll(m, payloads), payload)
  {
    assert (payloads + [payload])[..|payloads|] == payloads;
  }

  /** How many payloads carry a `csp-report`. */
  function Accepted(payloads: seq<Option<CspReport>>): nat
    decreases |payloads|
  {
    if payloads == [] then 0
    else Accepted(payloads[..|payloads| - 1]) + (if payloads[|payloads| - 1].Some? then 1 else 0)
  }

  /** The total of the report: the sum of the list lengths. */
  function Total(m: ViolationMap): nat
  {
    Sum(m.Lengths())
  }

  /**
   * The summary line of `printReport`. The reduce has no initial value, so an
   * empty map throws (`None`); otherwise the line states the total.
   */
  function ReportSummary(m: ViolationMap): (r: Option<string>)
    ensures r.None? <==> m.keys == []
    ensures r.Some? ==> r.value == SummaryLine(Total(m))
  {
    match ReduceWithoutInitial(m.Lengths())
    case None => None
    case Some(violationsCount) => Some(SummaryLine(violationsCount))
  }

  class Collector {
    /** The module-level `violations` map. */
    var violations: ViolationMap

    constructor ()
      ensures violations == Empty && violations.Valid()
    {
      violations := Empty;
    }

    /** `parseViolation`, applied to a payload whose JSON is already parsed. */
    method ParseViolation(payload: Option<CspReport>)
      requires violations.Valid()
      modifies this
      ensures violations.Valid()
      ensures violations == Parsed(old(violations), payload)
    {
      match payload {
        case None =>
        case Some(report) =>
          var location := ReportKey(report);
          if location !in violations.lists {
            violations := violations.Set(location, []);
          }
          violations := violations.Set(location, violations.lists[location] + [report]);
      }
      ParsedValid(old(violations), payload);
    }
  }

  lemma {:induction false} ParsedValid(m: ViolationMap, payload: Option<CspReport>)
    requires m.Valid()
    ensures Parsed(m, payload).Valid()
  {
  }

  lemma {:induction false} LengthsAfterSetExisting(m: ViolationMap, i: nat, value: seq<CspReport>)
    requires m.Valid() && i < |m.keys|
    ensures m.Set(m.keys[i], value).Lengths() == m.Lengths()[i := |value|]
  {
    var r := m.Set(m.keys[i], value);
    assert r.keys == m.keys;
    forall j | 0 <= j < |m.keys|
      ensures r.Lengths()[j] == m.Lengths()[i := |value|][j]
    {
      if j != i { assert m.keys[j] != m.keys[i]; }
    }
  }

  /** A report under a key already present adds one to that key's count. */
  lemma {:induction false} ParsedTotalExisting(m: ViolationMap, report: CspReport, i: nat)
    requires m.Valid() && i < |m.keys| && m.keys[i] == ReportKey(report)
    ensures Total(Parsed(m, Some(report))) == Total(m) + 1
  {
    var key := ReportKey(report);
    assert Parsed(m, Some(report)).Lengths() == m.Lengths()[i := |m.lists[key]| + 1] by {
      assert Parsed(m, Some(report)) == m.Set(key, m.lists[key] + [report]);
      LengthsAfterSetExisting(m, i, m.lists[key] + [report]);
    }
    assert m.Lengths()[i] == |m.lists[key]|;
    SumIncrement(m.Lengths(), i);
  }

  /** A report under a new key adds a count of one at the end. */
  lemma {:induction false} ParsedTotalNew(m: ViolationMap, report: CspReport)
    requires m.Valid() && ReportKey(report) !in m.lists
    ensures Total(Parsed(m, Some(report))) == Total(m) + 1
  {
    var key := ReportKey(report);
    var r := Parsed(m, Some(report));
    assert r.keys == m.keys + [key] && r.lists[key] == [report];
    forall j | 0 <= j < |m.keys|
      ensures r.Lengths()[j] == m.Lengths()[j]
    {
      assert m.keys[j] in m.lists;
    }
    assert r.Lengths()[|m.keys|] == 1;
    assert r.Lengths() == m.Lengths() + [1];
    SumAppend(m.Lengths(), [1]);
  }

  /** Every accepted payload adds exactly one to the total. */
  lemma {:induction false} ParsedTotal(m: ViolationMap, payload: Option<CspReport>)
    requires m.Valid()
    ensures Total(Parsed(m, payload)) == Total(m) + (if payload.Some? then 1 else 0)
  {
    if payload.Some? {
      var key := ReportKey(payload.value);
      if key in m.lists {
        var i :| 0 <= i < |m.keys| && m.keys[i] == key;
        ParsedTotalExisting(m, payload.value, i);
      } else {
        ParsedTotalNew(m, payload.value);
      }
    }
  }

  /**
   * The invariant of the collector: after any arrival sequence the map is
   * well formed and its total is the number of payloads that carried a report.
   */
  lemma {:induction false} TotalCountsAccepted(payloads: seq<Option<CspReport>>)
    ensures ParsedAll(Empty, payloads).Valid()
    ensures Total(ParsedAll(Empty, payloads)) == Accepted(payloads)
    decreases |payloads|
  {
    if payloads != [] {
      var before := payloads[..|payloads| - 1];
      TotalCountsAccepted(before);
      ParsedValid(ParsedAll(Empty, before), payloads[|payloads| - 1]);
      ParsedTotal(ParsedAll(Empty, before), payloads[|payloads| - 1]);
    }
  }

  /** `n` copies of `x`, built the way payloads arrive: one more at the end. */
  function Repeat<T>(x: T, n: nat): (r: seq<T>)
    ensures |r| == n
    decreases n
  {
    if n == 0 then [] else Repeat(x, n - 1) + [x]
  }

  /** A report whose key is the only one present joins that key's list. */
  lemma {:induction false} ParsedOnto(m: ViolationMap, report: CspReport, reports: seq<CspReport>)
    requires m.keys == [ReportKey(report)] && m.lists == map[ReportKey(report) := reports]
    ensures Parsed(m, Some(report)) == ViolationMap([ReportKey(report)], map[ReportKey(report) := reports + [report]])
  {
  }

  /** The first report makes the first key. */
  lemma {:induction false} ParsedFirst(report: CspReport)
    ensures Parsed(Empty, Some(report)) == ViolationMap([ReportKey(report)], map[ReportKey(report) := [report]])
  {
    var key := ReportKey(report);
    var created := Empty.Set(key, []);
    assert created.keys == [key];
    assert created.lists[key] + [report] == [report];
    assert created.lists[key := [report]] == map[key := [report]];
  }

  /** The same report arriving `n` times gives one key whose list holds it `n` times. */
  lemma {:induction false} RepeatedSightings(report: CspReport, n: nat)
    requires n >= 1
    ensures var m := ParsedAll(Empty, Repeat(Some(report), n));
      m.keys == [ReportKey(report)] && m.lists == map[ReportKey(report) := Repeat(report, n)]
    decreases n
  {
    var payloads := Repeat(Some(report), n);
    assert payloads[..n - 1] == Repeat(Some(report), n - 1);
    if n > 1 {
      RepeatedSightings(report, n - 1);
      ParsedOnto(ParsedAll(Empty, Repeat(Some(report), n - 1)), report, Repeat(report, n - 1));
    } else {
      ParsedFirst(report);
    }
  }

  /**
   * Two reports end up under one key exactly when their file, line and column
   * agree; otherwise they make two entries.
   */
  lemma {:induction false} MergeIffSameLocation(a: CspReport, b: CspReport)
    ensures var m := Parsed(Parsed(Empty, Some(a)), Some(b));
      (|m.keys| == 1 <==> (a.sourceFile, a.lineNumber, a.columnNumber) == (b.sourceFile, b.lineNumber, b.columnNumber))
      && |m.keys| in {1, 2}
  {
    ToKeyInjective(a.sourceFile, a.lineNumber, a.columnNumber, b.sourceFile, b.lineNumber, b.columnNumber);
  }

  lemma {:induction false} SummaryOfThree()
    ensures SummaryLine(3) == "Found 3 violations."
  {
    assert IntToDecimal(3) == "3";
  }

  /** Two reports at one location make one key listing both. */
  lemma {:induction false} TwoAtOneKey(a: CspReport, b: CspReport)
    requires ReportKey(a) == ReportKey(b)
    ensures ParsedAll(Empty, [Some(a)] + [Some(b)]) == ViolationMap([ReportKey(a)], map[ReportKey(a) := [a, b]])
  {
    ParsedAllOne(a);
    ParsedAllSnoc(Empty, [Some(a)], Some(b));
    ParsedOnto(ParsedAll(Empty, [Some(a)]), b, [a]);
    assert [a] + [b] == [a, b];
  }

  /** A single payload makes a single key listing its report. */
  lemma {:induction false} ParsedAllOne(a: CspReport)
    ensures ParsedAll(Empty, [Some(a)]) == ViolationMap([ReportKey(a)], map[ReportKey(a) := [a]])
  {
    assert [Some(a)][..0] == [];
    ParsedFirst(a);
  }

  /** A report at a second location goes after the first key, in a list of its own. */
  lemma {:induction false} SecondKey(m: ViolationMap, reports: seq<CspReport>, c: CspReport)
    requires |m.keys| == 1 && m.lists == map[m.keys[0] := reports] && ReportKey(c) != m.keys[0]
    ensures var r := Parsed(m, Some(c));
      && r.keys == [m.keys[0], ReportKey(c)]
      && r.lists[m.keys[0]] == reports && r.lists[ReportKey(c)] == [c]
      && Total(r) == |reports| + 1
  {
    var r := Parsed(m, Some(c));
    assert r.keys == m.keys + [ReportKey(c)];
    assert r.Lengths() == [|reports|, 1] by {
      assert r.Lengths()[0] == |reports| && r.Lengths()[1] == 1;
    }
    assert Sum([1]) == 1 by { assert [1][1..] == []; }
    assert Sum([|reports|, 1]) == |reports| + Sum([1]) by { assert [|reports|, 1][1..] == [1]; }
  }

  /**
   * Three payloads, the first two at one location and the third at another,
   * make two entries in arrival order, the first holding two reports, and a
   * summary of three violations.
   */
  lemma {:induction false} ThreePayloads(a: CspReport, b: CspReport, c: CspReport)
    requires ReportKey(a) == ReportKey(b) && ReportKey(c) != ReportKey(a)
    ensures
      var m := ParsedAll(Empty, [Some(a)] + [Some(b)] + [Some(c)]);
      m.keys == [ReportKey(a), ReportKey(c)]
      && ReportKey(a) in m.lists && m.lists[ReportKey(a)] == [a, b]
      && ReportKey(c) in m.lists && m.lists[ReportKey(c)] == [c]
      && ReportSummary(m) == Some("Found 3 violations.")
  {
    ThreeEntries(a, b, c);
    SummaryOfThree();
  }

  /** The entries and the total of the three payloads above. */
  lemma {:induction false} ThreeEntries(a: CspReport, b: CspReport, c: CspReport)
    requires ReportKey(a) == ReportKey(b) && ReportKey(c) != ReportKey(a)
    ensures
      var m := ParsedAll(Empty, [Some(a)] + [Some(b)] + [Some(c)]);
      m.keys == [ReportKey(a), ReportKey(c)]
      && ReportKey(a) in m.lists && m.lists[ReportKey(a)] == [a, b]
      && ReportKey(c) in m.lists && m.lists[ReportKey(c)] == [c]
      && Total(m) == 3
  {
    var p2 := [Some(a)] + [Some(b)];
    var m2 := ParsedAll(Empty, p2);
    var m := Parsed(m2, Some(c));
    assert m.keys == [ReportKey(a), ReportKey(c)]
      && ReportKey(a) in m.lists && m.lists[ReportKey(a)] == [a, b]
      && ReportKey(c) in m.lists && m.lists[ReportKey(c)] == [c]
      && Total(m) == 3
    by {
      TwoAtOneKey(a, b);
      SecondKey(m2, [a, b], c);
    }
    ParsedAllSnoc(Empty, p2, Some(c));
  }
}
