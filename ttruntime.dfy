/**
 * The TypeScript collector (src/ttruntime.ts). Its `Map` is keyed by an
 * object literal built afresh for every payload, and a `Map` compares object
 * keys by identity, so `has` never finds an earlier entry: every payload gets
 * an entry of its own. The report-only policy header it adds to every
 * document response is modelled here too.
 */
module Runtime {
  import opened Wrappers
  import opened JsStrings
  import opened CspReports
  import opened Localization

  /** The object literal `{path, line, column}` used as a map key. */
  class LocationKey {
    const path: string
    const line: int
    const column: int

    constructor (path: string, line: int, column: int)
      ensures this.path == path && this.line == line && this.column == column
    {
      this.path := path;
      this.line := line;
      this.column := column;
    }

    /** The location the key object stands for. */
    function Value(): Location
    {
      Location(path, line, column)
    }
  }

  /** One `Map` entry: the key object and the array of script samples. */
  datatype Entry = Entry(key: LocationKey, samples: seq<string>)

  /** `Array.from(violations.values())` reduced to the sample counts. */
  function SampleCounts(entries: seq<Entry>): (counts: seq<nat>)
    ensures |counts| == |entries|
    ensures forall i :: 0 <= i < |entries| ==> counts[i] == |entries[i].samples|
  {
    seq(|entries|, i requires 0 <= i < |entries| => |entries[i].samples|)
  }

  /** The summary line of `printReport`: the reduce starts at 0, so an empty map gives 0. */
  function ReportSummary(entries: seq<Entry>): (line: string)
    ensures line == SummaryLine(Sum(SampleCounts(entries)))
    ensures entries == [] ==> line == "Found 0 violations."
  {
    assert IntToDecimal(0) == "0";
    SummaryLine(ReduceFromZero(SampleCounts(entries)))
  }

  class Collector {
    /** The module-level `violations` map, in insertion order. */
    var violations: seq<Entry>

    /** A `Map` holds each key object once. */
    ghost predicate Valid()
      reads this
    {
      forall i, j :: 0 <= i < j < |violations| ==> violations[i].key != violations[j].key
    }

    constructor ()
      ensures violations == [] && Valid()
    {
      violations := [];
    }

    /** `violations.has(location)`: an entry whose key is this very object. */
    method Has(location: LocationKey) returns (found: bool)
      ensures found <==> exists i :: 0 <= i < |violations| && violations[i].key == location
    {
      found := false;
      var i := 0;
      while i < |violations|
        invariant 0 <= i <= |violations|
        invariant !found <==> forall j :: 0 <= j < i ==> violations[j].key != location
      {
        if violations[i].key == location {
          found := true;
        }
        i := i + 1;
      }
    }

    /** Where `violations.get(location)` finds its array: an index, or -1 for `undefined`. */
    method IndexOf(location: LocationKey) returns (index: int)
      ensures -1 <= index < |violations|
      ensures index >= 0 ==> violations[index].key == location
      ensures index == -1 <==> forall j :: 0 <= j < |violations| ==> violations[j].key != location
    {
      index := -1;
      var i := 0;
      while i < |violations|
        invariant 0 <= i <= |violations|
        invariant -1 <= index < i
        invariant index >= 0 ==> violations[index].key == location
        invariant index == -1 <==> forall j :: 0 <= j < i ==> violations[j].key != location
      {
        if index == -1 && violations[i].key == location {
          index := i;
        }
        i := i + 1;
      }
    }

    /**
     * `saveViolation`, applied to a payload whose JSON is already parsed. A
     * payload without `csp-report` changes nothing; any other adds one entry
     * at the end, keyed by a new object for its location, holding its sample
     * alone, and leaves the earlier entries as they were.
     */
    method SaveViolation(payload: Option<CspReport>)
      requires Valid()
      modifies this
      ensures Valid()
      ensures payload.None? ==> violations == old(violations)
      ensures payload.Some? ==>
        && |violations| == |old(violations)| + 1
        && violations[..|old(violations)|] == old(violations)
        && fresh(violations[|old(violations)|].key)
        && violations[|old(violations)|].key.Value()
           == Location(payload.value.sourceFile, payload.value.lineNumber, payload.value.columnNumber)
        && violations[|old(violations)|].samples == [payload.value.scriptSample]
      ensures Sum(SampleCounts(violations)) == Sum(SampleCounts(old(violations))) + (if payload.Some? then 1 else 0)
    {
      match payload {
        case None =>
        case Some(report) =>
          var location := new LocationKey(report.sourceFile, report.lineNumber, report.columnNumber);
          var present := Has(location);
          if !present {
            violations := violations + [Entry(location, [])];
          }
          var index := IndexOf(location);
          if index >= 0 {
            violations := violations[index := Entry(location, violations[index].samples + [report.scriptSample])];
          }
          assert SampleCounts(violations) == SampleCounts(old(violations)) + [1];
          SumAppend(SampleCounts(old(violations)), [1]);
      }
    }
  }

  /**
   * As written, two payloads for the same location do not merge: the map
   * ends with two entries for that location, one sample each.
   */
  method SameLocationTwice(report: CspReport) returns (collector: Collector)
    ensures fresh(collector) && collector.Valid()
    ensures |collector.violations| == 2
    ensures collector.violations[0].key.Value() == collector.violations[1].key.Value()
    ensures collector.violations[0].samples == collector.violations[1].samples == [report.scriptSample]
  {
    collector := new Collector();
    collector.SaveViolation(Some(report));
    collector.SaveViolation(Some(report));
  }

  /** A location and the samples seen there, with locations compared as values. */
  datatype LocatedSamples = LocatedSamples(location: Location, samples: seq<string>)

  /** The first entry for `location`, if any. */
  function Find(entries: seq<LocatedSamples>, location: Location): (r: Option<nat>)
    ensures r.Some? ==> r.value < |entries| && entries[r.value].location == location
    ensures r.None? ==> forall i :: 0 <= i < |entries| ==> entries[i].location != location
    decreases |entries|
  {
    if entries == [] then None
    else if entries[0].location == location then Some(0)
    else match Find(entries[1..], location)
      case None => None
      case Some(i) => Some(i + 1)
  }

  /** The evidently intended `saveViolation`: a repeat sighting joins the entry for its location. */
  function SaveMerging(entries: seq<LocatedSamples>, payload: Option<CspReport>): (r: seq<LocatedSamples>)
  {
    match payload
    case None => entries
    case Some(report) =>
      var location := Location(report.sourceFile, report.lineNumber, report.columnNumber);
      match Find(entries, location)
      case None => entries + [LocatedSamples(location, [report.scriptSample])]
      case Some(i) => entries[i := LocatedSamples(location, entries[i].samples + [report.scriptSample])]
  }

  /** No two entries share a location. */
  predicate DistinctLocations(entries: seq<LocatedSamples>)
  {
    forall i, j :: 0 <= i < j < |entries| ==> entries[i].location != entries[j].location
  }

  /** The sample counts of the merged entries, in entry order, as `SampleCounts` gives them for the collector as written. */
  function MergedCounts(entries: seq<LocatedSamples>): seq<nat>
  {
    seq(|entries|, i requires 0 <= i < |entries| => |entries[i].samples|)
  }

  /**
   * The merging collector keeps one entry per location, and every accepted
   * payload adds exactly one sample to the total.
   */
  lemma {:induction false} SaveMergingKeepsCount(entries: seq<LocatedSamples>, payload: Option<CspReport>)
    requires DistinctLocations(entries)
    ensures DistinctLocations(SaveMerging(entries, payload))
    ensures Sum(MergedCounts(SaveMerging(entries, payload))) == Sum(MergedCounts(entries)) + (if payload.Some? then 1 else 0)
  {
    if payload.Some? {
      var report := payload.value;
      var location := Location(report.sourceFile, report.lineNumber, report.columnNumber);
      var r := SaveMerging(entries, payload);
      match Find(entries, location)
      case None =>
        assert MergedCounts(r) == MergedCounts(entries) + [1];
        SumAppend(MergedCounts(entries), [1]);
      case Some(i) =>
        assert MergedCounts(r) == MergedCounts(entries)[i := MergedCounts(entries)[i] + 1];
        SumIncrement(MergedCounts(entries), i);
    }
  }

  /** Payloads arriving one after the other at the merging collector. */
  function SaveMergingAll(entries: seq<LocatedSamples>, payloads: seq<Option<CspReport>>): seq<LocatedSamples>
    decreases |payloads|
  {
    if payloads == [] then entries
    else SaveMerging(SaveMergingAll(entries, payloads[..|payloads| - 1]), payloads[|payloads| - 1])
  }

  /** With merging, the same payload `n` times gives one entry holding its sample `n` times. */
  lemma {:induction false} RepeatedSightingsMerge(report: CspReport, n: nat)
    requires n >= 1
    ensures SaveMergingAll([], seq(n, _ => Some(report)))
      == [LocatedSamples(Location(report.sourceFile, report.lineNumber, report.columnNumber),
                         seq(n, _ => report.scriptSample))]
    decreases n
  {
    var payloads := seq(n, _ => Some(report));
    var location := Location(report.sourceFile, report.lineNumber, report.columnNumber);
    assert payloads[..n - 1] == seq(n - 1, _ => Some(report));
    var before := SaveMergingAll([], payloads[..n - 1]);
    assert SaveMergingAll([], payloads) == SaveMerging(before, Some(report));
    if n > 1 {
      RepeatedSightingsMerge(report, n - 1);
      assert Find(before, location) == Some(0);
      assert seq(n - 1, _ => report.scriptSample) + [report.scriptSample] == seq(n, _ => report.scriptSample);
    } else {
      assert before == [];
      assert [report.scriptSample] == seq(n, _ => report.scriptSample);
    }
  }

  /** One entry of the response's `headers` array. */
  datatype HeaderEntry = HeaderEntry(name: string, value: string)

  /** The caller's `responseHeaders` array, which the header is pushed onto. */
  class HeaderList {
    var entries: seq<HeaderEntry>

    constructor (entries: seq<HeaderEntry>)
      ensures this.entries == entries
    {
      this.entries := entries;
    }
  }

  const ReportOnlyHeaderName := "Content-Security-Policy-Report-Only"
  const TrustedTypesDirective := "require-trusted-types-for 'script'; report-uri "
  const DefaultEndpoint := "http://127.0.0.1:8080"

  /**
   * The report-only policy: trusted types required for scripts, reports sent
   * to the endpoint option, or to the default when it is absent or empty.
   */
  function ReportOnlyHeader(endpoint: Option<string>): (header: HeaderEntry)
    ensures header.name == ReportOnlyHeaderName
    ensures |header.value| > |TrustedTypesDirective|
      && header.value[..|TrustedTypesDirective|] == TrustedTypesDirective
    ensures endpoint.Some? && endpoint.value != "" ==> header.value[|TrustedTypesDirective|..] == endpoint.value
    ensures endpoint.None? || endpoint.value == "" ==> header.value[|TrustedTypesDirective|..] == DefaultEndpoint
  {
    var reportUri := if endpoint.Some? && endpoint.value != "" then endpoint.value else DefaultEndpoint;
    HeaderEntry(ReportOnlyHeaderName, TrustedTypesDirective + reportUri)
  }

  /**
   * The header part of `addCSPReportOnlyHeader`: the caller's array gets the
   * report-only header at its end and keeps every earlier header.
   */
  method AddCspReportOnlyHeader(responseHeaders: HeaderList, endpoint: Option<string>)
    modifies responseHeaders
    ensures responseHeaders.entries == old(responseHeaders.entries) + [ReportOnlyHeader(endpoint)]
  {
    var newHeaders := responseHeaders;
    newHeaders.entries := newHeaders.entries + [ReportOnlyHeader(endpoint)];
  }
}
