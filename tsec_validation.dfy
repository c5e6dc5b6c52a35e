/**
 * The cross-check against tsec (src/tsecValidation.ts): tsec's diagnostics
 * are reduced to `path:line:column` lines, parsed into locations, and every
 * report that no parsed location matches is listed as missed by tsec.
 */
module TsecValidation {
  import opened Wrappers
  import opened JsStrings
  import opened Localization
  import opened ViolationReports
  import opened Ansi
  import opened CspReports

  /** The diagnostic code of a trusted-types violation in tsec's output. */
  const TrustedTypesError := "TS21228"

  /** `cut -d' ' -f1` on one line: the text before the first space, or the whole line. */
  function Cut(line: string): (field: string)
    ensures ' ' !in field
    ensures ' ' !in line ==> field == line
  {
    Split(line, ' ')[0]
  }

  /** `grep TS21228 | cut -d' ' -f1` on a list of lines. */
  function GrepCut(lines: seq<string>): (fields: seq<string>)
    ensures |fields| <= |lines|
    ensures forall k :: 0 <= k < |fields| ==> ' ' !in fields[k]
    decreases |lines|
  {
    if lines == [] then []
    else (if Contains(lines[0], TrustedTypesError) then [Cut(lines[0])] else []) + GrepCut(lines[1..])
  }

  /** Lines as a command writes them: each followed by a newline. */
  function Terminated(lines: seq<string>): (text: string)
    ensures lines == [] <==> text == ""
    ensures lines != [] ==> text[|text| - 1] == '\n'
    decreases |lines|
  {
    if lines == [] then "" else lines[0] + "\n" + Terminated(lines[1..])
  }

  /** What `cat <file> | grep TS21228 | cut -d' ' -f1` prints for a file with this text. */
  function TsecPipeline(fileText: string): (output: string)
    ensures output == "" || output[|output| - 1] == '\n'
    ensures ' ' !in output
  {
    var fields := GrepCut(Split(fileText, '\n'));
    TerminatedWithout(fields, ' ');
    Terminated(fields)
  }

  /** A character other than the newline is in the printed lines only if it is in one of them. */
  lemma {:induction false} TerminatedWithout(lines: seq<string>, c: char)
    requires c != '\n'
    requires forall k :: 0 <= k < |lines| ==> c !in lines[k]
    ensures c !in Terminated(lines)
    decreases |lines|
  {
    if lines != [] {
      TerminatedWithout(lines[1..], c);
      assert c !in lines[0];
      assert Terminated(lines) == lines[0] + "\n" + Terminated(lines[1..]);
    }
  }

  /** A location as parsed from tsec: `None` stands for a NaN coordinate. */
  datatype TsecError = TsecError(path: string, line: Option<int>, column: Option<int>)

  /** `+fields[k]`, where a missing field is `undefined` and reads as NaN. */
  function FieldNumber(fields: seq<string>, k: nat): Option<int>
  {
    if k < |fields| then ReadNumber(fields[k]) else None
  }

  /** `const [file, line, column] = err.split(':')` and the location built from it. */
  function ParseLine(line: string): (err: TsecError)
    ensures ':' !in err.path
    ensures ':' !in line ==> err == TsecError(line, None, None)
  {
    var fields := Split(line, ':');
    TsecError(fields[0], FieldNumber(fields, 1), FieldNumber(fields, 2))
  }

  /** `.filter(err => err.length)`: the non-empty lines, in their order. */
  function NonEmpty(lines: seq<string>): (kept: seq<string>)
    ensures |kept| <= |lines|
    ensures forall k :: 0 <= k < |kept| ==> kept[k] != ""
    decreases |lines|
  {
    if lines == [] then []
    else (if lines[0] == "" then [] else [lines[0]]) + NonEmpty(lines[1..])
  }

  /** `.map(...)`: each line parsed into a location. */
  function ParseEach(lines: seq<string>): (errs: seq<TsecError>)
  {
    seq(|lines|, k requires 0 <= k < |lines| => ParseLine(lines[k]))
  }

  /** The non-empty lines, each parsed, in order. */
  function ParseLines(lines: seq<string>): (errs: seq<TsecError>)
    ensures |errs| <= |lines|
  {
    ParseEach(NonEmpty(lines))
  }

  /** Only empty lines are dropped: with none every line is kept, with only empty ones none is. */
  lemma {:induction false} NonEmptyCases(lines: seq<string>)
    ensures (forall k :: 0 <= k < |lines| ==> lines[k] != "") ==> NonEmpty(lines) == lines
    ensures (forall k :: 0 <= k < |lines| ==> lines[k] == "") ==> NonEmpty(lines) == []
    decreases |lines|
  {
    if lines != [] {
      NonEmptyCases(lines[1..]);
      assert forall k :: 1 <= k < |lines| ==> lines[1..][k - 1] == lines[k];
      assert [lines[0]] + lines[1..] == lines;
    }
  }

  /** Every non-empty line gives one location, and a list of empty lines gives none. */
  lemma {:induction false} ParseLinesCount(lines: seq<string>)
    ensures (forall k :: 0 <= k < |lines| ==> lines[k] != "") ==> |ParseLines(lines)| == |lines|
    ensures (forall k :: 0 <= k < |lines| ==> lines[k] == "") ==> ParseLines(lines) == []
  {
    NonEmptyCases(lines);
  }

  /** Filtering a concatenation filters each part. */
  lemma {:induction false} NonEmptyAppend(a: seq<string>, b: seq<string>)
    ensures NonEmpty(a + b) == NonEmpty(a) + NonEmpty(b)
    decreases |a|
  {
    if a == [] {
      assert a + b == b;
    } else {
      var head := if a[0] == "" then [] else [a[0]];
      assert NonEmpty(a + b) == head + NonEmpty(a[1..] + b) by {
        assert (a + b)[0] == a[0];
        assert (a + b)[1..] == a[1..] + b;
      }
      NonEmptyAppend(a[1..], b);
    }
  }

  /** `parseTsecOutput`: strip colour codes, split into lines, drop empty ones, parse each. */
  function ParseTsecOutput(stdout: string): (errs: seq<TsecError>)
    ensures forall k :: 0 <= k < |errs| ==> ':' !in errs[k].path
  {
    ParseLines(Split(StripAnsi(stdout), '\n'))
  }

  /**
   * `report.locationEquals(err)` for a parsed location: a NaN coordinate is
   * equal to nothing.
   */
  predicate Flags(err: TsecError, report: ViolationReport)
    reads report
  {
    err.line.Some? && err.column.Some? && report.LocationEquals(Location(err.path, err.line.value, err.column.value))
  }

  /** No parsed location matches the report. */
  predicate Unflagged(errs: seq<TsecError>, report: ViolationReport)
    reads report
  {
    forall k :: 0 <= k < |errs| ==> !Flags(errs[k], report)
  }

  /** `xs` is `ys` with some elements left out, the rest in their order. */
  predicate IsSubsequence<T(==)>(xs: seq<T>, ys: seq<T>)
    decreases |ys|
  {
    if xs == [] then true
    else if ys == [] then false
    else if xs[0] == ys[0] then IsSubsequence(xs[1..], ys[1..])
    else IsSubsequence(xs, ys[1..])
  }

  /**
   * The missed list: the reports, in their order, that equal none of the
   * parsed locations.
   */
  function Missed(errs: seq<TsecError>, reports: seq<ViolationReport>): (missed: seq<ViolationReport>)
    reads reports
    ensures IsSubsequence(missed, reports)
    ensures |missed| <= |reports|
    ensures forall k :: 0 <= k < |missed| ==> missed[k] in reports && Unflagged(errs, missed[k])
    ensures forall k :: 0 <= k < |reports| ==> (reports[k] in missed <==> Unflagged(errs, reports[k]))
    ensures errs == [] ==> missed == reports
    ensures forall x :: x in reports ==>
      multiset(missed)[x] == (if Unflagged(errs, x) then multiset(reports)[x] else 0)
    decreases |reports|
  {
    if reports == [] then []
    else
      assert reports == [reports[0]] + reports[1..];
      assert multiset(reports) == multiset([reports[0]]) + multiset(reports[1..]);
      var rest := Missed(errs, reports[1..]);
      var missed := if Unflagged(errs, reports[0]) then [reports[0]] + rest else rest;
      missed
  }

  /** The end of the summary line of the cross-check. */
  const NotFoundByTsec: string := " not found by tsec."

  /** `Found N violation(s) not found by tsec.` */
  function MissedSummary(count: nat): (line: string)
    ensures count == 1 ==> line == "Found 1 violation" + NotFoundByTsec
    ensures count != 1 ==> line == "Found " + IntToDecimal(count) + " violations" + NotFoundByTsec
  {
    "Found " + IntToDecimal(count) + " violation" + Plural(count) + NotFoundByTsec
  }

  /** `${value}`: each report as `toString` renders it. */
  function Rendered(missed: seq<ViolationReport>): (texts: seq<string>)
    reads missed
  {
    seq(|missed|, k requires 0 <= k < |missed| reads missed => missed[k].ToString())
  }

  /** One line of the list: `<n>. <text>`. */
  function Entry(n: nat, text: string): string
  {
    IntToDecimal(n) + ". " + text
  }

  /** The lines `forEach` prints for the first `n` texts, numbered from 1. */
  function Numbered(texts: seq<string>, n: nat): (lines: seq<string>)
    requires n <= |texts|
    ensures |lines| == n
    decreases n
  {
    if n == 0 then [] else Numbered(texts, n - 1) + [Entry(n, texts[n - 1])]
  }

  /** Line `k` of the numbered list is `<k+1>. <text>` for the k-th text. */
  lemma {:induction false} NumberedAt(texts: seq<string>, n: nat, k: nat)
    requires k < n <= |texts|
    ensures Numbered(texts, n)[k] == Entry(k + 1, texts[k])
    decreases n
  {
    var prev, last := Numbered(texts, n - 1), Entry(n, texts[n - 1]);
    assert Numbered(texts, n) == prev + [last];
    if k == n - 1 {
      assert (prev + [last])[k] == last by { AtEnd(prev, last); }
    } else {
      assert (prev + [last])[k] == Entry(k + 1, texts[k]) by {
        NumberedAt(texts, n - 1, k);
        BeforeEnd(prev, last, k, Entry(k + 1, texts[k]));
      }
    }
  }

  /** The element appended last sits at the old length. */
  lemma {:induction false} AtEnd<T>(s: seq<T>, x: T)
    ensures (s + [x])[|s|] == x
  {
  }

  /** Appending keeps the elements before. */
  lemma {:induction false} BeforeEnd<T>(s: seq<T>, x: T, k: nat, y: T)
    requires k < |s| && s[k] == y
    ensures (s + [x])[k] == y
  {
  }

  /** Indexing past a first element. */
  lemma {:induction false} AfterHead<T>(head: T, rest: seq<T>, k: nat, x: T)
    requires k < |rest| && rest[k] == x
    ensures ([head] + rest)[k + 1] == x
  {
  }

  /** `printReport`: the summary, then `<k+1>. <report>` for the k-th missed report. */
  function PrintReport(missed: seq<ViolationReport>): (lines: seq<string>)
    reads missed
    ensures |lines| == |missed| + 1
    ensures lines[0] == MissedSummary(|missed|)
  {
    [MissedSummary(|missed|)] + Numbered(Rendered(missed), |missed|)
  }

  /** After the summary, line `k + 1` of the report is `<k+1>. <report>` for the k-th missed report. */
  lemma {:induction false} PrintReportLines(missed: seq<ViolationReport>)
    ensures forall k :: 0 <= k < |missed| ==> PrintReport(missed)[k + 1] == Entry(k + 1, missed[k].ToString())
  {
    var texts := Rendered(missed);
    forall k | 0 <= k < |missed| ensures PrintReport(missed)[k + 1] == Entry(k + 1, missed[k].ToString()) {
      NumberedAt(texts, |missed|, k);
      AfterHead(MissedSummary(|missed|), Numbered(texts, |missed|), k, Entry(k + 1, texts[k]));
    }
  }

  /** `compareWithTsecResults`, given the text of tsec's output file: the lines it prints. */
  function CompareWithTsecResults(tsecOutput: string, reports: seq<ViolationReport>): (lines: seq<string>)
    reads reports
    ensures 1 <= |lines| <= |reports| + 1
    ensures lines[0] == MissedSummary(|lines| - 1)
  {
    PrintReport(Missed(ParseTsecOutput(TsecPipeline(tsecOutput)), reports))
  }

  /** Parsing a concatenation of line lists parses each part. */
  lemma {:induction false} ParseLinesAppend(a: seq<string>, b: seq<string>)
    ensures ParseLines(a + b) == ParseLines(a) + ParseLines(b)
  {
    NonEmptyAppend(a, b);
    var x, y := NonEmpty(a), NonEmpty(b);
    assert ParseEach(x + y) == ParseEach(x) + ParseEach(y);
  }

  /** Splitting newline-terminated lines gives the lines and a last empty piece. */
  lemma {:induction false} SplitTerminated(lines: seq<string>)
    requires forall k :: 0 <= k < |lines| ==> '\n' !in lines[k]
    ensures Split(Terminated(lines), '\n') == lines + [""]
    decreases |lines|
  {
    if lines != [] {
      SplitTerminated(lines[1..]);
      assert Terminated(lines) == lines[0] + ['\n'] + Terminated(lines[1..]);
      SplitAtFirst(lines[0], '\n', Terminated(lines[1..]));
      assert [lines[0]] + (lines[1..] + [""]) == lines + [""];
    }
  }

  /** Neither a separator, a newline nor a colour-code introducer. */
  predicate Plain(s: string)
  {
    forall i :: 0 <= i < |s| ==> s[i] != ' ' && s[i] != '\n' && !IsIntroducer(s[i])
  }

  /** Plain texts joined are plain. */
  lemma {:induction false} PlainConcat(a: string, b: string)
    requires Plain(a) && Plain(b)
    ensures Plain(a + b)
  {
    forall i | 0 <= i < |a + b|
      ensures (a + b)[i] != ' ' && (a + b)[i] != '\n' && !IsIntroducer((a + b)[i])
    {
      if i < |a| {
        assert (a + b)[i] == a[i];
      } else {
        assert (a + b)[i] == b[i - |a|];
      }
    }
  }

  /** A key is plain when its path is. */
  lemma {:induction false} PlainKey(location: Location)
    requires Plain(location.path)
    ensures Plain(ViolationReport.ToKey(location.path, location.line, location.column))
  {
    var l, c := IntToDecimal(location.line), IntToDecimal(location.column);
    assert Plain(":");
    assert Plain(l) && Plain(c);
    PlainConcat(location.path, ":");
    PlainConcat(location.path + ":", l);
    PlainConcat(location.path + ":" + l, ":");
    PlainConcat(location.path + ":" + l + ":", c);
  }

  /** Newline-terminated plain lines hold no colour-code introducer. */
  lemma {:induction false} TerminatedHasNoIntroducer(lines: seq<string>)
    requires forall k :: 0 <= k < |lines| ==> Plain(lines[k])
    ensures forall i :: 0 <= i < |Terminated(lines)| ==> !IsIntroducer(Terminated(lines)[i])
    decreases |lines|
  {
    if lines != [] {
      TerminatedHasNoIntroducer(lines[1..]);
      var t := Terminated(lines);
      var rest := Terminated(lines[1..]);
      assert t == lines[0] + "\n" + rest;
      forall i | 0 <= i < |t| ensures !IsIntroducer(t[i]) {
        if i < |lines[0]| {
          assert t[i] == lines[0][i];
        } else if i > |lines[0]| {
          assert t[i] == rest[i - |lines[0]| - 1];
        }
      }
    }
  }

  /** The key of a location whose path has no colon reads back as that location. */
  lemma {:induction false} ParseKey(location: Location)
    requires ':' !in location.path
    ensures ParseLine(ViolationReport.ToKey(location.path, location.line, location.column))
      == TsecError(location.path, Some(location.line), Some(location.column))
  {
    ToKeyFields(location.path, location.line, location.column);
    ReadRenderedNumber(location.line);
    ReadRenderedNumber(location.column);
  }

  /** The path is the text before the first `:`. */
  lemma {:induction false} ParseLinePath(before: string, after: string)
    requires ':' !in before
    ensures ParseLine(before + [':'] + after).path == before
  {
    SplitAtFirst(before, ':', after);
  }

  /**
   * With two colon-free fields after the path, line and column read those
   * fields; a further `:` and whatever follows it are ignored.
   */
  lemma {:induction false} ParseLineFields(path: string, line: string, column: string, rest: string)
    requires ':' !in path && ':' !in line && ':' !in column
    requires rest == [] || rest[0] == ':'
    ensures ParseLine(path + [':'] + line + [':'] + column + rest)
      == TsecError(path, ReadNumber(line), ReadNumber(column))
  {
    var text := path + [':'] + (line + [':'] + (column + rest));
    assert path + [':'] + line + [':'] + column + rest == text;
    var tail := Split(column + rest, ':');
    assert tail[0] == column by {
      if rest == [] {
        assert column + rest == column;
      } else {
        assert column + rest == column + [':'] + rest[1..];
        SplitAtFirst(column, ':', rest[1..]);
      }
    }
    assert Split(text, ':') == [path] + ([line] + tail) by {
      SplitAtFirst(path, ':', line + [':'] + (column + rest));
      SplitAtFirst(line, ':', column + rest);
    }
  }

  /** What follows the location on a line tsec prints for a trusted-types violation. */
  const DiagnosticInfix := " - error " + TrustedTypesError + ": "

  /** The line tsec prints for a trusted-types violation at `location`. */
  function Diagnostic(location: Location, message: string): string
  {
    ViolationReport.ToKey(location.path, location.line, location.column) + (DiagnosticInfix + message)
  }

  /** `cut` stops at the first space. */
  lemma {:induction false} CutAtSpace(a: string, b: string)
    requires ' ' !in a && b != [] && b[0] == ' '
    ensures Cut(a + b) == a
  {
    assert a + b == a + [' '] + b[1..];
    SplitAtFirst(a, ' ', b[1..]);
  }

  /** The key of one location. */
  function KeyOf(loc: Location): string
  {
    ViolationReport.ToKey(loc.path, loc.line, loc.column)
  }

  /** The keys of a list of locations. */
  function Keys(locations: seq<Location>): (keys: seq<string>)
    ensures |keys| == |locations|
  {
    Mapped(KeyOf, locations)
  }

  /** tsec's lines for violations at `locations`, with the given messages. */
  function Diagnostics(locations: seq<Location>, messages: seq<string>): (lines: seq<string>)
    requires |locations| == |messages|
    ensures |lines| == |locations|
  {
    Zipped(Diagnostic, locations, messages)
  }

  /** `f` applied to each element, in order. */
  function Mapped<A, B>(f: A -> B, s: seq<A>): (r: seq<B>)
    ensures |r| == |s|
    decreases |s|
  {
    if s == [] then [] else [f(s[0])] + Mapped(f, s[1..])
  }

  /** `f` applied to the elements of `a` and `b` at each index, in order. */
  function Zipped<A, B, C>(f: (A, B) -> C, a: seq<A>, b: seq<B>): (r: seq<C>)
    requires |a| == |b|
    ensures |r| == |a|
    decreases |a|
  {
    if a == [] then [] else [f(a[0], b[0])] + Zipped(f, a[1..], b[1..])
  }

  /** Element k of the mapped list is `f` of element k. */
  lemma {:induction false} MappedAt<A, B>(f: A -> B, s: seq<A>, k: nat)
    requires k < |s|
    ensures Mapped(f, s)[k] == f(s[k])
    decreases k
  {
    if k > 0 {
      MappedAt(f, s[1..], k - 1);
      AfterHead(f(s[0]), Mapped(f, s[1..]), k - 1, f(s[k]));
    }
  }

  /** Element k of the zipped list is `f` of the two elements at k. */
  lemma {:induction false} ZippedAt<A, B, C>(f: (A, B) -> C, a: seq<A>, b: seq<B>, k: nat)
    requires |a| == |b| && k < |a|
    ensures Zipped(f, a, b)[k] == f(a[k], b[k])
    decreases k
  {
    if k > 0 {
      ZippedAt(f, a[1..], b[1..], k - 1);
      AfterHead(f(a[0], b[0]), Zipped(f, a[1..], b[1..]), k - 1, f(a[k], b[k]));
    }
  }

  /** The k-th key is the key of the k-th location. */
  lemma {:induction false} KeyAt(locations: seq<Location>, k: nat)
    requires k < |locations|
    ensures Keys(locations)[k] == KeyOf(locations[k])
  {
    MappedAt(KeyOf, locations, k);
  }

  /** The k-th diagnostic line is the line for the k-th location and message. */
  lemma {:induction false} DiagnosticAt(locations: seq<Location>, messages: seq<string>, k: nat)
    requires |locations| == |messages| && k < |locations|
    ensures Diagnostics(locations, messages)[k] == Diagnostic(locations[k], messages[k])
  {
    ZippedAt(Diagnostic, locations, messages, k);
  }

  /** The first element of a sequence. */
  lemma {:induction false} AtHead<T>(head: T, rest: seq<T>)
    ensures ([head] + rest)[0] == head
  {
  }

  /** The parsed form of each location. */
  function AsTsecErrors(locations: seq<Location>): (errs: seq<TsecError>)
    ensures |errs| == |locations|
    ensures forall k :: 0 <= k < |locations| ==>
      errs[k] == TsecError(locations[k].path, Some(locations[k].line), Some(locations[k].column))
    decreases |locations|
  {
    if locations == [] then []
    else [TsecError(locations[0].path, Some(locations[0].line), Some(locations[0].column))] + AsTsecErrors(locations[1..])
  }

  /** A usable path: plain and without a colon. */
  predicate PlainPath(path: string)
  {
    Plain(path) && ':' !in path
  }

  /** The pipeline keeps the location field of a diagnostic line. */
  lemma {:induction false} DiagnosticSelected(location: Location, message: string)
    requires PlainPath(location.path)
    ensures Contains(Diagnostic(location, message), TrustedTypesError)
    ensures Cut(Diagnostic(location, message)) == ViolationReport.ToKey(location.path, location.line, location.column)
  {
    var key := ViolationReport.ToKey(location.path, location.line, location.column);
    PlainKey(location);
    assert ' ' !in key by { assert forall i :: 0 <= i < |key| ==> key[i] != ' '; }
    KeySelected(key, message);
  }

  /** A line made of a key without spaces and the error infix: grep keeps it, cut gives the key. */
  lemma {:induction false} KeySelected(key: string, message: string)
    requires ' ' !in key
    ensures Contains(key + (DiagnosticInfix + message), TrustedTypesError)
    ensures Cut(key + (DiagnosticInfix + message)) == key
  {
    var tail := DiagnosticInfix + message;
    var line := key + tail;
    CutAtSpace(key, tail);
    assert line[|key| + 9..|key| + 16] == TrustedTypesError by {
      assert tail[9..16] == DiagnosticInfix[9..16] == TrustedTypesError;
    }
    OccurrenceContained(line, TrustedTypesError, |key| + 9);
  }

  lemma {:induction false} NoNewlineInDiagnostic(key: string, message: string)
    requires '\n' !in key && '\n' !in message
    ensures '\n' !in key + (DiagnosticInfix + message)
  {
    var tail := DiagnosticInfix + message;
    assert '\n' !in tail by {
      forall i | 0 <= i < |tail| ensures tail[i] != '\n' {
        if i >= |DiagnosticInfix| { assert tail[i] == message[i - |DiagnosticInfix|]; }
      }
    }
    var line := key + tail;
    forall i | 0 <= i < |line| ensures line[i] != '\n' {
      if i < |key| { assert line[i] == key[i]; } else { assert line[i] == tail[i - |key|]; }
    }
  }

  /** `grep | cut` over diagnostic lines followed by an empty last piece gives their keys. */
  lemma {:induction false} GrepCutDiagnostics(locations: seq<Location>, messages: seq<string>)
    requires |locations| == |messages|
    requires forall k :: 0 <= k < |locations| ==> PlainPath(locations[k].path)
    ensures GrepCut(Diagnostics(locations, messages) + [""]) == Keys(locations)
    decreases |locations|
  {
    var lines := Diagnostics(locations, messages);
    if locations == [] {
      assert lines + [""] == [""];
      assert !OccursAt("", TrustedTypesError, 0);
    } else {
      var rest := Diagnostics(locations[1..], messages[1..]);
      var first := Diagnostic(locations[0], messages[0]);
      assert lines + [""] == [first] + (rest + [""]);
      DiagnosticSelected(locations[0], messages[0]);
      GrepCutSelected(first, rest + [""]);
      GrepCutDiagnostics(locations[1..], messages[1..]);
    }
  }

  /** A first line that holds the error code contributes its first field. */
  lemma {:induction false} GrepCutSelected(line: string, rest: seq<string>)
    requires Contains(line, TrustedTypesError)
    ensures GrepCut([line] + rest) == [Cut(line)] + GrepCut(rest)
  {
    assert ([line] + rest)[0] == line;
    assert ([line] + rest)[1..] == rest;
  }

  /** The k-th key parses to the k-th location. */
  lemma {:induction false} ParseKeyAt(locations: seq<Location>, k: nat)
    requires k < |locations| && PlainPath(locations[k].path)
    ensures ParseEach(Keys(locations))[k] == AsTsecErrors(locations)[k]
  {
    KeyAt(locations, k);
    ParseKey(locations[k]);
  }

  /** Each key parses to its location. */
  lemma {:induction false} ParseEachKey(locations: seq<Location>)
    requires forall k :: 0 <= k < |locations| ==> PlainPath(locations[k].path)
    ensures ParseEach(Keys(locations)) == AsTsecErrors(locations)
  {
    forall k | 0 <= k < |locations| {
      ParseKeyAt(locations, k);
    }
  }

  /** Parsing the keys gives their locations, in order. */
  lemma {:induction false} ParseKeys(locations: seq<Location>)
    requires forall k :: 0 <= k < |locations| ==> PlainPath(locations[k].path)
    ensures ParseLines(Keys(locations)) == AsTsecErrors(locations)
  {
    PlainKeys(locations);
    NonEmptyCases(Keys(locations));
    ParseEachKey(locations);
  }

  /** The k-th diagnostic line holds no newline. */
  lemma {:induction false} DiagnosticNoNewline(locations: seq<Location>, messages: seq<string>, k: nat)
    requires |locations| == |messages| && k < |locations|
    requires PlainPath(locations[k].path) && '\n' !in messages[k]
    ensures '\n' !in Diagnostics(locations, messages)[k]
  {
    DiagnosticAt(locations, messages, k);
    var key := ViolationReport.ToKey(locations[k].path, locations[k].line, locations[k].column);
    PlainKey(locations[k]);
    assert '\n' !in key by { assert forall i :: 0 <= i < |key| ==> key[i] != '\n'; }
    NoNewlineInDiagnostic(key, messages[k]);
  }

  /** Diagnostic lines of plain locations and one-line messages hold no newline. */
  lemma {:induction false} PlainLines(locations: seq<Location>, messages: seq<string>)
    requires |locations| == |messages|
    requires forall k :: 0 <= k < |locations| ==> PlainPath(locations[k].path)
    requires forall k :: 0 <= k < |messages| ==> '\n' !in messages[k]
    ensures forall k :: 0 <= k < |locations| ==> '\n' !in Diagnostics(locations, messages)[k]
  {
    forall k | 0 <= k < |locations| {
      DiagnosticNoNewline(locations, messages, k);
    }
  }

  /** The pipeline reduces diagnostic lines to their keys. */
  lemma {:induction false} PipelineOfDiagnostics(locations: seq<Location>, messages: seq<string>)
    requires |locations| == |messages|
    requires forall k :: 0 <= k < |locations| ==> PlainPath(locations[k].path)
    requires forall k :: 0 <= k < |messages| ==> '\n' !in messages[k]
    ensures TsecPipeline(Terminated(Diagnostics(locations, messages))) == Terminated(Keys(locations))
  {
    PlainLines(locations, messages);
    SplitTerminated(Diagnostics(locations, messages));
    GrepCutDiagnostics(locations, messages);
  }

  /** The k-th key of plain locations is plain. */
  lemma {:induction false} PlainKeyAt(locations: seq<Location>, k: nat)
    requires k < |locations| && PlainPath(locations[k].path)
    ensures Plain(Keys(locations)[k]) && '\n' !in Keys(locations)[k] && Keys(locations)[k] != ""
  {
    KeyAt(locations, k);
    PlainKey(locations[k]);
    var key := Keys(locations)[k];
    assert forall i :: 0 <= i < |key| ==> key[i] != '\n';
    assert |key| > |locations[k].path|;
  }

  /** Keys of plain locations are plain and hold no newline. */
  lemma {:induction false} PlainKeys(locations: seq<Location>)
    requires forall k :: 0 <= k < |locations| ==> PlainPath(locations[k].path)
    ensures forall k :: 0 <= k < |locations| ==>
      Plain(Keys(locations)[k]) && '\n' !in Keys(locations)[k] && Keys(locations)[k] != ""
  {
    forall k | 0 <= k < |locations| {
      PlainKeyAt(locations, k);
    }
  }

  /** Newline-terminated keys parse back to their locations. */
  lemma {:induction false} ParseTerminatedKeys(locations: seq<Location>)
    requires forall k :: 0 <= k < |locations| ==> PlainPath(locations[k].path)
    ensures ParseTsecOutput(Terminated(Keys(locations))) == AsTsecErrors(locations)
  {
    var keys := Keys(locations);
    var text := Terminated(keys);
    PlainKeys(locations);
    TerminatedHasNoIntroducer(keys);
    StripAnsiIdentity(text);
    SplitTerminated(keys);
    ParseLinesAppend(keys, [""]);
    ParseKeys(locations);
    assert ParseLines([""]) == [];
    assert ParseTsecOutput(text) == ParseLines(keys + [""]);
  }

  /**
   * The cross-check end to end: when tsec reported TS21228 at exactly the
   * given locations, a report is listed as missed if and only if its disk
   * location is none of them.
   */
  lemma {:induction false} MissedIffNotReported(locations: seq<Location>, messages: seq<string>, reports: seq<ViolationReport>)
    requires |locations| == |messages|
    requires forall k :: 0 <= k < |locations| ==> PlainPath(locations[k].path)
    requires forall k :: 0 <= k < |messages| ==> '\n' !in messages[k]
    ensures var missed := Missed(ParseTsecOutput(TsecPipeline(Terminated(Diagnostics(locations, messages)))), reports);
      forall k :: 0 <= k < |reports| ==>
        (reports[k] in missed <==> forall j :: 0 <= j < |locations| ==> reports[k].diskLocation != Some(locations[j]))
  {
    PipelineOfDiagnostics(locations, messages);
    ParseTerminatedKeys(locations);
    var errs := ParseTsecOutput(TsecPipeline(Terminated(Diagnostics(locations, messages))));
    assert errs == AsTsecErrors(locations);
    forall k | 0 <= k < |reports| {
      UnflaggedIffElsewhere(locations, reports[k]);
    }
  }

  /** A report equals none of the parsed locations exactly when its disk location is none of them. */
  lemma {:induction false} UnflaggedIffElsewhere(locations: seq<Location>, report: ViolationReport)
    ensures Unflagged(AsTsecErrors(locations), report)
      <==> forall j :: 0 <= j < |locations| ==> report.diskLocation != Some(locations[j])
  {
    var errs := AsTsecErrors(locations);
    forall j | 0 <= j < |locations|
      ensures Flags(errs[j], report) <==> report.diskLocation == Some(locations[j])
    {
      assert Location(errs[j].path, errs[j].line.value, errs[j].column.value) == locations[j];
    }
  }

  /**
   * Matching is exact: with tsec reporting `a.ts:10:5`, a report resolved to
   * `a.ts:10:5` is not missed, and one resolved a line further down is.
   */
  lemma {:induction false} ExactMatchOnly(exact: ViolationReport, lineOff: ViolationReport, message: string)
    requires '\n' !in message
    requires exact.diskLocation == Some(Location("a.ts", 10, 5))
    requires lineOff.diskLocation == Some(Location("a.ts", 11, 5))
    ensures var output := Terminated([Diagnostic(Location("a.ts", 10, 5), message)]);
      var missed := Missed(ParseTsecOutput(TsecPipeline(output)), [exact, lineOff]);
      exact !in missed && lineOff in missed
  {
    var locations := [Location("a.ts", 10, 5)];
    assert Diagnostics(locations, [message]) == [Diagnostic(Location("a.ts", 10, 5), message)];
    MissedIffNotReported(locations, [message], [exact, lineOff]);
  }

  /**
   * What `compareWithTsecResults` prints in that case: the summary for one
   * violation and the report a line further down.
   */
  lemma {:induction false} ExactMatchPrinted(exact: ViolationReport, lineOff: ViolationReport, message: string)
    requires '\n' !in message
    requires exact.diskLocation == Some(Location("a.ts", 10, 5))
    requires lineOff.diskLocation == Some(Location("a.ts", 11, 5))
    ensures CompareWithTsecResults(Terminated([Diagnostic(Location("a.ts", 10, 5), message)]), [exact, lineOff])
      == ["Found 1 violation" + NotFoundByTsec, "1. " + lineOff.ToString()]
  {
    var errs := ParseTsecOutput(TsecPipeline(Terminated([Diagnostic(Location("a.ts", 10, 5), message)])));
    ExactMatchOnly(exact, lineOff, message);
    assert !Unflagged(errs, exact) && Unflagged(errs, lineOff) by {
      var missed := Missed(errs, [exact, lineOff]);
      assert [exact, lineOff][0] == exact && [exact, lineOff][1] == lineOff;
    }
    MissedOfPair(errs, exact, lineOff);
    PrintOne(lineOff);
  }

  /** Of two reports, when only the second is unflagged, only the second is missed. */
  lemma {:induction false} MissedOfPair(errs: seq<TsecError>, flagged: ViolationReport, unflagged: ViolationReport)
    requires !Unflagged(errs, flagged) && Unflagged(errs, unflagged)
    ensures Missed(errs, [flagged, unflagged]) == [unflagged]
  {
    assert [flagged, unflagged][1..] == [unflagged];
    assert [unflagged][1..] == [];
  }

  /** The report printed for one missed report. */
  lemma {:induction false} PrintOne(report: ViolationReport)
    ensures PrintReport([report]) == ["Found 1 violation" + NotFoundByTsec, "1. " + report.ToString()]
  {
    var lines := PrintReport([report]);
    var text := report.ToString();
    assert lines[0] == "Found 1 violation" + NotFoundByTsec;
    assert lines[1] == "1. " + text by {
      PrintReportLines([report]);
      assert lines[1] == Entry(1, text);
      assert IntToDecimal(1) == "1";
      NumberedEntry(text);
    }
    assert lines == [lines[0], lines[1]];
  }

  /** The entry for the first report. */
  lemma {:induction false} NumberedEntry(text: string)
    ensures Entry(1, text) == "1. " + text
  {
    assert IntToDecimal(1) == "1";
    assert "1" + ". " == "1. ";
  }

  /** With no output from tsec every report is missed. */
  lemma {:induction false} NoTsecOutputAllMissed(reports: seq<ViolationReport>)
    ensures CompareWithTsecResults("", reports) == PrintReport(reports)
  {
    assert Split("", '\n') == [""];
    assert !Contains("", TrustedTypesError);
    assert GrepCut([""]) == [] by { assert [""][1..] == []; }
    assert TsecPipeline("") == "";
    StripAnsiIdentity("");
    assert ParseLines([""]) == [];
  }
}
