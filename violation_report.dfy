/**
 * One offending location and the evidence gathered for it
 * (src/violationReport.ts): the web location it was reported at, the disk
 * location it resolves to once known, and the script sample of every sighting.
 */
module ViolationReports {
  import opened Wrappers
  import opened JsStrings
  import opened Localization

  class ViolationReport {
    var webLocation: WebLocation
    var scriptSample: seq<string>
    var diskLocation: Option<DiskLocation>

    /** A new report: no sample yet and no disk location. */
    constructor (webLocation: WebLocation)
      ensures this.webLocation == webLocation
      ensures scriptSample == [] && Count() == 0
      ensures diskLocation == None
    {
      this.webLocation := webLocation;
      scriptSample := [];
      diskLocation := None;
    }

    /** `url:line:column`, the string that identifies a location. */
    static function ToKey(url: string, line: int, column: int): (key: string)
      ensures |key| >= |url| + 4 && key[|url|] == ':'
    {
      url + ":" + IntToDecimal(line) + ":" + IntToDecimal(column)
    }

    /** The key of the disk location once there is one, of the web location until then. */
    function Key(): (key: string)
      reads this
      ensures diskLocation.Some? ==>
        key == ToKey(diskLocation.value.path, diskLocation.value.line, diskLocation.value.column)
      ensures diskLocation.None? ==> key == ToKey(webLocation.url, webLocation.line, webLocation.column)
    {
      match diskLocation
      case Some(d) => d.path + ":" + IntToDecimal(d.line) + ":" + IntToDecimal(d.column)
      case None => webLocation.url + ":" + IntToDecimal(webLocation.line) + ":" + IntToDecimal(webLocation.column)
    }

    /** How many times the location was reported. */
    function Count(): (n: nat)
      reads this
      ensures n == 0 <==> scriptSample == []
    {
      |scriptSample|
    }

    /** Records one more sighting: its sample goes at the end and nothing else changes. */
    method AddOccurrence(sample: string)
      modifies this
      ensures scriptSample == old(scriptSample) + [sample]
      ensures Count() == old(Count()) + 1
      ensures webLocation == old(webLocation) && diskLocation == old(diskLocation)
    {
      scriptSample := scriptSample + [sample];
    }

    /** `source: <key>` and then, on one line each, the code samples. */
    function ToString(): (s: string)
      reads this
      ensures |s| > 8 + |Key()| && s[8 + |Key()|] == '\n'
      ensures s[..8 + |Key()|] == "source: " + Key()
    {
      "source: " + Key() + "\n code samples: " + Join(scriptSample, "\n")
    }

    /**
     * Whether the report was resolved to exactly `location`. The source calls
     * such a method without showing it; exact equality with the disk location
     * is assumed, and an unresolved report equals nothing.
     */
    predicate LocationEquals(location: DiskLocation)
      reads this
    {
      diskLocation == Some(location)
    }
  }

  lemma {:induction false} NoColonInNumber(n: int)
    ensures ':' !in IntToDecimal(n) && '\n' !in IntToDecimal(n) && ' ' !in IntToDecimal(n)
  {
    var s := IntToDecimal(n);
    assert forall i :: 0 <= i < |s| ==> s[i] != ':' && s[i] != '\n' && s[i] != ' ';
  }

  lemma {:induction false} SeparatorAt(a: string, sep: char, x: string)
    ensures (a + [sep] + x)[|a|] == sep
  {
  }


  /** Text before the last separator and the separator-free text after it are determined. */
  lemma {:induction false} LastSeparator(a: string, x: string, b: string, y: string, sep: char)
    requires a + [sep] + x == b + [sep] + y
    requires sep !in x && sep !in y
    ensures a == b && x == y
  {
    var s := a + [sep] + x;
    if |x| < |y| {
      SeparatorAt(a, sep, x);
      assert false;
    } else if |y| < |x| {
      SeparatorAt(b, sep, y);
      assert false;
    } else {
      assert a == s[..|a|] && b == (b + [sep] + y)[..|b|];
      assert x == s[|a| + 1..] && y == (b + [sep] + y)[|b| + 1..];
    }
  }

  /**
   * Keys merge exactly the same locations: two triples have the same key if
   * and only if they are equal, whatever colons the url holds.
   */
  lemma {:induction false} ToKeyInjective(url1: string, line1: int, column1: int, url2: string, line2: int, column2: int)
    ensures ViolationReport.ToKey(url1, line1, column1) == ViolationReport.ToKey(url2, line2, column2)
      <==> url1 == url2 && line1 == line2 && column1 == column2
  {
    if ViolationReport.ToKey(url1, line1, column1) == ViolationReport.ToKey(url2, line2, column2) {
      NoColonInNumber(line1); NoColonInNumber(line2);
      NoColonInNumber(column1); NoColonInNumber(column2);
      var l1, c1 := IntToDecimal(line1), IntToDecimal(column1);
      var l2, c2 := IntToDecimal(line2), IntToDecimal(column2);
      assert (url1 + ":" + l1) + [':'] + c1 == (url2 + ":" + l2) + [':'] + c2;
      LastSeparator(url1 + ":" + l1, c1, url2 + ":" + l2, c2, ':');
      assert url1 + [':'] + l1 == url2 + [':'] + l2;
      LastSeparator(url1, l1, url2, l2, ':');
      IntToDecimalInjective(line1, line2);
      IntToDecimalInjective(column1, column2);
    }
  }

  /** A key whose path has no colon splits on `:` into the path, the line and the column. */
  lemma {:induction false} ToKeyFields(path: string, line: int, column: int)
    requires ':' !in path
    ensures Split(ViolationReport.ToKey(path, line, column), ':') == [path, IntToDecimal(line), IntToDecimal(column)]
  {
    var l, c := IntToDecimal(line), IntToDecimal(column);
    NoColonInNumber(line); NoColonInNumber(column);
    assert ViolationReport.ToKey(path, line, column) == path + [':'] + (l + [':'] + c);
    SplitAtFirst(path, ':', l + [':'] + c);
    SplitAtFirst(l, ':', c);
  }

  lemma {:induction false} NoNewlineAfterCaption(caption: string, text: string)
    requires '\n' !in caption && '\n' !in text
    ensures '\n' !in caption + text
  {
    var s := caption + text;
    forall i | 0 <= i < |s| ensures s[i] != '\n' {
      if i >= |caption| { assert s[i] == text[i - |caption|]; } else { assert s[i] == caption[i]; }
    }
  }

  lemma {:induction false} JoinAfterCaption(caption: string, samples: seq<string>, sep: string)
    requires samples != []
    ensures caption + Join(samples, sep) == Join([caption + samples[0]] + samples[1..], sep)
  {
    var lines := [caption + samples[0]] + samples[1..];
    assert lines[1..] == samples[1..];
  }

  /** The lines of `source: <key>` followed by the joined samples. */
  lemma {:induction false} RenderedLines(key: string, samples: seq<string>)
    requires '\n' !in key
    requires forall k :: 0 <= k < |samples| ==> '\n' !in samples[k]
    ensures Split("source: " + key + "\n code samples: " + Join(samples, "\n"), '\n') ==
      ["source: " + key]
      + if samples == [] then [" code samples: "] else [" code samples: " + samples[0]] + samples[1..]
  {
    var head := "source: " + key;
    var caption := " code samples: ";
    var body := Join(samples, "\n");
    NoNewlineAfterCaption("source: ", key);
    assert "\n code samples: " == ['\n'] + caption;
    assert "source: " + key + "\n code samples: " + body == head + ['\n'] + (caption + body);
    SplitAtFirst(head, '\n', caption + body);
    if samples == [] {
      assert caption + body == caption;
    } else {
      var lines := [caption + samples[0]] + samples[1..];
      JoinAfterCaption(caption, samples, "\n");
      NoNewlineAfterCaption(caption, samples[0]);
      assert forall k :: 0 <= k < |lines| ==> '\n' !in lines[k] by {
        forall k | 0 <= k < |lines| ensures '\n' !in lines[k] {
          if k > 0 { assert lines[k] == samples[k]; }
        }
      }
      SplitJoin(lines, '\n');
    }
  }

  /**
   * `toString` gives the key on its first line and then the samples, so that
   * splitting it into lines gives the key and every sample back.
   */
  lemma {:induction false} ToStringLines(report: ViolationReport)
    requires '\n' !in report.Key()
    requires forall k :: 0 <= k < |report.scriptSample| ==> '\n' !in report.scriptSample[k]
    ensures var samples := report.scriptSample;
      Split(report.ToString(), '\n') ==
        ["source: " + report.Key()]
        + if samples == [] then [" code samples: "] else [" code samples: " + samples[0]] + samples[1..]
  {
    RenderedLines(report.Key(), report.scriptSample);
  }
}
