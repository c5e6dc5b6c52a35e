/**
 * The earlier resolver (src/localization.js): locations are triples
 * `[path, line, col]`, the query names the TypeScript file next to the
 * JavaScript one, and the answer is returned without any check of its fields.
 */
module LegacyLocalization {
  import opened Wrappers
  import opened JsStrings
  import opened Localization

  /** `[path, line, col]`; a `None` path is `null` (as a failed lookup returns it). */
  datatype Triple = Triple(path: Option<string>, line: int, col: int)

  /** JavaScript `x + 1` on a number that may be `null`: `null + 1` is 1. */
  function PlusOne(x: Option<int>): (r: int)
    ensures x.Some? ==> r == x.value + 1
    ensures x.None? ==> r == 1
  {
    match x
    case None => 1
    case Some(n) => n + 1
  }

  /** `${projectRoot}/${path.replace('.js', '.ts')}` */
  function TsPath(projectRoot: string, path: string): (tsPath: string)
    ensures |tsPath| == |projectRoot| + 1 + |path|
    ensures tsPath[..|projectRoot| + 1] == projectRoot + "/"
  {
    projectRoot + "/" + ReplaceFirst(path, ".js", ".ts")
  }

  /**
   * The legacy `getOriginalLocation`; `None` is `undefined`. A falsy path gives
   * `undefined`, a missing map gives the triple back, an error gives
   * `undefined`, and otherwise the answer's fields plus one are returned as
   * they are.
   */
  function GetOriginalLocation(location: Triple, projectRoot: string, maps: SourceMaps): (r: Option<Triple>)
    ensures location.path.None? || location.path.value == "" ==> r == None
    ensures location.path.Some? && location.path.value != "" ==>
      var mapPath := MapPath(projectRoot, location.path.value);
      if !maps.fileExists(mapPath) then r == Some(location)
      else
        var answer := maps.originalPositionFor(mapPath, Query(Some(TsPath(projectRoot, location.path.value)),
                                                             location.line - 1, location.col - 1));
        match answer
        case Threw => r == None
        case Answered(p) => r == Some(Triple(p.source, PlusOne(p.line), PlusOne(p.column)))
  {
    match location.path
    case None => None
    case Some(path) =>
      if path == "" then None
      else
        var sourceMapPath := MapPath(projectRoot, path);
        if !maps.fileExists(sourceMapPath) then Some(location)
        else
          var tsPath := TsPath(projectRoot, path);
          match maps.originalPositionFor(sourceMapPath, Query(Some(tsPath), location.line - 1, location.col - 1))
          case Threw => None
          case Answered(result) => Some(Triple(result.source, PlusOne(result.line), PlusOne(result.column)))
  }

  /**
   * Unlike the TypeScript resolver, an answer with nothing found (all fields
   * `null`) is not treated as unresolved: it comes back as `[null, 1, 1]`.
   */
  lemma {:induction false} NothingFoundIsNotUndefined(location: Triple, projectRoot: string, fileExists: string -> bool)
    requires location.path.Some? && location.path.value != ""
    requires fileExists(MapPath(projectRoot, location.path.value))
    ensures var maps := SourceMaps(fileExists, (mapPath: string, q: Query) => Answered(Position(None, None, None)));
      GetOriginalLocation(location, projectRoot, maps) == Some(Triple(None, 1, 1))
      && Localization.GetOriginalLocation(Location(location.path.value, location.line, location.col), projectRoot, maps) == None
  {
    var maps := SourceMaps(fileExists, (mapPath: string, q: Query) => Answered(Position(None, None, None)));
    var mapPath := MapPath(projectRoot, location.path.value);
    assert maps.originalPositionFor(mapPath, Query(None, location.line - 1, location.col - 1))
        == Answered(Position(None, None, None));
    assert maps.originalPositionFor(mapPath, Query(Some(TsPath(projectRoot, location.path.value)), location.line - 1, location.col - 1))
        == Answered(Position(None, None, None));
  }

  /** A path without `.js` is queried under its own name. */
  lemma {:induction false} TsPathWithoutJs(projectRoot: string, path: string)
    requires forall j :: 0 <= j <= |path| ==> !OccursAt(path, ".js", j)
    ensures TsPath(projectRoot, path) == projectRoot + "/" + path
  {
  }

  /**
   * Only the first `.js` becomes `.ts`: `a.js/b.js` is queried as `a.ts/b.js`,
   * and the text after the replaced occurrence is kept.
   */
  lemma {:induction false} TsPathReplacesFirstJs(projectRoot: string, before: string, after: string)
    requires forall j :: 0 <= j < |before| ==> !OccursAt(before + ".js", ".js", j)
    ensures TsPath(projectRoot, before + ".js" + after) == projectRoot + "/" + before + ".ts" + after
  {
    var path := before + ".js" + after;
    var i := |before|;
    assert OccursAt(path, ".js", i) by { assert path[i..i + 3] == ".js"; }
    forall j | 0 <= j < i
      ensures !OccursAt(path, ".js", j)
    {
      assert !OccursAt(before + ".js", ".js", j);
      assert path[j..j + 3] == (before + ".js")[j..j + 3];
    }
    assert FirstOccurrence(path, ".js", i);
    assert path[..i] == before;
    assert path[i + 3..] == after;
  }
}
