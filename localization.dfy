/**
 * Resolution of a location in the served JavaScript back to the TypeScript
 * source, through the source map written beside the compiled file
 * (src/localization.ts). The file system and the source-map library are not
 * modelled: they are the two oracles of `SourceMaps`.
 */
module Localization {
  import opened Wrappers

  /** A position on disk (`{path, line, column}`); also the shape tsec reports. */
  datatype Location = Location(path: string, line: int, column: int)

  type DiskLocation = Location

  /** A position in the served application, as a violation report names it. */
  datatype WebLocation = WebLocation(url: string, line: int, column: int)

  /** The fields of `originalPositionFor`'s answer; `None` is `null`. */
  datatype Position = Position(source: Option<string>, line: Option<int>, column: Option<int>)

  /** A query to the source map; `source` is only given by the legacy resolver. */
  datatype Query = Query(source: Option<string>, line: int, column: int)

  /** What reading, parsing and querying a map file came to. */
  datatype Lookup = Threw | Answered(position: Position)

  /**
   * The outside world: `fs.existsSync` on the map path, and reading the map
   * file, `JSON.parse` and `originalPositionFor` taken together.
   */
  datatype SourceMaps = SourceMaps(fileExists: string -> bool, originalPositionFor: (string, Query) -> Lookup)

  /** `projectRoot/path.map`, the map file the resolver looks for. */
  function MapPath(projectRoot: string, path: string): (mapPath: string)
    ensures |mapPath| == |projectRoot| + |path| + 5
    ensures mapPath[|mapPath| - 4..] == ".map"
  {
    projectRoot + "/" + path + ".map"
  }

  /** JavaScript truthiness of the three answer fields: no null, no empty source, no zero. */
  predicate Complete(p: Position): (ok: bool)
    ensures ok ==> p.source.Some? && p.line.Some? && p.column.Some?
    ensures p.source == Some("") || p.line == Some(0) || p.column == Some(0) ==> !ok
  {
    p.source.Some? && p.source.value != "" && p.line.Some? && p.line.value != 0
    && p.column.Some? && p.column.value != 0
  }

  /**
   * `getOriginalLocation`: `None` is `undefined`. An empty path gives
   * `undefined`, a missing map file gives the input back, an error gives
   * `undefined`, and an answer gives the original position shifted back to
   * one-based coordinates unless one of its fields is falsy.
   */
  function GetOriginalLocation(location: Location, projectRoot: string, maps: SourceMaps): (r: Option<Location>)
    ensures location.path == "" ==> r == None
    ensures location.path != "" && !maps.fileExists(MapPath(projectRoot, location.path)) ==> r == Some(location)
    ensures location.path != "" && maps.fileExists(MapPath(projectRoot, location.path)) ==>
      var answer := maps.originalPositionFor(MapPath(projectRoot, location.path),
                                             Query(None, location.line - 1, location.column - 1));
      if answer.Answered? && Complete(answer.position) then
        r == Some(Location(answer.position.source.value, answer.position.line.value + 1,
                           answer.position.column.value + 1))
      else r == None
  {
    if location.path == "" then None
    else
      var sourceMapPath := MapPath(projectRoot, location.path);
      if !maps.fileExists(sourceMapPath) then Some(location)
      else
        match maps.originalPositionFor(sourceMapPath, Query(None, location.line - 1, location.column - 1))
        case Threw => None
        case Answered(result) =>
          if Complete(result) then Some(Location(result.source.value, result.line.value + 1, result.column.value + 1))
          else None
  }

  /** Different files have different map files under one project root. */
  lemma {:induction false} MapPathInjective(projectRoot: string, path1: string, path2: string)
    requires MapPath(projectRoot, path1) == MapPath(projectRoot, path2)
    ensures path1 == path2
  {
    var m := MapPath(projectRoot, path1);
    assert |path1| == |path2|;
    assert path1 == m[|projectRoot| + 1..|projectRoot| + 1 + |path1|];
    assert path2 == MapPath(projectRoot, path2)[|projectRoot| + 1..|projectRoot| + 1 + |path2|];
  }

  /** With an empty path no oracle is consulted: any two worlds give the same answer. */
  lemma {:induction false} EmptyPathConsultsNothing(location: Location, projectRoot: string, maps1: SourceMaps, maps2: SourceMaps)
    requires location.path == ""
    ensures GetOriginalLocation(location, projectRoot, maps1) == GetOriginalLocation(location, projectRoot, maps2)
    ensures GetOriginalLocation(location, projectRoot, maps1) == None
  {
  }

  /**
   * The resolved location is never partial: it is the input itself (no map
   * file), or a location whose path is non-empty and whose line and column
   * are one more than a non-zero answer.
   */
  lemma {:induction false} ResolvedIsWhole(location: Location, projectRoot: string, maps: SourceMaps)
    requires GetOriginalLocation(location, projectRoot, maps).Some?
    ensures var r := GetOriginalLocation(location, projectRoot, maps).value;
      r == location || (r.path != "" && r.line != 1 && r.column != 1)
  {
  }

  /** The map that sends every position to itself in `source`. */
  function IdentityMap(source: string): (string, Query) -> Lookup
  {
    (mapPath: string, q: Query) => Answered(Position(Some(source), Some(q.line), Some(q.column)))
  }

  /**
   * The one-based to zero-based shift and its inverse cancel: through an
   * identity map a location comes back unchanged in the mapped source, except
   * on the first line or column, which the zero answer makes unresolved.
   */
  lemma {:induction false} IdentityMapRoundTrip(location: Location, projectRoot: string, fileExists: string -> bool, source: string)
    requires location.path != "" && source != ""
    requires fileExists(MapPath(projectRoot, location.path))
    ensures var r := GetOriginalLocation(location, projectRoot, SourceMaps(fileExists, IdentityMap(source)));
      if location.line != 1 && location.column != 1
      then r == Some(Location(source, location.line, location.column))
      else r == None
  {
    var maps := SourceMaps(fileExists, IdentityMap(source));
    var q := Query(None, location.line - 1, location.column - 1);
    assert maps.originalPositionFor(MapPath(projectRoot, location.path), q)
        == Answered(Position(Some(source), Some(location.line - 1), Some(location.column - 1)));
  }
}
