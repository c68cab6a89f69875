// Nested route resolution: src/router/route.ts (comma-separated alternatives)
// and the older single-pattern router/route.ts. The regex library
// path-to-regexp is not modelled; it is passed in as a `PathMatcher`.
module RouteMatching {
  import opened Common

  /** A successful regex match: group 0, then the capture groups (absent when a group did not take part). */
  datatype Hit = Hit(matched: string, captures: seq<Option<string>>)

  /**
   * The external path-to-regexp library: `keys(pattern)` lists the parameter
   * names it collects, `exec(pattern, end, subject)` runs the expression it
   * compiles for `pattern` with option `end` on `subject`.
   */
  datatype PathMatcher = PathMatcher(keys: string -> seq<string>, exec: (string, bool, string) -> Option<Hit>)

  /** The library anchors every expression at the start, so a match is a prefix of the subject. */
  ghost predicate Anchored(m: PathMatcher)
  {
    forall pattern, end, subject :: m.exec(pattern, end, subject).Some? ==>
      StartsWith(subject, m.exec(pattern, end, subject).value.matched)
  }

  /** The route match a route provides to its children. */
  datatype RouteMatch = RouteMatch(baseMatch: string, params: map<string, Option<string>>)

  /** `{ baseMatch: '', params: {} }` */
  const DefaultRouteMatch: RouteMatch := RouteMatch("", map[])

  // ---------------------------------------------------------------------
  // The `$` and `./` decorations of a pattern

  datatype Decorated = Decorated(bare: string, end: bool, doBaseMatch: bool)

  /** `s.endsWith('$')` */
  predicate DollarAtEnd(s: string) { |s| >= 1 && s[|s| - 1] == '$' }

  /** `s.startsWith('./')` */
  predicate DotSlashAtStart(s: string) { |s| >= 2 && s[0] == '.' && s[1] == '/' }

  predicate SlashAtStart(s: string) { |s| >= 1 && s[0] == '/' }

  /** Writes a decorated pattern back: `.` prefix when not base-matched, `$` suffix when anchored at the end. */
  function Decorate(d: Decorated): string
  {
    (if d.doBaseMatch then [] else ['.']) + d.bare + (if d.end then ['$'] else [])
  }

  /** The decorations `ParseDecorations` can produce; on these `Decorate` is undone exactly. */
  predicate Canonical(d: Decorated)
  {
    && (d.doBaseMatch ==> !DotSlashAtStart(d.bare))
    && (!d.doBaseMatch ==> SlashAtStart(d.bare))
    && (!d.end ==> !DollarAtEnd(d.bare))
  }

  /**
   * A trailing `$` is removed and sets `end`; then a leading `./` clears
   * `doBaseMatch` and only the `.` is removed, so the bare pattern keeps its `/`.
   */
  function ParseDecorations(path: string): (d: Decorated)
    ensures d.end <==> DollarAtEnd(path)
    ensures Canonical(d)
    ensures Decorate(d) == path
  {
    var end := DollarAtEnd(path);
    var undollared := if end then path[..|path| - 1] else path;
    assert undollared + (if end then ['$'] else []) == path;
    if DotSlashAtStart(undollared) then
      assert ['.'] + undollared[1..] == undollared;
      Decorated(undollared[1..], end, false)
    else
      Decorated(undollared, end, true)
  }

  lemma ParseDecorate(d: Decorated)
    requires Canonical(d)
    ensures ParseDecorations(Decorate(d)) == d
  {
    var p := Decorate(d);
    var q := (if d.doBaseMatch then [] else ['.']) + d.bare;
    assert p == q + (if d.end then ['$'] else []);
    if d.end {
      assert p[..|p| - 1] == q;
    } else if |d.bare| >= 1 {
      assert p[|p| - 1] == d.bare[|d.bare| - 1];
    }
    if !d.doBaseMatch {
      assert q[1..] == d.bare;
    }
  }

  // ---------------------------------------------------------------------
  // Subject, base match and parameters

  /** The parent route's accumulated match; no parent reads as the empty string. */
  function ParentBase(parent: Option<RouteMatch>): string
  {
    if parent.Some? then parent.value.baseMatch else ""
  }

  /** `parentRoute?.routeMatch?.params ?? {}` */
  function ParentParams(parent: Option<RouteMatch>): map<string, Option<string>>
  {
    if parent.Some? then parent.value.params else map[]
  }

  /**
   * The string the pattern is matched against: the whole path, or the path
   * with the parent's match length cut off (an empty rest becomes `/`).
   */
  function Subject(path: string, doBaseMatch: bool, parent: Option<RouteMatch>, controlled: bool): string
  {
    var base := ParentBase(parent);
    if doBaseMatch || base == "" || controlled then path
    else
      var rest := SubstringFrom(path, |base|);
      if rest == "" then "/" else rest
  }

  lemma SubjectCases(path: string, doBaseMatch: bool, parent: Option<RouteMatch>, controlled: bool)
    ensures var s := Subject(path, doBaseMatch, parent, controlled);
      var base := ParentBase(parent);
      && (doBaseMatch || base == "" || controlled ==> s == path)
      // the parent's length is cut without checking that it is a prefix
      && (!doBaseMatch && base != "" && !controlled && |base| < |path| ==> path[..|base|] + s == path)
      && (!doBaseMatch && base != "" && !controlled && |path| <= |base| ==> s == "/")
  {
  }

  /** `matches[0]`, preceded by the parent's base match unless matching from the root. */
  function BaseMatchOf(fromRoot: bool, parent: Option<RouteMatch>, matched: string): string
  {
    if fromRoot then matched else ParentBase(parent) + matched
  }

  /** `matches[idx]` after the shift: absent past the end. */
  function CaptureAt(captures: seq<Option<string>>, i: nat): Option<string>
  {
    if i < |captures| then captures[i] else None
  }

  /** `Object.fromEntries(names.map((name, idx) => [name, captures[idx]]))`: a later name wins. */
  function ZipParams(names: seq<string>, captures: seq<Option<string>>): (r: map<string, Option<string>>)
    ensures r.Keys == set i | 0 <= i < |names| :: names[i]
    decreases |names|
  {
    if names == [] then map[]
    else
      var n := |names| - 1;
      var r := ZipParams(names[..n], captures)[names[n] := CaptureAt(captures, n)];
      assert forall i :: 0 <= i < n ==> names[..n][i] == names[i];
      r
  }

  /** The last position holding `k`, which decides its value. */
  function LastIndexOf(names: seq<string>, k: string): (i: nat)
    requires k in names
    ensures i < |names| && names[i] == k
    ensures forall j :: i < j < |names| ==> names[j] != k
  {
    if names[|names| - 1] == k then |names| - 1
    else
      assert k in names[..|names| - 1];
      LastIndexOf(names[..|names| - 1], k)
  }

  lemma {:induction false} ZipParamsLast(names: seq<string>, captures: seq<Option<string>>, k: string)
    requires k in names
    ensures k in ZipParams(names, captures)
    ensures ZipParams(names, captures)[k] == CaptureAt(captures, LastIndexOf(names, k))
    decreases |names|
  {
    var n := |names| - 1;
    if names[n] != k {
      assert k in names[..n];
      ZipParamsLast(names[..n], captures, k);
    }
  }

  /**
   * One alternative: the match the route would provide, or None when its
   * pattern does not match. `controlled` is false for the older route.
   */
  function Resolve(alternative: string, path: string, controlled: bool, parent: Option<RouteMatch>, m: PathMatcher): Option<RouteMatch>
  {
    var d := ParseDecorations(alternative);
    var hit := m.exec(d.bare, d.end, Subject(path, d.doBaseMatch, parent, controlled));
    if hit.None? then None
    else Some(RouteMatch(
      BaseMatchOf(d.doBaseMatch || controlled, parent, hit.value.matched),
      Overlay(ParentParams(parent), ZipParams(m.keys(d.bare), hit.value.captures))))
  }

  /**
   * With an anchored matcher and a parent match that is a proper prefix of the
   * path, the new base match is again a prefix of the path.
   */
  lemma ResolveBaseMatchIsPrefix(alternative: string, path: string, controlled: bool, parent: Option<RouteMatch>, m: PathMatcher)
    requires Anchored(m)
    requires StartsWith(path, ParentBase(parent)) && |ParentBase(parent)| < |path|
    requires Resolve(alternative, path, controlled, parent, m).Some?
    ensures StartsWith(path, Resolve(alternative, path, controlled, parent, m).value.baseMatch)
  {
    var d := ParseDecorations(alternative);
    var base := ParentBase(parent);
    var subject := Subject(path, d.doBaseMatch, parent, controlled);
    var hit := m.exec(d.bare, d.end, subject).value;
    assert StartsWith(subject, hit.matched);
    if !(d.doBaseMatch || controlled) && base != "" {
      assert subject == path[|base|..];
      assert (base + hit.matched) == path[..|base| + |hit.matched|];
    }
  }

  /** The route's own captures override the parent's parameters, which are otherwise kept. */
  lemma ResolveParams(alternative: string, path: string, controlled: bool, parent: Option<RouteMatch>, m: PathMatcher, k: string)
    requires Resolve(alternative, path, controlled, parent, m).Some?
    ensures var d := ParseDecorations(alternative);
      var names := m.keys(d.bare);
      var hit := m.exec(d.bare, d.end, Subject(path, d.doBaseMatch, parent, controlled)).value;
      var params := Resolve(alternative, path, controlled, parent, m).value.params;
      && (k in names ==> k in params && params[k] == CaptureAt(hit.captures, LastIndexOf(names, k)))
      && (k !in names ==> (k in params <==> k in ParentParams(parent)))
      && (k !in names && k in ParentParams(parent) ==> params[k] == ParentParams(parent)[k])
  {
    var d := ParseDecorations(alternative);
    var names := m.keys(d.bare);
    var hit := m.exec(d.bare, d.end, Subject(path, d.doBaseMatch, parent, controlled)).value;
    if k in names {
      ZipParamsLast(names, hit.captures, k);
    } else {
      var own := ZipParams(names, hit.captures);
      assert k !in own;
    }
  }

  /** The first alternative, in order, whose pattern matches. */
  function FirstMatch(alternatives: seq<string>, path: string, controlled: bool, parent: Option<RouteMatch>, m: PathMatcher): (r: Option<RouteMatch>)
    decreases |alternatives|
  {
    if alternatives == [] then None
    else
      var r := Resolve(alternatives[0], path, controlled, parent, m);
      if r.Some? then r else FirstMatch(alternatives[1..], path, controlled, parent, m)
  }

  lemma FirstMatchStep(alternatives: seq<string>, i: nat, path: string, controlled: bool, parent: Option<RouteMatch>, m: PathMatcher)
    requires i < |alternatives|
    ensures var here := Resolve(alternatives[i], path, controlled, parent, m);
      FirstMatch(alternatives[i..], path, controlled, parent, m) ==
        if here.Some? then here else FirstMatch(alternatives[i + 1..], path, controlled, parent, m)
  {
    assert alternatives[i..][0] == alternatives[i] && alternatives[i..][1..] == alternatives[i + 1..];
  }

  /** No alternative matches exactly when the search finds none. */
  lemma {:induction false} FirstMatchNone(alternatives: seq<string>, path: string, controlled: bool, parent: Option<RouteMatch>, m: PathMatcher)
    ensures FirstMatch(alternatives, path, controlled, parent, m).None? <==>
      forall i :: 0 <= i < |alternatives| ==> Resolve(alternatives[i], path, controlled, parent, m).None?
    decreases |alternatives|
  {
    if alternatives != [] {
      var rest := alternatives[1..];
      FirstMatchNone(rest, path, controlled, parent, m);
      assert forall i :: 1 <= i < |alternatives| ==> alternatives[i] == rest[i - 1];
    }
  }

  /** The search returns the match of the first alternative that matches. */
  lemma {:induction false} FirstMatchAt(alternatives: seq<string>, path: string, controlled: bool, parent: Option<RouteMatch>, m: PathMatcher, i: nat)
    requires i < |alternatives| && Resolve(alternatives[i], path, controlled, parent, m).Some?
    requires forall j :: 0 <= j < i ==> Resolve(alternatives[j], path, controlled, parent, m).None?
    ensures FirstMatch(alternatives, path, controlled, parent, m) == Resolve(alternatives[i], path, controlled, parent, m)
    decreases i
  {
    if i > 0 {
      var rest := alternatives[1..];
      assert Resolve(alternatives[0], path, controlled, parent, m).None?;
      assert forall j :: 0 <= j < i - 1 ==> rest[j] == alternatives[j + 1];
      FirstMatchAt(rest, path, controlled, parent, m, i - 1);
    }
  }

  // ---------------------------------------------------------------------
  // The route elements

  /** `fzn-route` of src/router/route.ts. */
  class Route {
    var routeMatch: RouteMatch
    /** The switch path seen by the last handled navigation; None before the first. */
    var currentPath: Option<string>

    constructor ()
      ensures routeMatch == DefaultRouteMatch && currentPath == None
    {
      routeMatch := DefaultRouteMatch;
      currentPath := None;
    }

    /**
     * `handleNavigate`, as written: the alternatives of the `path` attribute
     * are visited in order, but a non-matching one returns from the handler,
     * so only the first alternative is ever tried.
     */
    method HandleNavigate(pathAttribute: string, switchPath: string, controlled: bool, parent: Option<RouteMatch>, m: PathMatcher)
      modifies this
      ensures currentPath == Some(switchPath)
      ensures routeMatch == Resolve(Split(pathAttribute, ',')[0], switchPath, controlled, parent, m).GetOr(old(routeMatch))
    {
      var paths := Split(pathAttribute, ',');
      for i := 0 to |paths| {
        var d := ParseDecorations(paths[i]);
        currentPath := Some(switchPath);
        var hit := m.exec(d.bare, d.end, Subject(switchPath, d.doBaseMatch, parent, controlled));
        if hit.None? {
          return;
        }
        var baseMatch := BaseMatchOf(d.doBaseMatch || controlled, parent, hit.value.matched);
        var params := ZipParams(m.keys(d.bare), hit.value.captures);
        routeMatch := RouteMatch(baseMatch, Overlay(ParentParams(parent), params));
        break;
      }
    }

    /** `handleNavigate` with a non-matching alternative skipped instead of returning. */
    method HandleNavigateIntended(pathAttribute: string, switchPath: string, controlled: bool, parent: Option<RouteMatch>, m: PathMatcher)
      modifies this
      ensures currentPath == Some(switchPath)
      ensures routeMatch == FirstMatch(Split(pathAttribute, ','), switchPath, controlled, parent, m).GetOr(old(routeMatch))
    {
      var paths := Split(pathAttribute, ',');
      var i := 0;
      while i < |paths|
        invariant 0 <= i <= |paths|
        invariant i > 0 ==> currentPath == Some(switchPath)
        invariant routeMatch == old(routeMatch)
        invariant FirstMatch(paths, switchPath, controlled, parent, m) == FirstMatch(paths[i..], switchPath, controlled, parent, m)
      {
        currentPath := Some(switchPath);
        var here := Resolve(paths[i], switchPath, controlled, parent, m);
        FirstMatchStep(paths, i, switchPath, controlled, parent, m);
        if here.None? {
          i := i + 1;
          continue;
        }
        routeMatch := here.value;
        return;
      }
    }
  }

  /** What the older route's handler did. */
  datatype LegacyOutcome =
    | Skipped   // the router path was the one already handled
    | Updated   // the pattern matched and `routeMatch` was replaced
    | Threw     // reading `matches[0]` of a failed match, or matching a null path

  /** `fzn-route` of router/route.ts: one pattern, a repeat-path guard, no null guard. */
  class LegacyRoute {
    var routeMatch: RouteMatch
    /** None while never set (undefined); Some(None) when the router path was null. */
    var currentPath: Option<Option<string>>

    constructor ()
      ensures routeMatch == DefaultRouteMatch && currentPath == None
    {
      routeMatch := DefaultRouteMatch;
      currentPath := None;
    }

    method HandleNavigate(path: string, routerPath: Option<string>, parent: Option<RouteMatch>, m: PathMatcher)
      returns (outcome: LegacyOutcome)
      modifies this
      // a path is handled at most once in a row, even when handling it threw
      ensures currentPath == Some(routerPath)
      ensures outcome == Skipped <==> old(currentPath) == Some(routerPath)
      ensures outcome == Skipped ==> routeMatch == old(routeMatch)
      ensures outcome != Skipped ==>
        var r := if routerPath.Some? then Resolve(path, routerPath.value, false, parent, m) else None;
        && (outcome == Updated <==> r.Some?)
        && routeMatch == r.GetOr(old(routeMatch))
    {
      if currentPath == Some(routerPath) {
        return Skipped;
      }
      var d := ParseDecorations(path);
      currentPath := Some(routerPath);
      if routerPath.None? {
        return Threw;
      }
      var hit := m.exec(d.bare, d.end, Subject(routerPath.value, d.doBaseMatch, parent, false));
      if hit.None? {
        return Threw;
      }
      var baseMatch := BaseMatchOf(d.doBaseMatch, parent, hit.value.matched);
      var params := ZipParams(m.keys(d.bare), hit.value.captures);
      routeMatch := RouteMatch(baseMatch, Overlay(ParentParams(parent), params));
      outcome := Updated;
    }
  }

  // ---------------------------------------------------------------------
  // The skipped alternatives, on a concrete matcher

  /** A matcher that accepts exactly the pattern itself, with no parameters. */
  function ExactMatcher(): PathMatcher
  {
    PathMatcher(p => [], (p, e, s) => if p == s then Some(Hit(s, [])) else None)
  }

  /**
   * With alternatives `/a,/b` and the path `/b`, the handler as written keeps
   * its old match, although the second alternative matches.
   */
  lemma SecondAlternativeIgnored()
    ensures var alts := Split("/a,/b", ',');
      && Resolve(alts[0], "/b", false, None, ExactMatcher()).None?
      && FirstMatch(alts, "/b", false, None, ExactMatcher()) == Some(RouteMatch("/b", map[]))
  {
    var parts := ["/a", "/b"];
    assert "/a,/b" == Join(parts, ',');
    SplitJoin(parts, ',');
    var m := ExactMatcher();
    assert ParseDecorations("/a") == Decorated("/a", false, true);
    assert ParseDecorations("/b") == Decorated("/b", false, true);
    assert Resolve("/b", "/b", false, None, m) == Some(RouteMatch("/b", map[]));
    assert parts[1..] == ["/b"];
  }
}
