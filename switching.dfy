// router/switch.ts: the `fzn-switch` element (path source, first-matching
// child selection, active-slot swap) and the `buildSwitches` template helper.
module Switching {
  import opened Common
  import opened RouteMatching
  import Navigation

  /** A child element of the switch: a route with its `path` attribute, or another element. */
  datatype Child = RouteChild(path: string) | OtherChild

  /** The `slot` attribute of a child; the empty attribute is `NoSlot`. */
  datatype Slot = NoSlot | ActiveSlot | NamedSlot(name: string)

  /** What `getRoute` returns: a route child, `null`, or `undefined`. */
  datatype Lookup = Found(index: nat) | NotFound | Aborted

  /** The matching step of `getRoute` for one route child (no controlled case, no parameters). */
  function ChildMatches(pattern: string, path: string, parent: Option<RouteMatch>, m: PathMatcher): bool
  {
    var d := ParseDecorations(pattern);
    m.exec(d.bare, d.end, Subject(path, d.doBaseMatch, parent, false)).Some?
  }

  /** The switch selects exactly the routes that would resolve when it is not controlled. */
  lemma ChildMatchesResolve(pattern: string, path: string, parent: Option<RouteMatch>, m: PathMatcher)
    ensures ChildMatches(pattern, path, parent, m) <==> Resolve(pattern, path, false, parent, m).Some?
  {
  }

  /** The scan of `getRoute` from position `from`. */
  function Scan(children: seq<Child>, from: nat, path: string, parent: Option<RouteMatch>, m: PathMatcher): Lookup
    decreases |children| - from
  {
    if from >= |children| then NotFound
    else match children[from]
      case OtherChild => Aborted
      case RouteChild(p) =>
        if ChildMatches(p, path, parent, m) then Found(from) else Scan(children, from + 1, path, parent, m)
  }

  /** A route child passed over by the scan. */
  predicate Missed(c: Child, path: string, parent: Option<RouteMatch>, m: PathMatcher)
  {
    c.RouteChild? && !ChildMatches(c.path, path, parent, m)
  }

  /** A found child is a matching route, and every child before it is a route that does not match. */
  lemma {:induction false} ScanFound(children: seq<Child>, from: nat, path: string, parent: Option<RouteMatch>, m: PathMatcher)
    requires Scan(children, from, path, parent, m).Found?
    ensures var i := Scan(children, from, path, parent, m).index;
      && from <= i < |children|
      && children[i].RouteChild? && ChildMatches(children[i].path, path, parent, m)
      && forall j :: from <= j < i ==> Missed(children[j], path, parent, m)
    decreases |children| - from
  {
    if children[from].RouteChild? && !ChildMatches(children[from].path, path, parent, m) {
      ScanFound(children, from + 1, path, parent, m);
    }
  }

  /** `null` exactly when every remaining child is a route that does not match. */
  lemma {:induction false} ScanNotFound(children: seq<Child>, from: nat, path: string, parent: Option<RouteMatch>, m: PathMatcher)
    ensures Scan(children, from, path, parent, m) == NotFound <==>
      forall j :: from <= j < |children| ==> Missed(children[j], path, parent, m)
    decreases |children| - from
  {
    if from < |children| && children[from].RouteChild? && !ChildMatches(children[from].path, path, parent, m) {
      ScanNotFound(children, from + 1, path, parent, m);
    }
  }

  /** `undefined` exactly when a non-route child comes before any matching route. */
  lemma {:induction false} ScanAborted(children: seq<Child>, from: nat, path: string, parent: Option<RouteMatch>, m: PathMatcher, i: nat)
    requires from <= i < |children| && children[i].OtherChild?
    requires forall j :: from <= j < i ==> Missed(children[j], path, parent, m)
    ensures Scan(children, from, path, parent, m) == Aborted
    decreases i - from
  {
    if from < i {
      ScanAborted(children, from + 1, path, parent, m, i);
    }
  }

  /** The first child carrying the active slot (`querySelector('[slot="active"]')`). */
  function FirstActive(slots: seq<Slot>): (r: Option<nat>)
    ensures r.None? <==> forall k :: 0 <= k < |slots| ==> slots[k] != ActiveSlot
    ensures r.Some? ==>
      && r.value < |slots| && slots[r.value] == ActiveSlot
      && forall k :: 0 <= k < r.value ==> slots[k] != ActiveSlot
  {
    if slots == [] then None
    else if slots[0] == ActiveSlot then Some(0)
    else
      var r := FirstActive(slots[1..]);
      assert forall k :: 1 <= k < |slots| ==> slots[k] == slots[1..][k - 1];
      if r.None? then None else Some(r.value + 1)
  }

  function ActiveSet(slots: seq<Slot>): set<nat>
  {
    set k | 0 <= k < |slots| && slots[k] == ActiveSlot
  }

  /** No two children carry the active slot. */
  predicate AtMostOneActive(slots: seq<Slot>)
  {
    forall a, b :: 0 <= a < |slots| && 0 <= b < |slots| && slots[a] == ActiveSlot && slots[b] == ActiveSlot ==> a == b
  }

  /**
   * The slot swap of `navigate`: when the selection differs, the newly
   * selected child becomes active and the previously active one loses its
   * slot; every other child keeps its slot.
   */
  predicate Swapped(before: seq<Slot>, after: seq<Slot>, current: Option<nat>, next: Lookup)
  {
    && |after| == |before|
    && forall k :: 0 <= k < |after| ==>
         after[k] == if Differs(current, next) && next == Found(k) then ActiveSlot
                     else if Differs(current, next) && current == Some(k) then NoSlot
                     else before[k]
  }

  /** `currentRoute !== newRoute`, comparing the active child with the lookup. */
  predicate Differs(current: Option<nat>, next: Lookup)
  {
    match next
    case Found(j) => current != Some(j)
    case NotFound => current.Some?
    case Aborted => true
  }

  /**
   * The route-structure helper: each entry is a path and a content, with an
   * optional `keyed` function.
   */
  datatype Content =
    | Renderer(id: nat)                  // a function of the route match
    | Text(text: string)                 // a tag name or `redirect:<target>`
    | Routes(routes: seq<SwitchRoute>)   // a nested switch
    | Unsupported                        // anything else
  datatype SwitchRoute = SwitchRoute(path: string, content: Content, keyed: bool)

  datatype Built =
    | RenderRoute(path: string, id: nat, keyed: bool)
    | RedirectRoute(path: string, to: string)
    | TagRoute(path: string, tag: string, keyed: bool)
    | SwitchOf(path: string, built: seq<Built>)
    | NoRoute

  const RedirectPrefix: string := "redirect:"

  /** `content.startsWith('redirect:')` */
  predicate IsRedirect(s: string)
  {
    |s| >= 9 && s[..9] == RedirectPrefix
  }

  function Classify(route: SwitchRoute): (b: Built)
    decreases route, 0
  {
    match route.content
    case Renderer(id) => RenderRoute(route.path, id, route.keyed)
    case Text(s) => if IsRedirect(s) then RedirectRoute(route.path, s[9..]) else TagRoute(route.path, s, route.keyed)
    case Routes(rs) => SwitchOf(route.path, BuildSwitches(rs))
    case Unsupported => NoRoute
  }

  /** `buildSwitches(routes)`: one classified route per entry, in order. */
  function BuildSwitches(routes: seq<SwitchRoute>): (r: seq<Built>)
    ensures |r| == |routes|
    decreases routes, 1
  {
    seq(|routes|, i requires 0 <= i < |routes| => Classify(routes[i]))
  }

  /** Each entry keeps its path, and its content decides the kind of route. */
  lemma BuildSwitchesKinds(routes: seq<SwitchRoute>, i: nat)
    requires i < |routes|
    ensures var b := BuildSwitches(routes)[i];
      var r := routes[i];
      && (r.content.Renderer? <==> b.RenderRoute?)
      && (r.content.Text? && IsRedirect(r.content.text) <==> b.RedirectRoute?)
      && (r.content.Text? && !IsRedirect(r.content.text) <==> b.TagRoute?)
      && (r.content.Routes? <==> b.SwitchOf?)
      && (r.content.Unsupported? <==> b.NoRoute?)
      && (!b.NoRoute? ==> b.path == r.path)
      && (b.SwitchOf? ==> b.built == BuildSwitches(r.content.routes))
  {
  }

  /** A redirect target survives the `redirect:` prefix: `substring(9)` undoes it. */
  lemma RedirectRoundTrip(path: string, target: string, keyed: bool)
    ensures Classify(SwitchRoute(path, Text(RedirectPrefix + target), keyed)) == RedirectRoute(path, target)
  {
    var s := RedirectPrefix + target;
    assert s[..9] == RedirectPrefix;
    assert s[9..] == target;
  }

  /** When a redirect is classified, the prefix and the target give back the text. */
  lemma RedirectSplit(route: SwitchRoute)
    requires Classify(route).RedirectRoute?
    ensures route.content == Text(RedirectPrefix + Classify(route).to)
  {
    var s := route.content.text;
    assert s == s[..9] + s[9..];
  }

  /** A `string | null` value as JavaScript sees it. */
  function FromNullable(o: Option<string>): JsString
  {
    if o.Some? then Str(o.value) else Null
  }

  /**
   * What `getRoute(path)` gives: for a string, the scan; for `null` or
   * `undefined`, the first route child throws on `parsedPath.match`, so only
   * a switch without children (`null`) or one whose first child is not a
   * route (`undefined`) returns. None stands for the thrown TypeError.
   */
  function PathLookup(children: seq<Child>, path: JsString, parent: Option<RouteMatch>, m: PathMatcher): (r: Option<Lookup>)
    ensures r.None? <==> !path.Str? && children != [] && children[0].RouteChild?
    ensures !path.Str? && r.Some? ==> !r.value.Found?
  {
    if path.Str? then Some(Scan(children, 0, path.s, parent, m))
    else if children == [] then Some(NotFound)
    else if children[0].OtherChild? then Some(Aborted)
    else None
  }

  /** `fzn-switch`. */
  class Switch {
    var router: Navigation.Router?
    var controlled: bool
    /** `_currentPath`; undefined until it is set. */
    var storedPath: JsString
    var hasUpdated: bool
    var children: seq<Child>
    /** The slot attribute of each child, by position. */
    var slots: seq<Slot>
    /** `parentRoute?.routeMatch`. */
    var parent: Option<RouteMatch>
    const matcher: PathMatcher
    /** Details of the dispatched `navigate` events. */
    var events: seq<JsString>

    ghost predicate Valid()
      reads this
    {
      |slots| == |children|
    }

    constructor (router: Navigation.Router?, controlled: bool, children: seq<Child>, parent: Option<RouteMatch>, matcher: PathMatcher)
      ensures Valid()
      ensures this.router == router && this.controlled == controlled && this.children == children
      ensures this.parent == parent && this.matcher == matcher
      ensures storedPath == Undefined && !hasUpdated && events == []
      ensures forall k :: 0 <= k < |slots| ==> slots[k] == NoSlot
    {
      this.router := router;
      this.controlled := controlled;
      this.children := children;
      this.parent := parent;
      this.matcher := matcher;
      storedPath := Undefined;
      hasUpdated := false;
      slots := seq(|children|, k => NoSlot);
      events := [];
    }

    /**
     * The `currentPath` getter: the stored path when controlled, else the
     * router's (`null` until it navigates), and `undefined` without a router.
     */
    function CurrentPath(): (p: JsString)
      reads this, router
      ensures controlled ==> p == storedPath
      ensures !controlled && router != null ==> p == FromNullable(router.currentPath)
      ensures !controlled && router == null ==> p == Undefined
    {
      if controlled then storedPath
      else if router == null then Undefined
      else FromNullable(router.currentPath)
    }

    /**
     * `getRoute(path)`: the first matching route child, stopping at a
     * non-route child; None when matching a path that is not a string throws.
     */
    method GetRoute(path: JsString) returns (r: Option<Lookup>)
      ensures r == PathLookup(children, path, parent, matcher)
    {
      var i := 0;
      while i < |children|
        invariant 0 <= i <= |children|
        invariant i > 0 ==> path.Str?
        invariant path.Str? ==> Scan(children, 0, path.s, parent, matcher) == Scan(children, i, path.s, parent, matcher)
      {
        match children[i]
        case OtherChild =>
          return Some(Aborted);
        case RouteChild(p) =>
          if !path.Str? {
            return None;
          }
          var d := ParseDecorations(p);
          var hit := matcher.exec(d.bare, d.end, Subject(path.s, d.doBaseMatch, parent, false));
          if hit.None? {
            i := i + 1;
            continue;
          }
          return Some(Found(i));
      }
      return Some(NotFound);
    }

    /**
     * `navigate(path)`: only `null` returns at once; otherwise the lookup
     * may throw, or the slot moves to the newly selected child when it
     * differs and `navigate` is dispatched with the path.
     */
    method Navigate(path: JsString) returns (threw: bool)
      requires Valid()
      modifies this`slots, this`events
      ensures Valid()
      ensures path.Null? ==> !threw && slots == old(slots) && events == old(events)
      ensures !path.Null? ==>
        var next := PathLookup(children, path, parent, matcher);
        && (threw <==> next.None?)
        && (next.None? ==> slots == old(slots) && events == old(events))
        && (next.Some? ==>
              var current := FirstActive(old(slots));
              && events == old(events) + [path]
              && Swapped(old(slots), slots, current, next.value)
              && (AtMostOneActive(old(slots)) ==> ActiveSet(slots) == if next.value.Found? then {next.value.index} else {}))
    {
      if path.Null? {
        return false;
      }
      var current := FirstActive(slots);
      var lookup := GetRoute(path);
      if lookup.None? {
        return true;
      }
      var next := lookup.value;
      if next.Found? {
        ScanFound(children, 0, path.s, parent, matcher);
      }
      ghost var before := slots;
      if Differs(current, next) {
        if current.Some? {
          slots := slots[current.value := NoSlot];
        }
        if next.Found? {
          slots := slots[next.index := ActiveSlot];
        }
      }
      assert Swapped(before, slots, current, next);
      ActiveAfterSwap(before, slots, current, next);
      events := events + [path];
      return false;
    }

    /** `handleNavigate`: router navigations, always strings, are followed only when not controlled. */
    method HandleNavigate(path: string)
      requires Valid()
      modifies this`slots, this`events
      ensures Valid()
      ensures controlled ==> slots == old(slots) && events == old(events)
      ensures !controlled ==>
        && events == old(events) + [Str(path)]
        && Swapped(old(slots), slots, FirstActive(old(slots)), Scan(children, 0, path, parent, matcher))
    {
      if !controlled {
        var threw := Navigate(Str(path));
      }
    }

    /**
     * The `currentPath` setter: acts only on change, and navigates only
     * after the first update; the path is stored before a lookup can throw.
     */
    method SetCurrentPath(path: JsString) returns (threw: bool)
      requires Valid()
      modifies this`storedPath, this`slots, this`events
      ensures Valid() && storedPath == path
      ensures old(storedPath) == path || !hasUpdated || path.Null? ==>
        !threw && slots == old(slots) && events == old(events)
      ensures old(storedPath) != path && hasUpdated && !path.Null? ==>
        var next := PathLookup(children, path, parent, matcher);
        && (threw <==> next.None?)
        && (next.None? ==> slots == old(slots) && events == old(events))
        && (next.Some? ==> events == old(events) + [path] && Swapped(old(slots), slots, FirstActive(old(slots)), next.value))
    {
      threw := false;
      if storedPath != path {
        storedPath := path;
        if hasUpdated {
          threw := Navigate(path);
        }
      }
    }

    /**
     * `connectedCallback`: navigate to the router's path, or to the own
     * path when controlled; a switch with neither a router nor control
     * does nothing.
     */
    method ConnectedCallback() returns (threw: bool)
      requires Valid()
      modifies this`slots, this`events
      ensures Valid()
      ensures !controlled && router == null ==> !threw && slots == old(slots) && events == old(events)
      ensures controlled || router != null ==>
        var path := CurrentPath();
        var next := PathLookup(children, path, parent, matcher);
        && (path.Null? ==> !threw && slots == old(slots) && events == old(events))
        && (!path.Null? ==> (threw <==> next.None?))
        && (!path.Null? && next.None? ==> slots == old(slots) && events == old(events))
        && (!path.Null? && next.Some? ==>
              events == old(events) + [path] && Swapped(old(slots), slots, FirstActive(old(slots)), next.value))
    {
      threw := false;
      if !controlled {
        if router != null {
          threw := Navigate(FromNullable(router.currentPath));
        }
      } else {
        threw := Navigate(storedPath);
      }
    }
  }

  /** From at most one active child, the swap leaves exactly the selected child active. */
  lemma ActiveAfterSwap(before: seq<Slot>, after: seq<Slot>, current: Option<nat>, next: Lookup)
    requires current == FirstActive(before)
    requires next.Found? ==> next.index < |before|
    requires Swapped(before, after, current, next)
    ensures AtMostOneActive(before) ==> ActiveSet(after) == if next.Found? then {next.index} else {}
  {
  }
}
