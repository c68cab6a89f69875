// router/router.js: the legacy page router. A table of paths names the route
// to show; a table of routes says how to build each page; the router keeps
// one page instance per route and records which route is current.
module PageRouter {
  import opened Common
  import Arrays

  /** Route and page properties: a plain object whose values may be undefined. */
  type Props = map<string, Option<string>>

  /** The first element of a `paths` entry: a regular expression or a literal path. */
  datatype Pattern = Regex(id: nat) | Literal(path: string)
  datatype PathEntry = PathEntry(pattern: Pattern, routeName: string)

  /**
   * `string.match(regex)`: None when the expression does not match, else the
   * match array, whole match first. The engine is not part of this model.
   */
  type RegexMatcher = (nat, string) -> Option<seq<Option<string>>>

  /** What `getRoute` returns: the route to load and its props. */
  datatype RouteState = RouteState(routeName: string, props: Props)

  /** `Object.assign({}, array)`: an array's items under the keys "0", "1", ... */
  function ArrayProps(items: seq<Option<string>>): (r: Props)
    ensures r.Keys == set k | 0 <= k < |items| :: NatToDecimal(k)
    decreases |items|
  {
    if |items| == 0 then map[]
    else
      var n := |items| - 1;
      var init := ArrayProps(items[..n]);
      assert (set k | 0 <= k < |items| :: NatToDecimal(k)) == (set k | 0 <= k < n :: NatToDecimal(k)) + {NatToDecimal(n)};
      init[NatToDecimal(n) := items[n]]
  }

  lemma DecimalInjective(a: nat, b: nat)
    requires NatToDecimal(a) == NatToDecimal(b)
    ensures a == b
  {
    ParseNatToDecimal(a);
    ParseNatToDecimal(b);
  }

  /** Item `k` of the array sits under the key `"k"`. */
  lemma {:induction false} ArrayPropsAt(items: seq<Option<string>>, k: nat)
    requires k < |items|
    ensures NatToDecimal(k) in ArrayProps(items)
    ensures ArrayProps(items)[NatToDecimal(k)] == items[k]
    decreases |items|
  {
    var n := |items| - 1;
    if k < n {
      if NatToDecimal(k) == NatToDecimal(n) {
        DecimalInjective(k, n);
      }
      ArrayPropsAt(items[..n], k);
    }
  }

  /** Does one `paths` entry select the parsed path? */
  predicate EntryMatches(e: PathEntry, parsed: string, followDefault: bool, rx: RegexMatcher)
  {
    match e.pattern
    case Regex(id) => rx(id, parsed).Some?
    case Literal(p) => p == parsed || (followDefault && p == "/*")
  }

  /** The route state of a matching entry: the capture groups, or no props. */
  function EntryState(e: PathEntry, parsed: string, rx: RegexMatcher): RouteState
  {
    match e.pattern
    case Regex(id) =>
      RouteState(e.routeName, if rx(id, parsed).Some? then ArrayProps(SubstringFrom(rx(id, parsed).value, 1)) else map[])
    case Literal(_) => RouteState(e.routeName, map[])
  }

  /** The lookup of `getRoute` from entry `from` on. */
  function Lookup(paths: seq<PathEntry>, from: nat, parsed: string, followDefault: bool, rx: RegexMatcher): Option<RouteState>
    decreases |paths| - from
  {
    if from >= |paths| then None
    else if EntryMatches(paths[from], parsed, followDefault, rx) then Some(EntryState(paths[from], parsed, rx))
    else Lookup(paths, from + 1, parsed, followDefault, rx)
  }

  /** No route exactly when no entry matches. */
  lemma {:induction false} LookupNone(paths: seq<PathEntry>, from: nat, parsed: string, followDefault: bool, rx: RegexMatcher)
    ensures Lookup(paths, from, parsed, followDefault, rx).None? <==>
      forall j :: from <= j < |paths| ==> !EntryMatches(paths[j], parsed, followDefault, rx)
    decreases |paths| - from
  {
    if from < |paths| && !EntryMatches(paths[from], parsed, followDefault, rx) {
      LookupNone(paths, from + 1, parsed, followDefault, rx);
    }
  }

  /** The first matching entry decides the route. */
  lemma {:induction false} LookupFirst(paths: seq<PathEntry>, from: nat, parsed: string, followDefault: bool, rx: RegexMatcher, i: nat)
    requires from <= i < |paths| && EntryMatches(paths[i], parsed, followDefault, rx)
    requires forall j :: from <= j < i ==> !EntryMatches(paths[j], parsed, followDefault, rx)
    ensures Lookup(paths, from, parsed, followDefault, rx) == Some(EntryState(paths[i], parsed, rx))
    decreases i - from
  {
    if from < i {
      LookupFirst(paths, from + 1, parsed, followDefault, rx, i);
    }
  }

  /** With the default followed, a catch-all entry (the literal star path) means some route is always found. */
  lemma DefaultAlwaysFound(paths: seq<PathEntry>, parsed: string, rx: RegexMatcher, i: nat)
    requires i < |paths| && paths[i].pattern == Literal("/*")
    ensures Lookup(paths, 0, parsed, true, rx).Some?
  {
    LookupNone(paths, 0, parsed, true, rx);
    assert EntryMatches(paths[i], parsed, true, rx);
  }

  /** A captured route's props are its capture groups without the whole match. */
  lemma CaptureProps(e: PathEntry, parsed: string, rx: RegexMatcher, k: nat)
    requires e.pattern.Regex? && EntryMatches(e, parsed, false, rx)
    requires k + 1 < |rx(e.pattern.id, parsed).value|
    ensures EntryState(e, parsed, rx).props[NatToDecimal(k)] == rx(e.pattern.id, parsed).value[k + 1]
  {
    var groups := rx(e.pattern.id, parsed).value;
    ArrayPropsAt(groups[1..], k);
  }

  /** `route.instance`: null, absent after `delete`, or a page object. */
  datatype Instance = NoInstance | Deleted | Live(id: nat)

  /** One `routes` entry: `[name, page, props, onCreate]`. */
  datatype RouteEntry = RouteEntry(name: string, page: nat, props: Option<Props>, onCreate: bool)

  /** A `routesMap` value. */
  datatype PageRoute = PageRoute(name: string, page: nat, props: Option<Props>, onCreate: bool,
                                 instance: Instance, lastProps: Option<Props>)

  function NewPageRoute(e: RouteEntry): PageRoute
  {
    PageRoute(e.name, e.page, e.props, e.onCreate, NoInstance, None)
  }

  function NewPageRoutes(routes: seq<RouteEntry>): (r: seq<PageRoute>)
    ensures |r| == |routes|
    ensures forall i :: 0 <= i < |r| ==> r[i] == NewPageRoute(routes[i])
  {
    if routes == [] then [] else [NewPageRoute(routes[0])] + NewPageRoutes(routes[1..])
  }

  function RouteName(r: PageRoute): string { r.name }

  /** `routesMap[currentRoute]`: a null current route is looked up as the key "null". */
  function RouteKey(current: Option<string>): string
  {
    if current.Some? then current.value else "null"
  }

  /** `unloadRoute` acts: the current route's entry exists and holds a page object. */
  predicate Unloads(routesMap: map<string, PageRoute>, current: Option<string>)
  {
    RouteKey(current) in routesMap && routesMap[RouteKey(current)].instance.Live?
  }

  /** The instance `loadRoute` finds once the current route is unloaded. */
  function PriorInstance(before: PageRoute, current: Option<string>, name: string): Instance
  {
    if current == Some(name) && before.instance.Live? then Deleted else before.instance
  }

  /** Two states of one route that agree on everything but the instance and the last props. */
  predicate SameRoute(a: PageRoute, b: PageRoute)
  {
    a.name == b.name && a.page == b.page && a.props == b.props && a.onCreate == b.onCreate
  }

  /**
   * The route `loadRoute` leaves behind: the same route with the overlaid
   * props stored; the prior page object kept when it takes the props, else
   * a fresh one, reported to `onCreate` with the prior instance.
   */
  predicate Entered(route: PageRoute, before: PageRoute, prior: Instance, props: Props, reload: (nat, Props) -> bool,
                    next0: nat, next1: nat, created0: seq<Instance>, created1: seq<Instance>)
  {
    && SameRoute(route, before)
    && route.lastProps == Some(props)
    && if !Reloads(prior, props, reload) then
         route.instance == prior && next1 == next0 && created1 == created0
       else
         && route.instance == Live(next0) && next1 == next0 + 1
         && created1 == created0 + if before.onCreate then [prior] else []
  }

  /** The props `loadRoute` hands the page: the route's props overlaid with the state's. */
  function LoadProps(before: PageRoute, state: RouteState): Props
  {
    Overlay(before.props.GetOr(map[]), state.props)
  }

  /**
   * `loadRoute` builds a new page object: the instance, read with `?? null`,
   * is null, or its `shouldComponentReload` accepts the props.
   */
  predicate Reloads(prior: Instance, props: Props, reload: (nat, Props) -> bool)
  {
    !prior.Live? || reload(prior.id, props)
  }

  /** The routes map after `unloadRoute()`. */
  function UnloadMap(m: map<string, PageRoute>, current: Option<string>): (r: map<string, PageRoute>)
    ensures r.Keys == m.Keys
  {
    if Unloads(m, current) then m[RouteKey(current) := m[RouteKey(current)].(instance := Deleted)] else m
  }

  /** The current route after `unloadRoute()`. */
  function UnloadCurrent(m: map<string, PageRoute>, current: Option<string>): Option<string>
  {
    if Unloads(m, current) then None else current
  }

  /**
   * The routes map `loadRoute` leaves for a known route once the current
   * route is unloaded: the props stored; on a reload, the inner
   * `unloadRoute()` when the instance is not null (undefined counts), then
   * the new page object.
   */
  function EnterMap(m: map<string, PageRoute>, current: Option<string>, state: RouteState,
                    reload: (nat, Props) -> bool, next: nat): (r: map<string, PageRoute>)
    requires state.routeName in m
  {
    var name := state.routeName;
    var before := m[name];
    var props := LoadProps(before, state);
    var m0 := m[name := before.(lastProps := Some(props))];
    if Reloads(before.instance, props, reload) then
      var m1 := if before.instance != NoInstance then UnloadMap(m0, current) else m0;
      m1[name := m0[name].(instance := Live(next))]
    else m0
  }

  /** The routes map after `loadRoute(state)`. */
  function LoadMap(m: map<string, PageRoute>, current: Option<string>, state: RouteState,
                   reload: (nat, Props) -> bool, next: nat): (r: map<string, PageRoute>)
  {
    var m1 := if current.Some? then UnloadMap(m, current) else m;
    var current1 := if current.Some? then UnloadCurrent(m, current) else current;
    if state.routeName in m1 then EnterMap(m1, current1, state, reload, next) else m1
  }

  /** The current route after `loadRoute(state)`. */
  function LoadCurrent(m: map<string, PageRoute>, current: Option<string>, state: RouteState): Option<string>
  {
    if state.routeName in m then Some(state.routeName)
    else if current.Some? then UnloadCurrent(m, current)
    else current
  }

  /** `loadRoute(state)` builds a new page object for the route. */
  predicate LoadCreates(m: map<string, PageRoute>, current: Option<string>, state: RouteState, reload: (nat, Props) -> bool)
  {
    state.routeName in m &&
    Reloads(PriorInstance(m[state.routeName], current, state.routeName), LoadProps(m[state.routeName], state), reload)
  }

  /**
   * The inner `unloadRoute()` of `loadRoute` runs while no route is current,
   * so it reaches the entry under the key "null": the route is known, the
   * outer unload cleared the current route (or there was none), and the
   * instance found afterwards is not null yet is to be rebuilt.
   */
  predicate SecondUnload(m: map<string, PageRoute>, current: Option<string>, state: RouteState, reload: (nat, Props) -> bool)
  {
    && state.routeName in m
    && (current.None? || Unloads(m, current))
    && var prior := PriorInstance(m[state.routeName], current, state.routeName);
       prior != NoInstance && Reloads(prior, LoadProps(m[state.routeName], state), reload)
  }

  /**
   * `loadRoute(state)` changes no entry but the loaded route's, the current
   * one's and the one under "null"; the loaded route keeps its definition,
   * stores the props and holds a new page object exactly on a reload.
   */
  lemma LoadMapFacts(m: map<string, PageRoute>, current: Option<string>, state: RouteState,
                     reload: (nat, Props) -> bool, next: nat)
    ensures LoadMap(m, current, state, reload, next).Keys == m.Keys
    ensures forall k :: k in m && k != state.routeName && k != RouteKey(current) && k != "null" ==>
      LoadMap(m, current, state, reload, next)[k] == m[k]
    ensures state.routeName in m ==>
      var name := state.routeName;
      LoadMap(m, current, state, reload, next)[name] ==
        m[name].(lastProps := Some(LoadProps(m[name], state)),
                 instance := if LoadCreates(m, current, state, reload) then Live(next) else PriorInstance(m[name], current, name))
  {
  }

  /** Loading another route deletes the previous route's page object exactly when `unloadRoute` finds one. */
  lemma LoadUnloadsPrevious(m: map<string, PageRoute>, current: Option<string>, state: RouteState,
                            reload: (nat, Props) -> bool, next: nat)
    requires current.Some? && current.value in m && current.value != state.routeName
    ensures current.value in LoadMap(m, current, state, reload, next)
    ensures LoadMap(m, current, state, reload, next)[current.value] ==
      if Unloads(m, current) then m[current.value].(instance := Deleted) else m[current.value]
  {
    var k := current.value;
    var m1 := UnloadMap(m, current);
    if state.routeName in m1 {
      var name := state.routeName;
      var before := m1[name];
      var props := LoadProps(before, state);
      var m0 := m1[name := before.(lastProps := Some(props))];
      var current1 := UnloadCurrent(m, current);
      assert m0[k] == m1[k];
      if current1.Some? {
        assert !Unloads(m0, current1);
      } else if k == "null" {
        assert !m0[k].instance.Live?;
      }
    }
  }

  /**
   * The entry under the key "null", when it is neither the loaded route nor
   * the current one, loses its page object exactly when the inner unload
   * reaches it and it has one.
   */
  lemma LoadNullEntry(m: map<string, PageRoute>, current: Option<string>, state: RouteState,
                      reload: (nat, Props) -> bool, next: nat)
    requires "null" in m && state.routeName != "null" && current != Some("null")
    ensures "null" in LoadMap(m, current, state, reload, next)
    ensures LoadMap(m, current, state, reload, next)["null"] ==
      if SecondUnload(m, current, state, reload) && m["null"].instance.Live? then m["null"].(instance := Deleted) else m["null"]
  {
    var m1 := if current.Some? then UnloadMap(m, current) else m;
    var current1 := if current.Some? then UnloadCurrent(m, current) else current;
    assert m1["null"] == m["null"];
    if state.routeName in m1 {
      var name := state.routeName;
      assert m1[name].instance == PriorInstance(m[name], current, name);
      assert m1[name].props == m[name].props;
      var before := m1[name];
      var props := LoadProps(before, state);
      var m0 := m1[name := before.(lastProps := Some(props))];
      assert m0["null"] == m["null"];
      if current1.Some? {
        assert current.Some? && !Unloads(m, current);
        assert !Unloads(m0, current1);
      }
    }
  }

  /** The state `loadRoute(state)` leaves, read off the functions that describe it. */
  lemma LoadRouteFacts(m: map<string, PageRoute>, current: Option<string>, state: RouteState, reload: (nat, Props) -> bool,
                       next: nat, created: seq<Instance>, m2: map<string, PageRoute>, current2: Option<string>,
                       next2: nat, created2: seq<Instance>)
    requires m2 == LoadMap(m, current, state, reload, next)
    requires current2 == LoadCurrent(m, current, state)
    requires next2 == next + if LoadCreates(m, current, state, reload) then 1 else 0
    requires created2 == created +
      if LoadCreates(m, current, state, reload) && m[state.routeName].onCreate then
        [PriorInstance(m[state.routeName], current, state.routeName)]
      else []
    ensures m2.Keys == m.Keys
    ensures forall k :: k in m2 && k != state.routeName && k != RouteKey(current) && k != "null" ==> m2[k] == m[k]
    ensures state.routeName !in m ==>
      next2 == next && created2 == created && current2 == if current.Some? && Unloads(m, current) then None else current
    ensures state.routeName in m ==>
      var before := m[state.routeName];
      && current2 == Some(state.routeName)
      && Entered(m2[state.routeName], before, PriorInstance(before, current, state.routeName), LoadProps(before, state),
                 reload, next, next2, created, created2)
    ensures current.Some? && current.value in m && current.value != state.routeName ==>
      m2[current.value] == if Unloads(m, current) then m[current.value].(instance := Deleted) else m[current.value]
    ensures "null" in m && state.routeName != "null" && current != Some("null") ==>
      m2["null"] == if SecondUnload(m, current, state, reload) && m["null"].instance.Live? then m["null"].(instance := Deleted) else m["null"]
  {
    LoadMapFacts(m, current, state, reload, next);
    if current.Some? && current.value in m && current.value != state.routeName {
      LoadUnloadsPrevious(m, current, state, reload, next);
    }
    if "null" in m && state.routeName != "null" && current != Some("null") {
      LoadNullEntry(m, current, state, reload, next);
    }
  }

  /** The outcome of assigning `currentPath`. */
  datatype PathOutcome = Unchanged | Threw | Redirected(to: string) | Loaded(route: string)

  /** The legacy router element. */
  class Router {
    var routes: seq<RouteEntry>
    var routesMap: map<string, PageRoute>
    var paths: seq<PathEntry>
    var currentRoute: Option<string>
    /** `_currentPath`; None while undefined. */
    var storedPath: Option<string>
    /** `route` events, with the route dispatched as detail. */
    var events: seq<PageRoute>
    /** Paths handed to the router context's `navigate` with `replace: true`. */
    var redirects: seq<string>
    /** The instance the next `new Page(props)` creates. */
    var nextInstance: nat
    /** The arguments of the `onCreate` callbacks. */
    var created: seq<Instance>
    const rx: RegexMatcher
    /** `instance.shouldComponentReload(props)`; false for a page without the method. */
    const reload: (nat, Props) -> bool

    /** Every page object was created here: a new one is held by no route yet. */
    ghost predicate Valid()
      reads this`routesMap, this`nextInstance
    {
      forall k :: k in routesMap && routesMap[k].instance.Live? ==> routesMap[k].instance.id < nextInstance
    }

    constructor (rx: RegexMatcher, reload: (nat, Props) -> bool)
      ensures Valid()
      ensures routes == [] && routesMap == map[] && paths == [] && currentRoute == None && storedPath == None
      ensures events == [] && redirects == [] && created == [] && this.rx == rx && this.reload == reload
    {
      routes := [];
      routesMap := map[];
      paths := [];
      currentRoute := None;
      storedPath := None;
      events := [];
      redirects := [];
      nextInstance := 0;
      created := [];
      this.rx := rx;
      this.reload := reload;
    }

    /** `getRoute(parsedPath, { followDefault })`: the first entry of `paths` that matches. */
    method GetRoute(parsed: string, followDefault: bool) returns (r: Option<RouteState>)
      ensures r == Lookup(paths, 0, parsed, followDefault, rx)
    {
      var i := 0;
      while i < |paths|
        invariant 0 <= i <= |paths|
        invariant Lookup(paths, 0, parsed, followDefault, rx) == Lookup(paths, i, parsed, followDefault, rx)
      {
        var e := paths[i];
        match e.pattern {
          case Regex(id) =>
            var groups := rx(id, parsed);
            if groups.Some? {
              return Some(RouteState(e.routeName, ArrayProps(SubstringFrom(groups.value, 1))));
            }
          case Literal(p) =>
            if p == parsed || (followDefault && p == "/*") {
              return Some(RouteState(e.routeName, map[]));
            }
        }
        i := i + 1;
      }
      return None;
    }

    /** The `routes` setter: a new table keyed by name, every route without an instance. */
    method SetRoutes(newRoutes: seq<RouteEntry>)
      modifies this`routes, this`routesMap
      ensures Valid()
      ensures routes == newRoutes
      ensures old(routes) != newRoutes ==> routesMap == Arrays.GroupBy(NewPageRoutes(newRoutes), RouteName)
      ensures old(routes) == newRoutes ==> routesMap == old(routesMap)
      ensures old(routes) != newRoutes ==> forall k :: k in routesMap ==> routesMap[k].instance == NoInstance
      ensures old(routes) != newRoutes ==> routesMap.Keys == set e | e in newRoutes :: e.name
      requires Valid()
    {
      if routes != newRoutes {
        routes := newRoutes;
        var pages := NewPageRoutes(newRoutes);
        routesMap := Arrays.GroupBy(pages, RouteName);
        forall k | k in routesMap
          ensures routesMap[k].instance == NoInstance
        {
          assert routesMap[k] in pages by {
            GroupedFrom(pages, RouteName, k);
          }
        }
        assert forall p :: p in pages ==> exists e :: e in newRoutes && p == NewPageRoute(e);
        assert forall e :: e in newRoutes ==> NewPageRoute(e) in pages by {
          forall e | e in newRoutes
            ensures NewPageRoute(e) in pages
          {
            var i :| 0 <= i < |newRoutes| && newRoutes[i] == e;
            assert pages[i] == NewPageRoute(e);
          }
        }
      }
    }

    /**
     * `unloadRoute()`: only when the current route exists and has a page
     * object is that object deleted and the current route cleared.
     */
    method UnloadRoute()
      requires Valid()
      modifies this`routesMap, this`currentRoute
      ensures Valid()
      ensures var k := RouteKey(old(currentRoute));
        if Unloads(old(routesMap), old(currentRoute)) then
          routesMap == old(routesMap)[k := old(routesMap)[k].(instance := Deleted)] && currentRoute == None
        else
          routesMap == old(routesMap) && currentRoute == old(currentRoute)
    {
      var k := RouteKey(currentRoute);
      if k !in routesMap {
        return;
      }
      var route := routesMap[k];
      if !route.instance.Live? {
        return;
      }
      routesMap := routesMap[k := route.(instance := Deleted)];
      currentRoute := None;
    }

    /** `route.lastProps = props` */
    method SetLastProps(name: string, props: Props)
      requires Valid() && name in routesMap
      modifies this`routesMap
      ensures Valid()
      ensures routesMap == old(routesMap)[name := old(routesMap)[name].(lastProps := Some(props))]
    {
      routesMap := routesMap[name := routesMap[name].(lastProps := Some(props))];
    }

    /** `route.instance = new Page(props)`: a page object no route holds yet. */
    method CreateInstance(name: string)
      requires Valid() && name in routesMap
      modifies this`routesMap, this`nextInstance
      ensures Valid()
      ensures routesMap == old(routesMap)[name := old(routesMap)[name].(instance := Live(old(nextInstance)))]
      ensures nextInstance == old(nextInstance) + 1
    {
      routesMap := routesMap[name := routesMap[name].(instance := Live(nextInstance))];
      nextInstance := nextInstance + 1;
    }

    /** Unload the current route when asked, then give the named route a new page object. */
    method Recreate(name: string, unload: bool)
      requires Valid() && name in routesMap
      modifies this`routesMap, this`currentRoute, this`nextInstance
      ensures Valid()
      ensures routesMap.Keys == old(routesMap).Keys
      ensures forall k :: k in routesMap && k != name && k != RouteKey(old(currentRoute)) ==>
        routesMap[k] == old(routesMap)[k]
      ensures routesMap[name] == old(routesMap)[name].(instance := Live(old(nextInstance)))
      ensures var m1 := if unload then UnloadMap(old(routesMap), old(currentRoute)) else old(routesMap);
        routesMap == m1[name := old(routesMap)[name].(instance := Live(old(nextInstance)))]
      ensures currentRoute == if unload then UnloadCurrent(old(routesMap), old(currentRoute)) else old(currentRoute)
      ensures nextInstance == old(nextInstance) + 1
    {
      if unload {
        UnloadRoute();
      }
      CreateInstance(name);
    }

    /**
     * `loadRoute(routeState)`: unload the current route; for a known route,
     * store the overlaid props, create a page object unless the existing one
     * can take the new props, announce the route and make it current.
     */
    method LoadRoute(state: RouteState)
      requires Valid()
      modifies this`routesMap, this`currentRoute, this`events, this`nextInstance, this`created
      ensures Valid()
      ensures routesMap.Keys == old(routesMap).Keys
      ensures forall k :: k in routesMap && k != state.routeName && k != RouteKey(old(currentRoute)) && k != "null" ==>
        routesMap[k] == old(routesMap)[k]
      ensures state.routeName !in old(routesMap) ==>
        && events == old(events) && nextInstance == old(nextInstance) && created == old(created)
        && currentRoute == if old(currentRoute).Some? && Unloads(old(routesMap), old(currentRoute)) then None else old(currentRoute)
      ensures state.routeName in old(routesMap) ==>
        var before := old(routesMap)[state.routeName];
        var props := LoadProps(before, state);
        && currentRoute == Some(state.routeName)
        && Entered(routesMap[state.routeName], before, PriorInstance(before, old(currentRoute), state.routeName), props,
                   reload, old(nextInstance), nextInstance, old(created), created)
        && events == old(events) + [routesMap[state.routeName]]
      ensures routesMap == LoadMap(old(routesMap), old(currentRoute), state, reload, old(nextInstance))
      ensures currentRoute == LoadCurrent(old(routesMap), old(currentRoute), state)
      ensures nextInstance == old(nextInstance) + if LoadCreates(old(routesMap), old(currentRoute), state, reload) then 1 else 0
      ensures created == old(created) +
        if LoadCreates(old(routesMap), old(currentRoute), state, reload) && old(routesMap)[state.routeName].onCreate then
          [PriorInstance(old(routesMap)[state.routeName], old(currentRoute), state.routeName)]
        else []
      ensures old(currentRoute).Some? && old(currentRoute).value in old(routesMap) && old(currentRoute).value != state.routeName ==>
        routesMap[old(currentRoute).value] ==
          if Unloads(old(routesMap), old(currentRoute)) then old(routesMap)[old(currentRoute).value].(instance := Deleted)
          else old(routesMap)[old(currentRoute).value]
      ensures "null" in old(routesMap) && state.routeName != "null" && old(currentRoute) != Some("null") ==>
        routesMap["null"] ==
          if SecondUnload(old(routesMap), old(currentRoute), state, reload) && old(routesMap)["null"].instance.Live? then
            old(routesMap)["null"].(instance := Deleted)
          else old(routesMap)["null"]
    {
      ghost var m, current, next, created0 := routesMap, currentRoute, nextInstance, created;
      if currentRoute.Some? {
        UnloadRoute();
      }
      ghost var m1, current1 := routesMap, currentRoute;
      assert m1 == if current.Some? then UnloadMap(m, current) else m;
      assert current1 == if current.Some? then UnloadCurrent(m, current) else current;
      if state.routeName in routesMap {
        assert m1[state.routeName].instance == PriorInstance(m[state.routeName], current, state.routeName);
        assert LoadProps(m1[state.routeName], state) == LoadProps(m[state.routeName], state);
      }
      Enter(state);
      LoadRouteFacts(m, current, state, reload, next, created0, routesMap, currentRoute, nextInstance, created);
    }

    /** `loadRoute` once the current route is unloaded. */
    method Enter(state: RouteState)
      requires Valid()
      modifies this`routesMap, this`currentRoute, this`events, this`nextInstance, this`created
      ensures Valid()
      ensures routesMap.Keys == old(routesMap).Keys
      ensures forall k :: k in routesMap && k != state.routeName && k != RouteKey(old(currentRoute)) ==>
        routesMap[k] == old(routesMap)[k]
      ensures state.routeName !in old(routesMap) ==>
        && routesMap == old(routesMap) && currentRoute == old(currentRoute)
        && events == old(events) && nextInstance == old(nextInstance) && created == old(created)
      ensures state.routeName in old(routesMap) ==>
        var before := old(routesMap)[state.routeName];
        var props := LoadProps(before, state);
        && currentRoute == Some(state.routeName)
        && Entered(routesMap[state.routeName], before, before.instance, props,
                   reload, old(nextInstance), nextInstance, old(created), created)
        && events == old(events) + [routesMap[state.routeName]]
      ensures state.routeName in old(routesMap) ==>
        routesMap == EnterMap(old(routesMap), old(currentRoute), state, reload, old(nextInstance))
      ensures state.routeName in old(routesMap) ==>
        var before := old(routesMap)[state.routeName];
        var reloads := Reloads(before.instance, LoadProps(before, state), reload);
        && nextInstance == old(nextInstance) + (if reloads then 1 else 0)
        && created == old(created) + if reloads && before.onCreate then [before.instance] else []
    {
      var name := state.routeName;
      if name !in routesMap {
        return;
      }
      var route := routesMap[name];
      var props := LoadProps(route, state);
      SetLastProps(name, props);
      var prior := route.instance;
      if !prior.Live? || reload(prior.id, props) {
        Recreate(name, prior != NoInstance);
        if route.onCreate {
          created := created + [prior];
        }
        assert routesMap[name] == route.(lastProps := Some(props), instance := Live(old(nextInstance)));
      } else {
        assert routesMap[name] == route.(lastProps := Some(props));
      }
      events := events + [routesMap[name]];
      currentRoute := Some(name);
    }

    /**
     * The `currentPath` setter. On a change it looks the path up; no route
     * throws; a route whose name is itself a path is a redirect; otherwise
     * the route is loaded.
     */
    method SetCurrentPath(path: string) returns (outcome: PathOutcome)
      requires Valid()
      modifies this`storedPath, this`routesMap, this`currentRoute, this`events, this`nextInstance, this`created, this`redirects
      ensures Valid()
      ensures storedPath == Some(path)
      ensures old(storedPath) == Some(path) <==> outcome == Unchanged
      ensures outcome.Unchanged? || outcome.Threw? || outcome.Redirected? ==>
        routesMap == old(routesMap) && currentRoute == old(currentRoute) && events == old(events)
      ensures outcome.Unchanged? || outcome.Threw? || outcome.Redirected? ==>
        nextInstance == old(nextInstance) && created == old(created)
      ensures outcome.Loaded? ==>
        Lookup(paths, 0, path, true, rx).Some? &&
        var state := Lookup(paths, 0, path, true, rx).value;
        && routesMap == LoadMap(old(routesMap), old(currentRoute), state, reload, old(nextInstance))
        && currentRoute == LoadCurrent(old(routesMap), old(currentRoute), state)
        && events == old(events) + (if state.routeName in old(routesMap) then [routesMap[state.routeName]] else [])
        && nextInstance == old(nextInstance) + (if LoadCreates(old(routesMap), old(currentRoute), state, reload) then 1 else 0)
        && created == old(created) +
             if LoadCreates(old(routesMap), old(currentRoute), state, reload) && old(routesMap)[state.routeName].onCreate then
               [PriorInstance(old(routesMap)[state.routeName], old(currentRoute), state.routeName)]
             else []
      ensures outcome.Redirected? ==> redirects == old(redirects) + [outcome.to]
      ensures !outcome.Redirected? ==> redirects == old(redirects)
      ensures old(storedPath) != Some(path) ==>
        var route := Lookup(paths, 0, path, true, rx);
        && (route.None? <==> outcome == Threw)
        && (route.Some? ==>
              var target := Lookup(paths, 0, route.value.routeName, false, rx);
              && (target.Some? <==> outcome == Redirected(route.value.routeName))
              && (target.None? <==> outcome == Loaded(route.value.routeName)))
    {
      if storedPath == Some(path) {
        return Unchanged;
      }
      storedPath := Some(path);
      var route := GetRoute(path, true);
      if route.None? {
        return Threw;
      }
      var target := GetRoute(route.value.routeName, false);
      if target.Some? {
        redirects := redirects + [route.value.routeName];
        return Redirected(route.value.routeName);
      }
      LoadRoute(route.value);
      return Loaded(route.value.routeName);
    }
  }

  /** Every grouped value is one of the grouped items. */
  lemma {:induction false} GroupedFrom<T>(source: seq<T>, key: T -> string, k: string)
    requires k in Arrays.GroupBy(source, key)
    ensures Arrays.GroupBy(source, key)[k] in source
    decreases |source|
  {
    var n := |source| - 1;
    if key(source[n]) != k {
      GroupedFrom(source[..n], key, k);
    }
  }
}
