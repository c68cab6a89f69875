// router/router.ts and router/context.ts (and the older router/context.js):
// the navigation authority `Router` and its wait registry `RouterWait`.
// The history collaborator becomes an input path plus a log of history
// actions; dispatched events become an appended event log.
module Navigation {
  import opened Common

  /** What the router asked of the browser history. `GlobalBack` is the global `history.back()`. */
  datatype HistoryAction = Push(path: string) | Replace(path: string) | GlobalBack

  /** Events dispatched by the router element. */
  datatype RouterEvent =
    | NavigateEvent(path: string)        // 'navigate', detail = path
    | FailedNavigationAttempt            // 'failed-navigation-attempt'
    | NavigationEvent(path: string)      // 'navigation' (renavigate)

  const UnloadWarning: string := "Are you sure you want to leave? There may be unsaved work."

  /** `s.indexOf(x)`: the first position of `x`, or -1. */
  function IndexOf<T(==)>(s: seq<T>, x: T): (i: int)
    ensures -1 <= i < |s|
    ensures i == -1 <==> x !in s
    ensures 0 <= i ==> s[i] == x && forall j :: 0 <= j < i ==> s[j] != x
  {
    if s == [] then -1
    else if s[0] == x then 0
    else var k := IndexOf(s[1..], x); if k == -1 then -1 else k + 1
  }

  /** `const i = s.indexOf(x); if (i > -1) s.splice(i, 1);` */
  function RemoveFirst<T(==)>(s: seq<T>, x: T): seq<T>
  {
    var i := IndexOf(s, x);
    if i > -1 then s[..i] + s[i + 1..] else s
  }

  /** Removing from a list without repeats keeps it without repeats and drops exactly `x`. */
  lemma RemoveFirstDistinct<T>(s: seq<T>, x: T)
    requires Distinct(s)
    ensures Distinct(RemoveFirst(s, x))
    ensures forall y :: y in RemoveFirst(s, x) <==> y in s && y != x
  {
    var i := IndexOf(s, x);
    if i > -1 {
      var r := RemoveFirst(s, x);
      assert forall k :: 0 <= k < |r| ==> r[k] == if k < i then s[k] else s[k + 1];
      forall y ensures y in r <==> y in s && y != x {
        if y in s && y != x {
          var k :| 0 <= k < |s| && s[k] == y;
          assert k != i;
          assert r[if k < i then k else k - 1] == y;
        }
      }
    }
  }

  /** Removing what was just appended restores the list. */
  lemma RemoveFirstAppended<T>(s: seq<T>, x: T)
    requires x !in s
    ensures RemoveFirst(s + [x], x) == s
  {
    assert IndexOf(s + [x], x) == |s| by {
      assert (s + [x])[|s|] == x;
      assert forall j :: 0 <= j < |s| ==> (s + [x])[j] == s[j];
    }
    assert (s + [x])[..|s|] == s;
  }

  class Router {
    var currentPath: Option<string>
    var triggerNext: bool
    var routerWaits: int
    var browserWaits: int
    var waits: seq<RouterWait>
    var history: seq<HistoryAction>
    var events: seq<RouterEvent>
    /** Every wait ever created for this router. */
    ghost var handles: set<RouterWait>

    ghost function RouterHolders(): set<RouterWait>
      reads this`handles, handles
    {
      set w | w in handles && w.routerWait
    }

    ghost function BrowserHolders(): set<RouterWait>
      reads this`handles, handles
    {
      set w | w in handles && w.browserWait
    }

    /** Bookkeeping that every step keeps: ownership, no repeats, counters = flag holders. */
    ghost predicate WellFormed()
      reads this, handles
    {
      && (forall w :: w in handles ==> w.router == this)
      && (forall w :: w in waits ==> w in handles)
      && Distinct(waits)
      && routerWaits == |RouterHolders()|
      && browserWaits == |BrowserHolders()|
    }

    /** The registration rule for every wait except possibly `x`. */
    ghost predicate ValidExcept(x: RouterWait)
      reads this, handles
    {
      && WellFormed()
      && forall w :: w in handles && w != x ==> (w in waits <==> w.routerWait != w.browserWait)
    }

    /** Reachable states: a wait is registered exactly when one of its two flags is set. */
    ghost predicate Valid()
      reads this, handles
    {
      && WellFormed()
      && forall w :: w in handles ==> (w in waits <==> w.routerWait != w.browserWait)
    }

    constructor ()
      ensures Valid()
      ensures currentPath == None && triggerNext
      ensures routerWaits == 0 && browserWaits == 0 && waits == []
      ensures history == [] && events == [] && handles == {}
    {
      currentPath := None;
      triggerNext := true;
      routerWaits := 0;
      browserWaits := 0;
      waits := [];
      history := [];
      events := [];
      handles := {};
    }

    /** `navigateFromPath()`; `path` is the history's current pathname. */
    method NavigateFromPath(path: string)
      modifies this`currentPath, this`history, this`events
      ensures !old(triggerNext) ==>
        currentPath == old(currentPath) && history == old(history) && events == old(events)
      ensures old(triggerNext) && routerWaits != 0 && old(currentPath).Some? ==>
        && currentPath == old(currentPath)
        && events == old(events) + [FailedNavigationAttempt]
        && history == old(history) + (if path != old(currentPath).value then [GlobalBack] else [])
      ensures old(triggerNext) && (routerWaits == 0 || old(currentPath).None?) ==>
        && currentPath == Some(path)
        && events == old(events) + [NavigateEvent(path)]
        && history == old(history)
    {
      if !triggerNext {
        return;
      }
      if routerWaits != 0 && currentPath.Some? {
        if path != currentPath.value {
          history := history + [GlobalBack];
        }
        events := events + [FailedNavigationAttempt];
        return;
      }
      currentPath := Some(path);
      events := events + [NavigateEvent(path)];
    }

    /** `handleBeforeUnload`: the warning to show, if any. */
    function HandleBeforeUnload(): (msg: Option<string>)
      reads this
      ensures msg.Some? <==> browserWaits != 0
      ensures msg.Some? ==> msg.value == UnloadWarning
    {
      if browserWaits != 0 then Some(UnloadWarning) else None
    }

    /** `navigate(path, { replace = false, trigger = true })`. */
    method Navigate(path: string, replace: Option<bool>, trigger: Option<bool>)
      modifies this`triggerNext, this`history
      ensures triggerNext == trigger.GetOr(true)
      ensures history == old(history) + [if replace.GetOr(false) then Replace(path) else Push(path)]
    {
      triggerNext := trigger.GetOr(true);
      if replace.GetOr(false) {
        history := history + [Replace(path)];
      } else {
        history := history + [Push(path)];
      }
    }

    /** `renavigate()`: re-announce a non-empty current path. */
    method Renavigate()
      modifies this`events
      ensures events == old(events) + (if Truthy(currentPath) then [NavigationEvent(currentPath.value)] else [])
    {
      if Truthy(currentPath) {
        events := events + [NavigationEvent(currentPath.value)];
      }
    }

    /** `_addWait(wait)` */
    method AddWait(w: RouterWait)
      modifies this`waits
      ensures waits == old(waits) + [w]
    {
      waits := waits + [w];
    }

    /** `_removeWait(wait)` */
    method RemoveWait(w: RouterWait)
      modifies this`waits
      ensures waits == RemoveFirst(old(waits), w)
    {
      var index := IndexOf(waits, w);
      if index > -1 {
        waits := waits[..index] + waits[index + 1..];
      }
    }

    method CreateRouterWait() returns (w: RouterWait)
      requires Valid()
      modifies this`handles, this`routerWaits, this`waits
      ensures Valid() && fresh(w) && w.router == this && handles == old(handles) + {w}
      ensures w.routerWait && !w.browserWait
      ensures routerWaits == old(routerWaits) + 1
      ensures waits == old(waits) + [w]
    {
      w := new RouterWait(this);
      w.AddRouterWait();
    }

    method CreateBrowserWait() returns (w: RouterWait)
      requires Valid()
      modifies this`handles, this`browserWaits, this`waits
      ensures Valid() && fresh(w) && w.router == this && handles == old(handles) + {w}
      ensures !w.routerWait && w.browserWait
      ensures browserWaits == old(browserWaits) + 1
      ensures waits == old(waits) + [w]
    {
      w := new RouterWait(this);
      w.AddBrowserWait();
    }

    /** A wait holding both flags: both counters rise, and it is never registered. */
    method CreateWaitAll() returns (w: RouterWait)
      requires Valid()
      modifies this`handles, this`routerWaits, this`browserWaits, this`waits
      ensures Valid() && fresh(w) && w.router == this && handles == old(handles) + {w}
      ensures w.routerWait && w.browserWait
      ensures routerWaits == old(routerWaits) + 1 && browserWaits == old(browserWaits) + 1
      ensures waits == old(waits)
    {
      w := new RouterWait(this);
      ghost var before := waits;
      w.AddWaitAll();
      assert w !in before;
    }

    /** `createWait(waitType)`: 'router', 'browser', and anything else means both. */
    method CreateWait(waitType: string) returns (w: RouterWait)
      requires Valid()
      modifies this`handles, this`routerWaits, this`browserWaits, this`waits
      ensures Valid() && fresh(w) && w.router == this && handles == old(handles) + {w}
      ensures w.routerWait <==> waitType != "browser"
      ensures w.browserWait <==> waitType != "router"
      ensures routerWaits == old(routerWaits) + (if waitType != "browser" then 1 else 0)
      ensures browserWaits == old(browserWaits) + (if waitType != "router" then 1 else 0)
      ensures waits == old(waits) + (if waitType == "router" || waitType == "browser" then [w] else [])
    {
      if waitType == "router" {
        w := CreateRouterWait();
      } else if waitType == "browser" {
        w := CreateBrowserWait();
      } else {
        w := CreateWaitAll();
      }
    }

    /**
     * `removeAllWaits()`: `remove()` on a copy of the registered waits. A wait
     * that is not registered (one holding both flags) keeps its flags and counts.
     */
    method RemoveAllWaits()
      requires Valid()
      modifies this`routerWaits, this`browserWaits, this`waits, handles
      ensures Valid() && waits == [] && handles == old(handles)
      ensures forall w :: w in handles && w in old(waits) ==> !w.routerWait && !w.browserWait
      ensures forall w :: w in handles && w !in old(waits) ==>
        w.routerWait == old(w.routerWait) && w.browserWait == old(w.browserWait)
    {
      var snapshot := waits;
      var i := 0;
      while i < |snapshot|
        invariant 0 <= i <= |snapshot|
        invariant Valid() && handles == old(handles)
        invariant waits == snapshot[i..]
        invariant forall w :: w in snapshot[..i] ==> !w.routerWait && !w.browserWait
        invariant forall w :: w in handles && w !in snapshot[..i] ==>
          w.routerWait == old(w.routerWait) && w.browserWait == old(w.browserWait)
      {
        var w := snapshot[i];
        assert w == waits[0] && w in handles && w.router == this;
        w.Remove();
        assert waits == snapshot[i + 1..];
        assert snapshot[..i + 1] == snapshot[..i] + [w];
        i := i + 1;
      }
      assert snapshot[..i] == snapshot;
    }
  }

  class RouterWait {
    const router: Router
    var routerWait: bool
    var browserWait: bool

    constructor (router: Router)
      requires router.Valid()
      modifies router`handles
      ensures this.router == router && !routerWait && !browserWait
      ensures router.handles == old(router.handles) + {this}
      ensures router.Valid()
    {
      this.router := router;
      routerWait := false;
      browserWait := false;
      new;
      router.handles := router.handles + {this};
      assert router.RouterHolders() == old(router.RouterHolders());
      assert router.BrowserHolders() == old(router.BrowserHolders());
    }

    /** `isActive()`: registered with the router. */
    predicate IsActive()
      reads router
    {
      this in router.waits
    }

    /**
     * `refreshActive()`: register an unregistered wait that holds a flag;
     * unregister a registered wait whatever its flags.
     */
    method RefreshActive()
      requires router.WellFormed() && this in router.handles
      modifies router`waits
      ensures router.WellFormed()
      ensures router.waits ==
        if !old(IsActive()) && (routerWait || browserWait) then old(router.waits) + [this]
        else if old(IsActive()) then RemoveFirst(old(router.waits), this)
        else old(router.waits)
      ensures IsActive() <==> !old(IsActive()) && (routerWait || browserWait)
      ensures old(router.ValidExcept(this)) ==> router.ValidExcept(this)
    {
      var active := IsActive();
      if !active && (routerWait || browserWait) {
        router.AddWait(this);
      } else if active {
        RemoveFirstDistinct(router.waits, this);
        router.RemoveWait(this);
      }
    }

    /** `addRouterWait()`: acts only on a false-to-true transition. */
    method AddRouterWait()
      requires router.Valid() && this in router.handles
      modifies this`routerWait, router`routerWaits, router`waits
      ensures router.Valid()
      ensures routerWait && browserWait == old(browserWait)
      ensures router.routerWaits == old(router.routerWaits) + (if old(routerWait) then 0 else 1)
      ensures router.waits ==
        if old(routerWait) then old(router.waits)
        else if old(IsActive()) then RemoveFirst(old(router.waits), this)
        else old(router.waits) + [this]
    {
      if !routerWait {
        ghost var changed := router.RouterHolders();
        ghost var same := router.BrowserHolders();
        assert this !in changed;
        routerWait := true;
        router.routerWaits := router.routerWaits + 1;
        assert router.RouterHolders() == changed + {this};
        assert router.BrowserHolders() == same;
        assert router.ValidExcept(this);
        RefreshActive();
      }
    }

    /** `removeRouterWait()`: acts only on a true-to-false transition. */
    method RemoveRouterWait()
      requires router.Valid() && this in router.handles
      modifies this`routerWait, router`routerWaits, router`waits
      ensures router.Valid()
      ensures !routerWait && browserWait == old(browserWait)
      ensures router.routerWaits == old(router.routerWaits) - (if old(routerWait) then 1 else 0)
      ensures router.waits ==
        if !old(routerWait) then old(router.waits)
        else if old(IsActive()) then RemoveFirst(old(router.waits), this)
        else old(router.waits) + [this]
    {
      if routerWait {
        ghost var changed := router.RouterHolders();
        ghost var same := router.BrowserHolders();
        assert this in changed;
        routerWait := false;
        router.routerWaits := router.routerWaits - 1;
        assert router.RouterHolders() == changed - {this};
        assert router.BrowserHolders() == same;
        assert router.ValidExcept(this);
        RefreshActive();
      }
    }

    /** `addBrowserWait()`: acts only on a false-to-true transition. */
    method AddBrowserWait()
      requires router.Valid() && this in router.handles
      modifies this`browserWait, router`browserWaits, router`waits
      ensures router.Valid()
      ensures browserWait && routerWait == old(routerWait)
      ensures router.browserWaits == old(router.browserWaits) + (if old(browserWait) then 0 else 1)
      ensures router.waits ==
        if old(browserWait) then old(router.waits)
        else if old(IsActive()) then RemoveFirst(old(router.waits), this)
        else old(router.waits) + [this]
    {
      if !browserWait {
        ghost var changed := router.BrowserHolders();
        ghost var same := router.RouterHolders();
        assert this !in changed;
        browserWait := true;
        router.browserWaits := router.browserWaits + 1;
        assert router.BrowserHolders() == changed + {this};
        assert router.RouterHolders() == same;
        assert router.ValidExcept(this);
        RefreshActive();
      }
    }

    /** `removeBrowserWait()`: acts only on a true-to-false transition. */
    method RemoveBrowserWait()
      requires router.Valid() && this in router.handles
      modifies this`browserWait, router`browserWaits, router`waits
      ensures router.Valid()
      ensures !browserWait && routerWait == old(routerWait)
      ensures router.browserWaits == old(router.browserWaits) - (if old(browserWait) then 1 else 0)
      ensures router.waits ==
        if !old(browserWait) then old(router.waits)
        else if old(IsActive()) then RemoveFirst(old(router.waits), this)
        else old(router.waits) + [this]
    {
      if browserWait {
        ghost var changed := router.BrowserHolders();
        ghost var same := router.RouterHolders();
        assert this in changed;
        browserWait := false;
        router.browserWaits := router.browserWaits - 1;
        assert router.BrowserHolders() == changed - {this};
        assert router.RouterHolders() == same;
        assert router.ValidExcept(this);
        RefreshActive();
      }
    }

    /** `addWaitAll()`: router flag, then browser flag; the wait ends unregistered. */
    method AddWaitAll()
      requires router.Valid() && this in router.handles
      modifies this, router`routerWaits, router`browserWaits, router`waits
      ensures router.Valid()
      ensures routerWait && browserWait && !IsActive()
      ensures router.routerWaits == old(router.routerWaits) + (if old(routerWait) then 0 else 1)
      ensures router.browserWaits == old(router.browserWaits) + (if old(browserWait) then 0 else 1)
      ensures router.waits == RemoveFirst(old(router.waits), this)
    {
      ghost var w0 := router.waits;
      if this !in w0 {
        assert RemoveFirst(w0, this) == w0;
      }
      AddRouterWait();
      if this !in w0 && !old(routerWait) {
        RemoveFirstAppended(w0, this);
      }
      AddBrowserWait();
      if this !in w0 && !old(routerWait) {
        RemoveFirstAppended(w0, this);
      }
    }

    /** `remove()`: browser flag, then router flag; ends with no flag and unregistered. */
    method Remove()
      requires router.Valid() && this in router.handles
      modifies this, router`routerWaits, router`browserWaits, router`waits
      ensures router.Valid()
      ensures !routerWait && !browserWait && !IsActive()
      ensures router.routerWaits == old(router.routerWaits) - (if old(routerWait) then 1 else 0)
      ensures router.browserWaits == old(router.browserWaits) - (if old(browserWait) then 1 else 0)
      ensures router.waits == RemoveFirst(old(router.waits), this)
    {
      ghost var w0 := router.waits;
      if this !in w0 {
        assert RemoveFirst(w0, this) == w0;
      }
      RemoveBrowserWait();
      if this !in w0 && old(browserWait) {
        RemoveFirstAppended(w0, this);
      }
      RemoveRouterWait();
      if this !in w0 && old(routerWait) && old(browserWait) {
        RemoveFirstAppended(w0, this);
      }
    }

    /** `removeWaitAll()` is `remove()`. */
    method RemoveWaitAll()
      requires router.Valid() && this in router.handles
      modifies this, router`routerWaits, router`browserWaits, router`waits
      ensures router.Valid()
      ensures !routerWait && !browserWait && !IsActive()
      ensures router.routerWaits == old(router.routerWaits) - (if old(routerWait) then 1 else 0)
      ensures router.browserWaits == old(router.browserWaits) - (if old(browserWait) then 1 else 0)
      ensures router.waits == RemoveFirst(old(router.waits), this)
    {
      Remove();
    }
  }
}
