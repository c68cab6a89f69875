// src/shell/shell.ts (and the older compiled shell/shell.js, with the same
// counters and clamps): the `fzn-shell` application frame's lock counters
// for the mouse guard and the page scroll, its collapse rule and drawer
// width clamp, and the drawer's open/close gestures. Element sizes and
// gesture events become parameters; dispatched events an appended log of
// the events `EnhancedEventTarget` would emit.
module AppShell {
  import opened Common
  import opened Listeners

  /** A lock flag with its counter. */
  datatype LockState = LockState(held: bool, count: int)

  /** `if (++count) { held = true }`: any non-zero count after the increment sets the flag. */
  function Acquire(c: LockState): (r: LockState)
    ensures r.count == c.count + 1
    ensures r.held == (c.held || r.count != 0)
  {
    var n := c.count + 1;
    if n != 0 then LockState(true, n) else LockState(c.held, n)
  }

  /** `if (!--count) { held = false }`: only a count of exactly zero clears the flag. */
  function Release(c: LockState): (r: LockState)
    ensures r.count == c.count - 1
    ensures r.held == (c.held && r.count != 0)
  {
    var n := c.count - 1;
    if n == 0 then LockState(false, n) else LockState(c.held, n)
  }

  datatype LockOp = Lock | Unlock

  const Unlocked: LockState := LockState(false, 0)

  /** The state after a sequence of lock and unlock calls from the initial one. */
  function Run(ops: seq<LockOp>): LockState
  {
    if ops == [] then Unlocked
    else
      var c := Run(ops[..|ops| - 1]);
      if ops[|ops| - 1] == Lock then Acquire(c) else Release(c)
  }

  function Locks(ops: seq<LockOp>): nat
  {
    if ops == [] then 0 else Locks(ops[..|ops| - 1]) + (if ops[|ops| - 1] == Lock then 1 else 0)
  }

  function Unlocks(ops: seq<LockOp>): nat
  {
    if ops == [] then 0 else Unlocks(ops[..|ops| - 1]) + (if ops[|ops| - 1] == Unlock then 1 else 0)
  }

  /** No prefix unlocks more often than it locks. */
  predicate NeverOverUnlocked(ops: seq<LockOp>)
  {
    forall k :: 0 <= k <= |ops| ==> Unlocks(ops[..k]) <= Locks(ops[..k])
  }

  /**
   * When every unlock is matched by an earlier lock, the counter is the
   * number of outstanding locks and the flag is set exactly while some are
   * outstanding.
   */
  lemma {:induction false} BalancedLocks(ops: seq<LockOp>)
    requires NeverOverUnlocked(ops)
    ensures Run(ops).count == Locks(ops) - Unlocks(ops)
    ensures Run(ops).held <==> Run(ops).count > 0
    decreases |ops|
  {
    if ops != [] {
      var init := ops[..|ops| - 1];
      assert NeverOverUnlocked(init) by {
        forall k | 0 <= k <= |init| ensures Unlocks(init[..k]) <= Locks(init[..k]) {
          assert init[..k] == ops[..k];
        }
      }
      BalancedLocks(init);
      assert ops[..|ops|] == ops;
    }
  }

  /** An unmatched unlock drives the counter to -1, and the next lock brings it to 0 without setting the flag. */
  lemma UnmatchedUnlock()
    ensures Run([Unlock]) == LockState(false, -1)
    ensures Run([Unlock, Lock]) == LockState(false, 0)
  {
    assert [Unlock, Lock][..1] == [Unlock];
  }

  /** Two unmatched unlocks let the next lock set the flag while the counter is still negative. */
  lemma DoubleUnmatchedUnlock()
    ensures Run([Unlock, Unlock, Lock]) == LockState(true, -1)
  {
    assert [Unlock, Unlock, Lock][..2] == [Unlock, Unlock];
    assert [Unlock, Unlock][..1] == [Unlock];
  }

  const CollapseBelow: int := 700
  const DrawerReserve: int := 320
  const DefaultDrawerMinWidth: int := 240
  const SwipeEdge: int := 20

  function Min(a: int, b: int): int { if a <= b then a else b }
  function Max(a: int, b: int): int { if a >= b then a else b }

  /**
   * `Math.min(Math.max(width, min), max)`, where an unset (`null`) maximum
   * counts as 0, as JavaScript converts it.
   */
  function ClampDrawer(width: int, min: int, max: Option<int>): (r: int)
    ensures r <= max.GetOr(0)
    ensures min <= max.GetOr(0) ==> min <= r
    ensures min <= width <= max.GetOr(0) ==> r == width
    ensures r == width || r == min || r == max.GetOr(0)
  {
    Min(Max(width, min), max.GetOr(0))
  }

  datatype Swipe = SwipeRight | SwipeLeft

  /** The drawer's state after a swipe starting at `x`: right opens from the left edge, left closes. */
  function SwipeDrawer(open: bool, kind: Swipe, x: int): (r: bool)
    ensures kind == SwipeLeft ==> !r
    ensures kind == SwipeRight ==> (r <==> open || 0 <= x <= SwipeEdge)
  {
    if kind == SwipeRight && 0 <= x <= SwipeEdge then true
    else if kind == SwipeLeft then false
    else open
  }

  /** Every field of a shell, as one value. */
  datatype ShellState = ShellState(
    mouseGuard: LockState, scroll: LockState, bodyOverflow: Option<string>,
    collapsed: bool, drawerOpen: bool, drawerMinWidth: int, drawerMaxWidth: Option<int>, drawerWidth: int,
    events: seq<Dispatched<bool>>)

  /** The whole shell after `lockScroll()`: the scroll lock is acquired and, unless the count reaches 0, the body's overflow is hidden. */
  function ScrollLocked(s: ShellState): ShellState
  {
    var c := Acquire(s.scroll);
    s.(scroll := c, bodyOverflow := if c.count != 0 then Some("hidden") else s.bodyOverflow)
  }

  /** The whole shell after `unlockScroll()`: the scroll lock is released and, at 0, the body's overflow is `auto`. */
  function ScrollUnlocked(s: ShellState): ShellState
  {
    var c := Release(s.scroll);
    s.(scroll := c, bodyOverflow := if c.count == 0 then Some("auto") else s.bodyOverflow)
  }

  /** The whole shell after `lockMouseGuard()`, with its change event. */
  function GuardLocked(s: ShellState): ShellState
  {
    var c := Acquire(s.mouseGuard);
    s.(mouseGuard := c, events := s.events + (if c.count != 0 then ChangeEvents([("mouseGuard", Some(true))]) else []))
  }

  /** The whole shell after `unlockMouseGuard()`, with its change event. */
  function GuardUnlocked(s: ShellState): ShellState
  {
    var c := Release(s.mouseGuard);
    s.(mouseGuard := c, events := s.events + (if c.count == 0 then ChangeEvents([("mouseGuard", Some(false))]) else []))
  }

  /** `n` calls of `unlockMouseGuard()` in a row. */
  function GuardUnlockedTimes(s: ShellState, n: nat): ShellState
    decreases n
  {
    if n == 0 then s else GuardUnlockedTimes(GuardUnlocked(s), n - 1)
  }

  /**
   * Unlocking the guard only touches the guard and appends events: every
   * other field stays, and the old events are a prefix of the new ones.
   */
  lemma {:induction false} GuardUnlockedTimesFrame(s: ShellState, n: nat)
    ensures GuardUnlockedTimes(s, n).(mouseGuard := s.mouseGuard, events := s.events) == s
    ensures s.events <= GuardUnlockedTimes(s, n).events
    decreases n
  {
    if n > 0 {
      GuardUnlockedTimesFrame(GuardUnlocked(s), n - 1);
    }
  }

  /** Unlocking `a` times and then `b` times is unlocking `a + b` times. */
  lemma {:induction false} GuardUnlockedTimesAdd(s: ShellState, a: nat, b: nat)
    ensures GuardUnlockedTimes(GuardUnlockedTimes(s, a), b) == GuardUnlockedTimes(s, a + b)
    decreases a
  {
    if a > 0 {
      GuardUnlockedTimesAdd(GuardUnlocked(s), a - 1, b);
    }
  }

  /**
   * A scroll lock followed by an unlock, from a consistent non-negative
   * lock, gives the shell back except for the body's overflow, which ends
   * `auto` when no other lock is held and `hidden` otherwise.
   */
  lemma ScrollPairRestores(s: ShellState)
    requires s.scroll.count >= 0 && (s.scroll.held <==> s.scroll.count > 0)
    ensures ScrollUnlocked(ScrollLocked(s)) == s.(bodyOverflow := if s.scroll.count == 0 then Some("auto") else Some("hidden"))
  {
  }

  /** A guard lock followed by an unlock, from a consistent non-negative lock, gives back the guard and appends the pair of changes it announces. */
  lemma GuardPairRestores(s: ShellState)
    requires s.mouseGuard.count >= 0 && (s.mouseGuard.held <==> s.mouseGuard.count > 0)
    ensures GuardUnlocked(GuardLocked(s)) ==
      s.(events := s.events + ChangeEvents([("mouseGuard", Some(true))])
                            + (if s.mouseGuard.count == 0 then ChangeEvents([("mouseGuard", Some(false))]) else []))
  {
  }

  class Shell {
    var mouseGuard: bool
    var mouseGuardLocks: int
    var scrollLock: bool
    var scrollLocks: int
    /** `document.body.style.overflow` as this shell last wrote it. */
    var bodyOverflow: Option<string>
    var collapsed: bool
    var drawerOpen: bool
    var drawerMinWidth: int
    var drawerMaxWidth: Option<int>
    var drawerWidth: int
    var events: seq<Dispatched<bool>>

    /** The whole shell as one value. */
    function State(): ShellState
      reads this
    {
      ShellState(LockState(mouseGuard, mouseGuardLocks), LockState(scrollLock, scrollLocks), bodyOverflow,
                 collapsed, drawerOpen, drawerMinWidth, drawerMaxWidth, drawerWidth, events)
    }

    constructor ()
      ensures !mouseGuard && mouseGuardLocks == 0 && !scrollLock && scrollLocks == 0
      ensures bodyOverflow.None? && !collapsed && !drawerOpen
      ensures drawerMinWidth == DefaultDrawerMinWidth && drawerMaxWidth.None? && drawerWidth == DefaultDrawerMinWidth
      ensures events == []
    {
      mouseGuard, mouseGuardLocks := false, 0;
      scrollLock, scrollLocks := false, 0;
      bodyOverflow := None;
      collapsed, drawerOpen := false, false;
      drawerMinWidth := DefaultDrawerMinWidth;
      drawerMaxWidth := None;
      drawerWidth := DefaultDrawerMinWidth;
      events := [];
    }

    /** `lockMouseGuard()`: setting the guard announces `mouseGuard: true`. */
    method LockMouseGuard()
      modifies this`mouseGuard, this`mouseGuardLocks, this`events
      ensures LockState(mouseGuard, mouseGuardLocks) == Acquire(LockState(old(mouseGuard), old(mouseGuardLocks)))
      ensures events == old(events) + (if mouseGuardLocks != 0 then ChangeEvents([("mouseGuard", Some(true))]) else [])
      ensures State() == GuardLocked(old(State()))
    {
      mouseGuardLocks := mouseGuardLocks + 1;
      if mouseGuardLocks != 0 {
        mouseGuard := true;
        events := events + ChangeEvents([("mouseGuard", Some(true))]);
      }
    }

    /** `unlockMouseGuard()`: clearing the guard announces `mouseGuard: false`. */
    method UnlockMouseGuard()
      modifies this`mouseGuard, this`mouseGuardLocks, this`events
      ensures LockState(mouseGuard, mouseGuardLocks) == Release(LockState(old(mouseGuard), old(mouseGuardLocks)))
      ensures events == old(events) + (if mouseGuardLocks == 0 then ChangeEvents([("mouseGuard", Some(false))]) else [])
      ensures State() == GuardUnlocked(old(State()))
    {
      mouseGuardLocks := mouseGuardLocks - 1;
      if mouseGuardLocks == 0 {
        mouseGuard := false;
        events := events + ChangeEvents([("mouseGuard", Some(false))]);
      }
    }

    /** `lockScroll()`: setting the lock hides the body's overflow. */
    method LockScroll()
      modifies this`scrollLock, this`scrollLocks, this`bodyOverflow
      ensures LockState(scrollLock, scrollLocks) == Acquire(LockState(old(scrollLock), old(scrollLocks)))
      ensures bodyOverflow == if scrollLocks != 0 then Some("hidden") else old(bodyOverflow)
      ensures State() == ScrollLocked(old(State()))
    {
      scrollLocks := scrollLocks + 1;
      if scrollLocks != 0 {
        scrollLock := true;
        bodyOverflow := Some("hidden");
      }
    }

    /** `unlockScroll()`: clearing the lock restores the body's overflow to `auto`. */
    method UnlockScroll()
      modifies this`scrollLock, this`scrollLocks, this`bodyOverflow
      ensures LockState(scrollLock, scrollLocks) == Release(LockState(old(scrollLock), old(scrollLocks)))
      ensures bodyOverflow == if scrollLocks == 0 then Some("auto") else old(bodyOverflow)
      ensures State() == ScrollUnlocked(old(State()))
    {
      scrollLocks := scrollLocks - 1;
      if scrollLocks == 0 {
        scrollLock := false;
        bodyOverflow := Some("auto");
      }
    }

    /** `handleResize()`: collapses below 700px and leaves 320px beside the drawer. */
    method HandleResize(offsetWidth: int)
      modifies this`collapsed, this`drawerMaxWidth, this`events
      ensures collapsed <==> offsetWidth < CollapseBelow
      ensures drawerMaxWidth == Some(offsetWidth - DrawerReserve)
      ensures events == old(events) + [Dispatched("resize", NoDetail)]
    {
      if offsetWidth < CollapseBelow {
        collapsed := true;
      } else {
        collapsed := false;
      }
      drawerMaxWidth := Some(offsetWidth - DrawerReserve);
      events := events + [Dispatched("resize", NoDetail)];
    }

    /** `firstUpdated()`: announces itself, measures, and opens the drawer unless collapsed. */
    method FirstUpdated(offsetWidth: int)
      modifies this`collapsed, this`drawerMaxWidth, this`events, this`drawerOpen
      ensures collapsed <==> offsetWidth < CollapseBelow
      ensures drawerMaxWidth == Some(offsetWidth - DrawerReserve)
      ensures drawerOpen <==> !collapsed
      ensures events == old(events) + [Dispatched("first-updated", NoDetail), Dispatched("resize", NoDetail),
                                       Dispatched("shell-first-updated", NoDetail)]
    {
      events := events + [Dispatched("first-updated", NoDetail)];
      HandleResize(offsetWidth);
      drawerOpen := !collapsed;
      events := events + [Dispatched("shell-first-updated", NoDetail)];
    }

    /** `handleUpActionClick()` */
    method HandleUpActionClick()
      modifies this`drawerOpen
      ensures drawerOpen == !old(drawerOpen)
    {
      drawerOpen := !drawerOpen;
    }

    /** `handleDrawerResize(evt)` */
    method HandleDrawerResize(width: int)
      modifies this`drawerWidth
      ensures drawerWidth == ClampDrawer(width, drawerMinWidth, drawerMaxWidth)
    {
      drawerWidth := Min(Max(width, drawerMinWidth), drawerMaxWidth.GetOr(0));
    }

    /** The width `render` gives the drawer: the same clamp on the stored width. */
    function AdjustedDrawerWidth(): (w: int)
      reads this`drawerWidth, this`drawerMinWidth, this`drawerMaxWidth
      ensures w == ClampDrawer(drawerWidth, drawerMinWidth, drawerMaxWidth)
    {
      ClampDrawer(drawerWidth, drawerMinWidth, drawerMaxWidth)
    }

    /**
     * The swipe handler: an event without pointers is ignored; otherwise the
     * gesture starts at the first pointer's page x minus the swipe's delta.
     */
    method HandleSwipe(kind: Swipe, pointerPageX: seq<int>, deltaX: int)
      modifies this`drawerOpen
      ensures pointerPageX == [] ==> drawerOpen == old(drawerOpen)
      ensures pointerPageX != [] ==> drawerOpen == SwipeDrawer(old(drawerOpen), kind, pointerPageX[0] - deltaX)
    {
      if |pointerPageX| == 0 {
        return;
      }
      var x := pointerPageX[0] - deltaX;
      if kind == SwipeRight && x >= 0 && x <= SwipeEdge {
        drawerOpen := true;
      } else if kind == SwipeLeft {
        drawerOpen := false;
      }
    }
  }

  /** Clamping twice gives the same width as clamping once, when the bounds are ordered. */
  lemma ClampIdempotent(width: int, min: int, max: Option<int>)
    requires min <= max.GetOr(0)
    ensures ClampDrawer(ClampDrawer(width, min, max), min, max) == ClampDrawer(width, min, max)
  {
  }
}
