// dialog/dialog.ts: the `fzn-dialog` element's scroll lock on the shell, its
// stacking order, its floating move and edge-resize geometry, and its close
// gating. Mouse events and element sizes become parameters, the window's
// listener list a sequence of registrations, and dispatched events a log.
module Dialogs {
  import opened Common
  import Listeners
  import AppShell

  /** `window.__DIALOGS`: the stacking counter shared by every dialog. */
  class DialogStack {
    var zIndex: int

    constructor ()
      ensures zIndex == BaseZIndex
    {
      zIndex := BaseZIndex;
    }
  }

  const BaseZIndex: int := 20000

  /** `ResizeTarget`: the eight edge and corner handles. */
  datatype ResizeTarget = TL | T | TR | R | BR | B | BL | L

  predicate MovesLeftEdge(t: ResizeTarget) { t == TL || t == L || t == BL }
  predicate MovesRightEdge(t: ResizeTarget) { t == TR || t == R || t == BR }
  predicate MovesTopEdge(t: ResizeTarget) { t == TL || t == T || t == TR }
  predicate MovesBottomEdge(t: ResizeTarget) { t == BL || t == B || t == BR }

  /** The window listeners a dialog registers; resize closures are told apart by the id of their creation. */
  datatype WindowListener =
    | MoveMousemove
    | MoveMouseup
    | ResizeMousemove(id: nat)
    | ResizeMouseup(id: nat, mover: nat)

  datatype Registration = Registration(eventType: string, listener: WindowListener)

  /** `window.addEventListener`: a registration already present is not added twice. */
  function AddListener(regs: seq<Registration>, r: Registration): (out: seq<Registration>)
    ensures r in out
    ensures r in regs ==> out == regs
  {
    if r in regs then regs else regs + [r]
  }

  /** `window.removeEventListener` */
  function RemoveListener(regs: seq<Registration>, r: Registration): (out: seq<Registration>)
    ensures r !in out
  {
    if regs == [] then []
    else if regs[0] == r then RemoveListener(regs[1..], r)
    else [regs[0]] + RemoveListener(regs[1..], r)
  }

  /** Removing a registration keeps every other one. */
  lemma {:induction false} RemoveListenerKeeps(regs: seq<Registration>, r: Registration)
    ensures forall x :: x in regs && x != r ==> x in RemoveListener(regs, r)
    ensures r !in regs ==> RemoveListener(regs, r) == regs
  {
    if regs != [] {
      RemoveListenerKeeps(regs[1..], r);
      assert regs == [regs[0]] + regs[1..];
    }
  }

  function MinR(a: real, b: real): real { if a <= b then a else b }
  function MaxR(a: real, b: real): real { if a >= b then a else b }

  /**
   * `handleMoveMousemove` on one axis: the pointer centres the dialog, kept
   * inside the window with the near edge winning when the dialog is larger.
   */
  function MoveOffset(windowSize: real, size: real, page: real, scroll: real): (o: real)
    ensures o >= 0.0
    ensures windowSize - size >= 0.0 ==> o <= windowSize - size
    ensures 0.0 <= page - scroll - size / 2.0 <= windowSize - size ==> o == page - scroll - size / 2.0
  {
    MaxR(0.0, MinR(windowSize - size, page - scroll - size / 2.0))
  }

  /** The pointer clamped into the window, as resizing reads it. */
  function Clamp(v: real, hi: real): (r: real)
    ensures hi >= 0.0 ==> 0.0 <= r <= hi
    ensures 0.0 <= v <= hi ==> r == v
  {
    MaxR(0.0, MinR(hi, v))
  }

  /** One axis of an edge drag: the new offset and size. */
  datatype Span = Span(offset: real, size: real)

  /**
   * The near-edge case of `handleResizeMousemove` on one axis: the edge
   * follows the pointer and the far edge stays where it was; a size below
   * the minimum is raised to it by moving the near edge back.
   */
  function DragNearEdge(mouse: real, elementStart: real, elementSize: real, minSize: real): (s: Span)
    ensures s.offset + s.size == elementStart + elementSize
    ensures s.size >= minSize
    ensures elementStart + elementSize - mouse >= minSize ==> s.offset == mouse
  {
    var size := elementSize + (elementStart - mouse);
    if size < minSize then Span(mouse - (minSize - size), minSize) else Span(mouse, size)
  }

  /** The far-edge case: the size reaches the pointer, raised to the minimum; the offset stays. */
  function DragFarEdge(mouse: real, elementStart: real, offset: real, minSize: real): (s: Span)
    ensures s.offset == offset
    ensures s.size == MaxR(mouse - elementStart, minSize)
  {
    var size := mouse - elementStart;
    if size < minSize then Span(offset, minSize) else Span(offset, size)
  }

  /** What the dialog announces. */
  datatype DialogEvent = CloseEvent | OpenEvent

  class FznDialog {
    var shell: AppShell.Shell?
    const stack: DialogStack
    /** The `allowInternalClose` getter, which subclasses may override. */
    const allowInternalClose: bool
    var floating: bool
    var scrollLocked: bool
    var zIndex: Option<int>
    var floatingXOffset: real
    var floatingYOffset: real
    var floatingWidth: real
    var floatingHeight: real
    var floatingMinWidth: real
    var floatingMinHeight: real
    var window: seq<Registration>
    var nextClosure: nat
    var events: seq<DialogEvent>

    constructor (stack: DialogStack, shell: AppShell.Shell?, allowInternalClose: bool)
      ensures this.stack == stack && this.shell == shell && this.allowInternalClose == allowInternalClose
      ensures !floating && !scrollLocked && zIndex.None?
      ensures floatingMinWidth == 0.0 && floatingMinHeight == 0.0
      ensures window == [] && nextClosure == 0 && events == []
    {
      this.stack := stack;
      this.shell := shell;
      this.allowInternalClose := allowInternalClose;
      floating := false;
      scrollLocked := false;
      zIndex := None;
      floatingXOffset, floatingYOffset, floatingWidth, floatingHeight := 0.0, 0.0, 0.0, 0.0;
      floatingMinWidth, floatingMinHeight := 0.0, 0.0;
      window := [];
      nextClosure := 0;
      events := [];
    }

    /** The shell's scroll lock: its flag and its counter. */
    function ShellScroll(): AppShell.LockState
      requires shell != null
      reads this`shell, shell
    {
      AppShell.LockState(shell.scrollLock, shell.scrollLocks)
    }

    /** `lockScroll()`: takes one shell scroll lock, only when this dialog holds none. */
    method LockScroll()
      modifies this`scrollLocked, shell
      ensures scrollLocked
      ensures shell != null ==>
        ShellScroll() == if old(scrollLocked) then old(ShellScroll()) else AppShell.Acquire(old(ShellScroll()))
      ensures shell != null ==>
        shell.State() == if old(scrollLocked) then old(shell.State()) else AppShell.ScrollLocked(old(shell.State()))
    {
      if !scrollLocked {
        if shell != null {
          shell.LockScroll();
        }
        scrollLocked := true;
      }
    }

    /** `unlockScroll()`: gives back the shell scroll lock, only when this dialog holds it. */
    method UnlockScroll()
      modifies this`scrollLocked, shell
      ensures !scrollLocked
      ensures shell != null ==>
        ShellScroll() == if old(scrollLocked) then AppShell.Release(old(ShellScroll())) else old(ShellScroll())
      ensures shell != null ==>
        shell.State() == if old(scrollLocked) then AppShell.ScrollUnlocked(old(shell.State())) else old(shell.State())
    {
      if scrollLocked {
        if shell != null {
          shell.UnlockScroll();
        }
        scrollLocked := false;
      }
    }

    /** `set floating(…)`: on a change, floating releases the scroll lock and docking takes it. */
    method SetFloating(f: bool)
      modifies this`floating, this`scrollLocked, shell
      ensures floating == f
      ensures old(floating) != f ==> scrollLocked == !f
      ensures old(floating) == f ==> scrollLocked == old(scrollLocked)
      ensures shell != null ==>
        ShellScroll() ==
          if old(floating) == f || (f && !old(scrollLocked)) || (!f && old(scrollLocked)) then old(ShellScroll())
          else if f then AppShell.Release(old(ShellScroll()))
          else AppShell.Acquire(old(ShellScroll()))
      ensures shell != null ==>
        shell.State() ==
          if old(floating) == f || (f && !old(scrollLocked)) || (!f && old(scrollLocked)) then old(shell.State())
          else if f then AppShell.ScrollUnlocked(old(shell.State()))
          else AppShell.ScrollLocked(old(shell.State()))
    {
      if floating != f {
        floating := f;
        if f {
          UnlockScroll();
        } else {
          LockScroll();
        }
      }
    }

    /** `bringToFront()`: takes the next stacking index. */
    method BringToFront()
      modifies this`zIndex, stack
      ensures zIndex == Some(old(stack.zIndex))
      ensures stack.zIndex == old(stack.zIndex) + 1
    {
      zIndex := Some(stack.zIndex);
      stack.zIndex := stack.zIndex + 1;
    }

    /** `connectedCallback()`: locks the scroll and comes to the front. */
    method ConnectedCallback()
      modifies this`scrollLocked, shell, this`zIndex, stack
      ensures scrollLocked && zIndex == Some(old(stack.zIndex)) && stack.zIndex == old(stack.zIndex) + 1
      ensures shell != null ==>
        ShellScroll() == if old(scrollLocked) then old(ShellScroll()) else AppShell.Acquire(old(ShellScroll()))
      ensures shell != null ==>
        shell.State() == if old(scrollLocked) then old(shell.State()) else AppShell.ScrollLocked(old(shell.State()))
    {
      LockScroll();
      BringToFront();
    }

    /** `disconnectedCallback()`: gives back the scroll lock. */
    method DisconnectedCallback()
      modifies this`scrollLocked, shell
      ensures !scrollLocked
      ensures shell != null ==>
        ShellScroll() == if old(scrollLocked) then AppShell.Release(old(ShellScroll())) else old(ShellScroll())
      ensures shell != null ==>
        shell.State() == if old(scrollLocked) then AppShell.ScrollUnlocked(old(shell.State())) else old(shell.State())
    {
      UnlockScroll();
    }

    /** `handleClick`: a click on a floating dialog brings it to the front. */
    method HandleClick()
      modifies this`zIndex, stack
      ensures floating ==> zIndex == Some(old(stack.zIndex)) && stack.zIndex == old(stack.zIndex) + 1
      ensures !floating ==> zIndex == old(zIndex) && stack.zIndex == old(stack.zIndex)
    {
      if floating {
        BringToFront();
      }
    }

    /** `close()`: always announces `close`. */
    method Close()
      modifies this`events
      ensures events == old(events) + [CloseEvent]
    {
      events := events + [CloseEvent];
    }

    /** `internalClose()`: announces `close` only when internal closing is allowed. */
    method InternalClose()
      modifies this`events
      ensures events == old(events) + (if allowInternalClose then [CloseEvent] else [])
    {
      if !allowInternalClose {
        return;
      }
      events := events + [CloseEvent];
    }

    /** `handleKeyDown(evt)`: Escape closes through `internalClose`; other keys do nothing. */
    method HandleKeyDown(code: string)
      modifies this`events
      ensures events == old(events) + (if code == "Escape" && allowInternalClose then [CloseEvent] else [])
    {
      if code == "Escape" {
        InternalClose();
      }
    }

    /** `handleBackdropClick(evt)`: a click on a close-trigger zone closes through `internalClose`. */
    method HandleBackdropClick(onTriggerZone: bool)
      modifies this`events
      ensures events == old(events) + (if onTriggerZone && allowInternalClose then [CloseEvent] else [])
    {
      if onTriggerZone {
        InternalClose();
      }
    }

    /** `handleMoveMousemove(evt)` */
    method HandleMoveMousemove(pageX: real, pageY: real, offsetWidth: real, offsetHeight: real,
                               windowWidth: real, windowHeight: real, scrollX: real, scrollY: real)
      modifies this`floatingXOffset, this`floatingYOffset
      ensures floatingXOffset == MoveOffset(windowWidth, offsetWidth, pageX, scrollX)
      ensures floatingYOffset == MoveOffset(windowHeight, offsetHeight, pageY, scrollY)
    {
      floatingXOffset := MaxR(0.0, MinR(windowWidth - offsetWidth, pageX - scrollX - offsetWidth / 2.0));
      floatingYOffset := MaxR(0.0, MinR(windowHeight - offsetHeight, pageY - scrollY - offsetHeight / 2.0));
    }

    /**
     * `handleMoveMousedown(evt)`: takes a mouse-guard lock, comes to the
     * front, moves once, and listens to the window for further moves and for
     * the end of the drag (mouseup or blur).
     */
    method HandleMoveMousedown(pageX: real, pageY: real, offsetWidth: real, offsetHeight: real,
                               windowWidth: real, windowHeight: real, scrollX: real, scrollY: real)
      modifies this`floatingXOffset, this`floatingYOffset, this`zIndex, stack, shell, this`window
      ensures shell != null ==> AppShell.LockState(shell.mouseGuard, shell.mouseGuardLocks) == AppShell.Acquire(AppShell.LockState(old(shell.mouseGuard), old(shell.mouseGuardLocks)))
      ensures zIndex == Some(old(stack.zIndex)) && stack.zIndex == old(stack.zIndex) + 1
      ensures floatingXOffset == MoveOffset(windowWidth, offsetWidth, pageX, scrollX)
      ensures floatingYOffset == MoveOffset(windowHeight, offsetHeight, pageY, scrollY)
      ensures window == AddListener(AddListener(AddListener(old(window),
        Registration("mousemove", MoveMousemove)), Registration("mouseup", MoveMouseup)), Registration("blur", MoveMouseup))
      ensures shell != null ==> shell.State() == AppShell.GuardLocked(old(shell.State()))
    {
      if shell != null {
        shell.LockMouseGuard();
      }
      BringToFront();
      HandleMoveMousemove(pageX, pageY, offsetWidth, offsetHeight, windowWidth, windowHeight, scrollX, scrollY);
      window := AddListener(window, Registration("mousemove", MoveMousemove));
      window := AddListener(window, Registration("mouseup", MoveMouseup));
      window := AddListener(window, Registration("blur", MoveMouseup));
    }

    /** `handleMoveMouseup()`: gives back the mouse-guard lock and stops listening to the drag. */
    method HandleMoveMouseup()
      modifies shell, this`window
      ensures shell != null ==> AppShell.LockState(shell.mouseGuard, shell.mouseGuardLocks) == AppShell.Release(AppShell.LockState(old(shell.mouseGuard), old(shell.mouseGuardLocks)))
      ensures window == RemoveListener(RemoveListener(RemoveListener(old(window),
        Registration("mousemove", MoveMousemove)), Registration("mouseup", MoveMouseup)), Registration("blur", MoveMouseup))
      ensures shell != null ==> shell.State() == AppShell.GuardUnlocked(old(shell.State()))
    {
      if shell != null {
        shell.UnlockMouseGuard();
      }
      window := RemoveListener(window, Registration("mousemove", MoveMousemove));
      window := RemoveListener(window, Registration("mouseup", MoveMouseup));
      window := RemoveListener(window, Registration("blur", MoveMouseup));
    }

    /**
     * The closure `handleResizeMousemove(target)` applied to one pointer
     * position: handles on the left or top edge move that edge and keep the
     * opposite one, handles on the right or bottom edge stretch the size, and
     * the other axis is left alone.
     */
    method HandleResizeMousemove(target: ResizeTarget, pageX: real, pageY: real,
                           offsetLeft: real, offsetTop: real, offsetWidth: real, offsetHeight: real,
                           windowWidth: real, windowHeight: real, scrollX: real, scrollY: real)
      modifies this`floatingXOffset, this`floatingYOffset, this`floatingWidth, this`floatingHeight
      ensures var mouseX := Clamp(pageX - scrollX, windowWidth);
        var x := if MovesLeftEdge(target) then DragNearEdge(mouseX, offsetLeft, offsetWidth, floatingMinWidth)
                 else if MovesRightEdge(target) then DragFarEdge(mouseX, offsetLeft, old(floatingXOffset), floatingMinWidth)
                 else Span(old(floatingXOffset), old(floatingWidth));
        floatingXOffset == x.offset && floatingWidth == x.size
      ensures var mouseY := Clamp(pageY - scrollY, windowHeight);
        var y := if MovesTopEdge(target) then DragNearEdge(mouseY, offsetTop, offsetHeight, floatingMinHeight)
                 else if MovesBottomEdge(target) then DragFarEdge(mouseY, offsetTop, old(floatingYOffset), floatingMinHeight)
                 else Span(old(floatingYOffset), old(floatingHeight));
        floatingYOffset == y.offset && floatingHeight == y.size
    {
      var mouseX := MaxR(0.0, MinR(windowWidth, pageX - scrollX));
      var mouseY := MaxR(0.0, MinR(windowHeight, pageY - scrollY));
      if MovesLeftEdge(target) {
        floatingXOffset := mouseX;
        floatingWidth := offsetWidth + (offsetLeft - mouseX);
        if floatingWidth < floatingMinWidth {
          floatingXOffset := floatingXOffset - (floatingMinWidth - floatingWidth);
          floatingWidth := floatingMinWidth;
        }
      } else if MovesRightEdge(target) {
        floatingWidth := mouseX - offsetLeft;
        if floatingWidth < floatingMinWidth {
          floatingWidth := floatingMinWidth;
        }
      }
      if MovesTopEdge(target) {
        floatingYOffset := mouseY;
        floatingHeight := offsetHeight + (offsetTop - mouseY);
        if floatingHeight < floatingMinHeight {
          floatingYOffset := floatingYOffset - (floatingMinHeight - floatingHeight);
          floatingHeight := floatingMinHeight;
        }
      } else if MovesBottomEdge(target) {
        floatingHeight := mouseY - offsetTop;
        if floatingHeight < floatingMinHeight {
          floatingHeight := floatingMinHeight;
        }
      }
    }

    /**
     * `handleResizeStart(evt, target)`: takes a mouse-guard lock, comes to
     * the front, creates a fresh move closure for the handle, applies it once
     * to the pointer, and registers it together with a fresh mouseup closure
     * over it.
     */
    method HandleResizeStart(target: ResizeTarget, pageX: real, pageY: real,
                             offsetLeft: real, offsetTop: real, offsetWidth: real, offsetHeight: real,
                             windowWidth: real, windowHeight: real, scrollX: real, scrollY: real)
      modifies this`zIndex, stack, shell, this`window, this`nextClosure
      modifies this`floatingXOffset, this`floatingYOffset, this`floatingWidth, this`floatingHeight
      ensures shell != null ==> AppShell.LockState(shell.mouseGuard, shell.mouseGuardLocks) == AppShell.Acquire(AppShell.LockState(old(shell.mouseGuard), old(shell.mouseGuardLocks)))
      ensures zIndex == Some(old(stack.zIndex)) && stack.zIndex == old(stack.zIndex) + 1
      ensures nextClosure == old(nextClosure) + 2
      ensures window == old(window) + [Registration("mousemove", ResizeMousemove(old(nextClosure))),
                                       Registration("mouseup", ResizeMouseup(old(nextClosure) + 1, old(nextClosure)))]
      ensures shell != null ==> shell.State() == AppShell.GuardLocked(old(shell.State()))
    {
      if shell != null {
        shell.LockMouseGuard();
      }
      BringToFront();
      HandleResizeMousemove(target, pageX, pageY, offsetLeft, offsetTop, offsetWidth, offsetHeight, windowWidth, windowHeight, scrollX, scrollY);
      var mover := ResizeMousemove(nextClosure);
      var ender := ResizeMouseup(nextClosure + 1, nextClosure);
      nextClosure := nextClosure + 2;
      window := window + [Registration("mousemove", mover), Registration("mouseup", ender)];
    }

    /**
     * The closure `handleResizeMouseup(listener)` as written: gives back the
     * mouse-guard lock and stops the move closure, but stays registered itself.
     */
    method HandleResizeMouseupAsWritten(mover: nat)
      modifies shell, this`window
      ensures shell != null ==> AppShell.LockState(shell.mouseGuard, shell.mouseGuardLocks) == AppShell.Release(AppShell.LockState(old(shell.mouseGuard), old(shell.mouseGuardLocks)))
      ensures window == RemoveListener(old(window), Registration("mousemove", ResizeMousemove(mover)))
      ensures shell != null ==> shell.State() == AppShell.GuardUnlocked(old(shell.State()))
    {
      if shell != null {
        shell.UnlockMouseGuard();
      }
      window := RemoveListener(window, Registration("mousemove", ResizeMousemove(mover)));
    }

    /** The same closure with its own registration removed too, so each resize gives back exactly its one lock. */
    method HandleResizeMouseup(id: nat, mover: nat)
      modifies shell, this`window
      ensures shell != null ==> AppShell.LockState(shell.mouseGuard, shell.mouseGuardLocks) == AppShell.Release(AppShell.LockState(old(shell.mouseGuard), old(shell.mouseGuardLocks)))
      ensures window == RemoveListener(RemoveListener(old(window), Registration("mousemove", ResizeMousemove(mover))),
                                       Registration("mouseup", ResizeMouseup(id, mover)))
      ensures shell != null ==> shell.State() == AppShell.GuardUnlocked(old(shell.State()))
    {
      HandleResizeMouseupAsWritten(mover);
      window := RemoveListener(window, Registration("mouseup", ResizeMouseup(id, mover)));
    }

    /**
     * A mouseup on the window: every mouseup listener registered when it
     * happens runs once, in registration order, unless an earlier one removed
     * it. `fixed` picks the corrected resize closure instead of the one as
     * written.
     */
    method WindowMouseUp(fixed: bool)
      modifies shell, this`window
      ensures window == Dispatch(old(window), old(window), fixed).window
      ensures shell != null ==>
        AppShell.LockState(shell.mouseGuard, shell.mouseGuardLocks) ==
        ReleaseTimes(AppShell.LockState(old(shell.mouseGuard), old(shell.mouseGuardLocks)), Dispatch(old(window), old(window), fixed).unlocks)
      ensures shell != null ==> shell.State() == AppShell.GuardUnlockedTimes(old(shell.State()), Dispatch(old(window), old(window), fixed).unlocks)
    {
      var pending := window;
      ghost var goal := Dispatch(pending, window, fixed);
      ghost var s0 := GuardState();
      ghost var whole0 := if shell != null then shell.State() else ShellPlaceholder;
      ghost var done: nat := 0;
      for i := 0 to |pending|
        invariant Dispatch(pending[i..], window, fixed).window == goal.window
        invariant done + Dispatch(pending[i..], window, fixed).unlocks == goal.unlocks
        invariant shell != null ==> GuardState() == Drained(s0, done)
        invariant shell != null ==> shell.State() == AppShell.GuardUnlockedTimes(whole0, done)
      {
        ghost var before := window;
        ghost var sBefore := GuardState();
        ghost var turn := Fire(pending[i], before, fixed);
        assert pending[i..] == [pending[i]] + pending[i + 1..];
        DispatchCons(pending[i..], pending[i], pending[i + 1..], before, fixed);
        FireOne(pending[i], fixed);
        ReleaseTimesDrained(sBefore, turn.unlocks);
        AppShell.GuardUnlockedTimesAdd(whole0, done, turn.unlocks);
        done := done + turn.unlocks;
      }
      ReleaseTimesDrained(s0, done);
      assert pending[|pending|..] == [];
    }

    /** The shell's mouse-guard lock, or a placeholder when the dialog has no shell. */
    ghost function GuardState(): AppShell.LockState
      reads this`shell, shell
    {
      if shell != null then AppShell.LockState(shell.mouseGuard, shell.mouseGuardLocks) else AppShell.Unlocked
    }

    /** One registration's turn in a window mouseup: it runs when it is a mouseup listener still registered. */
    method FireOne(reg: Registration, fixed: bool)
      modifies shell, this`window
      ensures window == Fire(reg, old(window), fixed).window
      ensures shell != null ==> GuardState() == ReleaseTimes(old(GuardState()), Fire(reg, old(window), fixed).unlocks)
      ensures shell != null ==> shell.State() == AppShell.GuardUnlockedTimes(old(shell.State()), Fire(reg, old(window), fixed).unlocks)
    {
      if reg.eventType == "mouseup" && reg in window {
        match reg.listener {
          case MoveMouseup =>
            HandleMoveMouseup();
          case ResizeMouseup(id, mover) =>
            if fixed {
              HandleResizeMouseup(id, mover);
            } else {
              HandleResizeMouseupAsWritten(mover);
            }
          case _ =>
        }
      }
    }
  }

  /** The window after one listener's turn, and how many mouse-guard unlocks it made. */
  datatype Outcome = Outcome(window: seq<Registration>, unlocks: nat)

  /** Stands in for the shell state of a dialog without a shell. */
  const ShellPlaceholder := AppShell.ShellState(AppShell.Unlocked, AppShell.Unlocked, None, false, false, 0, None, 0, [])

  /** One registration's turn in a window mouseup. */
  function Fire(reg: Registration, window: seq<Registration>, fixed: bool): Outcome
  {
    if reg.eventType != "mouseup" || reg !in window then Outcome(window, 0)
    else match reg.listener
      case MoveMouseup =>
        Outcome(RemoveListener(RemoveListener(RemoveListener(window,
          Registration("mousemove", MoveMousemove)), Registration("mouseup", MoveMouseup)), Registration("blur", MoveMouseup)), 1)
      case ResizeMouseup(id, mover) =>
        var w := RemoveListener(window, Registration("mousemove", ResizeMousemove(mover)));
        Outcome(if fixed then RemoveListener(w, Registration("mouseup", ResizeMouseup(id, mover))) else w, 1)
      case _ => Outcome(window, 0)
  }

  /** The turns of the listeners in `pending`, in order, starting from `window`. */
  function Dispatch(pending: seq<Registration>, window: seq<Registration>, fixed: bool): Outcome
  {
    if pending == [] then Outcome(window, 0)
    else
      var first := Fire(pending[0], window, fixed);
      var rest := Dispatch(pending[1..], first.window, fixed);
      Outcome(rest.window, first.unlocks + rest.unlocks)
  }

  lemma DispatchCons(pending: seq<Registration>, reg: Registration, later: seq<Registration>, window: seq<Registration>, fixed: bool)
    requires pending == [reg] + later
    ensures Dispatch(pending, window, fixed) ==
      Outcome(Dispatch(later, Fire(reg, window, fixed).window, fixed).window,
              Fire(reg, window, fixed).unlocks + Dispatch(later, Fire(reg, window, fixed).window, fixed).unlocks)
  {
    assert pending[0] == reg && pending[1..] == later;
  }

  function ReleaseTimes(c: AppShell.LockState, n: nat): AppShell.LockState
    decreases n
  {
    if n == 0 then c else ReleaseTimes(AppShell.Release(c), n - 1)
  }

  /** The state after `n` releases in closed form: the count drops by `n`, and the flag clears when it passes through zero. */
  function Drained(c: AppShell.LockState, n: nat): AppShell.LockState
  {
    AppShell.LockState(c.held && !(1 <= c.count <= n), c.count - n)
  }

  lemma {:induction false} ReleaseTimesDrained(c: AppShell.LockState, n: nat)
    ensures ReleaseTimes(c, n) == Drained(c, n)
    decreases n
  {
    if n > 0 {
      ReleaseTimesDrained(AppShell.Release(c), n - 1);
    }
  }

  const ResizeMove := Registration("mousemove", ResizeMousemove(0))
  const ResizeEnd := Registration("mouseup", ResizeMouseup(1, 0))
  const DragMove := Registration("mousemove", MoveMousemove)
  const DragEnd := Registration("mouseup", MoveMouseup)
  const DragBlur := Registration("blur", MoveMouseup)

  /** One step of `RemoveListener` on a list with a known head. */
  lemma RemoveCons(x: Registration, rest: seq<Registration>, r: Registration)
    ensures RemoveListener([x] + rest, r) == if x == r then RemoveListener(rest, r) else [x] + RemoveListener(rest, r)
  {
    assert ([x] + rest)[0] == x && ([x] + rest)[1..] == rest;
  }

  /** The mouseup that ends a first resize: one unlock, and the closure as written stays registered. */
  lemma EndResize(fixed: bool)
    ensures Dispatch([ResizeMove, ResizeEnd], [ResizeMove, ResizeEnd], fixed) == Outcome(if fixed then [] else [ResizeEnd], 1)
  {
    var w := [ResizeMove, ResizeEnd];
    RemoveCons(ResizeMove, [ResizeEnd], ResizeMove);
    RemoveListenerKeeps([ResizeEnd], ResizeMove);
    RemoveCons(ResizeEnd, [], ResizeEnd);
    assert RemoveListener(w, ResizeMove) == [ResizeEnd];
    assert RemoveListener([ResizeEnd], ResizeEnd) == [];
    assert Fire(ResizeMove, w, fixed) == Outcome(w, 0);
    assert Fire(ResizeEnd, w, fixed) == Outcome(if fixed then [] else [ResizeEnd], 1);
    DispatchCons(w, ResizeMove, [ResizeEnd], w, fixed);
    DispatchCons([ResizeEnd], ResizeEnd, [], w, fixed);
  }

  /** The three drag registrations come off one by one. */
  lemma RemoveDrag()
    ensures RemoveListener([DragMove, DragEnd, DragBlur], DragMove) == [DragEnd, DragBlur]
    ensures RemoveListener([DragEnd, DragBlur], DragEnd) == [DragBlur]
    ensures RemoveListener([DragBlur], DragBlur) == []
  {
    RemoveCons(DragMove, [DragEnd, DragBlur], DragMove);
    RemoveListenerKeeps([DragEnd, DragBlur], DragMove);
    RemoveCons(DragEnd, [DragBlur], DragEnd);
    RemoveListenerKeeps([DragBlur], DragEnd);
    RemoveCons(DragBlur, [], DragBlur);
  }

  /** The same with the leftover resize closure in front, which stays. */
  lemma RemoveDragAfterResize()
    ensures RemoveListener([ResizeEnd, DragMove, DragEnd, DragBlur], DragMove) == [ResizeEnd, DragEnd, DragBlur]
    ensures RemoveListener([ResizeEnd, DragEnd, DragBlur], DragEnd) == [ResizeEnd, DragBlur]
    ensures RemoveListener([ResizeEnd, DragBlur], DragBlur) == [ResizeEnd]
  {
    RemoveDrag();
    RemoveCons(ResizeEnd, [DragMove, DragEnd, DragBlur], DragMove);
    RemoveCons(ResizeEnd, [DragEnd, DragBlur], DragEnd);
    RemoveCons(ResizeEnd, [DragBlur], DragBlur);
  }

  /** The drag's own mouseup clears its registrations and gives back one lock. */
  lemma FireDragEnd(head: seq<Registration>, fixed: bool)
    requires head == [] || head == [ResizeEnd]
    ensures Fire(DragEnd, head + [DragMove, DragEnd, DragBlur], fixed) == Outcome(head, 1)
  {
    if head == [] {
      assert head + [DragMove, DragEnd, DragBlur] == [DragMove, DragEnd, DragBlur];
      RemoveDrag();
    } else {
      assert head + [DragMove, DragEnd, DragBlur] == [ResizeEnd, DragMove, DragEnd, DragBlur];
      RemoveDragAfterResize();
    }
  }

  /** The mouseup that ends a later drag, with the leftover resize closure first in line: two unlocks. */
  lemma EndDragAfterResizeAsWritten()
    ensures Dispatch([ResizeEnd, DragMove, DragEnd, DragBlur], [ResizeEnd, DragMove, DragEnd, DragBlur], false) == Outcome([ResizeEnd], 2)
  {
    var w := [ResizeEnd] + [DragMove, DragEnd, DragBlur];
    assert w == [ResizeEnd, DragMove, DragEnd, DragBlur];
    assert ResizeMove !in w;
    RemoveListenerKeeps(w, ResizeMove);
    assert Fire(ResizeEnd, w, false) == Outcome(w, 1);
    assert Fire(DragMove, w, false) == Outcome(w, 0);
    FireDragEnd([ResizeEnd], false);
    assert Fire(DragBlur, [ResizeEnd], false) == Outcome([ResizeEnd], 0);
    DispatchCons(w, ResizeEnd, [DragMove, DragEnd, DragBlur], w, false);
    DispatchCons([DragMove, DragEnd, DragBlur], DragMove, [DragEnd, DragBlur], w, false);
    DispatchCons([DragEnd, DragBlur], DragEnd, [DragBlur], w, false);
    DispatchCons([DragBlur], DragBlur, [], [ResizeEnd], false);
  }

  /** The mouseup that ends a drag with nothing else registered: one unlock, and the window is clear. */
  lemma EndDrag(fixed: bool)
    ensures Dispatch([DragMove, DragEnd, DragBlur], [DragMove, DragEnd, DragBlur], fixed) == Outcome([], 1)
  {
    var w := [DragMove, DragEnd, DragBlur];
    assert [] + w == w;
    assert Fire(DragMove, w, fixed) == Outcome(w, 0);
    FireDragEnd([], fixed);
    assert Fire(DragBlur, [], fixed) == Outcome([], 0);
    DispatchCons(w, DragMove, [DragEnd, DragBlur], w, fixed);
    DispatchCons([DragEnd, DragBlur], DragEnd, [DragBlur], w, fixed);
    DispatchCons([DragBlur], DragBlur, [], [], fixed);
  }

  /**
   * The resize mouseup closure as written stays on the window after the
   * resize ends. A resize, its mouseup, then a move drag and its mouseup
   * leave the shell's mouse-guard count at -1: the leftover closure gives
   * back a lock it never took. The next drag then brings the count only to
   * 0 and runs without the mouse guard.
   */
  method ResizeThenDragAsWritten() returns (locks: int, guard: bool)
    ensures locks == 0 && !guard
  {
    var stack := new DialogStack();
    var shell := new AppShell.Shell();
    var d := new FznDialog(stack, shell, true);
    d.HandleResizeStart(R, 10.0, 10.0, 0.0, 0.0, 100.0, 100.0, 500.0, 500.0, 0.0, 0.0);
    assert d.window == [ResizeMove, ResizeEnd];
    EndResize(false);
    d.WindowMouseUp(false);
    assert d.window == [ResizeEnd] && shell.mouseGuardLocks == 0 && !shell.mouseGuard;
    d.HandleMoveMousedown(10.0, 10.0, 100.0, 100.0, 500.0, 500.0, 0.0, 0.0);
    assert d.window == [ResizeEnd, DragMove, DragEnd, DragBlur];
    EndDragAfterResizeAsWritten();
    d.WindowMouseUp(false);
    assert shell.mouseGuardLocks == -1 && !shell.mouseGuard;
    d.HandleMoveMousedown(10.0, 10.0, 100.0, 100.0, 500.0, 500.0, 0.0, 0.0);
    locks, guard := shell.mouseGuardLocks, shell.mouseGuard;
  }

  /** With the resize mouseup closure removing itself, the same sequence leaves the second drag holding the guard. */
  method ResizeThenDrag() returns (locks: int, guard: bool)
    ensures locks == 1 && guard
  {
    var stack := new DialogStack();
    var shell := new AppShell.Shell();
    var d := new FznDialog(stack, shell, true);
    d.HandleResizeStart(R, 10.0, 10.0, 0.0, 0.0, 100.0, 100.0, 500.0, 500.0, 0.0, 0.0);
    assert d.window == [ResizeMove, ResizeEnd];
    EndResize(true);
    d.WindowMouseUp(true);
    assert d.window == [] && shell.mouseGuardLocks == 0;
    d.HandleMoveMousedown(10.0, 10.0, 100.0, 100.0, 500.0, 500.0, 0.0, 0.0);
    assert d.window == [DragMove, DragEnd, DragBlur];
    EndDrag(true);
    d.WindowMouseUp(true);
    assert d.window == [] && shell.mouseGuardLocks == 0;
    d.HandleMoveMousedown(10.0, 10.0, 100.0, 100.0, 500.0, 500.0, 0.0, 0.0);
    locks, guard := shell.mouseGuardLocks, shell.mouseGuard;
  }
}
