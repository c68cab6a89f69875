// context-menu/context-menu.ts: where a context menu is placed. Anchored to
// an element, `reposition` searches the four directions and two cross-axis
// alignments for a spot inside the bounds; at a free point it flips the
// menu towards the viewport. `ContextMenuPosition.toStyle` renders the result.
module Placement {
  import opened Common

  datatype Dir = Up | Right | Down | Left

  /** The near side is left/top, the far side right/bottom. */
  datatype Side = Near | Far

  function Opposite(s: Side): Side
  {
    if s == Near then Far else Near
  }

  /** `alignX ?? 'left'`, `alignY ?? 'top'` */
  function SideOr(s: Option<Side>): Side
  {
    s.GetOr(Near)
  }

  /** The directions tried after the configured one fails; no direction means `'down'`. */
  function Fallbacks(d: Dir): (r: seq<Dir>)
  {
    match d
    case Up => [Down, Right, Left]
    case Right => [Left, Down, Up]
    case Left => [Right, Down, Up]
    case Down => [Up, Right, Left]
  }

  /** The fallbacks are the three other directions, each once. */
  lemma FallbacksOthers(d: Dir)
    ensures |Fallbacks(d)| == 3
    ensures d !in Fallbacks(d)
    ensures forall e :: e != d ==> e in Fallbacks(d)
    ensures forall i, j :: 0 <= i < j < 3 ==> Fallbacks(d)[i] != Fallbacks(d)[j]
  {
  }

  /** `list.filter(v => v !== d)` */
  function Without(list: seq<Dir>, d: Dir): (r: seq<Dir>)
    ensures |r| <= |list|
    ensures forall e :: e in r <==> e in list && e != d
    ensures d in list ==> |r| < |list|
  {
    if list == [] then []
    else if list[0] == d then Without(list[1..], d)
    else [list[0]] + Without(list[1..], d)
  }

  // ---------------------------------------------------------------------
  // The inputs of one anchored search

  /** The box the menu must stay in. */
  datatype Bounds = Bounds(top: int, left: int, right: int, bottom: int, height: nat)

  /** Where the bounds come from: the scrolled viewport, or an element's box. */
  datatype BoundsSource =
    | Viewport(width: nat, height: nat, scrollX: int, scrollY: int)
    | Element(offsetTop: int, offsetLeft: int, width: nat, height: nat)

  /** The bounds as intended: the viewport, or the element's own box. */
  function ResolveBounds(src: BoundsSource): (b: Bounds)
    ensures b.bottom - b.top == b.height
    ensures b.right - b.left == src.width
  {
    match src
    case Viewport(w, h, sx, sy) => Bounds(sy, sx, w + sx, h + sy, h)
    case Element(t, l, w, h) => Bounds(t, l, l + w, t + h, h)
  }

  /**
   * The bounds as the element branch computes them: the element's top and
   * left are destructured into block-scoped constants that shadow the outer
   * variables, which stay null and count as 0.
   */
  function ResolveBoundsAsWritten(src: BoundsSource): Bounds
  {
    match src
    case Viewport(w, h, sx, sy) => Bounds(sy, sx, w + sx, h + sy, h)
    case Element(t, l, w, h) => Bounds(0, 0, l + w, t + h, h)
  }

  /** Accepted on one axis: at most 2px over the far side and 2px before the near side. */
  predicate Fits(pos: int, size: int, near: int, far: int)
  {
    pos + size <= far + 2 && pos + 2 >= near
  }

  /** With the as-written bounds an element's near sides are 0, so a spot above the element is accepted. */
  lemma AsWrittenAcceptsOutside()
    ensures var src := Element(100, 0, 300, 200);
      && Fits(10, 50, ResolveBoundsAsWritten(src).top, ResolveBoundsAsWritten(src).bottom)
      && !Fits(10, 50, ResolveBounds(src).top, ResolveBounds(src).bottom)
  {
  }

  /** A spot accepted by the intended element bounds lies in the element's box, within 2px. */
  lemma ElementBoundsContain(t: int, l: int, w: nat, h: nat, x: int, y: int, menuW: nat, menuH: nat)
    requires var b := ResolveBounds(Element(t, l, w, h));
      Fits(y, menuH, b.top, b.bottom) && Fits(x, menuW, b.left, b.right)
    ensures t - 2 <= y && y + menuH <= t + h + 2
    ensures l - 2 <= x && x + menuW <= l + w + 2
  {
  }

  /** `Math.max(near, Math.min(far - size, pos))` */
  function ClampInto(pos: int, size: int, near: int, far: int): int
  {
    var hi := if far - size < pos then far - size else pos;
    if near > hi then near else hi
  }

  function Placed(pos: int, size: int, near: int, far: int, clamped: bool): int
  {
    if clamped then ClampInto(pos, size, near, far) else pos
  }

  /** A clamped coordinate fits whenever the menu is no larger than the bounds plus 2px. */
  lemma ClampedFits(pos: int, size: nat, near: int, far: int)
    ensures Fits(ClampInto(pos, size, near, far), size, near, far) <==> size <= far - near + 2
  {
  }

  /** The margins of `anchorOptions.margin`; `m || 0` for each side. */
  datatype Margins = Margins(top: Option<int>, right: Option<int>, bottom: Option<int>, left: Option<int>)

  /** The fixed inputs of one search; `menuH` is already clamped to the bounds. */
  datatype Frame = Frame(
    anchorTop: int, anchorLeft: int, anchorW: nat, anchorH: nat,
    menuW: nat, menuH: nat, bounds: Bounds, margins: Margins,
    alignX: Side, alignY: Side)

  /** One pass of the search: a direction, with or without clamping. */
  datatype Step = Step(dir: Dir, clamped: bool)

  /** What a pass found: the main-axis spot when it fits, and then the cross-axis spot if any. */
  datatype Try = Try(main: Option<int>, cross: Option<int>)

  predicate Succeeds(t: Try)
  {
    t.main.Some? && t.cross.Some?
  }

  predicate Vertical(d: Dir)
  {
    d == Up || d == Down
  }

  /** A cross-axis candidate: aligned with the anchor's near side, or its far side. */
  function Candidate(side: Side, start: int, anchorSize: int, size: int): int
  {
    if side == Far then start + anchorSize - size else start
  }

  /** The cross-axis alignment: the preferred side, else the opposite side once. */
  function CrossSpec(pref: Side, start: int, anchorSize: int, size: int, near: int, far: int, clamped: bool): (r: Option<int>)
    ensures r.Some? ==> Fits(r.value, size, near, far)
  {
    var a := Placed(Candidate(pref, start, anchorSize, size), size, near, far, clamped);
    var b := Placed(Candidate(Opposite(pref), start, anchorSize, size), size, near, far, clamped);
    if Fits(a, size, near, far) then Some(a)
    else if Fits(b, size, near, far) then Some(b)
    else None
  }

  /** The main-axis spot of a direction, before clamping. */
  function MainPos(f: Frame, d: Dir): int
  {
    match d
    case Up => f.anchorTop - f.margins.top.GetOr(0) - f.menuH
    case Down => f.anchorTop + f.anchorH + f.margins.bottom.GetOr(0)
    case Right => f.anchorLeft + f.margins.right.GetOr(0) + f.anchorW
    case Left => f.anchorLeft - f.margins.left.GetOr(0) - f.menuW
  }

  /** One pass: the main axis first; only when it fits is the cross axis aligned. */
  function TrySpec(f: Frame, s: Step): (t: Try)
    ensures t.main.Some? && Vertical(s.dir) ==> Fits(t.main.value, f.menuH, f.bounds.top, f.bounds.bottom)
    ensures t.main.Some? && !Vertical(s.dir) ==> Fits(t.main.value, f.menuW, f.bounds.left, f.bounds.right)
    ensures t.cross.Some? && Vertical(s.dir) ==> Fits(t.cross.value, f.menuW, f.bounds.left, f.bounds.right)
    ensures t.cross.Some? && !Vertical(s.dir) ==> Fits(t.cross.value, f.menuH, f.bounds.top, f.bounds.bottom)
    ensures t.main.None? ==> t.cross.None?
  {
    var b := f.bounds;
    if Vertical(s.dir) then
      var y := Placed(MainPos(f, s.dir), f.menuH, b.top, b.bottom, s.clamped);
      if !Fits(y, f.menuH, b.top, b.bottom) then Try(None, None)
      else Try(Some(y), CrossSpec(f.alignX, f.anchorLeft, f.anchorW, f.menuW, b.left, b.right, s.clamped))
    else
      var x := Placed(MainPos(f, s.dir), f.menuW, b.left, b.right, s.clamped);
      if !Fits(x, f.menuW, b.left, b.right) then Try(None, None)
      else Try(Some(x), CrossSpec(f.alignY, f.anchorTop, f.anchorH, f.menuH, b.top, b.bottom, s.clamped))
  }

  /**
   * In the clamped retry both axes are clamped into the bounds, so the pass
   * succeeds exactly when the menu is at most 2px wider than the bounds.
   */
  lemma ClampedPass(f: Frame, d: Dir)
    requires f.menuH <= f.bounds.bottom - f.bounds.top
    ensures Succeeds(TrySpec(f, Step(d, true))) <==> f.menuW <= f.bounds.right - f.bounds.left + 2
  {
    var b := f.bounds;
    ClampedFits(MainPos(f, d), f.menuH, b.top, b.bottom);
    ClampedFits(MainPos(f, d), f.menuW, b.left, b.right);
    ClampedFits(Candidate(f.alignX, f.anchorLeft, f.anchorW, f.menuW), f.menuW, b.left, b.right);
    ClampedFits(Candidate(Opposite(f.alignX), f.anchorLeft, f.anchorW, f.menuW), f.menuW, b.left, b.right);
    ClampedFits(Candidate(f.alignY, f.anchorTop, f.anchorH, f.menuH), f.menuH, b.top, b.bottom);
  }

  // ---------------------------------------------------------------------
  // The order of the passes

  function Plain(ds: seq<Dir>): (r: seq<Step>)
    ensures |r| == |ds|
    ensures forall i :: 0 <= i < |ds| ==> r[i] == Step(ds[i], false)
  {
    if ds == [] then [] else [Step(ds[0], false)] + Plain(ds[1..])
  }

  /**
   * The passes still to come: the alternative direction once (dropped from
   * the list), the remaining list in order, then the clamped retry of the
   * configured direction.
   */
  function Rest(preferred: Option<Dir>, dirLeft: seq<Dir>, clamped: bool, d0: Dir): seq<Step>
  {
    (if preferred.Some? then [Step(preferred.value, false)] + Plain(Without(dirLeft, preferred.value)) else Plain(dirLeft))
    + (if clamped then [] else [Step(d0, true)])
  }

  /** Every pass of an anchored search, in order. */
  function Schedule(direction: Option<Dir>, alt: Option<Dir>): seq<Step>
  {
    var d0 := direction.GetOr(Down);
    [Step(d0, false)] + Rest(alt, Fallbacks(d0), false, d0)
  }

  /** At most 6 passes; 5 when there is no alternative direction or it is one of the fallbacks. */
  lemma ScheduleLength(direction: Option<Dir>, alt: Option<Dir>)
    ensures |Schedule(direction, alt)| <= 6
    ensures alt.None? || alt.value in Fallbacks(direction.GetOr(Down)) ==> |Schedule(direction, alt)| == 5
    ensures Schedule(direction, alt)[|Schedule(direction, alt)| - 1] == Step(direction.GetOr(Down), true)
  {
    var d0 := direction.GetOr(Down);
    FallbacksOthers(d0);
    if alt.Some? {
      var w := Without(Fallbacks(d0), alt.value);
      if alt.value in Fallbacks(d0) {
        assert |w| == 2 by {
          assert forall e :: e in w <==> e in Fallbacks(d0) && e != alt.value;
          WithoutDistinct(Fallbacks(d0), alt.value);
        }
      }
    }
  }

  /** Dropping a listed direction from the three distinct fallbacks leaves two. */
  lemma WithoutDistinct(list: seq<Dir>, d: Dir)
    requires |list| == 3 && d in list
    requires forall i, j :: 0 <= i < j < 3 ==> list[i] != list[j]
    ensures |Without(list, d)| == 2
  {
    var a, b, c := list[0], list[1], list[2];
    assert list[1..][1..] == list[2..] && list[2..][1..] == [];
    assert Without(list[2..][1..], d) == [];
    if a == d {
      assert Without(list[2..], d) == [c];
      assert Without(list[1..], d) == [b, c];
    } else if b == d {
      assert Without(list[2..], d) == [c];
      assert Without(list[1..], d) == [c];
    } else {
      assert Without(list[2..], d) == [];
      assert Without(list[1..], d) == [b];
    }
  }

  /** The index of the first successful pass. */
  function FirstSuccess(f: Frame, steps: seq<Step>, from: nat): (r: Option<nat>)
    ensures r.Some? ==> from <= r.value < |steps| && Succeeds(TrySpec(f, steps[r.value]))
    decreases |steps| - from
  {
    if from >= |steps| then None
    else if Succeeds(TrySpec(f, steps[from])) then Some(from)
    else FirstSuccess(f, steps, from + 1)
  }

  /** No pass succeeds exactly when the first-success search finds none. */
  lemma {:induction false} FirstSuccessNone(f: Frame, steps: seq<Step>, from: nat)
    ensures FirstSuccess(f, steps, from).None? <==>
      forall k :: from <= k < |steps| ==> !Succeeds(TrySpec(f, steps[k]))
    decreases |steps| - from
  {
    if from < |steps| && !Succeeds(TrySpec(f, steps[from])) {
      FirstSuccessNone(f, steps, from + 1);
    }
  }

  /** Every pass before the first success fails. */
  lemma {:induction false} FirstSuccessEarlier(f: Frame, steps: seq<Step>, from: nat)
    requires FirstSuccess(f, steps, from).Some?
    ensures forall k :: from <= k < FirstSuccess(f, steps, from).value ==> !Succeeds(TrySpec(f, steps[k]))
    decreases |steps| - from
  {
    if !Succeeds(TrySpec(f, steps[from])) {
      FirstSuccessEarlier(f, steps, from + 1);
    }
  }

  /** The search falls through exactly when no unclamped pass fits and the menu is over 2px wider than the bounds. */
  lemma ForcedExit(f: Frame, direction: Option<Dir>, alt: Option<Dir>)
    requires f.menuH <= f.bounds.bottom - f.bounds.top
    ensures var steps := Schedule(direction, alt);
      FirstSuccess(f, steps, 0).None? <==>
        (forall k :: 0 <= k < |steps| - 1 ==> !Succeeds(TrySpec(f, steps[k])))
        && f.menuW > f.bounds.right - f.bounds.left + 2
  {
    var steps := Schedule(direction, alt);
    ScheduleLength(direction, alt);
    FirstSuccessNone(f, steps, 0);
    ClampedPass(f, direction.GetOr(Down));
  }

  // ---------------------------------------------------------------------
  // Style values

  /** A `ContextMenuPosition` field: a string such as 'auto', or a number of pixels. */
  datatype Value = Word(text: string) | Px(n: int)

  const Auto: Value := Word("auto")

  /** The top and left fields written so far. */
  datatype TopLeft = TopLeft(top: Value, left: Value)

  /** What one pass writes: the main-axis field when it fits, the cross-axis field when aligned. */
  function Apply(st: TopLeft, d: Dir, t: Try): TopLeft
  {
    if Vertical(d) then
      TopLeft(if t.main.Some? then Px(t.main.value) else st.top,
              if t.cross.Some? then Px(t.cross.value) else st.left)
    else
      TopLeft(if t.cross.Some? then Px(t.cross.value) else st.top,
              if t.main.Some? then Px(t.main.value) else st.left)
  }

  /** The top and left fields after the given passes, from 'auto'. */
  function Replay(f: Frame, steps: seq<Step>): TopLeft
  {
    if steps == [] then TopLeft(Auto, Auto)
    else
      var last := steps[|steps| - 1];
      Apply(Replay(f, steps[..|steps| - 1]), last.dir, TrySpec(f, last))
  }

  /** After a successful last pass, top and left hold that pass's spots, inside the bounds within 2px. */
  lemma ReplaySuccess(f: Frame, steps: seq<Step>)
    requires |steps| >= 1 && Succeeds(TrySpec(f, steps[|steps| - 1]))
    ensures var tl := Replay(f, steps);
      && tl.top.Px? && tl.left.Px?
      && Fits(tl.top.n, f.menuH, f.bounds.top, f.bounds.bottom)
      && Fits(tl.left.n, f.menuW, f.bounds.left, f.bounds.right)
  {
  }

  /** `anchorOptions` */
  datatype AnchorOptions = AnchorOptions(
    altDirection: Option<Dir>, direction: Option<Dir>, matchWidth: bool,
    alignX: Option<Side>, alignY: Option<Side>, margins: Margins)

  /** The style fields of `ContextMenuPosition`. */
  datatype Position = Position(top: Value, right: Value, bottom: Value, left: Value, width: Option<string>)

  /** What `reposition` writes to the element in the anchored case. */
  datatype Anchored = Anchored(
    position: Position, dir: Dir, forced: bool,
    /** `style.height` when the menu was taller than the bounds. */
    height: Option<nat>)

  function DirName(d: Dir): string
  {
    match d
    case Up => "up"
    case Right => "right"
    case Down => "down"
    case Left => "left"
  }

  /** The class the element receives: `dir-${chosenDir}`. */
  function DirClass(d: Dir): string
  {
    "dir-" + DirName(d)
  }

  /** `typeof v === 'number' ? v + offset : v` */
  function Shift(v: Value, offset: int): (r: Value)
    ensures v.Px? <==> r.Px?
    ensures v.Px? ==> r.n - offset == v.n
    ensures v.Word? ==> r == v
  {
    if v.Px? then Px(v.n + offset) else v
  }

  /** The fixed inputs of the search for the given geometry; the height is clamped to the bounds. */
  function FrameOf(anchorTop: int, anchorLeft: int, anchorW: nat, anchorH: nat, menuW: nat, menuH: nat,
                   b: Bounds, opts: AnchorOptions): Frame
  {
    Frame(anchorTop, anchorLeft, anchorW, anchorH, menuW, if menuH > b.height then b.height else menuH, b,
          opts.margins, SideOr(opts.alignX), SideOr(opts.alignY))
  }

  /** The cross-axis `do ... while (figuredAlign === null)` loop. */
  method Align(pref: Side, start: int, anchorSize: int, size: int, near: int, far: int, clamped: bool)
    returns (r: Option<int>)
    ensures r == CrossSpec(pref, start, anchorSize, size, near, far, clamped)
  {
    var chosen := pref;
    var figured: Option<bool> := None;
    var pos := 0;
    var a := Placed(Candidate(pref, start, anchorSize, size), size, near, far, clamped);
    while figured.None?
      invariant chosen == pref || (chosen == Opposite(pref) && !Fits(a, size, near, far))
      invariant figured == Some(true) ==> CrossSpec(pref, start, anchorSize, size, near, far, clamped) == Some(pos)
      invariant figured == Some(false) ==> CrossSpec(pref, start, anchorSize, size, near, far, clamped).None?
      decreases (if figured.None? then 1 else 0) + (if chosen == pref then 1 else 0)
    {
      pos := Placed(Candidate(chosen, start, anchorSize, size), size, near, far, clamped);
      if !Fits(pos, size, near, far) {
        if chosen != pref {
          figured := Some(false);
        } else {
          chosen := Opposite(pref);
        }
      } else {
        figured := Some(true);
      }
    }
    if figured == Some(true) {
      r := Some(pos);
    } else {
      assert figured.Some?;
      assert !figured.value;
      r := None;
    }
  }

  /** One pass of the direction switch. */
  method Attempt(f: Frame, s: Step) returns (t: Try)
    ensures t == TrySpec(f, s)
  {
    var b := f.bounds;
    var main := MainPos(f, s.dir);
    if Vertical(s.dir) {
      var y := Placed(main, f.menuH, b.top, b.bottom, s.clamped);
      if !Fits(y, f.menuH, b.top, b.bottom) {
        return Try(None, None);
      }
      var x := Align(f.alignX, f.anchorLeft, f.anchorW, f.menuW, b.left, b.right, s.clamped);
      return Try(Some(y), x);
    } else {
      var x := Placed(main, f.menuW, b.left, b.right, s.clamped);
      if !Fits(x, f.menuW, b.left, b.right) {
        return Try(None, None);
      }
      var y := Align(f.alignY, f.anchorTop, f.anchorH, f.menuH, b.top, b.bottom, s.clamped);
      return Try(Some(x), y);
    }
  }

  /**
   * The anchored branch of `reposition`. The passes follow `Schedule`; the
   * first one that succeeds decides the direction, and when none does the
   * search exits by force in the configured direction. Pixel values are
   * shifted by the origin parent's offset.
   */
  method Reposition(anchorTop: int, anchorLeft: int, anchorW: nat, anchorH: nat, menuW: nat, menuH: nat,
                    src: BoundsSource, origin: Option<(int, int)>, opts: AnchorOptions)
    returns (r: Anchored, ghost passes: nat)
    ensures var b := ResolveBounds(src);
      var f := FrameOf(anchorTop, anchorLeft, anchorW, anchorH, menuW, menuH, b, opts);
      var steps := Schedule(opts.direction, opts.altDirection);
      var first := FirstSuccess(f, steps, 0);
      var offsetX := if origin.Some? then 0 - origin.value.0 else 0;
      var offsetY := if origin.Some? then 0 - origin.value.1 else 0;
      && passes <= 6
      && (r.forced <==> first.None?)
      && (first.Some? ==> r.dir == steps[first.value].dir && passes == first.value + 1)
      && (first.None? ==> r.dir == opts.direction.GetOr(Down) && passes == |steps|)
      && r.position.top == Shift(Replay(f, steps[..passes]).top, offsetY)
      && r.position.left == Shift(Replay(f, steps[..passes]).left, offsetX)
      && r.position.right == Auto && r.position.bottom == Auto
      && r.position.width == (if opts.matchWidth then Some(NatToDecimal(anchorW) + "px") else None)
      && r.height == (if menuH > b.height then Some(b.height) else None)
      && (!r.forced ==>
            && r.position.top.Px? && r.position.left.Px?
            && Fits(r.position.top.n - offsetY, f.menuH, b.top, b.bottom)
            && Fits(r.position.left.n - offsetX, menuW, b.left, b.right))
  {
    var b := ResolveBounds(src);
    var f := FrameOf(anchorTop, anchorLeft, anchorW, anchorH, menuW, menuH, b, opts);
    var width := if opts.matchWidth then Some(NatToDecimal(anchorW) + "px") else None;
    var height := if menuH > b.height then Some(b.height) else None;
    var chosen, forced, tl;
    chosen, forced, tl, passes := Search(f, opts.direction, opts.altDirection);
    var offsetX := if origin.Some? then 0 - origin.value.0 else 0;
    var offsetY := if origin.Some? then 0 - origin.value.1 else 0;
    r := Anchored(Position(Shift(tl.top, offsetY), Auto, Auto, Shift(tl.left, offsetX), width), chosen, forced, height);
  }

  /** The `do ... while (!figuredDir)` search over the passes of `Schedule`. */
  method Search(f: Frame, direction: Option<Dir>, alt: Option<Dir>)
    returns (chosen: Dir, forced: bool, tl: TopLeft, ghost passes: nat)
    ensures var steps := Schedule(direction, alt);
      var first := FirstSuccess(f, steps, 0);
      && passes <= 6
      && (forced <==> first.None?)
      && (first.Some? ==> chosen == steps[first.value].dir && passes == first.value + 1)
      && (first.None? ==> chosen == direction.GetOr(Down) && passes == |steps|)
      && tl == Replay(f, steps[..passes])
      && (!forced ==>
            && tl.top.Px? && tl.left.Px?
            && Fits(tl.top.n, f.menuH, f.bounds.top, f.bounds.bottom)
            && Fits(tl.left.n, f.menuW, f.bounds.left, f.bounds.right))
  {
    var d0 := direction.GetOr(Down);
    var dirLeft := Fallbacks(d0);
    var preferred := alt;
    chosen := d0;
    var clamped := false;
    var figured := false;
    forced := false;
    tl := TopLeft(Auto, Auto);
    ghost var steps := Schedule(direction, alt);
    passes := 0;
    ScheduleLength(direction, alt);
    while !figured
      invariant passes <= |steps|
      invariant !figured ==> steps[passes..] == [Step(chosen, clamped)] + Rest(preferred, dirLeft, clamped, d0)
      invariant tl == Replay(f, steps[..passes])
      invariant !figured || forced ==> AllFail(f, steps, passes)
      invariant figured && !forced ==> passes > 0 && AllFail(f, steps, passes - 1) && SucceedsAt(f, steps, passes - 1) && steps[passes - 1].dir == chosen
      invariant clamped ==> preferred.None? && dirLeft == []
      invariant forced ==> figured && passes == |steps| && chosen == d0
      decreases (if figured then 0 else 1) + |Rest(preferred, dirLeft, clamped, d0)|
    {
      var t := Attempt(f, Step(chosen, clamped));
      ghost var rest := Rest(preferred, dirLeft, clamped, d0);
      NextPass(f, steps, passes, Step(chosen, clamped), rest, tl);
      tl := Apply(tl, chosen, t);
      passes := passes + 1;
      if Succeeds(t) {
        figured := true;
      } else {
        var more;
        more, chosen, preferred, dirLeft, clamped := Advance(preferred, dirLeft, clamped, d0);
        if !more {
          figured := true;
          forced := true;
        }
      }
    }
    if forced {
      FirstSuccessNone(f, steps, 0);
    } else {
      FirstSuccessAt(f, steps, passes - 1);
      ReplaySuccess(f, steps[..passes]);
    }
  }

  /** Passes `0 .. n - 1` all fail. */
  predicate AllFail(f: Frame, steps: seq<Step>, n: nat)
    requires n <= |steps|
  {
    forall k :: 0 <= k < n ==> !Succeeds(TrySpec(f, steps[k]))
  }

  predicate SucceedsAt(f: Frame, steps: seq<Step>, i: nat)
    requires i < |steps|
  {
    Succeeds(TrySpec(f, steps[i]))
  }

  /** Taking the pass at index `n`: the replay grows by it, and a failure extends the failed prefix. */
  lemma NextPass(f: Frame, steps: seq<Step>, n: nat, head: Step, rest: seq<Step>, tl: TopLeft)
    requires n < |steps| && steps[n..] == [head] + rest && tl == Replay(f, steps[..n])
    ensures steps[n] == head && steps[n + 1..] == rest
    ensures Replay(f, steps[..n + 1]) == Apply(tl, head.dir, TrySpec(f, head))
    ensures AllFail(f, steps, n) && !SucceedsAt(f, steps, n) ==> AllFail(f, steps, n + 1)
  {
    assert steps[n] == steps[n..][0];
    assert steps[n + 1..] == steps[n..][1..];
    assert steps[..n + 1][..n] == steps[..n];
  }

  /**
   * The choice of the next direction after a failed pass: the alternative
   * direction once, then the next fallback, then the clamped retry of the
   * configured direction; `more` is false once all of these are spent.
   */
  method Advance(preferred: Option<Dir>, dirLeft: seq<Dir>, clamped: bool, d0: Dir)
    returns (more: bool, next: Dir, preferred': Option<Dir>, dirLeft': seq<Dir>, clamped': bool)
    requires clamped ==> preferred.None? && dirLeft == []
    ensures clamped' ==> preferred'.None? && dirLeft' == []
    ensures more ==> Rest(preferred, dirLeft, clamped, d0) == [Step(next, clamped')] + Rest(preferred', dirLeft', clamped', d0)
    ensures !more ==> Rest(preferred, dirLeft, clamped, d0) == [] && next == d0 && clamped'
  {
    RestStep(preferred, dirLeft, clamped, d0);
    more, next, preferred', dirLeft', clamped' := true, d0, None, dirLeft, clamped;
    if preferred.Some? {
      next := preferred.value;
      dirLeft' := Without(dirLeft, preferred.value);
    } else if |dirLeft| > 0 {
      next := dirLeft[0];
      dirLeft' := dirLeft[1..];
    } else if !clamped {
      clamped' := true;
    } else {
      more := false;
    }
  }

  /** How the remaining passes unfold after a failed pass, case by case. */
  lemma RestStep(preferred: Option<Dir>, dirLeft: seq<Dir>, clamped: bool, d0: Dir)
    ensures preferred.Some? ==>
      Rest(preferred, dirLeft, clamped, d0) == [Step(preferred.value, false)] + Rest(None, Without(dirLeft, preferred.value), clamped, d0)
    ensures preferred.None? && |dirLeft| > 0 ==>
      Rest(preferred, dirLeft, clamped, d0) == [Step(dirLeft[0], false)] + Rest(None, dirLeft[1..], clamped, d0)
    ensures preferred.None? && dirLeft == [] && !clamped ==>
      Rest(preferred, dirLeft, clamped, d0) == [Step(d0, true)] + Rest(None, [], true, d0)
    ensures preferred.None? && dirLeft == [] && clamped ==> Rest(preferred, dirLeft, clamped, d0) == []
  {
    var tail := if clamped then [] else [Step(d0, true)];
    if preferred.Some? {
      var w := Plain(Without(dirLeft, preferred.value));
      assert Rest(preferred, dirLeft, clamped, d0) == ([Step(preferred.value, false)] + w) + tail;
      assert Rest(None, Without(dirLeft, preferred.value), clamped, d0) == w + tail;
      Assoc([Step(preferred.value, false)], w, tail);
    } else if |dirLeft| > 0 {
      var w := Plain(dirLeft[1..]);
      assert Plain(dirLeft) == [Step(dirLeft[0], false)] + w;
      assert Rest(None, dirLeft[1..], clamped, d0) == w + tail;
      Assoc([Step(dirLeft[0], false)], w, tail);
    } else {
      assert Plain(dirLeft) == [];
    }
  }

  lemma Assoc<T>(a: seq<T>, b: seq<T>, c: seq<T>)
    ensures (a + b) + c == a + (b + c)
  {
  }

  /** A successful pass preceded only by failures is the first success. */
  lemma FirstSuccessAt(f: Frame, steps: seq<Step>, i: nat)
    requires i < |steps| && Succeeds(TrySpec(f, steps[i]))
    requires forall k :: 0 <= k < i ==> !Succeeds(TrySpec(f, steps[k]))
    ensures FirstSuccess(f, steps, 0) == Some(i)
  {
    FirstSuccessFrom(f, steps, 0, i);
  }

  lemma {:induction false} FirstSuccessFrom(f: Frame, steps: seq<Step>, from: nat, i: nat)
    requires from <= i < |steps| && Succeeds(TrySpec(f, steps[i]))
    requires forall k :: from <= k < i ==> !Succeeds(TrySpec(f, steps[k]))
    ensures FirstSuccess(f, steps, from) == Some(i)
    decreases i - from
  {
    if from < i {
      FirstSuccessFrom(f, steps, from + 1, i);
    }
  }

  // ---------------------------------------------------------------------
  // Free-floating point

  /**
   * The point branch of `reposition`: a coordinate whose menu would pass the
   * viewport's far edge is moved back by the viewport size; a positive
   * coordinate is written as left/top, any other as right/bottom of its negation.
   */
  function PointPosition(x: int, y: int, menuW: nat, menuH: nat, windowW: nat, windowH: nat, scrollX: int, scrollY: int): (p: Position)
    ensures p.width.None?
    ensures p.left.Px? != p.right.Px? && p.top.Px? != p.bottom.Px?
    ensures p.left.Px? ==> p.left.n > 0
    ensures p.right.Px? ==> p.right.n >= 0
    ensures p.top.Px? ==> p.top.n > 0
    ensures p.bottom.Px? ==> p.bottom.n >= 0
  {
    var nx := if x + menuW > scrollX + windowW then 0 - (windowW - x) else x;
    var ny := if y + menuH > scrollY + windowH then 0 - (windowH - y) else y;
    Position(if ny > 0 then Px(ny) else Auto,
             if nx > 0 then Auto else Px(-1 * nx),
             if ny > 0 then Auto else Px(-1 * ny),
             if nx > 0 then Px(nx) else Auto,
             None)
  }

  /** The emitted horizontal anchor gives back the moved coordinate, on either side. */
  lemma PointRoundTrip(x: int, y: int, menuW: nat, menuH: nat, windowW: nat, windowH: nat, scrollX: int, scrollY: int)
    ensures var p := PointPosition(x, y, menuW, menuH, windowW, windowH, scrollX, scrollY);
      var nx := if x + menuW > scrollX + windowW then x - windowW else x;
      var ny := if y + menuH > scrollY + windowH then y - windowH else y;
      && (if p.left.Px? then p.left.n else -p.right.n) == nx
      && (if p.top.Px? then p.top.n else -p.bottom.n) == ny
  {
  }

  // ---------------------------------------------------------------------
  // toStyle

  /** `typeof v === 'number' ? `${v}px` : v` */
  function Render(v: Value): string
  {
    match v
    case Px(n) => IntToDecimal(n) + "px"
    case Word(s) => s
  }

  /** Reads a rendered pixel value back. */
  function ParsePx(s: string): Option<int>
  {
    if |s| >= 2 && s[|s| - 2..] == "px" then ParseInt(s[..|s| - 2]) else None
  }

  lemma RenderParse(n: int)
    ensures ParsePx(Render(Px(n))) == Some(n)
  {
    var s := IntToDecimal(n) + "px";
    assert s[..|s| - 2] == IntToDecimal(n);
    assert s[|s| - 2..] == "px";
    ParseIntToDecimal(n);
  }

  /** `toStyle()`: the four sides rendered, and the width only when it is truthy. */
  function ToStyle(p: Position): (m: map<string, string>)
    ensures m.Keys == {"top", "right", "bottom", "left"} + (if Truthy(p.width) then {"width"} else {})
    ensures m["top"] == Render(p.top) && m["right"] == Render(p.right)
    ensures m["bottom"] == Render(p.bottom) && m["left"] == Render(p.left)
    ensures Truthy(p.width) ==> m["width"] == p.width.value
  {
    var sides := map["top" := Render(p.top), "right" := Render(p.right), "bottom" := Render(p.bottom), "left" := Render(p.left)];
    if Truthy(p.width) then sides["width" := p.width.value] else sides
  }

  /** Pixel fields survive rendering: the number is read back from the style. */
  lemma ToStyleRoundTrip(p: Position)
    ensures p.top.Px? ==> ParsePx(ToStyle(p)["top"]) == Some(p.top.n)
    ensures p.left.Px? ==> ParsePx(ToStyle(p)["left"]) == Some(p.left.n)
    ensures p.right.Px? ==> ParsePx(ToStyle(p)["right"]) == Some(p.right.n)
    ensures p.bottom.Px? ==> ParsePx(ToStyle(p)["bottom"]) == Some(p.bottom.n)
  {
    if p.top.Px? { RenderParse(p.top.n); }
    if p.left.Px? { RenderParse(p.left.n); }
    if p.right.Px? { RenderParse(p.right.n); }
    if p.bottom.Px? { RenderParse(p.bottom.n); }
  }
}
