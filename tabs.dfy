// tabs/tabs: the `fzn-tabs` bar activates the `fzn-tab` whose key equals its
// controllable value, and a tab click follows its router link unless the
// tab is disabled. The slot's assigned nodes are a field; rendering is left
// to the DOM.
module TabBar {
  import opened Common
  import Mixins
  import RouterUtils

  /** What `activeTab` and `getTabByKey` look at in one child: its `active` flag and its `key` (`None` when undefined). */
  datatype TabState = TabState(active: bool, key: Option<string>)

  /** One assigned node of the slot as the bar sees it: a tab, or `None` for any other node. */
  type Row = Option<TabState>

  predicate IsActiveKeyed(r: Row)
  {
    r.Some? && r.value.active && Truthy(r.value.key)
  }

  predicate HasKey(r: Row, key: Option<string>)
  {
    r.Some? && r.value.key == key
  }

  /** `activeTab`: the first tab that is active and has a non-empty key. */
  function FindActive(rows: seq<Row>): (r: Option<nat>)
    ensures r.Some? ==> r.value < |rows| && IsActiveKeyed(rows[r.value])
    ensures r.Some? ==> forall j :: 0 <= j < r.value ==> !IsActiveKeyed(rows[j])
    ensures r.None? ==> forall j :: 0 <= j < |rows| ==> !IsActiveKeyed(rows[j])
  {
    if rows == [] then None
    else if IsActiveKeyed(rows[0]) then Some(0)
    else
      var rest := FindActive(rows[1..]);
      if rest.Some? then Some(rest.value + 1) else None
  }

  /** `getTabByKey(key)`: the first tab whose key is `key`, compared with `===`. */
  function FindKey(rows: seq<Row>, key: Option<string>): (r: Option<nat>)
    ensures r.Some? ==> r.value < |rows| && HasKey(rows[r.value], key)
    ensures r.Some? ==> forall j :: 0 <= j < r.value ==> !HasKey(rows[j], key)
    ensures r.None? ==> forall j :: 0 <= j < |rows| ==> !HasKey(rows[j], key)
  {
    if rows == [] then None
    else if HasKey(rows[0], key) then Some(0)
    else
      var rest := FindKey(rows[1..], key);
      if rest.Some? then Some(rest.value + 1) else None
  }

  function SetActive(rows: seq<Row>, i: nat, active: bool): (r: seq<Row>)
    requires i < |rows| && rows[i].Some?
    ensures |r| == |rows| && r[i] == Some(rows[i].value.(active := active))
    ensures forall j :: 0 <= j < |rows| && j != i ==> r[j] == rows[j]
  {
    rows[i := Some(rows[i].value.(active := active))]
  }

  /**
   * `handleSlotChange()`: the active tab is switched off, then the tab keyed
   * by `value` is switched on, provided `value` is a non-empty string.
   */
  function SlotChange(rows: seq<Row>, value: Option<string>): (r: seq<Row>)
    ensures |r| == |rows|
    ensures forall j :: 0 <= j < |rows| ==> (r[j].Some? <==> rows[j].Some?)
    ensures forall j :: 0 <= j < |rows| && rows[j].Some? ==> r[j].value.key == rows[j].value.key
  {
    var a := FindActive(rows);
    var off := if a.Some? then SetActive(rows, a.value, false) else rows;
    var k := FindKey(off, value);
    if k.Some? && Truthy(value) then SetActive(off, k.value, true) else off
  }

  /** Exactly which tabs `handleSlotChange` changes: the old active tab goes off and the keyed one comes on; no other tab moves. */
  lemma SlotChangeSpec(rows: seq<Row>, value: Option<string>, j: nat)
    requires j < |rows| && rows[j].Some?
    ensures SlotChange(rows, value)[j].value.active ==
      if FindKey(rows, value) == Some(j) && Truthy(value) then true
      else if FindActive(rows) == Some(j) then false
      else rows[j].value.active
  {
    var a := FindActive(rows);
    var off := if a.Some? then SetActive(rows, a.value, false) else rows;
    KeysUnchanged(rows, off);
  }

  /** Switching `active` flags does not change what `getTabByKey` finds. */
  lemma {:induction false} KeysUnchanged(rows: seq<Row>, other: seq<Row>)
    requires |other| == |rows|
    requires forall j :: 0 <= j < |rows| ==> (other[j].Some? <==> rows[j].Some?)
    requires forall j :: 0 <= j < |rows| && rows[j].Some? ==> other[j].value.key == rows[j].value.key
    ensures forall key :: FindKey(other, key) == FindKey(rows, key)
  {
    forall key
      ensures FindKey(other, key) == FindKey(rows, key)
    {
      FindKeyUnchanged(rows, other, key);
    }
  }

  lemma {:induction false} FindKeyUnchanged(rows: seq<Row>, other: seq<Row>, key: Option<string>)
    requires |other| == |rows|
    requires forall j :: 0 <= j < |rows| ==> (other[j].Some? <==> rows[j].Some?)
    requires forall j :: 0 <= j < |rows| && rows[j].Some? ==> other[j].value.key == rows[j].value.key
    ensures FindKey(other, key) == FindKey(rows, key)
  {
    if rows != [] {
      FindKeyUnchanged(rows[1..], other[1..], key);
    }
  }

  /** At most one tab with a key is active: what the bar maintains. */
  predicate AtMostOneActive(rows: seq<Row>)
  {
    forall i, j :: 0 <= i < |rows| && 0 <= j < |rows| && IsActiveKeyed(rows[i]) && IsActiveKeyed(rows[j]) ==> i == j
  }

  /**
   * From a bar with at most one active keyed tab, `handleSlotChange` leaves
   * exactly the tab keyed by a non-empty `value` active, or none at all.
   */
  lemma SlotChangeSelects(rows: seq<Row>, value: Option<string>)
    requires AtMostOneActive(rows)
    ensures AtMostOneActive(SlotChange(rows, value))
    ensures FindActive(SlotChange(rows, value)) == if Truthy(value) then FindKey(rows, value) else None
  {
    var r := SlotChange(rows, value);
    var k := FindKey(rows, value);
    forall j | 0 <= j < |rows|
      ensures IsActiveKeyed(r[j]) <==> Truthy(value) && k == Some(j)
    {
      if rows[j].Some? {
        SlotChangeSpec(rows, value, j);
      }
    }
    if Truthy(value) && k.Some? {
      assert IsActiveKeyed(r[k.value]);
    }
  }

  /** From such a bar, a second `handleSlotChange` with the same value changes nothing. */
  lemma SlotChangeIdempotent(rows: seq<Row>, value: Option<string>)
    requires AtMostOneActive(rows)
    ensures SlotChange(SlotChange(rows, value), value) == SlotChange(rows, value)
  {
    var r := SlotChange(rows, value);
    SlotChangeSelects(rows, value);
    KeysUnchanged(rows, r);
    var r2 := SlotChange(r, value);
    forall j | 0 <= j < |rows|
      ensures r2[j] == r[j]
    {
      if rows[j].Some? {
        SlotChangeSpec(rows, value, j);
        SlotChangeSpec(r, value, j);
      }
    }
  }

  /** `handleSlotChange` run `n` times. */
  function SlotChangeTimes(rows: seq<Row>, value: Option<string>, n: nat): seq<Row>
    decreases n
  {
    if n == 0 then rows else SlotChangeTimes(SlotChange(rows, value), value, n - 1)
  }

  lemma {:induction false} SlotChangeTimesSucc(rows: seq<Row>, value: Option<string>, n: nat)
    ensures SlotChangeTimes(rows, value, n + 1) == SlotChange(SlotChangeTimes(rows, value, n), value)
    decreases n
  {
    if n > 0 {
      SlotChangeTimesSucc(SlotChange(rows, value), value, n - 1);
    }
  }

  /** Running it once or more times from such a bar is the same as running it once. */
  lemma {:induction false} SlotChangeTimesOnce(rows: seq<Row>, value: Option<string>, n: nat)
    requires AtMostOneActive(rows) && n >= 1
    ensures SlotChangeTimes(rows, value, n) == SlotChange(rows, value)
    decreases n
  {
    if n > 1 {
      SlotChangeSelects(rows, value);
      SlotChangeTimesOnce(SlotChange(rows, value), value, n - 1);
      SlotChangeIdempotent(rows, value);
    }
  }

  /** The properties whose change makes `updated` rerun `handleSlotChange`. */
  predicate Watched(name: string)
  {
    name == "value" || name == "internalValue"
  }

  /** How many of the changed properties are watched. */
  function WatchedCount(changed: seq<string>): (n: nat)
    ensures n <= |changed|
  {
    if changed == [] then 0 else (if Watched(changed[0]) then 1 else 0) + WatchedCount(changed[1..])
  }

  /** `updated` reruns nothing exactly when no watched property changed. */
  lemma {:induction false} WatchedCountZero(changed: seq<string>)
    ensures WatchedCount(changed) == 0 <==> forall i :: 0 <= i < |changed| ==> !Watched(changed[i])
  {
    if changed != [] {
      WatchedCountZero(changed[1..]);
      assert forall i :: 1 <= i < |changed| ==> changed[i] == changed[1..][i - 1];
    }
  }

  /** A `fzn-tab` element. */
  class Tab {
    var active: bool
    var disabled: bool
    var key: Option<string>
    var routerHref: Option<string>

    constructor (key: Option<string>, disabled: bool, routerHref: Option<string>)
      ensures this.key == key && this.disabled == disabled && this.routerHref == routerHref && !active
    {
      this.key := key;
      this.disabled := disabled;
      this.routerHref := routerHref;
      active := false;
    }

    /**
     * `handleClick(evt)`: a disabled tab swallows the click; otherwise a
     * non-empty `routerHref` goes through `handleHrefClick` with that path,
     * and without one the browser follows the link.
     */
    function HandleClick(button: int, hasRouter: bool, hrefAttribute: Option<string>): (r: TabClick)
      reads this`disabled, this`routerHref
      ensures disabled <==> r.Swallowed?
      ensures r.Followed? ==> (r.routed.Some? <==> Truthy(routerHref))
      ensures r.Followed? && r.routed.Some? && button != 1 && hasRouter ==>
        r.routed.value.defaultPrevented && r.routed.value.navigation == Some(RouterUtils.NavigateCall(routerHref, true))
    {
      if disabled then Swallowed
      else if Truthy(routerHref) then Followed(Some(RouterUtils.HandleHrefClick(hasRouter, button, routerHref, hrefAttribute)))
      else Followed(None)
    }
  }

  /** The outcome of a tab click: swallowed (default prevented, propagation stopped), or left to the router link if any. */
  datatype TabClick = Swallowed | Followed(routed: Option<RouterUtils.ClickOutcome>)

  /** A node assigned to the bar's slot. */
  datatype SlotNode = TabNode(tab: Tab) | OtherNode

  function TabsOf(nodes: seq<SlotNode>): set<Tab>
  {
    set i | 0 <= i < |nodes| && nodes[i].TabNode? :: nodes[i].tab
  }

  /** A slot assigns each node once. */
  predicate DistinctTabs(nodes: seq<SlotNode>)
  {
    forall i, j :: 0 <= i < |nodes| && 0 <= j < |nodes| && i != j && nodes[i].TabNode? && nodes[j].TabNode? ==> nodes[i].tab != nodes[j].tab
  }

  function RowOf(n: SlotNode): Row
    reads if n.TabNode? then {n.tab} else {}
  {
    if n.TabNode? then Some(TabState(n.tab.active, n.tab.key)) else None
  }

  /** The `fzn-tabs` element: its controllable value and its slot's nodes. */
  class Tabs {
    const control: Mixins.Controllable<string>
    var nodes: seq<SlotNode>

    constructor (control: Mixins.Controllable<string>, nodes: seq<SlotNode>)
      ensures this.control == control && this.nodes == nodes
    {
      this.control := control;
      this.nodes := nodes;
    }

    /** The bar as `activeTab` and `getTabByKey` see it. */
    function Rows(): (r: seq<Row>)
      reads this`nodes, TabsOf(nodes)
      ensures |r| == |nodes|
      ensures forall i :: 0 <= i < |nodes| ==> r[i] == RowOf(nodes[i])
    {
      var ns := nodes;
      seq(|ns|, i reads TabsOf(ns) requires 0 <= i < |ns| => RowOf(ns[i]))
    }

    /** `get activeTab()` */
    function ActiveTab(): (t: Option<Tab>)
      reads this`nodes, TabsOf(nodes)
      ensures t.Some? ==> t.value in TabsOf(nodes) && t.value.active && Truthy(t.value.key)
    {
      var i := FindActive(Rows());
      if i.Some? then Some(nodes[i.value].tab) else None
    }

    /** `getTabByKey(key)` */
    function GetTabByKey(key: Option<string>): (t: Option<Tab>)
      reads this`nodes, TabsOf(nodes)
      ensures t.Some? ==> t.value in TabsOf(nodes) && t.value.key == key
    {
      var i := FindKey(Rows(), key);
      if i.Some? then Some(nodes[i.value].tab) else None
    }

    /** `handleSlotChange()`, in terms of the rows of the bar. */
    method HandleSlotChange()
      requires DistinctTabs(nodes)
      modifies TabsOf(nodes)
      ensures Rows() == SlotChange(old(Rows()), control.Value())
    {
      var value := control.Value();
      var a := FindActive(Rows());
      if a.Some? {
        SetTabActive(a.value, false);
      }
      var k := FindKey(Rows(), value);
      if k.Some? && Truthy(value) {
        SetTabActive(k.value, true);
      }
    }

    /** `tab.active = b` for the tab in row `i`: only that row changes. */
    method SetTabActive(i: nat, active: bool)
      requires DistinctTabs(nodes) && i < |nodes| && nodes[i].TabNode?
      modifies nodes[i].tab`active
      ensures Rows() == SetActive(old(Rows()), i, active)
    {
      nodes[i].tab.active := active;
    }

    /** `updated(changedProperties)`: one `handleSlotChange` per changed watched property. */
    method Updated(changed: seq<string>)
      requires DistinctTabs(nodes)
      modifies TabsOf(nodes)
      ensures Rows() == SlotChangeTimes(old(Rows()), control.Value(), WatchedCount(changed))
    {
      ghost var start := Rows();
      ghost var value := control.Value();
      ghost var done: nat := 0;
      for i := 0 to |changed|
        invariant nodes == old(nodes) && control.Value() == value
        invariant Rows() == SlotChangeTimes(start, value, done)
        invariant done + WatchedCount(changed[i..]) == WatchedCount(changed)
      {
        assert changed[i..][0] == changed[i] && changed[i..][1..] == changed[i + 1..];
        if Watched(changed[i]) {
          ghost var before := Rows();
          HandleSlotChange();
          assert Rows() == SlotChange(before, value);
          SlotChangeTimesSucc(start, value, done);
          done := done + 1;
        }
      }
      assert changed[|changed|..] == [];
    }
  }
}
