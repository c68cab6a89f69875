// utils/events.ts (and its compiled copy utils/events.js, whose mixin class
// repeats the same members): `EnhancedEventTarget`, an event target that
// counts the listeners added through it, remembers the listeners it attached
// to other targets, and applies field changes to its model with change events.
// Listener functions and targets are compared by identity, so they become
// numbers; the browser's own listener lists become a log of the calls made
// into them, and dispatched events an appended event log.
module Listeners {
  import opened Common

  /** The identity of a listener function. */
  type Listener = nat

  /** The identity of another event target. */
  type Target = nat

  /** An entry of `listeningMap`: the target, event type and listener passed to `listenTo`. */
  datatype Registration = Registration(target: Target, eventType: string, listener: Listener)

  /** A call into the browser: on this target (`super.…`) or on another target. */
  datatype DomCall =
    | Add(eventType: string, listener: Listener)
    | Remove(eventType: string, listener: Listener)
    | TargetAdd(target: Target, eventType: string, listener: Listener)
    | TargetRemove(target: Target, eventType: string, listener: Listener)

  /** A field of a model object; `None` is `undefined`. */
  type Entry<V> = (string, Option<V>)

  /** The detail of a dispatched `CustomEvent`; `NoDetail` for an event created without one. */
  datatype Detail<V> = NoDetail | ValueDetail(value: Option<V>) | ValuesDetail(values: seq<Entry<V>>)

  datatype Dispatched<V> = Dispatched(name: string, detail: Detail<V>)

  const ChangeEventName: string := "change"
  const FieldChangeSuffix: string := "-change"

  // ---------------------------------------------------------------------
  // Counted listeners: `listenersMap`

  /** Every list is non-empty and holds no listener twice. */
  predicate WellFormed(m: map<string, seq<Listener>>)
  {
    forall t :: t in m ==> |m[t]| > 0 && Distinct(m[t])
  }

  /** `isListenerCounted(type, listener)` */
  predicate Counted(m: map<string, seq<Listener>>, t: string, l: Listener)
  {
    t in m && l in m[t]
  }

  /** `getCountedEventListener(type)`: the list's length, 0 without a list. */
  function Count(m: map<string, seq<Listener>>, t: string): (n: nat)
    ensures n == 0 <==> t !in m || m[t] == []
  {
    if t in m then |m[t]| else 0
  }

  /** `list.filter(item => item !== x)` */
  function FilterOut<T(==)>(s: seq<T>, x: T): (r: seq<T>)
    ensures forall i :: 0 <= i < |r| ==> r[i] in s && r[i] != x
    ensures forall i :: 0 <= i < |s| && s[i] != x ==> s[i] in r
    ensures |r| <= |s|
  {
    if s == [] then []
    else if s[0] == x then FilterOut(s[1..], x)
    else [s[0]] + FilterOut(s[1..], x)
  }

  /** Filtering keeps a list without repeats, and drops exactly one element when `x` occurs once. */
  lemma {:induction false} FilterOutDistinct<T>(s: seq<T>, x: T)
    requires Distinct(s)
    ensures Distinct(FilterOut(s, x))
    ensures x in s ==> |FilterOut(s, x)| == |s| - 1
    ensures x !in s ==> FilterOut(s, x) == s
  {
    if s != [] {
      assert Distinct(s[1..]);
      FilterOutDistinct(s[1..], x);
      if s[0] == x {
        assert x !in s[1..];
      } else {
        assert s[0] !in FilterOut(s[1..], x);
        assert [s[0]] + s[1..] == s;
      }
    }
  }

  /** Filtering an element out of a list it was just appended to restores the list. */
  lemma {:induction false} FilterOutAppended<T>(s: seq<T>, x: T)
    requires x !in s
    ensures FilterOut(s + [x], x) == s
  {
    if s == [] {
      assert FilterOut([x], x) == FilterOut([x][1..], x);
    } else {
      assert (s + [x])[1..] == s[1..] + [x];
      FilterOutAppended(s[1..], x);
      assert [s[0]] + s[1..] == s;
    }
  }

  /** The counted map together with the browser calls made so far. */
  datatype Book = Book(counted: map<string, seq<Listener>>, calls: seq<DomCall>)

  /** One pass of `addCountedEventListener`'s loop. */
  function AddStep(b: Book, t: string, l: Listener): Book
  {
    if Counted(b.counted, t, l) then b
    else
      var prev := if t in b.counted then b.counted[t] else [];
      Book(b.counted[t := prev + [l]], b.calls + [Add(t, l)])
  }

  /** One pass of `removeCountedEventListener`'s loop. */
  function RemoveStep(b: Book, t: string, l: Listener): Book
  {
    if !Counted(b.counted, t, l) then b
    else if |b.counted[t]| == 1 then Book(b.counted - {t}, b.calls + [Remove(t, l)])
    else Book(b.counted[t := FilterOut(b.counted[t], l)], b.calls + [Remove(t, l)])
  }

  function AddAll(b: Book, types: seq<string>, l: Listener): Book
    decreases |types|
  {
    if types == [] then b else AddAll(AddStep(b, types[0], l), types[1..], l)
  }

  function RemoveAll(b: Book, types: seq<string>, l: Listener): Book
    decreases |types|
  {
    if types == [] then b else RemoveAll(RemoveStep(b, types[0], l), types[1..], l)
  }

  /**
   * Adding keeps the map well formed, leaves the listener counted under the
   * type, leaves every other type alone, and grows the count by one exactly
   * when the listener was not counted before; the browser sees one add then.
   */
  lemma AddStepSpec(b: Book, t: string, l: Listener)
    requires WellFormed(b.counted)
    ensures var r := AddStep(b, t, l);
      && WellFormed(r.counted)
      && Counted(r.counted, t, l)
      && (forall u :: u != t ==> (u in r.counted <==> u in b.counted))
      && (forall u :: u != t && u in b.counted ==> r.counted[u] == b.counted[u])
      && Count(r.counted, t) == Count(b.counted, t) + (if Counted(b.counted, t, l) then 0 else 1)
      && r.calls == b.calls + (if Counted(b.counted, t, l) then [] else [Add(t, l)])
  {
    if !Counted(b.counted, t, l) {
      var prev := if t in b.counted then b.counted[t] else [];
      assert forall i :: 0 <= i < |prev| ==> (prev + [l])[i] == prev[i];
      assert (prev + [l])[|prev|] == l;
    }
  }

  /**
   * Removing keeps the map well formed (a list that would become empty is
   * deleted), leaves the listener uncounted under the type, leaves every
   * other type alone, and shrinks the count by one exactly when the listener
   * was counted; the browser sees one remove then.
   */
  lemma RemoveStepSpec(b: Book, t: string, l: Listener)
    requires WellFormed(b.counted)
    ensures var r := RemoveStep(b, t, l);
      && WellFormed(r.counted)
      && !Counted(r.counted, t, l)
      && (forall u :: u != t ==> (u in r.counted <==> u in b.counted))
      && (forall u :: u != t && u in b.counted ==> r.counted[u] == b.counted[u])
      && Count(r.counted, t) == Count(b.counted, t) - (if Counted(b.counted, t, l) then 1 else 0)
      && r.calls == b.calls + (if Counted(b.counted, t, l) then [Remove(t, l)] else [])
  {
    if Counted(b.counted, t, l) {
      FilterOutDistinct(b.counted[t], l);
      if |b.counted[t]| == 1 {
        assert b.counted[t] == [l];
      }
    }
  }

  /** Removing a listener right after adding it for the first time restores the map. */
  lemma AddThenRemove(b: Book, t: string, l: Listener)
    requires WellFormed(b.counted) && !Counted(b.counted, t, l)
    ensures RemoveStep(AddStep(b, t, l), t, l).counted == b.counted
  {
    var prev := if t in b.counted then b.counted[t] else [];
    FilterOutAppended(prev, l);
    if t !in b.counted {
      assert AddStep(b, t, l).counted[t] == [l];
    }
  }

  /** After adding for several types, each is counted and the rest are untouched. */
  lemma {:induction false} AddAllSpec(b: Book, types: seq<string>, l: Listener)
    requires WellFormed(b.counted)
    ensures var r := AddAll(b, types, l);
      && WellFormed(r.counted)
      && (forall t :: t in types ==> Counted(r.counted, t, l))
      && (forall u :: u !in types ==> (u in r.counted <==> u in b.counted))
      && (forall u :: u !in types && u in b.counted ==> r.counted[u] == b.counted[u])
    decreases |types|
  {
    if types != [] {
      var b' := AddStep(b, types[0], l);
      AddStepSpec(b, types[0], l);
      AddAllSpec(b', types[1..], l);
      AddKeepsCounted(b', types[1..], l, types[0]);
      forall t | t in types ensures Counted(AddAll(b, types, l).counted, t, l) {
        if t != types[0] {
          assert t in types[1..];
        }
      }
    }
  }

  /** Further adds never uncount a listener. */
  lemma {:induction false} AddKeepsCounted(b: Book, types: seq<string>, l: Listener, t: string)
    requires WellFormed(b.counted) && Counted(b.counted, t, l)
    ensures Counted(AddAll(b, types, l).counted, t, l)
    decreases |types|
  {
    if types != [] {
      AddStepSpec(b, types[0], l);
      AddKeepsCounted(AddStep(b, types[0], l), types[1..], l, t);
    }
  }

  /** After removing for several types, none counts the listener and the rest are untouched. */
  lemma {:induction false} RemoveAllSpec(b: Book, types: seq<string>, l: Listener)
    requires WellFormed(b.counted)
    ensures var r := RemoveAll(b, types, l);
      && WellFormed(r.counted)
      && (forall t :: t in types ==> !Counted(r.counted, t, l))
      && (forall u :: u !in types ==> (u in r.counted <==> u in b.counted))
      && (forall u :: u !in types && u in b.counted ==> r.counted[u] == b.counted[u])
    decreases |types|
  {
    if types != [] {
      var b' := RemoveStep(b, types[0], l);
      RemoveStepSpec(b, types[0], l);
      RemoveAllSpec(b', types[1..], l);
      RemoveKeepsUncounted(b', types[1..], l, types[0]);
      forall t | t in types ensures !Counted(RemoveAll(b, types, l).counted, t, l) {
        if t != types[0] {
          assert t in types[1..];
        }
      }
    }
  }

  /** Further removes never count a listener again. */
  lemma {:induction false} RemoveKeepsUncounted(b: Book, types: seq<string>, l: Listener, t: string)
    requires WellFormed(b.counted) && !Counted(b.counted, t, l)
    ensures !Counted(RemoveAll(b, types, l).counted, t, l)
    decreases |types|
  {
    if types != [] {
      RemoveStepSpec(b, types[0], l);
      RemoveKeepsUncounted(RemoveStep(b, types[0], l), types[1..], l, t);
    }
  }

  // ---------------------------------------------------------------------
  // Field changes

  /** `this[key]`: the field's value, `undefined` when absent. */
  function Get<V>(state: map<string, Option<V>>, key: string): Option<V>
  {
    if key in state then state[key] else None
  }

  /** The keys of an object's entries, in order. */
  function Keys<V>(entries: seq<Entry<V>>): (r: seq<string>)
    ensures |r| == |entries|
    ensures forall i :: 0 <= i < |entries| ==> r[i] == entries[i].0
  {
    if entries == [] then [] else [entries[0].0] + Keys(entries[1..])
  }

  /** The reduce in `applyChange`: the entries whose value differs (`!==`) from the current field. */
  function Changes<V(==)>(fields: seq<Entry<V>>, state: map<string, Option<V>>): (r: seq<Entry<V>>)
    ensures forall i :: 0 <= i < |r| ==> r[i] in fields && Get(state, r[i].0) != r[i].1
    ensures forall i :: 0 <= i < |fields| && Get(state, fields[i].0) != fields[i].1 ==> fields[i] in r
  {
    if fields == [] then []
    else
      var rest := Changes(fields[1..], state);
      if Get(state, fields[0].0) != fields[0].1 then [fields[0]] + rest else rest
  }

  /** `Object.assign(model, changes)` */
  function Assign<V>(state: map<string, Option<V>>, changes: seq<Entry<V>>): (r: map<string, Option<V>>)
    ensures r.Keys == state.Keys + set e | e in changes :: e.0
    decreases |changes|
  {
    if changes == [] then state
    else
      var r := Assign(state[changes[0].0 := changes[0].1], changes[1..]);
      assert changes == [changes[0]] + changes[1..];
      r
  }

  /** `dispatchChange(values)`: one `<key>-change` per entry, in order, then one `change` with all values. */
  function ChangeEvents<V>(values: seq<Entry<V>>): (r: seq<Dispatched<V>>)
    ensures |r| == |values| + 1
    ensures r[|values|] == Dispatched(ChangeEventName, ValuesDetail(values))
    ensures forall i :: 0 <= i < |values| ==>
      r[i] == Dispatched(values[i].0 + FieldChangeSuffix, ValueDetail(values[i].1))
  {
    seq(|values|, i requires 0 <= i < |values| => Dispatched(values[i].0 + FieldChangeSuffix, ValueDetail(values[i].1)))
      + [Dispatched(ChangeEventName, ValuesDetail(values))]
  }

  /** Assigning entries with distinct keys sets each of them and leaves the other fields alone. */
  lemma {:induction false} AssignSpec<V>(state: map<string, Option<V>>, changes: seq<Entry<V>>)
    requires Distinct(Keys(changes))
    ensures forall e :: e in changes ==> Get(Assign(state, changes), e.0) == e.1
    ensures forall k :: k !in Keys(changes) ==> Get(Assign(state, changes), k) == Get(state, k)
    decreases |changes|
  {
    if changes != [] {
      var s' := state[changes[0].0 := changes[0].1];
      assert Keys(changes[1..]) == Keys(changes)[1..];
      AssignSpec(s', changes[1..]);
      assert changes[0].0 !in Keys(changes[1..]);
      forall e | e in changes ensures Get(Assign(state, changes), e.0) == e.1 {
        if e != changes[0] {
          assert e in changes[1..];
        }
      }
    }
  }

  /** Different fields of an object have different keys, and so do the changes drawn from them. */
  lemma {:induction false} ChangesKeys<V>(fields: seq<Entry<V>>, state: map<string, Option<V>>)
    requires Distinct(Keys(fields))
    ensures Distinct(Keys(Changes(fields, state)))
    ensures forall k :: k in Keys(Changes(fields, state)) ==> k in Keys(fields)
    decreases |fields|
  {
    if fields != [] {
      assert Keys(fields[1..]) == Keys(fields)[1..];
      ChangesKeys(fields[1..], state);
      var rest := Changes(fields[1..], state);
      if Get(state, fields[0].0) != fields[0].1 {
        assert Keys([fields[0]] + rest) == [fields[0].0] + Keys(rest);
        assert fields[0].0 !in Keys(fields[1..]);
      }
    }
  }

  /**
   * After `applyChange` every given field holds its given value, whether it
   * changed or not, and every other field keeps its value.
   */
  lemma ApplyChangeSets<V>(fields: seq<Entry<V>>, state: map<string, Option<V>>)
    requires Distinct(Keys(fields))
    ensures var after := Assign(state, Changes(fields, state));
      && (forall e :: e in fields ==> Get(after, e.0) == e.1)
      && (forall k :: k !in Keys(fields) ==> Get(after, k) == Get(state, k))
  {
    var ch := Changes(fields, state);
    ChangesKeys(fields, state);
    AssignSpec(state, ch);
    var after := Assign(state, ch);
    forall e | e in fields ensures Get(after, e.0) == e.1 {
    }
  }

  /** Applying the same fields a second time changes nothing and announces nothing but an empty `change`. */
  lemma ApplyChangeIdempotent<V>(fields: seq<Entry<V>>, state: map<string, Option<V>>)
    requires Distinct(Keys(fields))
    ensures Changes(fields, Assign(state, Changes(fields, state))) == []
  {
    ApplyChangeSets(fields, state);
    ChangesNone(fields, Assign(state, Changes(fields, state)));
  }

  /** Fields that all hold their values already produce no changes. */
  lemma {:induction false} ChangesNone<V>(fields: seq<Entry<V>>, state: map<string, Option<V>>)
    requires forall e :: e in fields ==> Get(state, e.0) == e.1
    ensures Changes(fields, state) == []
    decreases |fields|
  {
    if fields != [] {
      assert fields[0] in fields;
      assert forall e :: e in fields[1..] ==> e in fields;
      ChangesNone(fields[1..], state);
    }
  }

  // ---------------------------------------------------------------------
  // The event target

  class EnhancedEventTarget<V(==)> {
    var listenersMap: map<string, seq<Listener>>
    var listeningMap: seq<Registration>
    /** The fields read through `this[key]` and written through `model`, which is `this`. */
    var state: map<string, Option<V>>
    var dom: seq<DomCall>
    var dispatched: seq<Dispatched<V>>

    ghost predicate Valid()
      reads this`listenersMap, this`listeningMap
    {
      WellFormed(listenersMap) && Distinct(listeningMap)
    }

    constructor ()
      ensures Valid()
      ensures listenersMap == map[] && listeningMap == [] && state == map[]
      ensures dom == [] && dispatched == []
    {
      listenersMap := map[];
      listeningMap := [];
      state := map[];
      dom := [];
      dispatched := [];
    }

    function IsListenerCounted(t: string, l: Listener): (r: bool)
      reads this`listenersMap
      ensures r <==> t in listenersMap && l in listenersMap[t]
    {
      t in listenersMap && l in listenersMap[t]
    }

    function GetCountedEventListener(t: string): (n: nat)
      reads this`listenersMap
      ensures n == Count(listenersMap, t)
      ensures Valid() ==> (n == 0 <==> t !in listenersMap)
    {
      if t in listenersMap then |listenersMap[t]| else 0
    }

    /** `addEventListener(types, listener)`: one browser add per space-separated type. */
    method AddEventListener(types: string, l: Listener)
      modifies this`dom
      ensures dom == old(dom) + seq(|Split(types, ' ')|, i requires 0 <= i < |Split(types, ' ')| => Add(Split(types, ' ')[i], l))
    {
      var pieces := Split(types, ' ');
      ghost var start := dom;
      for i := 0 to |pieces|
        invariant dom == start + seq(i, k requires 0 <= k < i => Add(pieces[k], l))
      {
        dom := dom + [Add(pieces[i], l)];
      }
    }

    /** `removeEventListener(types, listener)`: one browser remove per space-separated type. */
    method RemoveEventListener(types: string, l: Listener)
      modifies this`dom
      ensures dom == old(dom) + seq(|Split(types, ' ')|, i requires 0 <= i < |Split(types, ' ')| => Remove(Split(types, ' ')[i], l))
    {
      var pieces := Split(types, ' ');
      ghost var start := dom;
      for i := 0 to |pieces|
        invariant dom == start + seq(i, k requires 0 <= k < i => Remove(pieces[k], l))
      {
        dom := dom + [Remove(pieces[i], l)];
      }
    }

    /** `addCountedEventListener(types, listener)` */
    method AddCountedEventListener(types: string, l: Listener)
      requires Valid()
      modifies this`listenersMap, this`dom
      ensures Valid()
      ensures Book(listenersMap, dom) == AddAll(Book(old(listenersMap), old(dom)), Split(types, ' '), l)
    {
      var pieces := Split(types, ' ');
      ghost var goal := AddAll(Book(listenersMap, dom), pieces, l);
      for i := 0 to |pieces|
        invariant WellFormed(listenersMap)
        invariant AddAll(Book(listenersMap, dom), pieces[i..], l) == goal
      {
        var t := pieces[i];
        assert pieces[i..][0] == t && pieces[i..][1..] == pieces[i + 1..];
        ghost var before := Book(listenersMap, dom);
        AddStepSpec(before, t, l);
        if !IsListenerCounted(t, l) {
          var list := if t in listenersMap then listenersMap[t] else [];
          listenersMap := listenersMap[t := list + [l]];
          assert ' ' !in t by { assert NoSeparator(pieces, ' '); }
          SplitWithoutSeparator(t, ' ');
          AddEventListener(t, l);
          assert dom == before.calls + [Add(t, l)];
        }
        assert Book(listenersMap, dom) == AddStep(before, t, l);
      }
      assert pieces[|pieces|..] == [];
    }

    /** `removeCountedEventListener(types, listener)` */
    method RemoveCountedEventListener(types: string, l: Listener)
      requires Valid()
      modifies this`listenersMap, this`dom
      ensures Valid()
      ensures Book(listenersMap, dom) == RemoveAll(Book(old(listenersMap), old(dom)), Split(types, ' '), l)
    {
      var pieces := Split(types, ' ');
      ghost var goal := RemoveAll(Book(listenersMap, dom), pieces, l);
      for i := 0 to |pieces|
        invariant WellFormed(listenersMap)
        invariant RemoveAll(Book(listenersMap, dom), pieces[i..], l) == goal
      {
        var t := pieces[i];
        assert pieces[i..][0] == t && pieces[i..][1..] == pieces[i + 1..];
        ghost var before := Book(listenersMap, dom);
        RemoveStepSpec(before, t, l);
        if IsListenerCounted(t, l) {
          if |listenersMap[t]| == 1 {
            listenersMap := listenersMap - {t};
          } else {
            listenersMap := listenersMap[t := FilterOut(listenersMap[t], l)];
          }
          assert ' ' !in t by { assert NoSeparator(pieces, ' '); }
          SplitWithoutSeparator(t, ' ');
          RemoveEventListener(t, l);
          assert dom == before.calls + [Remove(t, l)];
        }
        assert Book(listenersMap, dom) == RemoveStep(before, t, l);
      }
      assert pieces[|pieces|..] == [];
    }

    /** `dispatchChange(values)` */
    method DispatchChange(values: seq<Entry<V>>)
      modifies this`dispatched
      ensures dispatched == old(dispatched) + ChangeEvents(values)
    {
      ghost var start := dispatched;
      for i := 0 to |values|
        invariant dispatched == start + ChangeEvents(values)[..i]
      {
        assert ChangeEvents(values)[..i + 1] == ChangeEvents(values)[..i] + [ChangeEvents(values)[i]];
        dispatched := dispatched + [Dispatched(values[i].0 + FieldChangeSuffix, ValueDetail(values[i].1))];
      }
      assert ChangeEvents(values) == ChangeEvents(values)[..|values|] + [ChangeEvents(values)[|values|]];
      dispatched := dispatched + [Dispatched(ChangeEventName, ValuesDetail(values))];
    }

    /** `applyChange(fields, { silent })` */
    method ApplyChange(fields: seq<Entry<V>>, silent: bool)
      modifies this`state, this`dispatched
      ensures state == Assign(old(state), Changes(fields, old(state)))
      ensures dispatched == old(dispatched) + (if silent then [] else ChangeEvents(Changes(fields, old(state))))
    {
      var changes := Changes(fields, state);
      state := Assign(state, changes);
      if !silent {
        DispatchChange(changes);
      }
    }

    /** `isListeningTo(target, type, listener)` */
    function IsListeningTo(target: Target, t: string, l: Listener): (r: bool)
      reads this`listeningMap
      ensures r <==> exists i :: 0 <= i < |listeningMap| && listeningMap[i] == Registration(target, t, l)
    {
      Registration(target, t, l) in listeningMap
    }

    /** `listenTo(target, type, listener)`: records and attaches a triple that is not yet recorded. */
    method ListenTo(target: Target, t: string, l: Listener)
      requires Valid()
      modifies this`listeningMap, this`dom
      ensures Valid()
      ensures Registration(target, t, l) in listeningMap
      ensures old(IsListeningTo(target, t, l)) ==> listeningMap == old(listeningMap) && dom == old(dom)
      ensures !old(IsListeningTo(target, t, l)) ==>
        listeningMap == old(listeningMap) + [Registration(target, t, l)] && dom == old(dom) + [TargetAdd(target, t, l)]
    {
      if !IsListeningTo(target, t, l) {
        var r := Registration(target, t, l);
        assert forall i :: 0 <= i < |listeningMap| ==> (listeningMap + [r])[i] == listeningMap[i];
        listeningMap := listeningMap + [r];
        dom := dom + [TargetAdd(target, t, l)];
      }
    }

    /** `stopListeningTo(target, type, listener)`: forgets and detaches a recorded triple. */
    method StopListeningTo(target: Target, t: string, l: Listener)
      requires Valid()
      modifies this`listeningMap, this`dom
      ensures Valid()
      ensures Registration(target, t, l) !in listeningMap
      ensures listeningMap == FilterOut(old(listeningMap), Registration(target, t, l))
      ensures dom == old(dom) + (if old(IsListeningTo(target, t, l)) then [TargetRemove(target, t, l)] else [])
    {
      var r := Registration(target, t, l);
      FilterOutDistinct(listeningMap, r);
      if IsListeningTo(target, t, l) {
        listeningMap := FilterOut(listeningMap, r);
        dom := dom + [TargetRemove(target, t, l)];
      }
    }

    /** `stopListening()`: detaches every recorded triple, in order, then forgets them all. */
    method StopListening()
      requires Valid()
      modifies this`listeningMap, this`dom
      ensures Valid()
      ensures listeningMap == []
      ensures dom == old(dom) + seq(|old(listeningMap)|, i requires 0 <= i < |old(listeningMap)| =>
        TargetRemove(old(listeningMap)[i].target, old(listeningMap)[i].eventType, old(listeningMap)[i].listener))
    {
      ghost var start := dom;
      var regs := listeningMap;
      for i := 0 to |regs|
        invariant dom == start + seq(i, k requires 0 <= k < i =>
          TargetRemove(regs[k].target, regs[k].eventType, regs[k].listener))
      {
        var reg := regs[i];
        dom := dom + [TargetRemove(reg.target, reg.eventType, reg.listener)];
      }
      listeningMap := [];
    }
  }
}
