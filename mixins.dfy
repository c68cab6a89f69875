// base/controllable-mixin, base/sized-mixin and base/variant-mixin: the
// controlled/uncontrolled value of a form element, and the normalised `size`
// and `variant` properties. Lit's `requestUpdate` calls are logged with the
// previous value they pass; dispatched events and written attributes are logs
// as well.
module Mixins {
  import opened Common

  /** JavaScript truthiness of such a value: a non-empty string. */
  predicate IsTruthy(v: JsString)
  {
    v.Str? && v.s != ""
  }

  /** `v ? v.toLocaleLowerCase() : v` */
  function LowerIfTruthy(v: JsString): (r: JsString)
    ensures IsTruthy(v) ==> r == Str(ToLower(v.s))
    ensures !IsTruthy(v) ==> r == v
    ensures IsTruthy(r) <==> IsTruthy(v)
  {
    if IsTruthy(v) then Str(ToLower(v.s)) else v
  }

  lemma LowerIfTruthyIdempotent(v: JsString)
    ensures LowerIfTruthy(LowerIfTruthy(v)) == LowerIfTruthy(v)
  {
    if IsTruthy(v) {
      ToLowerIdempotent(v.s);
    }
  }

  // ---------------------------------------------------------------------
  // ControllableMixin

  /** The `change` event: its detail value and whether it bubbles. */
  datatype ChangeNotice<V> = ChangeNotice(value: Option<V>, bubbles: bool)

  /**
   * `ControllableMixin`: `None` stands for `undefined`. The value set through
   * the `value` property (`__propValue`) wins over the element's own
   * `__internalValue` whenever it is defined. `bubbles` is false for the
   * TypeScript source and true for the compiled copy.
   */
  class Controllable<V(==)> {
    const bubbles: bool
    var defaultValue: Option<V>
    var internal: Option<V>
    var prop: Option<V>
    /** The previous values handed to `requestUpdate('value', …)`. */
    var requested: seq<Option<V>>
    var events: seq<ChangeNotice<V>>

    constructor (defaultValue: Option<V>, bubbles: bool)
      ensures this.defaultValue == defaultValue && internal == defaultValue && prop.None?
      ensures this.bubbles == bubbles && requested == [] && events == []
      ensures Value() == defaultValue && !Controlled()
    {
      this.bubbles := bubbles;
      this.defaultValue := defaultValue;
      internal := defaultValue;
      prop := None;
      requested := [];
      events := [];
    }

    /** `get controlled()` */
    predicate Controlled()
      reads this`prop
    {
      prop.Some?
    }

    /** `get value()` */
    function Value(): (v: Option<V>)
      reads this`prop, this`internal
      ensures Controlled() ==> v == prop
      ensures !Controlled() ==> v == internal
    {
      if prop.Some? then prop else internal
    }

    /** `connectedCallback()`: the internal value starts again from the default. */
    method ConnectedCallback()
      modifies this`internal
      ensures internal == defaultValue
      ensures !Controlled() ==> Value() == defaultValue
    {
      internal := defaultValue;
    }

    /**
     * `set internalValue(value)`: an uncontrolled element takes the value,
     * a controlled one keeps its own; either way one `change` event carries
     * the value that was set.
     */
    method SetInternalValue(value: Option<V>)
      modifies this`internal, this`requested, this`events
      ensures events == old(events) + [ChangeNotice(value, bubbles)]
      ensures !old(Controlled()) ==> internal == value && Value() == value && requested == old(requested) + [old(internal)]
      ensures old(Controlled()) ==> internal == old(internal) && Value() == old(Value()) && requested == old(requested)
    {
      if !Controlled() {
        var oldValue := internal;
        internal := value;
        requested := requested + [oldValue];
      }
      events := events + [ChangeNotice(value, bubbles)];
    }

    /** `set value(value)`: a defined value controls the element; `undefined` hands reads back to the internal value. */
    method SetValue(value: Option<V>)
      modifies this`prop, this`requested
      ensures prop == value && requested == old(requested) + [old(prop)]
      ensures Controlled() <==> value.Some?
      ensures Value() == if value.Some? then value else internal
    {
      var oldValue := prop;
      prop := value;
      requested := requested + [oldValue];
    }
  }

  // ---------------------------------------------------------------------
  // SizedMixin

  const DefaultSizes: seq<string> := ["xs", "s", "m", "l", "xl"]
  const FallbackSize: string := "m"

  /**
   * The `size` setter's normalisation: a truthy value is lower-cased and kept
   * when it is one of `validSizes`; anything else becomes `'m'`, or `null`
   * when the element has no default size.
   */
  function NormalizeSize(validSizes: seq<string>, noDefaultSize: bool, value: JsString): (r: JsString)
    ensures r.Str? ==> r.s in validSizes || (!noDefaultSize && r.s == FallbackSize)
    ensures r.Null? <==> noDefaultSize && !(LowerIfTruthy(value).Str? && LowerIfTruthy(value).s in validSizes)
    ensures !r.Undefined?
    ensures IsTruthy(value) && ToLower(value.s) in validSizes ==> r == Str(ToLower(value.s))
  {
    var size := LowerIfTruthy(value);
    if size.Str? && size.s in validSizes then size
    else if noDefaultSize then Null else Str(FallbackSize)
  }

  /** With lower-case valid sizes, normalising a normalised size changes nothing. */
  lemma NormalizeSizeIdempotent(validSizes: seq<string>, noDefaultSize: bool, value: JsString)
    requires forall i :: 0 <= i < |validSizes| ==> ToLower(validSizes[i]) == validSizes[i]
    requires FallbackSize in validSizes
    ensures NormalizeSize(validSizes, noDefaultSize, NormalizeSize(validSizes, noDefaultSize, value)) == NormalizeSize(validSizes, noDefaultSize, value)
  {
    var r := NormalizeSize(validSizes, noDefaultSize, value);
    if r.Str? && r.s != "" {
      var i :| 0 <= i < |validSizes| && validSizes[i] == r.s;
      assert ToLower(r.s) == r.s;
    }
  }

  /** Every default size survives normalisation, however it is capitalised. */
  lemma DefaultSizesInsensitive(value: string, noDefaultSize: bool)
    requires ToLower(value) in DefaultSizes
    ensures NormalizeSize(DefaultSizes, noDefaultSize, Str(value)) == Str(ToLower(value))
  {
    assert ToLower(value) != "";
  }

  /** A size outside the list gives `'m'`, or `null` without a default size. */
  lemma UnknownSizeFallsBack(value: string)
    requires ToLower(value) !in DefaultSizes
    ensures NormalizeSize(DefaultSizes, false, Str(value)) == Str(FallbackSize)
    ensures NormalizeSize(DefaultSizes, true, Str(value)) == Null
  {
    if value == "" {
      assert "" !in DefaultSizes;
    }
  }

  /** `SizedMixin` with its `validSizes` and `noDefaultSize` options. */
  class Sized {
    const validSizes: seq<string>
    const noDefaultSize: bool
    /** `_size` */
    var stored: JsString
    var requested: seq<JsString>
    /** The `size` attribute written by `firstUpdated`, if any. */
    var attribute: Option<string>

    constructor (validSizes: seq<string>, noDefaultSize: bool)
      ensures this.validSizes == validSizes && this.noDefaultSize == noDefaultSize
      ensures stored == Str(FallbackSize) && requested == [] && attribute.None?
      ensures Size() == FallbackSize
    {
      this.validSizes := validSizes;
      this.noDefaultSize := noDefaultSize;
      stored := Str(FallbackSize);
      requested := [];
      attribute := None;
    }

    /** `get size()`: the stored size, or `'m'` when it is `null` or empty. */
    function Size(): (r: string)
      reads this`stored
      ensures IsTruthy(stored) ==> r == stored.s
      ensures !IsTruthy(stored) ==> r == FallbackSize
    {
      if IsTruthy(stored) then stored.s else FallbackSize
    }

    /** `set size(value)`: stores the normalised value, and does nothing when that is already stored. */
    method SetSize(value: JsString)
      modifies this`stored, this`requested
      ensures stored == NormalizeSize(validSizes, noDefaultSize, value)
      ensures old(stored) == stored ==> requested == old(requested)
      ensures old(stored) != stored ==> requested == old(requested) + [old(stored)]
      ensures Size() in validSizes || Size() == FallbackSize
    {
      var validSize := NormalizeSize(validSizes, noDefaultSize, value);
      if stored == validSize {
        return;
      }
      var oldSize := stored;
      stored := validSize;
      requested := requested + [oldSize];
    }

    /** `firstUpdated()`: reflects the size into a missing attribute, unless the element has no default size. */
    method FirstUpdated(hasAttribute: bool)
      modifies this`attribute
      ensures !hasAttribute && !noDefaultSize ==> attribute == Some(Size())
      ensures hasAttribute || noDefaultSize ==> attribute == old(attribute)
    {
      if !hasAttribute && !noDefaultSize {
        attribute := Some(Size());
      }
    }
  }

  // ---------------------------------------------------------------------
  // VariantMixin

  /** `VariantMixin` with its `defaultVariant` option (`Undefined` when not given). */
  class Variant {
    const defaultVariant: JsString
    /** `_variant` */
    var stored: JsString
    var requested: seq<JsString>
    /** The value passed to `setAttribute('variant', …)` by `firstUpdated`, if any. */
    var attribute: Option<JsString>

    constructor (defaultVariant: JsString)
      ensures this.defaultVariant == defaultVariant && stored == defaultVariant
      ensures requested == [] && attribute.None?
    {
      this.defaultVariant := defaultVariant;
      stored := defaultVariant;
      requested := [];
      attribute := None;
    }

    /** `get variant()`: `_variant || defaultVariant` */
    function VariantValue(): (r: JsString)
      reads this`stored
      ensures IsTruthy(stored) ==> r == stored
      ensures !IsTruthy(stored) ==> r == defaultVariant
    {
      if IsTruthy(stored) then stored else defaultVariant
    }

    /** `set variant(value)`: stores the value lower-cased when truthy, as given otherwise; no validation. */
    method SetVariant(value: JsString)
      modifies this`stored, this`requested
      ensures stored == LowerIfTruthy(value)
      ensures old(stored) == stored ==> requested == old(requested)
      ensures old(stored) != stored ==> requested == old(requested) + [old(stored)]
      ensures IsTruthy(value) ==> VariantValue() == Str(ToLower(value.s))
    {
      var validVariant := LowerIfTruthy(value);
      if stored == validVariant {
        return;
      }
      var oldVariant := stored;
      stored := validVariant;
      requested := requested + [oldVariant];
    }

    /** `firstUpdated()`: writes the variant into a missing attribute when a default variant exists. */
    method FirstUpdated(hasAttribute: bool)
      modifies this`attribute
      ensures !hasAttribute && !defaultVariant.Undefined? ==> attribute == Some(VariantValue())
      ensures hasAttribute || defaultVariant.Undefined? ==> attribute == old(attribute)
    {
      if !hasAttribute && !defaultVariant.Undefined? {
        attribute := Some(VariantValue());
      }
    }
  }
}
