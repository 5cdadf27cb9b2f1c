/** The `Array.prototype.includes` polyfill of js_basics/polyfills/array-includes.js:
    a SameValueZero linear search from a clamped start index, and the guard that
    installs it on the array prototype only when no truthy `includes` is there yet. */
module ArrayIncludes {

  /** A JavaScript value, as far as `===` and `Number.isNaN` can tell values apart.
      Finite numbers are reals, so +0 and -0 are the same `Number(0.0)`: both `===`
      and SameValueZero identify them. Objects are compared by identity. */
  datatype Value =
    | Undefined
    | Null
    | Bool(b: bool)
    | Number(x: real)
    | Infinity(negative: bool)
    | NaN
    | Str(s: string)
    | Ref(address: nat)

  datatype ErrorKind = TypeError

  /** How a call ends: with a value, or by throwing. */
  datatype Completion = Normal(value: bool) | Throw(error: ErrorKind)

  /** `a === b`: NaN is the one value not strictly equal to itself. */
  predicate StrictEquals(a: Value, b: Value) {
    a == b && !a.NaN?
  }

  /** `Number.isNaN(v)`: no coercion, true only of NaN itself. */
  predicate IsNaN(v: Value) {
    v.NaN?
  }

  /** The match test of the search loop: strict equality, or both sides NaN. */
  predicate SameValueZero(a: Value, b: Value) {
    StrictEquals(a, b) || (IsNaN(a) && IsNaN(b))
  }

  /** `===` misses NaN, the loop's test does not; otherwise they agree. */
  lemma StrictEqualsMissesOnlyNaN(a: Value, b: Value)
    ensures !StrictEquals(NaN, NaN) && SameValueZero(NaN, NaN)
    ensures SameValueZero(a, b) <==> a == b
    ensures SameValueZero(a, b) && !StrictEquals(a, b) <==> a == b == NaN
  {
  }

  const TwoTo31: int := 0x8000_0000
  const TwoTo32: int := 0x1_0000_0000

  /** The `x | 0` conversion of an integral number: wrap into the signed 32-bit range. */
  function ToInt32(x: int): (r: int)
    ensures -TwoTo31 <= r < TwoTo31
    ensures (x - r) % TwoTo32 == 0
    ensures -TwoTo31 <= x < TwoTo31 ==> r == x
  {
    var m := x % TwoTo32;
    if m < TwoTo31 then m else m - TwoTo32
  }

  /** `Math.max(fromIndex | 0, 0)`: where the polyfill's search begins. A
      `fromIndex` in [0, 2^31) is used as it is, a negative one in 32 bits starts
      at 0, and no start lies beyond the 32-bit range. */
  function StartIndex(fromIndex: int): (k: nat)
    ensures k < TwoTo31
    ensures 0 <= fromIndex < TwoTo31 ==> k == fromIndex
    ensures -TwoTo31 <= fromIndex < 0 ==> k == 0
    ensures if ToInt32(fromIndex) < 0 then k == 0 else (fromIndex - k) % TwoTo32 == 0
  {
    var n := ToInt32(fromIndex);
    if n < 0 then 0 else n
  }

  /** The contract of `StartIndex` leaves no choice: any start below 2^31 that
      meets it is the one the polyfill computes. */
  lemma StartIndexIsDetermined(fromIndex: int, k: nat)
    requires k < TwoTo31
    requires if ToInt32(fromIndex) < 0 then k == 0 else (fromIndex - k) % TwoTo32 == 0
    ensures k == StartIndex(fromIndex)
  {
  }

  /** Some index in [from, |s|) holds an element SameValueZero-equal to `search`. */
  predicate Occurs(s: seq<Value>, search: Value, from: nat) {
    exists k :: from <= k < |s| && SameValueZero(s[k], search)
  }

  /** What the polyfill returns for a non-null receiver whose elements are `s`. */
  predicate PolyfillIncludes(s: seq<Value>, search: Value, fromIndex: int) {
    Occurs(s, search, StartIndex(fromIndex))
  }

  /** The polyfill's `value` function, called with `this == o`. A null receiver
      (null or undefined in JavaScript) throws before any element is read. */
  method Includes(o: array?<Value>, search: Value, fromIndex: int) returns (r: Completion)
    ensures o == null <==> r == Throw(TypeError)
    ensures o != null ==> r == Normal(PolyfillIncludes(o[..], search, fromIndex))
  {
    if o == null {
      return Throw(TypeError);
    }
    var len := o.Length;
    if len == 0 {
      return Normal(false);
    }
    var k := StartIndex(fromIndex);
    while k < len
      invariant StartIndex(fromIndex) <= k
      invariant forall j :: StartIndex(fromIndex) <= j < k && j < len ==> !SameValueZero(o[j], search)
      decreases len - k
    {
      if StrictEquals(o[k], search) || (IsNaN(o[k]) && IsNaN(search)) {
        return Normal(true);
      }
      k := k + 1;
    }
    return Normal(false);
  }

  /** `includes` as section 23.1.3.16 of ECMAScript 2023 specifies it, for a
      non-null receiver and an integral `fromIndex`: a negative start counts back
      from the end of the array. */
  predicate StandardIncludes(s: seq<Value>, search: Value, fromIndex: int) {
    var len := |s|;
    if len == 0 then false
    else
      var k: nat := if fromIndex >= 0 then fromIndex
                    else if len + fromIndex < 0 then 0
                    else len + fromIndex;
      Occurs(s, search, k)
  }

  lemma EmptyArrayNeverIncludes(search: Value, fromIndex: int)
    ensures !PolyfillIncludes([], search, fromIndex)
  {
  }

  /** A NaN in the searched range is found, although no element is `=== NaN`. */
  lemma NaNIsFound(s: seq<Value>, fromIndex: int, k: int)
    requires StartIndex(fromIndex) <= k < |s| && s[k] == NaN
    ensures PolyfillIncludes(s, NaN, fromIndex)
    ensures forall j :: 0 <= j < |s| ==> !StrictEquals(s[j], NaN)
  {
  }

  /** A negative (32-bit) `fromIndex` searches the whole array, exactly like 0. */
  lemma NegativeFromIndexIsZero(s: seq<Value>, search: Value, fromIndex: int)
    requires -TwoTo31 <= fromIndex < 0
    ensures PolyfillIncludes(s, search, fromIndex) == PolyfillIncludes(s, search, 0)
    ensures PolyfillIncludes(s, search, fromIndex) <==> search in s
  {
  }

  lemma StartPastEndNotFound(s: seq<Value>, search: Value, fromIndex: int)
    requires StartIndex(fromIndex) >= |s|
    ensures !PolyfillIncludes(s, search, fromIndex)
  {
  }

  /** For a start index the standard and the polyfill read alike, they agree. */
  lemma AgreesWithStandard(s: seq<Value>, search: Value, fromIndex: int)
    requires 0 <= fromIndex < TwoTo31
    ensures PolyfillIncludes(s, search, fromIndex) == StandardIncludes(s, search, fromIndex)
  {
  }

  /** The deviation kept from the source: [a, b].includes(a, -1) is false under the
      standard (the search starts at the last element) and true under the polyfill. */
  lemma NegativeFromIndexDeviates()
    ensures PolyfillIncludes([Str("a"), Str("b")], Str("a"), -1)
    ensures !StandardIncludes([Str("a"), Str("b")], Str("a"), -1)
  {
    assert SameValueZero([Str("a"), Str("b")][0], Str("a"));
  }

  /** A `fromIndex` in [2^31, 2^32) is negative after `| 0`, so the polyfill
      searches from 0, while the standard starts past the end and finds nothing. */
  lemma LargeFromIndexDeviates()
    ensures StartIndex(TwoTo31) == 0
    ensures PolyfillIncludes([Str("a")], Str("a"), TwoTo31)
    ensures !StandardIncludes([Str("a")], Str("a"), TwoTo31)
  {
    assert SameValueZero([Str("a")][0], Str("a"));
  }

  /** A `fromIndex` below -2^31 wraps to a positive start under `| 0`:
      -2^32 + 1 starts the polyfill at index 1, while the standard clamps it to 0. */
  lemma VeryNegativeFromIndexDeviates()
    ensures StartIndex(-TwoTo32 + 1) == 1
    ensures !PolyfillIncludes([Str("a"), Str("b")], Str("a"), -TwoTo32 + 1)
    ensures StandardIncludes([Str("a"), Str("b")], Str("a"), -TwoTo32 + 1)
  {
    assert SameValueZero([Str("a"), Str("b")][0], Str("a"));
  }

  /** Which implementation an `includes` function slot holds. */
  datatype Implementation = Native | Polyfill

  /** The `includes` property of the array prototype: missing, a plain data value,
      or a function. */
  datatype Slot = Absent | Data(value: Value) | Function(impl: Implementation)

  /** JavaScript truthiness of a value: exactly six values are falsy. */
  predicate Truthy(v: Value)
    ensures Truthy(v) <==> v !in {Undefined, Null, Bool(false), Number(0.0), NaN, Str("")}
  {
    match v
    case Undefined => false
    case Null => false
    case Bool(b) => b
    case Number(x) => x != 0.0
    case Infinity(_) => true
    case NaN => false
    case Str(s) => s != ""
    case Ref(_) => true
  }

  /** `Array.prototype.includes` read as a condition; an absent property reads as undefined. */
  predicate SlotTruthy(slot: Slot)
    ensures SlotTruthy(slot) ==> slot != Absent
    ensures slot.Function? ==> SlotTruthy(slot)
    ensures slot.Data? ==> (SlotTruthy(slot) <==> Truthy(slot.value))
  {
    match slot
    case Absent => false
    case Data(v) => Truthy(v)
    case Function(_) => true
  }

  /** The prototype slot after the polyfill module has been evaluated. */
  function AfterInstall(slot: Slot): (r: Slot)
    ensures SlotTruthy(r)
    ensures SlotTruthy(slot) ==> r == slot
    ensures r != slot ==> r == Function(Polyfill)
  {
    if SlotTruthy(slot) then slot else Function(Polyfill)
  }

  /** Evaluating the module twice leaves the prototype as evaluating it once. */
  lemma InstallIsIdempotent(slot: Slot)
    ensures AfterInstall(AfterInstall(slot)) == AfterInstall(slot)
  {
  }

  /** `receiver.includes(search, fromIndex)` for a non-null array receiver,
      dispatched through the prototype slot: calling anything but a function
      throws a TypeError. Both implementations agree on a start in [0, 2^31). */
  function Call(slot: Slot, s: seq<Value>, search: Value, fromIndex: int): (r: Completion)
    ensures r.Throw? <==> !slot.Function?
    ensures r.Throw? ==> r.error == TypeError
    ensures slot.Function? && 0 <= fromIndex < TwoTo31 ==>
      r == Normal(Occurs(s, search, fromIndex))
  {
    match slot
    case Function(Polyfill) => Normal(PolyfillIncludes(s, search, fromIndex))
    case Function(Native) => Normal(StandardIncludes(s, search, fromIndex))
    case _ => Throw(TypeError)
  }

  /** The one `Array.prototype` object whose `includes` property the module may define. */
  class ArrayPrototype {
    var includes: Slot

    constructor (includes: Slot)
      ensures this.includes == includes
    {
      this.includes := includes;
    }

    /** Evaluating js_basics/polyfills/array-includes.js: define `includes` unless
        the prototype already has a truthy one. */
    method EvaluatePolyfillModule()
      modifies this
      ensures includes == AfterInstall(old(includes))
    {
      if !SlotTruthy(includes) {
        includes := Function(Polyfill);
      }
    }
  }
}
