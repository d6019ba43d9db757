/**
 * Unwrapping, visiting and converting Values (value_ops.cpp, with the
 * unwrapping helpers it relies on).
 *
 * Unwrapping follows link alternatives through the slots they name until a
 * non-link Value is reached. It yields `None` when it meets a null pointee,
 * a slot outside the store, or more links than the store has slots (a
 * cycle): such a chain is never dereferenced.
 */
module ValueOps {
  import opened Wrappers
  import opened Values

  // ---------------------------------------------------------------------
  // Unwrapping
  // ---------------------------------------------------------------------

  /** Follows at most `fuel` links starting from `v`. */
  function UnwrapWithin(store: seq<Value>, v: Value, fuel: nat): (r: Option<Value>)
    ensures r.Some? ==> !r.value.IsLink()
    ensures !v.IsLink() ==> r == Some(v)
    decreases fuel
  {
    if !v.IsLink() then Some(v)
    else match v.ptr.pointee
      case None => None
      case Some(slot) =>
        if slot < |store| && fuel > 0 then UnwrapWithin(store, store[slot], fuel - 1)
        else None
  }

  /** GetActualValue: the non-link Value that `v` stands for, or None. */
  function GetActualValue(store: seq<Value>, v: Value): Option<Value> {
    UnwrapWithin(store, v, |store|)
  }

  /** `v` unwraps to a non-link Value of the store. */
  predicate Resolves(store: seq<Value>, v: Value) {
    GetActualValue(store, v).Some?
  }

  /** The unwrapped Value of a resolvable `v`. */
  function Terminal(store: seq<Value>, v: Value): (t: Value)
    requires Resolves(store, v)
    ensures !t.IsLink()
  {
    GetActualValue(store, v).value
  }

  /** Once unwrapping succeeds, more fuel does not change its result. */
  lemma {:induction false} UnwrapFuelMonotone(store: seq<Value>, v: Value, n: nat, m: nat)
    requires n <= m
    requires UnwrapWithin(store, v, n).Some?
    ensures UnwrapWithin(store, v, m) == UnwrapWithin(store, v, n)
    decreases n
  {
    if v.IsLink() {
      var slot := v.ptr.pointee.value;
      UnwrapFuelMonotone(store, store[slot], n - 1, m - 1);
    }
  }

  /**
   * A link is transparent: a resolvable link unwraps to what the Value in
   * its slot unwraps to.
   */
  lemma LinkTransparent(store: seq<Value>, v: Value, slot: Slot)
    requires v.IsLink() && v.ptr.pointee == Some(slot)
    requires Resolves(store, v)
    ensures slot < |store|
    ensures Resolves(store, store[slot])
    ensures Terminal(store, v) == Terminal(store, store[slot])
  {
    assert GetActualValue(store, v) == UnwrapWithin(store, store[slot], |store| - 1);
    UnwrapFuelMonotone(store, store[slot], |store| - 1, |store|);
  }

  /**
   * `slots` is a chain from `v` to `last`: `v` links to slots[0], the Value
   * there links to slots[1], and so on; `last` is the Value in the final slot.
   */
  ghost predicate IsChain(store: seq<Value>, v: Value, slots: seq<Slot>, last: Value)
    decreases |slots|
  {
    if slots == [] then v == last
    else
      && v.IsLink() && v.ptr.pointee == Some(slots[0]) && slots[0] < |store|
      && IsChain(store, store[slots[0]], slots[1..], last)
  }

  /** A chain ending in a non-link Value unwraps to that Value. */
  lemma {:induction false} ChainUnwraps(store: seq<Value>, v: Value, slots: seq<Slot>, last: Value, fuel: nat)
    requires IsChain(store, v, slots, last) && !last.IsLink()
    requires |slots| <= fuel
    ensures UnwrapWithin(store, v, fuel) == Some(last)
    decreases |slots|
  {
    if slots != [] {
      ChainUnwraps(store, store[slots[0]], slots[1..], last, fuel - 1);
    }
  }

  /** A chain ending in a link with a null pointee never unwraps, whatever the fuel. */
  lemma {:induction false} NullChainFails(store: seq<Value>, v: Value, slots: seq<Slot>, last: Value, fuel: nat)
    requires IsChain(store, v, slots, last)
    requires last.IsLink() && last.ptr.pointee.None?
    ensures UnwrapWithin(store, v, fuel) == None
    decreases |slots|
  {
    if slots != [] && fuel > 0 {
      NullChainFails(store, store[slots[0]], slots[1..], last, fuel - 1);
    }
  }

  /** Pairwise-distinct slots of a store of `n` slots number at most `n`. */
  lemma {:induction false} DistinctSlotsFit(slots: seq<Slot>, n: nat)
    requires forall i :: 0 <= i < |slots| ==> slots[i] < n
    requires forall i, j :: 0 <= i < j < |slots| ==> slots[i] != slots[j]
    ensures |slots| <= n
    decreases n
  {
    if slots != [] {
      assert slots[0] < n;
      if j :| 0 <= j < |slots| && slots[j] == n - 1 {
        var rest := slots[..j] + slots[j + 1..];
        assert forall i :: 0 <= i < |rest| ==> rest[i] == (if i < j then slots[i] else slots[i + 1]);
        DistinctSlotsFit(rest, n - 1);
      } else {
        DistinctSlotsFit(slots, n - 1);
      }
    }
  }

  /** Every slot a chain passes through lies inside the store. */
  lemma ChainTailFacts(store: seq<Value>, v: Value, slots: seq<Slot>, last: Value)
    requires IsChain(store, v, slots, last)
    ensures forall i :: 0 <= i < |slots| ==> slots[i] < |store|
    decreases |slots|
  {
    if slots != [] {
      ChainTailFacts(store, store[slots[0]], slots[1..], last);
      forall i | 0 < i < |slots| ensures slots[i] < |store| {
        assert slots[i] == slots[1..][i - 1];
      }
    }
  }

  /**
   * GetActualValue follows every chain that never revisits a slot to its
   * end, and fails on every such chain that ends at a null pointee.
   */
  lemma GetActualValueOnChains(store: seq<Value>, v: Value, slots: seq<Slot>, last: Value)
    requires IsChain(store, v, slots, last)
    requires forall i, j :: 0 <= i < j < |slots| ==> slots[i] != slots[j]
    ensures !last.IsLink() ==> GetActualValue(store, v) == Some(last)
    ensures last.IsLink() && last.ptr.pointee.None? ==> GetActualValue(store, v) == None
  {
    ChainTailFacts(store, v, slots, last);
    DistinctSlotsFit(slots, |store|);
    if !last.IsLink() {
      ChainUnwraps(store, v, slots, last, |store|);
    } else if last.ptr.pointee.None? {
      NullChainFails(store, v, slots, last, |store|);
    }
  }

  /**
   * Links do not own what they point at: once the Value in a slot is cleared
   * in place, every link to that slot unwraps to Empty.
   */
  lemma ClearSeenThroughLinks(store: seq<Value>, slot: Slot, v: Value)
    requires slot < |store|
    requires v.IsLink() && v.ptr.pointee == Some(slot)
    ensures GetActualValue(store[slot := EmptyValue], v) == Some(EmptyValue)
  {
  }

  /** A default-constructed link never resolves. */
  lemma DefaultLinkNeverResolves(store: seq<Value>, v: Value)
    requires v.IsLink() && v.ptr == DefaultPtr()
    ensures !Resolves(store, v)
  {
  }

  // ---------------------------------------------------------------------
  // Visiting the unwrapped value
  // ---------------------------------------------------------------------

  /** Apply: the visitor is applied to the unwrapped Value. */
  function Apply<R>(store: seq<Value>, v: Value, visitor: Value -> R): R
    requires Resolves(store, v)
  {
    visitor(Terminal(store, v))
  }

  /** Apply2: both operands are unwrapped before the binary visit. */
  function Apply2<R>(store: seq<Value>, v1: Value, v2: Value, visitor: (Value, Value) -> R): R
    requires Resolves(store, v1) && Resolves(store, v2)
  {
    visitor(Terminal(store, v1), Terminal(store, v2))
  }

  /** A visitor never sees a link: on a link it sees what the link's slot unwraps to. */
  lemma ApplyLooksThroughLinks<R>(store: seq<Value>, v: Value, slot: Slot, visitor: Value -> R)
    requires v.IsLink() && v.ptr.pointee == Some(slot)
    requires Resolves(store, v)
    ensures slot < |store| && Resolves(store, store[slot])
    ensures Apply(store, v, visitor) == Apply(store, store[slot], visitor)
    ensures exists t: Value :: !t.IsLink() && Apply(store, v, visitor) == visitor(t)
  {
    LinkTransparent(store, v, slot);
    var t := Terminal(store, v);
    assert !t.IsLink() && Apply(store, v, visitor) == visitor(t);
  }

  /** The binary visit looks through links on either side. */
  lemma Apply2LooksThroughLinks<R>(store: seq<Value>, v1: Value, v2: Value, slot1: Slot, slot2: Slot, visitor: (Value, Value) -> R)
    requires v1.IsLink() && v1.ptr.pointee == Some(slot1)
    requires v2.IsLink() && v2.ptr.pointee == Some(slot2)
    requires Resolves(store, v1) && Resolves(store, v2)
    ensures slot1 < |store| && slot2 < |store|
    ensures Resolves(store, store[slot1]) && Resolves(store, store[slot2])
    ensures Apply2(store, v1, v2, visitor) == Apply2(store, store[slot1], store[slot2], visitor)
  {
    LinkTransparent(store, v1, slot1);
    LinkTransparent(store, v2, slot2);
  }

  // ---------------------------------------------------------------------
  // Conversion to native parameter types
  // ---------------------------------------------------------------------

  /** The native types a handler parameter (or receiver) may have. */
  datatype NativeType = BoolType | IntType | StringType | ObjectType | EnumType

  /** A native value handed to a handler. */
  datatype Native =
    | NativeBool(b: bool)
    | NativeInt(n: int)
    | NativeString(s: string)
    | NativeObject(obj: ReflectedObject)
    | NativeEnum(ordinal: int)   // an enumeration such as AccessType
  {
    function Type(): NativeType {
      match this
      case NativeBool(_) => BoolType
      case NativeInt(_) => IntType
      case NativeString(_) => StringType
      case NativeObject(_) => ObjectType
      case NativeEnum(_) => EnumType
    }
  }

  /** The payload alternative that holds a native value; enumerations have none. */
  function ToValue(n: Native): (r: Option<Value>)
    ensures r.None? <==> n.NativeEnum?
    ensures r.Some? ==> !r.value.IsLink() && !r.value.IsNoValue()
  {
    match n
    case NativeBool(b) => Some(BoolValue(b))
    case NativeInt(i) => Some(IntValue(i))
    case NativeString(s) => Some(StringValue(s))
    case NativeObject(o) => Some(ObjectValue(o))
    case NativeEnum(_) => None
  }

  /** `R()`: the default-constructed native value of type `t`. */
  function DefaultOf(t: NativeType): (r: Native)
    ensures r.Type() == t
  {
    match t
    case BoolType => NativeBool(false)
    case IntType => NativeInt(0)
    case StringType => NativeString("")
    case ObjectType => NativeObject(ReflectedObject(Unbound, 0))
    case EnumType => NativeEnum(0)
  }

  /**
   * std::is_convertible of the alternative held by `v` to the native type
   * `t`. None of the payload types converts implicitly to another, and no
   * alternative converts to an enumeration.
   */
  predicate IsConvertible(v: Value, t: NativeType) {
    match v
    case BoolValue(_) => t == BoolType
    case IntValue(_) => t == IntType
    case StringValue(_) => t == StringType
    case ObjectValue(_) => t == ObjectType
    case _ => false
  }

  /** ValueConverter<R>: the payload if it converts to `t`, otherwise `R()`. */
  function ValueConverter(t: NativeType, v: Value): (r: Native)
    ensures r.Type() == t
    ensures IsConvertible(v, t) ==> ToValue(r) == Some(v)
    ensures !IsConvertible(v, t) ==> r == DefaultOf(t)
  {
    match v
    case BoolValue(b) => if t == BoolType then NativeBool(b) else DefaultOf(t)
    case IntValue(i) => if t == IntType then NativeInt(i) else DefaultOf(t)
    case StringValue(s) => if t == StringType then NativeString(s) else DefaultOf(t)
    case ObjectValue(o) => if t == ObjectType then NativeObject(o) else DefaultOf(t)
    case _ => DefaultOf(t)
  }

  /** ConvertValue<R>: ValueConverter applied to the unwrapped value; never fails. */
  function ConvertValue(store: seq<Value>, t: NativeType, v: Value): (r: Native)
    requires Resolves(store, v)
    ensures r.Type() == t
    ensures IsConvertible(Terminal(store, v), t) ==> ToValue(r) == Some(Terminal(store, v))
    ensures !IsConvertible(Terminal(store, v), t) ==> r == DefaultOf(t)
  {
    Apply(store, v, x => ValueConverter(t, x))
  }

  /** ConvertToBool: a bool payload converts to itself, anything else to false. */
  function ConvertToBool(store: seq<Value>, obj: Value): (r: bool)
    requires Resolves(store, obj)
    ensures r <==> Terminal(store, obj) == BoolValue(true)
  {
    ConvertValue(store, BoolType, obj).b
  }

  /** Converting a payload back to its own native type gives back the native value. */
  lemma ConvertRoundTrip(store: seq<Value>, n: Native)
    requires !n.NativeEnum?
    ensures Resolves(store, ToValue(n).value)
    ensures ConvertValue(store, n.Type(), ToValue(n).value) == n
  {
  }

  /** A bool payload asked for as a string gives the empty string, and the converse. */
  lemma CrossConversionsDefault(store: seq<Value>, b: bool, s: string)
    ensures ConvertValue(store, StringType, BoolValue(b)) == NativeString("")
    ensures ConvertValue(store, BoolType, StringValue(s)) == NativeBool(false)
    ensures !ConvertToBool(store, EmptyValue) && !ConvertToBool(store, VoidValue)
  {
  }
}
