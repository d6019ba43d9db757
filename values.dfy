/**
 * The interpreter's tagged runtime value (value.h).
 *
 * A `Value` holds exactly one of ten alternatives, in the order of the
 * variant declaration. The three link alternatives share one shape, a
 * non-owning `Ptr` to another Value, and are kept apart as three
 * constructors. The storage a link points at belongs to the interpreter's
 * evaluation environment; here it is a sequence of slots and a link names a
 * slot by index.
 */
module Values {
  import opened Wrappers

  /** Index of a slot in the evaluation environment that owns the Values. */
  type Slot = nat

  /** Kind tag carried by a reflected-entity handle; the handle itself is opaque. */
  datatype ObjectKind =
    | Unbound
    | CompilerImpl
    | ClassInfo
    | MethodInfo
    | MemberInfo
    | TypeInfo
    | RangeOf(element: ObjectKind)
    | IteratorOf(element: ObjectKind)

  /** A reflected declaration handle: its kind tag and an opaque identity. */
  datatype ReflectedObject = ReflectedObject(kind: ObjectKind, handle: nat)

  /** Value::Ptr: a non-owning link; `None` is the null pointee. */
  datatype Ptr = Ptr(pointee: Option<Slot>)

  /** `Ptr()`: the default-constructed link. */
  function DefaultPtr(): (p: Ptr)
    ensures p.pointee.None?
  {
    Ptr(None)
  }

  /** `Ptr(val)`: a link to the Value stored in `slot`. */
  function PtrTo(slot: Slot): (p: Ptr)
    ensures p.pointee == Some(slot)
  {
    Ptr(Some(slot))
  }

  /** Value::DataType, one constructor per variant alternative. */
  datatype Value =
    | EmptyValue
    | VoidValue
    | BoolValue(b: bool)
    | IntValue(n: int)            // llvm::APInt, unbounded here
    | FloatValue(bits: nat)       // llvm::APFloat, an opaque bit pattern
    | StringValue(s: string)
    | ObjectValue(obj: ReflectedObject)
    | InternalRef(ptr: Ptr)
    | Reference(ptr: Ptr)
    | Pointer(ptr: Ptr)
  {
    /** The index of the active alternative (boost::variant::which). */
    function Which(): (n: nat)
      ensures n < 10
      ensures n >= 7 <==> IsLink()
    {
      match this
      case EmptyValue => 0
      case VoidValue => 1
      case BoolValue(_) => 2
      case IntValue(_) => 3
      case FloatValue(_) => 4
      case StringValue(_) => 5
      case ObjectValue(_) => 6
      case InternalRef(_) => 7
      case Reference(_) => 8
      case Pointer(_) => 9
    }

    predicate IsEmpty() {
      Which() == 0
    }

    predicate IsVoid() {
      Which() == 1
    }

    predicate IsNoValue() {
      IsEmpty() || IsVoid()
    }

    /** One of the three indirection alternatives. */
    predicate IsLink() {
      InternalRef? || Reference? || Pointer?
    }
  }

  /** `Value()`: a Value built from a default-constructed DataType. */
  function DefaultValue(): (v: Value)
    ensures v.IsEmpty() && v.IsNoValue() && !v.IsVoid()
  {
    EmptyValue
  }

  /** The tag predicates identify exactly the first two alternatives. */
  lemma TagPredicates(v: Value)
    ensures v.IsEmpty() <==> v.EmptyValue?
    ensures v.IsVoid() <==> v.VoidValue?
    ensures !(v.IsEmpty() && v.IsVoid())
    ensures v.IsNoValue() <==> v.EmptyValue? || v.VoidValue?
  {
  }

  /** Every alternative other than Empty and Void holds a value. */
  lemma NoValueOnlyForEmptyAndVoid(v: Value)
    requires !v.EmptyValue? && !v.VoidValue?
    ensures !v.IsNoValue() && !v.IsEmpty() && !v.IsVoid()
  {
  }

  /**
   * The three link alternatives are told apart by their tag even when they
   * carry the same link, and each keeps the link it was built with.
   */
  lemma LinkTagsDistinct(p: Ptr)
    ensures InternalRef(p).Which() == 7 && Reference(p).Which() == 8 && Pointer(p).Which() == 9
    ensures InternalRef(p) != Reference(p) && Reference(p) != Pointer(p) && InternalRef(p) != Pointer(p)
    ensures InternalRef(p).ptr == Reference(p).ptr == Pointer(p).ptr == p
  {
  }

  /**
   * The evaluation environment's storage that links point into. A Value is
   * cleared in place in its slot, so every link to that slot sees the change.
   */
  class SlotStore {
    var cells: seq<Value>

    /** A store of `size` default-constructed Values. */
    constructor (size: nat)
      ensures |cells| == size
      ensures forall i :: 0 <= i < size ==> cells[i].IsEmpty()
    {
      cells := seq(size, _ => DefaultValue());
    }

    /** Value::Clear on the Value held in `slot`. */
    method Clear(slot: Slot)
      requires slot < |cells|
      modifies this
      ensures cells == old(cells)[slot := EmptyValue]
      ensures cells[slot].IsEmpty() && cells[slot].IsNoValue() && !cells[slot].IsVoid()
    {
      cells := cells[slot := EmptyValue];
    }
  }

  /** Clearing a slot twice leaves the same store as clearing it once. */
  lemma ClearIdempotent(cells: seq<Value>, slot: Slot)
    requires slot < |cells|
    ensures cells[slot := EmptyValue][slot := EmptyValue] == cells[slot := EmptyValue]
  {
  }
}
