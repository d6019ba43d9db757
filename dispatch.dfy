/**
 * Signature-keyed dispatch of interpreted member calls to native handlers
 * (CallMember and CallMemberVisitor in value_ops.cpp).
 *
 * The outcomes are: an unregistered key is not attempted and leaves the
 * output untouched; a registered key whose receiver converts to the
 * handler's receiver type returns what the handler returns, with every
 * argument converted to the handler's parameter type; a registered key
 * whose receiver does not convert is reported as attempted, with the output
 * untouched and a diagnostic.
 */
module Dispatch {
  import opened Wrappers
  import opened Values
  import opened ValueOps
  import opened Registry

  // ---------------------------------------------------------------------
  // Signature keys
  // ---------------------------------------------------------------------

  /** A method as the caller identifies it: qualified name and printed declaration. */
  datatype MethodIdentity = MethodIdentity(qualifiedName: string, declaration: string)

  /** The lookup key: the qualified name, "/", then the printed declaration. */
  function SignatureKey(m: MethodIdentity): (key: string)
    ensures |key| == |m.qualifiedName| + 1 + |m.declaration|
    ensures key[..|m.qualifiedName|] == m.qualifiedName
    ensures key[|m.qualifiedName|] == '/'
    ensures key[|m.qualifiedName| + 1..] == m.declaration
  {
    m.qualifiedName + "/" + m.declaration
  }

  /** Overloads sharing a qualified name get different keys. */
  lemma OverloadsGetDistinctKeys(m1: MethodIdentity, m2: MethodIdentity)
    requires m1.qualifiedName == m2.qualifiedName
    requires m1.declaration != m2.declaration
    ensures SignatureKey(m1) != SignatureKey(m2)
  {
    var n := |m1.qualifiedName|;
    assert SignatureKey(m1)[n + 1..] == m1.declaration;
    assert SignatureKey(m2)[n + 1..] == m2.declaration;
  }

  /**
   * When no qualified name contains '/', the key determines the method: the
   * first '/' of the key ends the qualified name.
   */
  lemma SignatureKeyInjective(m1: MethodIdentity, m2: MethodIdentity)
    requires '/' !in m1.qualifiedName && '/' !in m2.qualifiedName
    requires SignatureKey(m1) == SignatureKey(m2)
    ensures m1 == m2
  {
    var key := SignatureKey(m1);
    var n1, n2 := |m1.qualifiedName|, |m2.qualifiedName|;
    if n1 != n2 {
      assert false;
    }
    assert m1.qualifiedName == key[..n1] == m2.qualifiedName;
    assert m1.declaration == key[n1 + 1..] == m2.declaration;
  }

  // ---------------------------------------------------------------------
  // Handlers and argument marshalling
  // ---------------------------------------------------------------------

  /** What a native handler does: its boolean return and the output Value it leaves. */
  datatype HandlerOutcome = HandlerOutcome(returned: bool, result: Value)

  /**
   * The handler bodies, which are not part of this model: given the native
   * function, the converted receiver, the incoming output Value and the
   * converted arguments, the outcome.
   */
  type HandlerBodies = (NativeFn, Native, Value, seq<Native>) -> HandlerOutcome

  /** The diagnostics CallMember and its visitor emit. */
  datatype Diagnostic =
    | NoImplementation(key: string)
    | TryingToCall(key: string, receiverWhich: nat)
    | WrongReceiverType

  /** There is an argument for every parameter, and each of them resolves. */
  predicate ArgsResolve(store: seq<Value>, params: seq<NativeType>, args: seq<Value>) {
    |params| <= |args| && forall i :: 0 <= i < |params| ==> Resolves(store, args[i])
  }

  /**
   * The argument pack of Invoke: argument i converted to parameter type i.
   * Arguments beyond the handler's parameters are ignored.
   */
  function ConvertArgs(store: seq<Value>, params: seq<NativeType>, args: seq<Value>): (r: seq<Native>)
    requires ArgsResolve(store, params, args)
    ensures |r| == |params|
    ensures forall i :: 0 <= i < |params| ==> r[i] == ConvertValue(store, params[i], args[i])
    ensures forall i :: 0 <= i < |params| ==> r[i].Type() == params[i]
    decreases |params|
  {
    if params == [] then []
    else
      assert forall i :: 0 <= i < |params| - 1 ==> args[1..][i] == args[i + 1];
      [ConvertValue(store, params[0], args[0])] + ConvertArgs(store, params[1..], args[1..])
  }

  /**
   * CallMemberVisitor applied to the unwrapped receiver: Call/Invoke when the
   * receiver's alternative converts to the handler's receiver type, and the
   * catch-all otherwise, which reports true and leaves the output alone.
   */
  function CallMemberVisitor(bodies: HandlerBodies, h: Handler, store: seq<Value>, args: seq<Value>, result: Value, receiver: Value)
    : (o: (HandlerOutcome, seq<Diagnostic>))
    requires IsConvertible(receiver, h.receiver) ==> ArgsResolve(store, h.params, args)
    ensures !IsConvertible(receiver, h.receiver) ==> o == (HandlerOutcome(true, result), [WrongReceiverType])
    ensures IsConvertible(receiver, h.receiver) ==> o.1 == []
    ensures IsConvertible(receiver, h.receiver) ==>
      exists recv: Native, converted: seq<Native> ::
        && ToValue(recv) == Some(receiver)
        && |converted| == |h.params|
        && (forall i :: 0 <= i < |h.params| ==> converted[i] == ConvertValue(store, h.params[i], args[i]))
        && o.0 == bodies(h.fn, recv, result, converted)
  {
    if IsConvertible(receiver, h.receiver) then
      var recv := ValueConverter(h.receiver, receiver);
      var converted := ConvertArgs(store, h.params, args);
      (bodies(h.fn, recv, result, converted), [])
    else
      (HandlerOutcome(true, result), [WrongReceiverType])
  }

  /** What CallMember demands: a resolvable receiver, and arguments for a handler that will be invoked. */
  predicate CallableWith(store: seq<Value>, obj: Value, h: Handler, args: seq<Value>) {
    && Resolves(store, obj)
    && (IsConvertible(Terminal(store, obj), h.receiver) ==> ArgsResolve(store, h.params, args))
  }

  // ---------------------------------------------------------------------
  // CallMember
  // ---------------------------------------------------------------------

  /**
   * Looks the method's key up in the registry and, when found, applies the
   * visitor to the unwrapped receiver. Returns whether the call was
   * attempted, the output Value afterwards and the diagnostics emitted.
   */
  method CallMember(bodies: HandlerBodies, store: seq<Value>, obj: Value, m: MethodIdentity, args: seq<Value>, result: Value)
    returns (attempted: bool, result': Value, log: seq<Diagnostic>)
    requires SignatureKey(m) in Table ==> CallableWith(store, obj, Table[SignatureKey(m)], args)
    // not registered: not attempted, output untouched, one diagnostic naming the key
    ensures SignatureKey(m) !in Table ==>
      !attempted && result' == result && log == [NoImplementation(SignatureKey(m))]
    // registered, receiver accepted: exactly the handler's outcome
    ensures SignatureKey(m) in Table && IsConvertible(Terminal(store, obj), Table[SignatureKey(m)].receiver) ==>
      var h := Table[SignatureKey(m)];
      var receiver := Terminal(store, obj);
      && HandlerOutcome(attempted, result') ==
           bodies(h.fn, ValueConverter(h.receiver, receiver), result, ConvertArgs(store, h.params, args))
      && log == [TryingToCall(SignatureKey(m), receiver.Which())]
    // registered, receiver rejected: reported as attempted, output untouched
    ensures SignatureKey(m) in Table && !IsConvertible(Terminal(store, obj), Table[SignatureKey(m)].receiver) ==>
      && attempted && result' == result
      && log == [TryingToCall(SignatureKey(m), Terminal(store, obj).Which()), WrongReceiverType]
  {
    var key := SignatureKey(m);
    if key !in Table {
      return false, result, [NoImplementation(key)];
    }
    var h := Table[key];
    var receiver := Terminal(store, obj);
    log := [TryingToCall(key, receiver.Which())];
    var (outcome, visitLog) := CallMemberVisitor(bodies, h, store, args, result, receiver);
    attempted, result' := outcome.returned, outcome.result;
    log := log + visitLog;
  }

  /**
   * The Compiler::require row (row 1) registers a handler taking (bool,
   * string): with arguments true and "ok" it receives exactly those; with
   * "x" and "y" its bool argument falls back to false.
   */
  lemma RequireArgumentsConverted(store: seq<Value>)
    ensures Handlers[1].fn == Compiler_require && Handlers[1].params == [BoolType, StringType]
    ensures ConvertArgs(store, [BoolType, StringType], [BoolValue(true), StringValue("ok")])
      == [NativeBool(true), NativeString("ok")]
    ensures ConvertArgs(store, [BoolType, StringType], [StringValue("x"), StringValue("y")])
      == [NativeBool(false), NativeString("y")]
  {
    var a := ConvertArgs(store, [BoolType, StringType], [BoolValue(true), StringValue("ok")]);
    var b := ConvertArgs(store, [BoolType, StringType], [StringValue("x"), StringValue("y")]);
    assert a[0] == NativeBool(true) && a[1] == NativeString("ok");
    assert b[0] == NativeBool(false) && b[1] == NativeString("y");
  }
}
