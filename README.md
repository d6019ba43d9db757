# Interpreter values and native member dispatch

A model of the core of the metaclass interpreter in `src/generators/metaclasses`:
the tagged runtime `Value` the interpreter computes with, and `CallMember`,
which resolves an interpreted member call to a native reflection handler by a
signature key and invokes it with unwrapped, converted arguments.

- `values.dfy` (module `Values`, from `value.h`): `Value` is a datatype with one
  constructor per alternative of the variant, in declaration order, so
  `Which()` is the variant index. The three link alternatives (`InternalRef`,
  `Reference`, `Pointer`) carry the same `Ptr` and stay distinct constructors.
  A `Ptr`'s pointee is an optional slot index into the evaluation
  environment's storage (`None` is the null pointee); `SlotStore` is that
  storage, and `Clear` resets a slot's Value in place.
- `value_ops.dfy` (module `ValueOps`): unwrapping a Value through its links
  (`UnwrapWithin`, `GetActualValue`), the visitors `Apply` and `Apply2` that
  act on unwrapped values, and the best-effort conversions `ValueConverter`,
  `ConvertValue` and `ConvertToBool`.
- `registry.dfy` (module `Registry`): the thirty-row table of signature keys
  and handlers, and `Populate`, which fills a map from rows the way the
  initializer list fills the static hash map (a repeated key keeps its first
  handler).
- `dispatch.dfy` (module `Dispatch`): `SignatureKey`, argument marshalling
  (`ConvertArgs`), `CallMemberVisitor` and `CallMember`.
- `wrappers.dfy`: the `Option` datatype.

The handler bodies are a parameter of `CallMember` (`bodies`), a function from
the native handler, the converted receiver, the incoming output Value and the
converted arguments to the handler's boolean return and the output Value it
leaves. The diagnostics printed to standard output are returned as a sequence
of `Diagnostic` values.

Two points of the dispatch a reader might expect otherwise:

- The catch-all overload of the visitor (value_ops.cpp:99-103) returns `true`
  and leaves `result` as it was; it does not set it to Void.
- `Invoke` converts each argument to its handler parameter's type before the
  call (value_ops.cpp:84); the handler receives converted natives.

## Model

| member | source | states |
|---|---|---|
| `Values.Value.Which` | src/generators/metaclasses/value.h:48-59 | The variant index is below ten and is 7, 8 or 9 exactly for the three link alternatives. |
| `Values.DefaultValue` | src/generators/metaclasses/value.h:61-63 | A default-constructed Value is empty, is a no-value and is not void. |
| `Values.TagPredicates` | src/generators/metaclasses/value.h:78-91 | `IsEmpty` holds exactly for `EmptyValue`, `IsVoid` exactly for `VoidValue`, never both; `IsNoValue` holds exactly for those two. |
| `Values.NoValueOnlyForEmptyAndVoid` | src/generators/metaclasses/value.h:88-91 | Every alternative other than Empty and Void (bool, int, float, string, object and the three links) is not a no-value. |
| `Values.DefaultPtr` | src/generators/metaclasses/value.h:25-30 | A default-constructed link has a null pointee. |
| `Values.PtrTo` | src/generators/metaclasses/value.h:26-28 | A link built from a pointee stores exactly that pointee. |
| `Values.LinkTagsDistinct` | src/generators/metaclasses/value.h:33-58 | The three link alternatives built from the same link are different Values with indices 7, 8 and 9, and each keeps the link. |
| `Values.SlotStore.constructor` | src/generators/metaclasses/value.h:61-63 | Fresh storage holds default-constructed, empty Values. |
| `Values.SlotStore.Clear` | src/generators/metaclasses/value.h:93-96 | Clearing sets exactly that slot to Empty (empty, no-value, not void) whatever it held, and leaves the other slots alone. |
| `Values.ClearIdempotent` | src/generators/metaclasses/value.h:93-96 | Clearing twice leaves the same state as clearing once. |
| `ValueOps.UnwrapWithin` | src/generators/metaclasses/value_ops.cpp:19-25 | Unwrapping returns a non-link Value when it succeeds, and returns a non-link Value unchanged. |
| `ValueOps.LinkTransparent` | src/generators/metaclasses/value_ops.cpp:19-25 | A resolvable link unwraps to what the Value in its slot unwraps to. |
| `ValueOps.ChainUnwraps` | src/generators/metaclasses/value_ops.cpp:19-25 | A chain of links ending in a non-link Value unwraps to that Value given fuel for its length. |
| `ValueOps.NullChainFails` | src/generators/metaclasses/value_ops.cpp:19-25 | A chain ending at a null pointee fails to unwrap for every fuel, without dereferencing it. |
| `ValueOps.GetActualValueOnChains` | src/generators/metaclasses/value_ops.cpp:178 | `GetActualValue` follows every chain that never revisits a slot to its terminal Value, and fails on every such chain ending at a null pointee. |
| `ValueOps.ClearSeenThroughLinks` | src/generators/metaclasses/value.h:93-96 | After a slot is cleared in place, every link to it unwraps to Empty: links observe, not copy, their pointee. |
| `ValueOps.DefaultLinkNeverResolves` | src/generators/metaclasses/value.h:30 | A link with the default null pointee never resolves. |
| `ValueOps.ApplyLooksThroughLinks` | src/generators/metaclasses/value_ops.cpp:19-25 | `Apply` on a link gives what it gives on the link's pointee, and the visitor is only ever shown a non-link Value. |
| `ValueOps.Apply2LooksThroughLinks` | src/generators/metaclasses/value_ops.cpp:27-35 | `Apply2` unwraps both operands before the binary visit. |
| `ValueOps.ToValue` | src/generators/metaclasses/value_ops.cpp:40-44 | A native value is held by a payload alternative (never a link or a no-value) exactly when it is not an enumeration. |
| `ValueOps.DefaultOf` | src/generators/metaclasses/value_ops.cpp:46-50 | `R()` has type `R`. |
| `ValueOps.ValueConverter` | src/generators/metaclasses/value_ops.cpp:37-51 | The result has the requested type; a convertible payload is returned as is; anything else gives `R()`. |
| `ValueOps.ConvertValue` | src/generators/metaclasses/value_ops.cpp:53-57 | Conversion is total on every Value that resolves and acts on the unwrapped Value: its payload if convertible, otherwise `R()`. |
| `ValueOps.ConvertToBool` | src/generators/metaclasses/value_ops.cpp:59-62 | The result is true exactly when the unwrapped Value is the bool `true`. |
| `ValueOps.ConvertRoundTrip` | src/generators/metaclasses/value_ops.cpp:40-44 | Converting a payload Value to its own native type gives back the native value. |
| `ValueOps.CrossConversionsDefault` | src/generators/metaclasses/value_ops.cpp:46-50 | A bool asked for as a string gives "", a string asked for as a bool gives false, and Empty or Void converts to false. |
| `Registry.Populate` | src/generators/metaclasses/value_ops.cpp:127-158 | Filling a map from rows adds exactly the rows' keys and never overwrites an entry already present. |
| `Registry.PopulateFirstWins` | src/generators/metaclasses/value_ops.cpp:127-158 | The first row carrying a new key decides that key's handler. |
| `Registry.PopulateIdempotent` | src/generators/metaclasses/value_ops.cpp:127 | Filling the map a second time from the same rows changes nothing. |
| `Registry.PopulateSize` | src/generators/metaclasses/value_ops.cpp:127-158 | Rows with distinct new keys add one entry each. |
| `Registry.EntriesDistinct` | src/generators/metaclasses/value_ops.cpp:127-158 | The table has thirty rows with pairwise-distinct keys. |
| `Registry.TableLookup` | src/generators/metaclasses/value_ops.cpp:127-158 | Every row's key is in the registry and looks up that row's handler. |
| `Registry.TableHasThirtyEntries` | src/generators/metaclasses/value_ops.cpp:127-158 | The registry has exactly thirty entries. |
| `Registry.TableInitIdempotent` | src/generators/metaclasses/value_ops.cpp:127 | Initialising the registry again from its rows leaves every lookup unchanged. |
| `Registry.RangeBeginShared` | src/generators/metaclasses/value_ops.cpp:135-145 | The MethodInfo, MemberInfo and TypeInfo range rows for begin() register the same RangeT_begin handler. |
| `Dispatch.SignatureKey` | src/generators/metaclasses/value_ops.cpp:160-167 | The key is the qualified name, then "/", then the printed declaration. |
| `Dispatch.OverloadsGetDistinctKeys` | src/generators/metaclasses/value_ops.cpp:160-167 | Two methods with the same qualified name and different declarations get different keys. |
| `Dispatch.SignatureKeyInjective` | src/generators/metaclasses/value_ops.cpp:160-167 | When qualified names contain no "/", equal keys mean the same method. |
| `Dispatch.ConvertArgs` | src/generators/metaclasses/value_ops.cpp:81-85 | The handler gets one argument per parameter, argument i converted to parameter type i; extra arguments are ignored. |
| `Dispatch.CallMemberVisitor` | src/generators/metaclasses/value_ops.cpp:81-103 | A receiver that converts to the handler's receiver type reaches the handler with that payload and the converted arguments; any other receiver takes the catch-all: true, output untouched, one diagnostic. |
| `Dispatch.CallMember` | src/generators/metaclasses/value_ops.cpp:113-180 | Unregistered key: false, output untouched, a diagnostic naming the key. Registered key, receiver accepted: exactly the handler's return and output. Registered key, receiver rejected: true with the output untouched. |
| `Dispatch.RequireArgumentsConverted` | src/generators/metaclasses/value_ops.cpp:129 | The require handler takes (bool, string); arguments true and "ok" arrive unchanged, while "x" for the bool parameter arrives as false. |

## Left out

- `src/generators/enum2string_generator.cpp`: clang matcher setup, template text and rendering to streams. It is I/O and foreign-library plumbing, with no computation beyond a string join.
- Rendering the method's key with clang's printing policy (value_ops.cpp:162-166) is a foreign call. `MethodIdentity` carries the already-rendered qualified name and declaration.
- The text of the standard-output diagnostics (value_ops.cpp:101, 173, 178) is not modelled. Each message is a `Diagnostic` value in the returned log.
- The bodies of the `ReflectedMethods` handlers are not part of this model. They are the `bodies` parameter. A reflected object is only its kind tag and an opaque handle, and its default is an unbound handle.
- The parameter types of the handlers themselves are not part of this model. Each row's parameter types come from the printed declaration in its key: `const char *` is a string, `bool` is a bool, `meta::MethodInfo` and the iterator are reflected objects, and `meta::AccessType` is an enumeration.
- `APInt` and `APFloat` arithmetic: an integer is an unbounded `int`, and a float is an opaque bit pattern that converts to no native type.
- `std::is_convertible`: the payload types are taken to have no implicit conversions to one another, so conversion succeeds only to the payload's own type. No alternative converts to an enumeration.
- `ApplyUnwrapped` and `GetActualValue` are declared in `value_ops.h`, which is not part of this model. Unwrapping follows links through at most as many slots as the store has. It fails on a null pointee, on a slot outside the store, and on a cycle.
- Unresolvable links: `ConvertValue`, `Apply` and `CallMember` require the Values they unwrap to resolve, since the source dereferences the unwrapped result (value_ops.cpp:178). What the source does with an unresolvable link is not modelled.
- `Dispatch.CallMember`: three consequences of the code that the contract carries but a reader may not expect. (a) Every row's receiver type is a reflected object (`OnObject`), because the variant has a single `ReflectedObject` alternative (value_ops.cpp:93-103); the catch-all is therefore chosen by the Value's alternative only, an object's `ObjectKind` plays no part in dispatch, and a receiver of the wrong kind reaches the handler, which alone could reject it. (b) On an accepted receiver `attempted` is the handler's own boolean return (value_ops.cpp:179), not always `true`. (c) `ArgsResolve` requires at least as many arguments as the row has parameters, since `args[Idxs]` is read unchecked (value_ops.cpp:84); a call with too few arguments, such as a one-argument `add` against row 4's two parameters (the access argument is defaulted at value_ops.cpp:132 only in the printed declaration), reads past the argument vector in the source and is excluded by the model.
- The thread-safe, on-first-use initialisation of the function-local static registry (value_ops.cpp:127) is a concurrency concern. The registry is a constant built by `Populate` from the rows.
- The `std::function` thunks (value_ops.cpp:115-125) are plumbing. Each row holds its handler directly.
- The `InterpreterImpl*` parameter is passed through to handlers unchanged and is not modelled.
- The templated `Value` constructors and the `GetValue` accessors (value.h:65-76): a Value is built from and read as its datatype constructor directly.
