# Factory bypass: specialised factory methods, in Dafny

This project models the factory-method specialiser of WALA's reflection
support (`FactoryBypassInterpreter`). A call to a synthetic "factory" method
(for example `Class.newInstance`) is given, per analysis context, a
synthetic body. The body allocates, returns and constructs each concrete type
the analysis has discovered that the factory may create in that context.

It has two parts.

- **The registry** (`FactoryBypass.FactoryBypassInterpreter`, file
  `registry.dfy`):
  - It maps each context to its discovered types (`typesByContext`).
  - It maps each context to the specialised method built for it
    (`syntheticMethodCache`).
  - Recording a new type for a context pushes the type into the context's
    method, if one is cached, and invalidates that method's cached IR.
  - A user reflection specification, where it names a caller site, takes
    precedence over the discovered types when a method is built. Recording
    never consults it: a type recorded for a covered context is still pushed
    into the cached method, which was seeded from the user's types, so that
    body can hold both (`RecordType` has no user-specification condition).
- **The synthetic-body builder** (`FactoryMethod.SpecializedFactoryMethod`,
  file `factory_method.dfy`). Its state is:
  - an append-only statement log;
  - two derived views of the log, its allocations and its calls;
  - the set of allocated types;
  - the next free value number;
  - a lazily taken value number for the integer constant 1.

  The builder seeds the log from the method summary's own statements. Each type
  abstraction then adds statements, depending on its form:
  - a point type allocates exactly one type;
  - a cone expands to its implementors or subclasses;
  - a set type is an explicit list.

Every state-changing method of the builder class is proved against a pure
function over the `SyntheticBody.Builder` value (`synthetic_body.dfy`). Its
postcondition is `State() == F(old(State()))`, where F is:

| method | function |
|---|---|
| `AddOriginalStatements` | `AppendOriginals` (and `FirstFree` for its result) |
| `InitValueNumberForConstantOne` | `InitOne` |
| `AddStatementsForConcreteSimpleType` | `AddConcreteSimpleType` |
| `AddStatementsForConcreteType` | `AddForConcrete` |
| `AddStatementsForClass` (one loop iteration) | `EmitType` |
| `AddStatementsForSetOfTypes` | `AddForSet` |
| `AddStatementsForTypeAbstraction` | `AddForAbstraction` |
| constructor | `AddAll` over `Seed` |

`GetStatements` and `MakeIR` change nothing. They are specified directly:
the array equals the log, and the constants map is `Constants` of the slot.
The properties of the functions are lemmas in `body_properties.dfy`.
`ir.dfy` holds the shared entities and `Env`, which gathers the
collaborators outside the model.

The invariant `WellFormed` (the class predicate `Valid()`) is the
conjunction of three predicates. The constructor establishes it. The three
methods that add statements for types (`AddStatementsForTypeAbstraction`,
`AddStatementsForConcreteType`, `AddStatementsForSetOfTypes`) require and
keep it, and the registry keeps it for every cached method. The internal steps
`AddOriginalStatements`, `InitValueNumberForConstantOne`,
`AddStatementsForConcreteSimpleType` and `AddStatementsForClass` are
specified by their function only; the lemmas `SeedWellFormed`,
`EmitTypeWellFormed` and `AddForConcreteWellFormed` show that the invariant
holds around them. The three predicates are:
- `ViewsConsistent`: the views are exactly the allocations and calls of the log.
- `SlotsReserved`: value numbers of the summary's statements are never handed
  out again, and the constant-1 slot lies between them and `nextLocal`.
- `AllocationsUnique`: no type is allocated twice, and every array dimension
  operand is the constant-1 slot.

## Model

| member | source | states |
|---|---|---|
| FactoryBypass.FactoryBypassInterpreter.RecordType | com.ibm.wala.core/src/com/ibm/wala/analysis/reflection/FactoryBypassInterpreter.java:190-209 | Returns true iff the type was not yet recorded for the context, and the context's set becomes the old set plus the type. The method cache never changes, so recording creates no method. If the type is new and a method is cached, that method's state becomes `AddForAbstraction` of its old state, its old log stays a prefix, and exactly one invalidation of (method, context) is logged. Otherwise no method and no invalidation changes. Afterwards every synthetic factory node of the context is understood. |
| FactoryBypass.RecordTypeTwice | com.ibm.wala.core/src/com/ibm/wala/analysis/reflection/FactoryBypassInterpreter.java:190-209 | Recording the same type twice: the second call returns false and changes nothing. The net effect is the first call's: the cache is unchanged. The context's cached method, if the type was new, becomes `AddForAbstraction` of its old state, and every other cached method is unchanged. The invalidation log keeps its old entries and gains exactly one (method, context) entry when the type was new and a method is cached, and none otherwise. |
| FactoryBypass.FactoryBypassInterpreter.FindOrCreate | com.ibm.wala.core/src/com/ibm/wala/analysis/reflection/FactoryBypassInterpreter.java:254-262 | A cached context returns the same object and changes nothing. Otherwise a fresh method is built from exactly the context's types (user or discovered), seeded from the node's summary, and inserted under that context only. |
| FactoryBypass.TypesForContext | com.ibm.wala.core/src/com/ibm/wala/analysis/reflection/FactoryBypassInterpreter.java:102-119 | A user specification entry for a caller site is returned as is; without one, the result is present iff types were discovered for the context, and it is then exactly that set. |
| FactoryBypass.UserSpecOverrides | com.ibm.wala.core/src/com/ibm/wala/analysis/reflection/FactoryBypassInterpreter.java:102-119 | Where the user specification covers a caller site, the lookup gives the same result for every discovered map; the two are never merged in the lookup. |
| FactoryBypass.RecordedTypeHiddenByUserSpec | com.ibm.wala.core/src/com/ibm/wala/analysis/reflection/FactoryBypassInterpreter.java:102-119 | Recording types for a context the user specification covers never changes that context's type set. |
| FactoryBypass.RecordedTypeVisible | com.ibm.wala.core/src/com/ibm/wala/analysis/reflection/FactoryBypassInterpreter.java:102-119 | Otherwise, after recording, the context's types are the old ones plus the recorded type. |
| FactoryBypass.FactoryBypassInterpreter.Understands | com.ibm.wala.core/src/com/ibm/wala/analysis/reflection/FactoryBypassInterpreter.java:137-149 | A node is understood iff its method is synthetic and a factory and its context has types, from the user or from recording. |
| FactoryBypass.FactoryBypassInterpreter.GetNumberOfStatements | com.ibm.wala.core/src/com/ibm/wala/analysis/reflection/FactoryBypassInterpreter.java:125-131 | Returns the length of the context's method log, which is at least the number of statements of the method's summary. A cached context reuses its method, leaves the cache unchanged and returns the old log length. Otherwise a fresh method is added under the node's context only, and the count is the log length of `AddAll` over the seeded summary, in an order that enumerates the context's types exactly. |
| FactoryBypass.FactoryBypassInterpreter.DistinctContextsDistinctMethods | com.ibm.wala.core/src/com/ibm/wala/analysis/reflection/FactoryBypassInterpreter.java:580-583 | The cached methods of two different contexts are never equal. |
| FactoryBypass.FactoryBypassInterpreter.constructor | com.ibm.wala.core/src/com/ibm/wala/analysis/reflection/FactoryBypassInterpreter.java:77-92 | Starts with no types, no cached methods and no invalidations. |
| FactoryMethod.SpecializedFactoryMethod.constructor | com.ibm.wala.core/src/com/ibm/wala/analysis/reflection/FactoryBypassInterpreter.java:373-395 | Seeds the log from the summary, then adds each type of the given set once, in an order that enumerates the set exactly. The result is `AddAll(Seed(summary))` over that order, it is well formed, and the summary's statements are a prefix of the log. |
| FactoryMethod.SpecializedFactoryMethod.AddOriginalStatements | com.ibm.wala.core/src/com/ibm/wala/analysis/reflection/FactoryBypassInterpreter.java:495-522 | The log grows by the summary's statements, classified into the views. The returned value number is `FirstFree` of them. |
| FactoryMethod.SpecializedFactoryMethod.InitValueNumberForConstantOne | com.ibm.wala.core/src/com/ibm/wala/analysis/reflection/FactoryBypassInterpreter.java:367-371 | Takes the constant-1 slot from `nextLocal` the first time only. |
| FactoryMethod.SpecializedFactoryMethod.AddStatementsForTypeAbstraction | com.ibm.wala.core/src/com/ibm/wala/analysis/reflection/FactoryBypassInterpreter.java:397-460 | The new state is `AddForAbstraction` of the old one, and the invariant is kept. |
| FactoryMethod.SpecializedFactoryMethod.AddStatementsForConcreteSimpleType | com.ibm.wala.core/src/com/ibm/wala/analysis/reflection/FactoryBypassInterpreter.java:479 | Returns -1 and changes nothing for a type already allocated. Otherwise it records the type and appends one allocation with no size operands on the type's value number, which it returns. |
| FactoryMethod.SpecializedFactoryMethod.AddStatementsForConcreteType | com.ibm.wala.core/src/com/ibm/wala/analysis/reflection/FactoryBypassInterpreter.java:478-493 | The new state is `AddForConcrete` of the old one, and the invariant is kept. |
| FactoryMethod.SpecializedFactoryMethod.AddStatementsForSetOfTypes | com.ibm.wala.core/src/com/ibm/wala/analysis/reflection/FactoryBypassInterpreter.java:524-562 | The new state is `AddForSet` of the old one, proved by a loop over the classes, and the invariant is kept. |
| FactoryMethod.SpecializedFactoryMethod.AddStatementsForClass | com.ibm.wala.core/src/com/ibm/wala/analysis/reflection/FactoryBypassInterpreter.java:531-561 | One iteration of that loop: the new state is `EmitType` of the old one. |
| FactoryMethod.SpecializedFactoryMethod.GetStatements | com.ibm.wala.core/src/com/ibm/wala/analysis/reflection/FactoryBypassInterpreter.java:595-603 | A fresh array holding the log, in order. |
| FactoryMethod.SpecializedFactoryMethod.MakeIR | com.ibm.wala.core/src/com/ibm/wala/analysis/reflection/FactoryBypassInterpreter.java:629-637 | The instructions are the log. The constants map binds the constant-1 slot to 1 iff the slot was taken, and binds nothing else. Every dimension operand of every allocation is bound in it. |
| FactoryMethod.SpecializedFactoryMethod.Equals | com.ibm.wala.core/src/com/ibm/wala/analysis/reflection/FactoryBypassInterpreter.java:580-583 | Equal exactly when the argument is this same object. |
| SyntheticBody.Intercept | com.ibm.wala.core/src/com/ibm/wala/analysis/reflection/FactoryBypassInterpreter.java:462-470 | The abstraction is dropped iff its type is `java.io.Serializable`; any other abstraction is kept unchanged. |
| SyntheticBody.Ones | com.ibm.wala.core/src/com/ibm/wala/analysis/reflection/FactoryBypassInterpreter.java:542-544 | The size operands of an array allocation: as many as the dimensionality, each the constant-1 slot. |
| BodyProperties.ViewsHoldExactly | com.ibm.wala.core/src/com/ibm/wala/analysis/reflection/FactoryBypassInterpreter.java:501-507 | A statement is in the allocation view iff it is an allocation of the log, and in the call view iff it is an invoke of the log. |
| BodyProperties.AppendOriginalsCopies | com.ibm.wala.core/src/com/ibm/wala/analysis/reflection/FactoryBypassInterpreter.java:495-507 | Seeding appends the summary's statements in order, and the views grow by exactly their allocations and calls. No other field changes. |
| BodyProperties.SlotBoundSpec | com.ibm.wala.core/src/com/ibm/wala/analysis/reflection/FactoryBypassInterpreter.java:508-519 | The running maximum is above every scanned value number and at or above its start, and it is the start or one past a scanned value. |
| BodyProperties.FirstFreeFromSpec | com.ibm.wala.core/src/com/ibm/wala/analysis/reflection/FactoryBypassInterpreter.java:498-521 | The same, over every def and use of every statement. |
| BodyProperties.FirstFreeBounds | com.ibm.wala.core/src/com/ibm/wala/analysis/reflection/FactoryBypassInterpreter.java:495-522 | The returned value number is at least 2 and above every def and use of the summary's statements, and it is the least such number. |
| BodyProperties.SeedFields | com.ibm.wala.core/src/com/ibm/wala/analysis/reflection/FactoryBypassInterpreter.java:387-388 | A freshly seeded builder's log is exactly the summary's statements, its views are consistent, it has no types and no constant-1 slot, and `nextLocal` is the first free value number. |
| BodyProperties.SeedWellFormed | com.ibm.wala.core/src/com/ibm/wala/analysis/reflection/FactoryBypassInterpreter.java:387-388 | A freshly seeded builder is well formed, and its log is exactly the summary's statements. |
| BodyProperties.GrowsTransitive | com.ibm.wala.core/src/com/ibm/wala/analysis/reflection/FactoryBypassInterpreter.java:339-365 | Growth (the log, the views, the types and the warnings only extend, and `nextLocal` moves only for the constant-1 slot) composes. |
| BodyProperties.EmitTypeGrows | com.ibm.wala.core/src/com/ibm/wala/analysis/reflection/FactoryBypassInterpreter.java:531-561 | One loop iteration grows the builder and records no warning. |
| BodyProperties.EmitTypesGrows | com.ibm.wala.core/src/com/ibm/wala/analysis/reflection/FactoryBypassInterpreter.java:531-561 | The whole loop grows the builder and records no warning. |
| BodyProperties.AddForSetGrows | com.ibm.wala.core/src/com/ibm/wala/analysis/reflection/FactoryBypassInterpreter.java:524-562 | Adding a set of types grows the builder and records no warning. |
| BodyProperties.AddForAbstractionGrows | com.ibm.wala.core/src/com/ibm/wala/analysis/reflection/FactoryBypassInterpreter.java:397-460 | Adding any abstraction grows the builder: the old log stays a prefix. |
| BodyProperties.AddAllGrows | com.ibm.wala.core/src/com/ibm/wala/analysis/reflection/FactoryBypassInterpreter.java:390-394 | Adding a list of types grows the builder. |
| BodyProperties.ExtendWellFormed | com.ibm.wala.core/src/com/ibm/wala/analysis/reflection/FactoryBypassInterpreter.java:339-365 | Appending fresh, distinct, non-original allocations that use the constant-1 slot keeps the invariant. |
| BodyProperties.EmitTypeWellFormed | com.ibm.wala.core/src/com/ibm/wala/analysis/reflection/FactoryBypassInterpreter.java:531-561 | One loop iteration keeps the invariant. |
| BodyProperties.EmitTypesWellFormed | com.ibm.wala.core/src/com/ibm/wala/analysis/reflection/FactoryBypassInterpreter.java:531-561 | The loop keeps the invariant. |
| BodyProperties.AddForSetWellFormed | com.ibm.wala.core/src/com/ibm/wala/analysis/reflection/FactoryBypassInterpreter.java:524-562 | Adding a set of types keeps the invariant. |
| BodyProperties.AddForConcreteWellFormed | com.ibm.wala.core/src/com/ibm/wala/analysis/reflection/FactoryBypassInterpreter.java:478-493 | Adding one concrete type keeps the invariant. |
| BodyProperties.AddForAbstractionWellFormed | com.ibm.wala.core/src/com/ibm/wala/analysis/reflection/FactoryBypassInterpreter.java:397-460 | Adding any abstraction keeps the invariant. |
| BodyProperties.AddAllWellFormed | com.ibm.wala.core/src/com/ibm/wala/analysis/reflection/FactoryBypassInterpreter.java:390-394 | Adding a list of types keeps the invariant. |
| BodyProperties.SizeOperandsBoundToOne | com.ibm.wala.core/src/com/ibm/wala/analysis/reflection/FactoryBypassInterpreter.java:541-545 | Every dimension operand of every allocation in a well-formed log is bound to 1 by the constants map. |
| BodyProperties.EmitTypeStep | com.ibm.wala.core/src/com/ibm/wala/analysis/reflection/FactoryBypassInterpreter.java:531-561 | An abstract or already allocated class changes nothing. Any other class records its type and appends New, Return, Invoke, all on the type's value number. Allocations and calls each grow by one, the constant-1 slot is taken for an array, and it changes only for an array. |
| BodyProperties.EmitTypesCounts | com.ibm.wala.core/src/com/ibm/wala/analysis/reflection/FactoryBypassInterpreter.java:531-561 | The log grows by three statements and each view by one for every type that enters `types`, and by nothing else. |
| BodyProperties.EmitTypesAllSkipped | com.ibm.wala.core/src/com/ibm/wala/analysis/reflection/FactoryBypassInterpreter.java:534-536 | A list whose classes are all abstract or already allocated changes nothing. |
| BodyProperties.AddForSetShape | com.ibm.wala.core/src/com/ibm/wala/analysis/reflection/FactoryBypassInterpreter.java:524-562 | An empty list appends exactly one `Return(nextLocal)` and changes nothing else. A non-empty list follows the per-type counts, and one whose classes are all skipped changes nothing. |
| BodyProperties.FallbackReturnSharesSlot | com.ibm.wala.core/src/com/ibm/wala/analysis/reflection/FactoryBypassInterpreter.java:526-529 | With no constant-1 slot yet, the fallback return of an empty set names `nextLocal`; a new array class added next takes that same number as the slot, so the fallback return then returns the constant 1. |
| BodyProperties.TriplesWithoutArrays | com.ibm.wala.core/src/com/ibm/wala/analysis/reflection/FactoryBypassInterpreter.java:541-549 | Without array types, the emitted statements do not depend on the constant-1 slot. |
| BodyProperties.FreshSplit | com.ibm.wala.core/src/com/ibm/wala/analysis/reflection/FactoryBypassInterpreter.java:534-537 | The last of a list of fresh, distinct classes is fresh after the others were recorded. |
| BodyProperties.EmitTypesFreshRecords | com.ibm.wala.core/src/com/ibm/wala/analysis/reflection/FactoryBypassInterpreter.java:531-561 | N fresh, distinct classes are all recorded, and allocations and calls each grow by N. |
| BodyProperties.EmitTypesFresh | com.ibm.wala.core/src/com/ibm/wala/analysis/reflection/FactoryBypassInterpreter.java:531-561 | N fresh classes append exactly their N New/Return/Invoke triples, in iteration order. |
| BodyProperties.EmitTypesTakeSlot | com.ibm.wala.core/src/com/ibm/wala/analysis/reflection/FactoryBypassInterpreter.java:541-545 | When an array type is among N fresh classes, the constant-1 slot is taken. |
| BodyProperties.ArraysShareOneSlot | com.ibm.wala.core/src/com/ibm/wala/analysis/reflection/FactoryBypassInterpreter.java:541-545 | When arrays of any dimensionality appear, a single constant-1 slot is taken: the first free value number, at most once. |
| BodyProperties.SerializableIgnored | com.ibm.wala.core/src/com/ibm/wala/analysis/reflection/FactoryBypassInterpreter.java:462-470 | A `java.io.Serializable` abstraction adds no statement and records one ignore-Serializable warning. |
| BodyProperties.PointTypeNoReturn | com.ibm.wala.core/src/com/ibm/wala/analysis/reflection/FactoryBypassInterpreter.java:478-493 | A point type never appends a return. It appends an invoke iff the type is an array not yet allocated, and changes the log iff the type was new. The constant-1 slot, `nextLocal` and the warnings are unchanged. |
| BodyProperties.ConeDispatch | com.ibm.wala.core/src/com/ibm/wala/analysis/reflection/FactoryBypassInterpreter.java:416-451 | A cone records a no-subtypes warning iff it expands to nothing, and a many-subtypes warning iff it expands beyond the cone bound. It then adds exactly what the set-of-types step adds for the whole expansion. |
| BodyProperties.EmitTypesIgnoresWarnings | com.ibm.wala.core/src/com/ibm/wala/analysis/reflection/FactoryBypassInterpreter.java:531-561 | The loop neither reads nor writes the warnings. |
| BodyProperties.SetTypeDispatch | com.ibm.wala.core/src/com/ibm/wala/analysis/reflection/FactoryBypassInterpreter.java:455-456 | A set type is handed unchanged to the set-of-types step, with no warning. |

## Left out

- Value numbers and site numbers per type (`getLocalForType`,
  `getNewSiteForType`, `getCallSiteForType`, `getExceptionsForType`) come
  from the specialised-method superclass, which is not part of this model.
  They are functions of the type in `Env`.
  - No invariant relates `getLocalForType` to the constant-1 slot or to the
    summary's value numbers, so the model does not claim those never collide.
- FactoryMethod.SpecializedFactoryMethod.AddStatementsForConcreteSimpleType:
  this superclass method is not part of this model. It is modelled as: skip
  and return -1 for a type already in `types`, otherwise record the type and
  append one allocation with no size operands. This is an assumption about
  the unseen code. The claims below rest on it for point types; for the
  loop over a set of types, the visible code alone gives them.
- FactoryMethod.SpecializedFactoryMethod.MakeIR: its last ensures (every
  dimension operand of every allocation is bound in the constants map) holds
  for point-type arrays only because the assumed simple allocation gives
  them no dimension operands. The superclass cannot use the private
  constant-1 slot, so a real superclass array allocation with operands
  would not be covered.
- BodyProperties.SizeOperandsBoundToOne: conditional on the same assumption,
  for the same reason.
- SyntheticBody.AllocationsUnique: its no-duplicate clause holds for point
  types only because the assumed simple allocation returns -1 exactly for a
  type already in `types`.
- BodyProperties.PointTypeNoReturn: its two clauses tying "the type was new"
  to an invoke being appended and to the log changing rest on that same
  assumption.
- Class-hierarchy queries (`getImplementors`, `computeSubClasses`,
  `typeRef2TypeAbstraction`) and `CONE_BOUND` are also fields of `Env`.
  - Set sizes are the lengths of the returned lists.
  - A set type's points are a field of the abstraction.
- The class-target-selector lookup at lines 407-409 computes a value that is
  never used, so it is left out.
- `interceptType` records its warning itself. In the model,
  `SyntheticBody.Intercept` is pure and its caller records the warning; the
  effect is the same.
- The global warnings collector is a ghost log per builder.
- The IR cache (`findOrCreateIR`, `findOrCreateDU`, `invalidate`) is only
  a log of invalidations.
- `getIR`, `getCFG` and `getDU` are left out because the IR and CFG
  classes are not part of this model.
- The `CodeScanner` queries (fields read and written, caught exceptions,
  array load and store, cast types) are left out because the scanner is not
  part of this model.
- The registry queries `iterateNewSites`, `iterateCallSites` and
  `getInvokeStatements` (lines 151-188) are left out, because the site
  references are not part of this model.
  - `iterateNewSites` collects the new-site reference of each allocation into
    a hash set.
  - `iterateCallSites` maps each invoke to its call-site reference.
  - `getInvokeStatements` iterates the `calls` view.
- The inner getters `getAllocationStatements` and `getInvokeStatements`
  (lines 564-570) are left out; they return the `allocations` and `calls`
  fields themselves.
- `recordFactoryType` is left out; it only forwards to `recordType` after
  null checks.
- The null-argument checks (`IllegalArgumentException`) cannot occur in the
  model: its arguments are values, never null.
- The user reflection specification is a ready-made map from caller method to
  program counter to types. Parsing it (`XMLReflectionReader`,
  `ReflectionSummary`) is left out.
- `hashCode` (`System.identityHashCode`), `toString`, `Trace`/`DEBUG`
  output and the assertions on declaring classes are left out.
- The delegations `getDeclaringClass`, `getNumberOfParameters` and
  `getParameterType` are left out; they forward to the original method.
- BodyProperties.FirstFreeBounds: value numbers are unbounded integers.
  The source computes `def + 1`, `use + 1` (lines 508-519) and
  `nextLocal++` (line 369) in 32-bit Java `int`, which wraps after
  2147483647. With a def or use of 2147483647 the source returns a negative
  first free number, and "above every def and use" fails. The model
  promises it only for unbounded arithmetic.
- FactoryMethod.SpecializedFactoryMethod.AddOriginalStatements: the same
  32-bit wrap-around is not modelled.
- FactoryMethod.SpecializedFactoryMethod.InitValueNumberForConstantOne: the
  same; `nextLocal` is never assumed to overflow.
- FactoryBypass.FactoryBypassInterpreter.FindOrCreate requires a cached
  method or a known type set. The source fails on its assertion that the set
  is non-null, and does not handle that case.
- The constructor iterates a hash set, whose order is unspecified. The model
  picks elements in an arbitrary order and records it in `seedOrder`.
- SyntheticBody.AddForSet: the lone return for an empty set of types (lines
  526-529) names `nextLocal` without taking it, and the model keeps that.
  So the fallback return's value number is not reserved. An array type added
  later takes the same number as its constant-1 slot (line 369), and the
  return then yields the constant 1. `BodyProperties.FallbackReturnSharesSlot`
  shows this; `SlotsReserved` covers only the summary's value numbers.
- The model does not claim that a cached method holds every statement that
  a fresh build from the context's current types would produce. Take a
  summary with no statements, a class C whose cone has no subclasses, and a
  one-dimensional array type A. A method built for `{C}` and then given A by
  `RecordType` has the log `[Return(2), New(10, A, [2]), Return(10),
  Invoke([10], …)]`. A fresh build of `{A, C}` in the order A, C ends with
  `Return(3)`, which that log lacks. The source behaves the same way,
  through the fallback return above.
- Cancellation and rollback of a partly built log: the code has no such
  logic, so neither does the model.
