/**
 * The synthetic-body builder of one specialised factory method, as a value:
 * its append-only statement log, the two derived views of it (allocations
 * and calls), the types it has allocated, the next free value number, the
 * slot of the integer constant 1, and the warnings it has recorded. Every
 * operation of the builder is a function from one such state to the next;
 * the class in FactoryMethod is proved against these functions.
 */
module SyntheticBody {
  import opened FactoryIr

  datatype Builder = Builder(
    log: seq<Stmt>,
    allocations: seq<Stmt>,
    calls: seq<Stmt>,
    types: set<TypeRef>,
    nextLocal: nat,
    one: int,
    warnings: seq<Warning>)

  /** The value of `valueNumberForConstantOne` before the slot is taken. */
  const Unallocated: int := -1

  /** Value number 1 is `this`, so numbering of other locals starts at 2. */
  const FirstLocal: int := 2

  // ---------------------------------------------------------------------
  // Classification and the derived views

  predicate IsAllocation(s: Stmt) {
    s.New? || (s.Original? && s.instr.isNew)
  }

  predicate IsCall(s: Stmt) {
    s.Invoke? || (s.Original? && s.instr.isInvoke)
  }

  /** The allocation statements of a log, in log order. */
  function Allocations(log: seq<Stmt>): seq<Stmt> {
    if log == [] then []
    else Allocations(log[..|log| - 1]) + (if IsAllocation(log[|log| - 1]) then [log[|log| - 1]] else [])
  }

  /** The invoke statements of a log, in log order. */
  function Calls(log: seq<Stmt>): seq<Stmt> {
    if log == [] then []
    else Calls(log[..|log| - 1]) + (if IsCall(log[|log| - 1]) then [log[|log| - 1]] else [])
  }

  /** Add one statement to the log and to whichever derived view it belongs to. */
  function Append(b: Builder, s: Stmt): Builder {
    b.(log := b.log + [s],
       allocations := b.allocations + (if IsAllocation(s) then [s] else []),
       calls := b.calls + (if IsCall(s) then [s] else []))
  }

  // ---------------------------------------------------------------------
  // Seeding from the original statements

  /** One step of the running maximum: a slot at or above `n` moves `n` just past it. */
  function Raise(n: int, v: int): int {
    if v >= n then v + 1 else n
  }

  /** The running maximum over a list of slots, scanned left to right. */
  function SlotBound(n: int, vs: seq<int>): (r: int)
    ensures r >= n
  {
    if vs == [] then n else Raise(SlotBound(n, vs[..|vs| - 1]), vs[|vs| - 1])
  }

  /** The running maximum after the defs and then the uses of one instruction. */
  function InstrBound(n: int, s: Instr): int {
    SlotBound(SlotBound(n, s.defs), s.uses)
  }

  /** The running maximum over a list of instructions, starting from `n`. */
  function FirstFreeFrom(n: int, ss: seq<Instr>): (r: int)
    ensures r >= n
  {
    if ss == [] then n else InstrBound(FirstFreeFrom(n, ss[..|ss| - 1]), ss[|ss| - 1])
  }

  /** The first value number the original statements leave free. */
  function FirstFree(ss: seq<Instr>): nat {
    FirstFreeFrom(FirstLocal, ss)
  }

  /** Copy original instructions into the log, classifying each one. */
  function AppendOriginals(b: Builder, ss: seq<Instr>): Builder {
    if ss == [] then b else Append(AppendOriginals(b, ss[..|ss| - 1]), Original(ss[|ss| - 1]))
  }

  /** The state of a freshly allocated builder, before any statement is added. */
  function Empty(): Builder {
    Builder([], [], [], {}, 0, Unallocated, [])
  }

  /** A builder seeded from the original statements. */
  function Seed(ss: seq<Instr>): Builder {
    AppendOriginals(Empty(), ss).(nextLocal := FirstFree(ss))
  }

  // ---------------------------------------------------------------------
  // Emitting statements for types

  /** Take the slot for the constant 1 from `nextLocal`, unless it was taken already. */
  function InitOne(b: Builder): Builder {
    if b.one == Unallocated then b.(one := b.nextLocal, nextLocal := b.nextLocal + 1) else b
  }

  /** `n` dimension operands, all the same slot. */
  function Ones(n: nat, v: int): (r: seq<int>)
    ensures |r| == n
    ensures forall k :: 0 <= k < n ==> r[k] == v
  {
    seq(n, _ => v)
  }

  /** The allocation emitted for type `t` on its value number when the constant-1 slot is `one`. */
  function NewFor(env: Env, t: TypeRef, one: int): Stmt {
    New(env.localFor(t), t, if IsArrayType(t) then Ones(t.dims, one) else [], env.newSiteFor(t))
  }

  /** The constructor call emitted for type `t` on value number `i`. */
  function InvokeFor(env: Env, t: TypeRef, i: int): Stmt {
    Invoke([i], env.excFor(t), t, env.callSiteFor(t))
  }

  /** One iteration of the loop over a set of types: skip, or allocate, return and construct. */
  function EmitType(env: Env, b: Builder, k: Klass): Builder {
    if k.isAbstract || k.ref in b.types then b
    else
      var t := k.ref;
      var b1 := b.(types := b.types + {t});
      var b2 := if IsArrayType(t) then InitOne(b1) else b1;
      var i := env.localFor(t);
      Append(Append(Append(b2, NewFor(env, t, b2.one)), Return(i)), InvokeFor(env, t, i))
  }

  /** The loop over a list of classes, in iteration order. */
  function EmitTypes(env: Env, b: Builder, ks: seq<Klass>): Builder {
    if ks == [] then b else EmitType(env, EmitTypes(env, b, ks[..|ks| - 1]), ks[|ks| - 1])
  }

  /** Statements for a set of types: a lone fallback return when there are none. */
  function AddForSet(env: Env, b: Builder, ks: seq<Klass>): Builder {
    if ks == [] then Append(b, Return(b.nextLocal)) else EmitTypes(env, b, ks)
  }

  /**
   * The inherited simple allocation for one concrete type: -1 when the type
   * was allocated already, otherwise one allocation on the type's value number.
   */
  function AddConcreteSimpleType(env: Env, b: Builder, t: TypeRef): (Builder, int) {
    if t in b.types then (b, -1)
    else
      var i: int := env.localFor(t);
      (Append(b.(types := b.types + {t}), New(i, t, [], env.newSiteFor(t))), i)
  }

  /** Statements for exactly one type: the simple allocation, plus a constructor call for arrays. */
  function AddForConcrete(env: Env, b: Builder, t: TypeRef): Builder {
    var p := AddConcreteSimpleType(env, b, t);
    if p.1 == -1 then p.0
    else if IsArrayType(t) then Append(p.0, InvokeFor(env, t, p.1))
    else p.0
  }

  /** The abstraction that is modelled, or None for the ignored marker interface. */
  function Intercept(T: TypeAbstraction): (r: Option<TypeAbstraction>)
    ensures r.None? <==> T.t == JavaIoSerializable
    ensures r.Some? ==> r.value == T
  {
    if T.t == JavaIoSerializable then None else Some(T)
  }

  /** The classes a cone expands to. */
  function ConeMembers(env: Env, t: TypeRef, isInterface: bool): seq<Klass> {
    if isInterface then env.implementors(t) else env.subclasses(t)
  }

  /** The warnings a cone expansion of `n` classes records. */
  function ConeWarnings(env: Env, T: TypeAbstraction, n: nat): seq<Warning> {
    (if n == 0 then [NoSubtypes(T)] else []) + (if n > env.coneBound then [ManySubtypes(T, n)] else [])
  }

  /** Statements for one type abstraction, dispatched over its three forms. */
  function AddForAbstraction(env: Env, b: Builder, T: TypeAbstraction): Builder {
    match Intercept(T)
    case None => b.(warnings := b.warnings + [IgnoreSerializable])
    case Some(T') =>
      match T'
      case PointType(t) => AddForConcrete(env, b, t)
      case ConeType(t, isInterface) =>
        var ks := ConeMembers(env, t, isInterface);
        AddForSet(env, b.(warnings := b.warnings + ConeWarnings(env, T', |ks|)), ks)
      case SetType(_, points) => AddForSet(env, b, points)
  }

  /** Statements for a list of type references, each through its abstraction. */
  function AddAll(env: Env, b: Builder, ts: seq<TypeRef>): Builder {
    if ts == [] then b else AddForAbstraction(env, AddAll(env, b, ts[..|ts| - 1]), env.abstractionOf(ts[|ts| - 1]))
  }

  /** The constants map the IR receives: the constant-1 slot bound to 1, once it exists. */
  function Constants(one: int): map<int, int> {
    if one > Unallocated then map[one := 1] else map[]
  }

  // ---------------------------------------------------------------------
  // The invariant every builder keeps

  /** Every operand of an allocation's size list is the constant-1 slot, which is then taken. */
  ghost predicate SizesUseOne(sizes: seq<int>, one: int) {
    forall k :: 0 <= k < |sizes| ==> one != Unallocated && sizes[k] == one
  }

  /** Every def and use of an original instruction lies below `bound`. */
  ghost predicate SlotsBelow(s: Instr, bound: int) {
    (forall v :: v in s.defs ==> v < bound) && (forall v :: v in s.uses ==> v < bound)
  }

  /** The derived views are exactly the allocations and the invokes of the log. */
  ghost predicate ViewsConsistent(b: Builder) {
    b.allocations == Allocations(b.log) && b.calls == Calls(b.log)
  }

  /** The slots of the original statements are never handed out again. */
  ghost predicate SlotsReserved(b: Builder) {
    && b.nextLocal >= FirstLocal
    && (b.one == Unallocated || FirstLocal <= b.one < b.nextLocal)
    && (forall s :: s in b.log && s.Original? ==> SlotsBelow(s.instr, b.nextLocal))
    && (b.one != Unallocated ==> forall s :: s in b.log && s.Original? ==> SlotsBelow(s.instr, b.one))
  }

  /**
   * Every allocated type is recorded, no type is allocated twice, and every
   * dimension operand is the shared constant-1 slot.
   */
  ghost predicate AllocationsUnique(b: Builder) {
    && (forall s :: s in b.log && s.New? ==> s.t in b.types)
    && (forall p, q :: 0 <= p < q < |b.log| && b.log[p].New? && b.log[q].New? ==> b.log[p].t != b.log[q].t)
    && (forall s :: s in b.log && s.New? ==> SizesUseOne(s.sizes, b.one))
  }

  /** The invariant every builder keeps. */
  ghost predicate WellFormed(b: Builder) {
    ViewsConsistent(b) && SlotsReserved(b) && AllocationsUnique(b)
  }
}
