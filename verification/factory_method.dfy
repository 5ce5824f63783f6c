/**
 * A factory method specialised to one analysis context. Its synthetic body is
 * an append-only log that grows in place whenever a new type is discovered
 * for the context; `allocations` and `calls` are the derived views of it.
 * Every state-changing method is proved against a function over the
 * SyntheticBody.Builder value (`AddStatementsForTypeAbstraction` against
 * `AddForAbstraction`, `AddOriginalStatements` against `AppendOriginals`,
 * and so on). The constructor and the methods that add statements for
 * types keep the invariant `Valid()`; the internal steps they are built
 * from (`AddOriginalStatements`, `InitValueNumberForConstantOne`,
 * `AddStatementsForConcreteSimpleType`, `AddStatementsForClass`) are
 * specified by their function alone.
 */
module FactoryMethod {
  import opened FactoryIr
  import opened SyntheticBody
  import BodyProperties

  class SpecializedFactoryMethod {
    /** The method summary being specialised. */
    const summary: Summary
    /** The context being modelled. */
    const context: Context
    /** Class-hierarchy queries and the helpers of the specialised-method superclass. */
    const env: Env

    var allInstructions: seq<Stmt>
    var allocations: seq<Stmt>
    var calls: seq<Stmt>
    /** The types this method has allocated so far. */
    var types: set<TypeRef>
    /** The next free local value number. */
    var nextLocal: nat
    /** The value number of the integer constant 1, or -1 while none was needed. */
    var valueNumberForConstantOne: int
    /** Warnings recorded while the body was built. */
    ghost var warnings: seq<Warning>
    /** The order in which the constructor visited the types it was given. */
    ghost var seedOrder: seq<TypeRef>

    ghost function State(): Builder
      reads this
    {
      Builder(allInstructions, allocations, calls, types, nextLocal, valueNumberForConstantOne, warnings)
    }

    ghost predicate Valid()
      reads this
    {
      WellFormed(State())
    }

    /**
     * Seed the body from the summary's statements, then add the statements
     * for every type of `S`, in the set's (unspecified) iteration order.
     */
    constructor (summary: Summary, context: Context, env: Env, S: set<TypeRef>)
      ensures this.summary == summary && this.context == context && this.env == env
      ensures Valid()
      ensures BodyProperties.Originals(summary.statements) <= allInstructions
      ensures State() == AddAll(env, Seed(summary.statements), seedOrder)
      ensures |seedOrder| == |S| && forall t :: t in seedOrder <==> t in S
    {
      this.summary := summary;
      this.context := context;
      this.env := env;
      allInstructions, allocations, calls := [], [], [];
      types := {};
      nextLocal := 0;
      valueNumberForConstantOne := Unallocated;
      warnings := [];
      new;
      var next := AddOriginalStatements(summary.statements);
      nextLocal := next;
      BodyProperties.SeedWellFormed(summary.statements);
      ghost var seed := Seed(summary.statements);
      ghost var order: seq<TypeRef> := [];
      var rest := S;
      while rest != {}
        invariant rest <= S
        invariant forall t :: t in order <==> t in S && t !in rest
        invariant |order| + |rest| == |S|
        invariant State() == AddAll(env, seed, order)
        invariant Valid()
        decreases rest
      {
        var t :| t in rest;
        AddStatementsForTypeAbstraction(env.abstractionOf(t));
        assert (order + [t])[..|order|] == order;
        order := order + [t];
        rest := rest - {t};
      }
      BodyProperties.AddAllGrows(env, seed, order);
      seedOrder := order;
    }

    /** Take the slot for the constant 1 from `nextLocal`, the first time only. */
    method InitValueNumberForConstantOne()
      modifies this
      ensures seedOrder == old(seedOrder)
      ensures State() == InitOne(old(State()))
    {
      if valueNumberForConstantOne == Unallocated {
        valueNumberForConstantOne := nextLocal;
        nextLocal := nextLocal + 1;
      }
    }

    /**
     * Copy the summary's statements into the log, feeding allocations and
     * calls, and return the first value number above all their defs and uses.
     */
    method AddOriginalStatements(original: seq<Instr>) returns (next: nat)
      modifies this
      ensures seedOrder == old(seedOrder)
      ensures State() == AppendOriginals(old(State()), original)
      ensures next == FirstFree(original)
    {
      next := FirstLocal;
      var i := 0;
      while i < |original|
        invariant 0 <= i <= |original|
        invariant State() == AppendOriginals(old(State()), original[..i])
        invariant seedOrder == old(seedOrder)
        invariant next == FirstFree(original[..i])
      {
        var s := original[i];
        allInstructions := allInstructions + [Original(s)];
        if s.isInvoke {
          calls := calls + [Original(s)];
        }
        if s.isNew {
          allocations := allocations + [Original(s)];
        }
        ghost var before := next;
        var j := 0;
        while j < |s.defs|
          invariant 0 <= j <= |s.defs|
          invariant next == SlotBound(before, s.defs[..j])
        {
          var def := s.defs[j];
          if def >= next {
            next := def + 1;
          }
          assert s.defs[..j + 1][..j] == s.defs[..j];
          j := j + 1;
        }
        assert s.defs[..|s.defs|] == s.defs;
        ghost var afterDefs := next;
        j := 0;
        while j < |s.uses|
          invariant 0 <= j <= |s.uses|
          invariant next == SlotBound(afterDefs, s.uses[..j])
        {
          var use := s.uses[j];
          if use >= next {
            next := use + 1;
          }
          assert s.uses[..j + 1][..j] == s.uses[..j];
          j := j + 1;
        }
        assert s.uses[..|s.uses|] == s.uses;
        assert original[..i + 1][..i] == original[..i];
        i := i + 1;
      }
      assert original[..|original|] == original;
    }

    /** Add the statements for one type abstraction, dispatched over point, cone and set. */
    method AddStatementsForTypeAbstraction(T: TypeAbstraction)
      requires Valid()
      modifies this
      ensures seedOrder == old(seedOrder)
      ensures Valid()
      ensures State() == AddForAbstraction(env, old(State()), T)
    {
      if Intercept(T).None? {
        warnings := warnings + [IgnoreSerializable];
        return;
      }
      match T
      case PointType(t) =>
        AddStatementsForConcreteType(t);
      case ConeType(t, isInterface) =>
        var ks := if isInterface then env.implementors(t) else env.subclasses(t);
        ghost var before := warnings;
        if |ks| == 0 {
          warnings := warnings + [NoSubtypes(T)];
        }
        if |ks| > env.coneBound {
          warnings := warnings + [ManySubtypes(T, |ks|)];
        }
        assert warnings == before + ConeWarnings(env, T, |ks|);
        AddStatementsForSetOfTypes(ks);
      case SetType(_, points) =>
        AddStatementsForSetOfTypes(points);
    }

    /**
     * The simple allocation inherited from the specialised-method superclass:
     * -1 when the type was allocated already, otherwise one allocation.
     */
    method AddStatementsForConcreteSimpleType(t: TypeRef) returns (alloc: int)
      modifies this
      ensures seedOrder == old(seedOrder)
      ensures (State(), alloc) == AddConcreteSimpleType(env, old(State()), t)
    {
      if t in types {
        return -1;
      }
      ghost var b := State();
      types := types + {t};
      alloc := env.localFor(t);
      var a := New(alloc, t, [], env.newSiteFor(t));
      allocations := allocations + [a];
      allInstructions := allInstructions + [a];
      assert State() == Append(b.(types := b.types + {t}), a);
    }

    /** Allocate exactly one type; an array type also gets its constructor call. No return. */
    method AddStatementsForConcreteType(t: TypeRef)
      requires Valid()
      modifies this
      ensures seedOrder == old(seedOrder)
      ensures Valid()
      ensures State() == AddForConcrete(env, old(State()), t)
    {
      BodyProperties.AddForConcreteWellFormed(env, State(), t);
      var alloc := AddStatementsForConcreteSimpleType(t);
      if alloc == -1 {
        return;
      }
      if IsArrayType(t) {
        var s := Invoke([alloc], env.excFor(t), t, env.callSiteFor(t));
        calls := calls + [s];
        allInstructions := allInstructions + [s];
      }
    }

    /**
     * For each concrete type not allocated before: allocate it, return it, and
     * call its constructor. With no types at all, a lone return of `nextLocal`.
     */
    method AddStatementsForSetOfTypes(ks: seq<Klass>)
      requires Valid()
      modifies this
      ensures seedOrder == old(seedOrder)
      ensures Valid()
      ensures State() == AddForSet(env, old(State()), ks)
    {
      BodyProperties.AddForSetWellFormed(env, State(), ks);
      if |ks| == 0 {
        var r := Return(nextLocal);
        allInstructions := allInstructions + [r];
        return;
      }
      var n := 0;
      while n < |ks|
        invariant 0 <= n <= |ks|
        invariant State() == EmitTypes(env, old(State()), ks[..n])
        invariant seedOrder == old(seedOrder)
      {
        AddStatementsForClass(ks[n]);
        assert ks[..n + 1][..n] == ks[..n];
        n := n + 1;
      }
      assert ks[..|ks|] == ks;
    }

    /**
     * One iteration of the loop over a set of types: an abstract or already
     * allocated class is skipped; otherwise allocate it (an array with every
     * dimension the constant 1), return it, and call its constructor.
     */
    method AddStatementsForClass(klass: Klass)
      modifies this
      ensures seedOrder == old(seedOrder)
      ensures State() == EmitType(env, old(State()), klass)
    {
      var T := klass.ref;
      if klass.isAbstract || T in types {
        return;
      }
      types := types + {T};
      var i := env.localFor(T);
      var a;
      if IsArrayType(T) {
        InitValueNumberForConstantOne();
        a := New(i, T, Ones(T.dims, valueNumberForConstantOne), env.newSiteFor(T));
      } else {
        a := New(i, T, [], env.newSiteFor(T));
      }
      assert a == NewFor(env, T, valueNumberForConstantOne);
      allocations := allocations + [a];
      allInstructions := allInstructions + [a];
      var r := Return(i);
      allInstructions := allInstructions + [r];
      var s := InvokeFor(env, T, i);
      calls := calls + [s];
      allInstructions := allInstructions + [s];
    }

    /** The statements as a fresh array, in log order. */
    method GetStatements() returns (result: array<Stmt>)
      ensures fresh(result)
      ensures result[..] == allInstructions
    {
      result := new Stmt[|allInstructions|];
      var i := 0;
      while i < |allInstructions|
        invariant 0 <= i <= |allInstructions|
        invariant result[..i] == allInstructions[..i]
        modifies result
      {
        result[i] := allInstructions[i];
        i := i + 1;
      }
    }

    /**
     * The instruction array and the constants map of the IR: the constant-1
     * slot is bound to 1 exactly when it was taken, and then it covers every
     * dimension operand of every allocation.
     */
    method MakeIR() returns (instrs: array<Stmt>, constants: map<int, int>)
      requires Valid()
      ensures fresh(instrs) && instrs[..] == allInstructions
      ensures forall v :: v in constants <==> valueNumberForConstantOne != Unallocated && v == valueNumberForConstantOne
      ensures forall v :: v in constants ==> constants[v] == 1
      ensures forall s, k :: s in allInstructions && s.New? && 0 <= k < |s.sizes| ==> s.sizes[k] in constants
    {
      instrs := GetStatements();
      constants := Constants(valueNumberForConstantOne);
      BodyProperties.SizeOperandsBoundToOne(State());
    }

    /** Two specialised methods are equal only when they are the same object. */
    predicate Equals(obj: object?)
      ensures Equals(obj) <==> obj == this
    {
      this == obj
    }
  }
}
