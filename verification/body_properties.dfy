/**
 * What the synthetic-body builder guarantees: the derived views hold exactly
 * the allocation and invoke statements, seeding copies the original
 * statements in order and picks the least value number above all of their
 * slots, every operation only appends, the constant-1 slot is taken at most
 * once, each candidate type yields one allocate / return / construct triple
 * and is never emitted twice, and the per-abstraction dispatch adds what it
 * should. The invariant `WellFormed` is preserved by every operation that
 * adds statements for types.
 */
module BodyProperties {
  import opened FactoryIr
  import opened SyntheticBody

  // ---------------------------------------------------------------------
  // Derived views

  lemma AllocationsAppend(log: seq<Stmt>, s: Stmt)
    ensures Allocations(log + [s]) == Allocations(log) + (if IsAllocation(s) then [s] else [])
  {
    assert (log + [s])[..|log + [s]| - 1] == log;
  }

  lemma CallsAppend(log: seq<Stmt>, s: Stmt)
    ensures Calls(log + [s]) == Calls(log) + (if IsCall(s) then [s] else [])
  {
    assert (log + [s])[..|log + [s]| - 1] == log;
  }

  lemma AppendKeepsViews(b: Builder, s: Stmt)
    requires b.allocations == Allocations(b.log) && b.calls == Calls(b.log)
    ensures Append(b, s).allocations == Allocations(Append(b, s).log)
    ensures Append(b, s).calls == Calls(Append(b, s).log)
  {
    AllocationsAppend(b.log, s);
    CallsAppend(b.log, s);
  }

  /** The allocation view holds exactly the allocations of the log, the call view exactly its invokes. */
  lemma {:induction false} ViewsHoldExactly(log: seq<Stmt>)
    ensures forall s :: s in Allocations(log) <==> s in log && IsAllocation(s)
    ensures forall s :: s in Calls(log) <==> s in log && IsCall(s)
  {
    if log != [] {
      ViewsHoldExactly(log[..|log| - 1]);
      assert log == log[..|log| - 1] + [log[|log| - 1]];
    }
  }

  // ---------------------------------------------------------------------
  // Seeding

  /** The original instructions as statements of the log. */
  function Originals(ss: seq<Instr>): (r: seq<Stmt>)
    ensures |r| == |ss|
    ensures forall j :: 0 <= j < |ss| ==> r[j] == Original(ss[j])
  {
    seq(|ss|, j requires 0 <= j < |ss| => Original(ss[j]))
  }

  /** Seeding copies the original statements in order and feeds each derived view its own kind. */
  lemma {:induction false} AppendOriginalsCopies(b: Builder, ss: seq<Instr>)
    ensures AppendOriginals(b, ss).log == b.log + Originals(ss)
    ensures AppendOriginals(b, ss).allocations == b.allocations + Allocations(Originals(ss))
    ensures AppendOriginals(b, ss).calls == b.calls + Calls(Originals(ss))
    ensures AppendOriginals(b, ss).(log := b.log, allocations := b.allocations, calls := b.calls) == b
  {
    if ss != [] {
      var init := ss[..|ss| - 1];
      var last := Original(ss[|ss| - 1]);
      AppendOriginalsCopies(b, init);
      assert Originals(ss) == Originals(init) + [last];
      AllocationsAppend(Originals(init), last);
      CallsAppend(Originals(init), last);
    }
  }

  /** The running maximum ends at or above its start, above every slot, and just past one of them if it moved. */
  lemma {:induction false} SlotBoundSpec(n: int, vs: seq<int>)
    ensures SlotBound(n, vs) >= n
    ensures forall v :: v in vs ==> v < SlotBound(n, vs)
    ensures SlotBound(n, vs) == n || SlotBound(n, vs) - 1 in vs
  {
    if vs != [] {
      var init := vs[..|vs| - 1];
      SlotBoundSpec(n, init);
      assert vs == init + [vs[|vs| - 1]];
    }
  }

  lemma {:induction false} FirstFreeFromSpec(n: int, ss: seq<Instr>)
    ensures FirstFreeFrom(n, ss) >= n
    ensures forall s :: s in ss ==> SlotsBelow(s, FirstFreeFrom(n, ss))
    ensures FirstFreeFrom(n, ss) == n
      || exists s :: s in ss && (FirstFreeFrom(n, ss) - 1 in s.defs || FirstFreeFrom(n, ss) - 1 in s.uses)
  {
    if ss != [] {
      var init := ss[..|ss| - 1];
      var last := ss[|ss| - 1];
      FirstFreeFromSpec(n, init);
      var m := FirstFreeFrom(n, init);
      var d := SlotBound(m, last.defs);
      var r := SlotBound(d, last.uses);
      SlotBoundSpec(m, last.defs);
      SlotBoundSpec(d, last.uses);
      assert FirstFreeFrom(n, ss) == r;
      forall s | s in ss
        ensures SlotsBelow(s, r)
      {
        if s != last {
          assert s in init by { assert ss == init + [last]; }
        }
      }
      if r != n && r == d && d == m {
        var s :| s in init && (m - 1 in s.defs || m - 1 in s.uses);
        assert s in ss;
      }
    }
  }

  /**
   * The first free value number is at least 2, lies above every def and
   * every use of the original statements, and is the least such number.
   */
  lemma FirstFreeBounds(ss: seq<Instr>)
    ensures FirstFree(ss) >= FirstLocal
    ensures forall s :: s in ss ==> SlotsBelow(s, FirstFree(ss))
    ensures FirstFree(ss) == FirstLocal
      || exists s :: s in ss && (FirstFree(ss) - 1 in s.defs || FirstFree(ss) - 1 in s.uses)
  {
    FirstFreeFromSpec(FirstLocal, ss);
  }

  /** A freshly seeded builder holds exactly the original statements, classified, and nothing else yet. */
  lemma SeedFields(ss: seq<Instr>)
    ensures Seed(ss).log == Originals(ss)
    ensures ViewsConsistent(Seed(ss))
    ensures Seed(ss).types == {} && Seed(ss).one == Unallocated && Seed(ss).nextLocal == FirstFree(ss)
  {
    var e := Empty();
    var a := AppendOriginals(e, ss);
    AppendOriginalsCopies(e, ss);
    var o := Originals(ss);
    assert a.log == o by { assert e.log + o == o; }
    assert a.allocations == Allocations(o) by { assert e.allocations + Allocations(o) == Allocations(o); }
    assert a.calls == Calls(o) by { assert e.calls + Calls(o) == Calls(o); }
    assert a.types == e.types && a.one == e.one;
  }

  /** A freshly seeded builder satisfies the invariant. */
  lemma SeedWellFormed(ss: seq<Instr>)
    ensures WellFormed(Seed(ss))
    ensures Seed(ss).log == Originals(ss)
  {
    SeedFields(ss);
    FirstFreeBounds(ss);
    var r := Seed(ss);
    forall s | s in r.log
      ensures s.Original? && s.instr in ss
    {
      var j :| 0 <= j < |r.log| && r.log[j] == s;
    }
  }

  // ---------------------------------------------------------------------
  // Growth only

  /**
   * `r` extends `b`: every view and the type set only grow, and the only
   * value number taken from `nextLocal` is the constant-1 slot, at most once.
   */
  ghost predicate Grows(b: Builder, r: Builder) {
    && b.log <= r.log
    && b.allocations <= r.allocations
    && b.calls <= r.calls
    && b.types <= r.types
    && b.warnings <= r.warnings
    && (b.one != Unallocated ==> r.one == b.one && r.nextLocal == b.nextLocal)
    && (b.one == Unallocated ==>
          (r.one == Unallocated && r.nextLocal == b.nextLocal)
          || (r.one == b.nextLocal && r.nextLocal == b.nextLocal + 1))
  }

  lemma GrowsTransitive(a: Builder, b: Builder, c: Builder)
    requires Grows(a, b) && Grows(b, c)
    ensures Grows(a, c)
  {
  }

  lemma EmitTypeGrows(env: Env, b: Builder, k: Klass)
    ensures Grows(b, EmitType(env, b, k))
    ensures EmitType(env, b, k).warnings == b.warnings
  {
  }

  lemma {:induction false} EmitTypesGrows(env: Env, b: Builder, ks: seq<Klass>)
    ensures Grows(b, EmitTypes(env, b, ks))
    ensures EmitTypes(env, b, ks).warnings == b.warnings
  {
    if ks != [] {
      var init := ks[..|ks| - 1];
      EmitTypesGrows(env, b, init);
      EmitTypeGrows(env, EmitTypes(env, b, init), ks[|ks| - 1]);
      GrowsTransitive(b, EmitTypes(env, b, init), EmitTypes(env, b, ks));
    }
  }

  lemma AddForSetGrows(env: Env, b: Builder, ks: seq<Klass>)
    ensures Grows(b, AddForSet(env, b, ks))
    ensures AddForSet(env, b, ks).warnings == b.warnings
  {
    if ks != [] {
      EmitTypesGrows(env, b, ks);
    }
  }

  /** Adding statements for any abstraction only appends, and takes the constant-1 slot at most once. */
  lemma AddForAbstractionGrows(env: Env, b: Builder, T: TypeAbstraction)
    ensures Grows(b, AddForAbstraction(env, b, T))
  {
    match Intercept(T)
    case None =>
    case Some(T') =>
      match T'
      case PointType(t) =>
      case ConeType(t, isInterface) =>
        var b' := b.(warnings := b.warnings + ConeWarnings(env, T', |ConeMembers(env, t, isInterface)|));
        AddForSetGrows(env, b', ConeMembers(env, t, isInterface));
        GrowsTransitive(b, b', AddForAbstraction(env, b, T));
      case SetType(_, points) =>
        AddForSetGrows(env, b, points);
  }

  /** Folding in any number of type references only appends, and takes the constant-1 slot at most once. */
  lemma {:induction false} AddAllGrows(env: Env, b: Builder, ts: seq<TypeRef>)
    ensures Grows(b, AddAll(env, b, ts))
  {
    if ts != [] {
      var init := ts[..|ts| - 1];
      AddAllGrows(env, b, init);
      AddForAbstractionGrows(env, AddAll(env, b, init), env.abstractionOf(ts[|ts| - 1]));
      GrowsTransitive(b, AddAll(env, b, init), AddAll(env, b, ts));
    }
  }

  // ---------------------------------------------------------------------
  // The invariant is preserved

  /**
   * Appending statements that carry no original instruction and allocate
   * only types new to the builder, each once and on the constant-1 slot,
   * keeps the invariant.
   */
  lemma ExtendWellFormed(b: Builder, r: Builder, added: seq<Stmt>)
    requires WellFormed(b) && ViewsConsistent(r)
    requires r.log == b.log + added
    requires b.types <= r.types && r.nextLocal >= b.nextLocal
    requires r.one == b.one || (b.one == Unallocated && r.one == b.nextLocal && r.nextLocal > r.one)
    requires forall s :: s in added ==> !s.Original?
    requires forall s :: s in added && s.New? ==> s.t in r.types && s.t !in b.types && SizesUseOne(s.sizes, r.one)
    requires forall p, q :: 0 <= p < q < |added| && added[p].New? && added[q].New? ==> added[p].t != added[q].t
    ensures WellFormed(r)
  {
    forall s | s in r.log && s.New?
      ensures s.t in r.types && SizesUseOne(s.sizes, r.one)
    {
      if s in b.log {
        assert SizesUseOne(s.sizes, b.one);
        if |s.sizes| > 0 {
          assert s.sizes[0] == b.one && b.one != Unallocated;
          assert r.one == b.one;
        }
      } else {
        var j :| 0 <= j < |r.log| && r.log[j] == s;
        assert added[j - |b.log|] == s;
      }
    }
    forall p, q | 0 <= p < q < |r.log| && r.log[p].New? && r.log[q].New?
      ensures r.log[p].t != r.log[q].t
    {
      if p >= |b.log| {
        assert r.log[p] == added[p - |b.log|] && r.log[q] == added[q - |b.log|];
      } else if q >= |b.log| {
        assert r.log[q] == added[q - |b.log|] && r.log[q] in added;
        assert r.log[p] in b.log;
      }
    }
  }

  lemma EmitTypeWellFormed(env: Env, b: Builder, k: Klass)
    requires WellFormed(b)
    ensures WellFormed(EmitType(env, b, k))
  {
    if !(k.isAbstract || k.ref in b.types) {
      var t := k.ref;
      var b1 := b.(types := b.types + {t});
      var b2 := if IsArrayType(t) then InitOne(b1) else b1;
      var i := env.localFor(t);
      var a := NewFor(env, t, b2.one);
      var c1 := Append(b2, a);
      var c2 := Append(c1, Return(i));
      var c3 := Append(c2, InvokeFor(env, t, i));
      assert EmitType(env, b, k) == c3;
      AppendKeepsViews(b2, a);
      AppendKeepsViews(c1, Return(i));
      AppendKeepsViews(c2, InvokeFor(env, t, i));
      var added := [a, Return(i), InvokeFor(env, t, i)];
      assert c3.log == b.log + added;
      assert SizesUseOne(a.sizes, c3.one);
      ExtendWellFormed(b, c3, added);
    }
  }

  lemma {:induction false} EmitTypesWellFormed(env: Env, b: Builder, ks: seq<Klass>)
    requires WellFormed(b)
    ensures WellFormed(EmitTypes(env, b, ks))
  {
    if ks != [] {
      EmitTypesWellFormed(env, b, ks[..|ks| - 1]);
      EmitTypeWellFormed(env, EmitTypes(env, b, ks[..|ks| - 1]), ks[|ks| - 1]);
    }
  }

  lemma AddForSetWellFormed(env: Env, b: Builder, ks: seq<Klass>)
    requires WellFormed(b)
    ensures WellFormed(AddForSet(env, b, ks))
  {
    if ks == [] {
      AppendKeepsViews(b, Return(b.nextLocal));
      ExtendWellFormed(b, AddForSet(env, b, ks), [Return(b.nextLocal)]);
    } else {
      EmitTypesWellFormed(env, b, ks);
    }
  }

  lemma AddForConcreteWellFormed(env: Env, b: Builder, t: TypeRef)
    requires WellFormed(b)
    ensures WellFormed(AddForConcrete(env, b, t))
  {
    if t !in b.types {
      var i := env.localFor(t);
      var a := New(i, t, [], env.newSiteFor(t));
      var b1 := b.(types := b.types + {t});
      var c1 := Append(b1, a);
      AppendKeepsViews(b1, a);
      if IsArrayType(t) {
        var c2 := Append(c1, InvokeFor(env, t, i));
        AppendKeepsViews(c1, InvokeFor(env, t, i));
        assert c2.log == b.log + [a, InvokeFor(env, t, i)];
        ExtendWellFormed(b, c2, [a, InvokeFor(env, t, i)]);
      } else {
        assert c1.log == b.log + [a];
        ExtendWellFormed(b, c1, [a]);
      }
    }
  }

  /** Adding statements for any abstraction preserves the builder invariant. */
  lemma AddForAbstractionWellFormed(env: Env, b: Builder, T: TypeAbstraction)
    requires WellFormed(b)
    ensures WellFormed(AddForAbstraction(env, b, T))
  {
    match Intercept(T)
    case None =>
    case Some(T') =>
      match T'
      case PointType(t) =>
        AddForConcreteWellFormed(env, b, t);
      case ConeType(t, isInterface) =>
        var b' := b.(warnings := b.warnings + ConeWarnings(env, T', |ConeMembers(env, t, isInterface)|));
        AddForSetWellFormed(env, b', ConeMembers(env, t, isInterface));
      case SetType(_, points) =>
        AddForSetWellFormed(env, b, points);
  }

  lemma {:induction false} AddAllWellFormed(env: Env, b: Builder, ts: seq<TypeRef>)
    requires WellFormed(b)
    ensures WellFormed(AddAll(env, b, ts))
  {
    if ts != [] {
      AddAllWellFormed(env, b, ts[..|ts| - 1]);
      AddForAbstractionWellFormed(env, AddAll(env, b, ts[..|ts| - 1]), env.abstractionOf(ts[|ts| - 1]));
    }
  }

  /** Every dimension operand of every allocation is bound to 1 by the IR's constants map. */
  lemma SizeOperandsBoundToOne(b: Builder)
    requires WellFormed(b)
    ensures forall s, k :: s in b.log && s.New? && 0 <= k < |s.sizes| ==>
      s.sizes[k] in Constants(b.one) && Constants(b.one)[s.sizes[k]] == 1
  {
    forall s, k | s in b.log && s.New? && 0 <= k < |s.sizes|
      ensures s.sizes[k] in Constants(b.one) && Constants(b.one)[s.sizes[k]] == 1
    {
      assert SizesUseOne(s.sizes, b.one);
    }
  }

  // ---------------------------------------------------------------------
  // Sets of types

  /** One iteration over a class: either nothing changes, or exactly one triple is appended and the type recorded. */
  lemma EmitTypeStep(env: Env, b: Builder, k: Klass)
    ensures var r := EmitType(env, b, k);
      if k.isAbstract || k.ref in b.types then r == b
      else
        && r.types == b.types + {k.ref}
        && r.log == b.log + Triple(env, k.ref, r.one)
        && |r.allocations| == |b.allocations| + 1
        && |r.calls| == |b.calls| + 1
        && r.warnings == b.warnings
        && (IsArrayType(k.ref) ==> r.one != Unallocated)
        && (r.one != b.one ==> IsArrayType(k.ref))
  {
  }

  /**
   * Each emitted type adds exactly three statements, one allocation and one
   * call; a type is emitted exactly when it enters `types`.
   */
  lemma {:induction false} EmitTypesCounts(env: Env, b: Builder, ks: seq<Klass>)
    ensures |EmitTypes(env, b, ks).log| == |b.log| + 3 * |EmitTypes(env, b, ks).types - b.types|
    ensures |EmitTypes(env, b, ks).allocations| == |b.allocations| + |EmitTypes(env, b, ks).types - b.types|
    ensures |EmitTypes(env, b, ks).calls| == |b.calls| + |EmitTypes(env, b, ks).types - b.types|
  {
    if ks != [] {
      var init := ks[..|ks| - 1];
      var k := ks[|ks| - 1];
      EmitTypesCounts(env, b, init);
      EmitTypesGrows(env, b, init);
      var r' := EmitTypes(env, b, init);
      EmitTypeStep(env, r', k);
      if !(k.isAbstract || k.ref in r'.types) {
        var r := EmitType(env, r', k);
        assert r.types - b.types == (r'.types - b.types) + {k.ref};
        assert k.ref !in r'.types - b.types;
      }
    }
  }

  /** When every class is abstract or already allocated, the loop changes nothing. */
  lemma {:induction false} EmitTypesAllSkipped(env: Env, b: Builder, ks: seq<Klass>)
    requires forall k :: k in ks ==> k.isAbstract || k.ref in b.types
    ensures EmitTypes(env, b, ks) == b
  {
    if ks != [] {
      var init := ks[..|ks| - 1];
      assert forall k :: k in init ==> k in ks;
      EmitTypesAllSkipped(env, b, init);
      EmitTypeStep(env, b, ks[|ks| - 1]);
    }
  }

  /** Statements for a set of types: an empty iterator appends one return of `nextLocal` and changes nothing else. */
  lemma AddForSetShape(env: Env, b: Builder, ks: seq<Klass>)
    ensures ks == [] ==> AddForSet(env, b, ks) == b.(log := b.log + [Return(b.nextLocal)])
    ensures ks != [] ==> var r := AddForSet(env, b, ks);
      && |r.log| == |b.log| + 3 * |r.types - b.types|
      && |r.allocations| == |b.allocations| + |r.types - b.types|
      && |r.calls| == |b.calls| + |r.types - b.types|
    ensures ks != [] && (forall k :: k in ks ==> k.isAbstract || k.ref in b.types) ==> AddForSet(env, b, ks) == b
  {
    if ks != [] {
      EmitTypesCounts(env, b, ks);
      if forall k :: k in ks ==> k.isAbstract || k.ref in b.types {
        EmitTypesAllSkipped(env, b, ks);
      }
    }
  }

  /** The allocate / return / construct triple emitted for one type, all on the type's value number. */
  function Triple(env: Env, t: TypeRef, one: int): seq<Stmt> {
    [NewFor(env, t, one), Return(env.localFor(t)), InvokeFor(env, t, env.localFor(t))]
  }

  function Triples(env: Env, ks: seq<Klass>, one: int): seq<Stmt> {
    if ks == [] then [] else Triples(env, ks[..|ks| - 1], one) + Triple(env, ks[|ks| - 1].ref, one)
  }

  function RefsOf(ks: seq<Klass>): set<TypeRef> {
    set k | k in ks :: k.ref
  }

  /** Concrete, not yet allocated, and pairwise distinct. */
  ghost predicate FreshTypes(b: Builder, ks: seq<Klass>) {
    && (forall k :: k in ks ==> !k.isAbstract && k.ref !in b.types)
    && (forall p, q :: 0 <= p < q < |ks| ==> ks[p].ref != ks[q].ref)
  }

  lemma {:induction false} TriplesWithoutArrays(env: Env, ks: seq<Klass>, o1: int, o2: int)
    requires forall k :: k in ks ==> !IsArrayType(k.ref)
    ensures Triples(env, ks, o1) == Triples(env, ks, o2)
  {
    if ks != [] {
      TriplesWithoutArrays(env, ks[..|ks| - 1], o1, o2);
    }
  }

  /** Splitting off the last of a fresh list leaves a fresh list and a type none of them has. */
  lemma FreshSplit(b: Builder, ks: seq<Klass>)
    requires FreshTypes(b, ks) && ks != []
    ensures FreshTypes(b, ks[..|ks| - 1])
    ensures !ks[|ks| - 1].isAbstract && ks[|ks| - 1].ref !in b.types + RefsOf(ks[..|ks| - 1])
    ensures RefsOf(ks) == RefsOf(ks[..|ks| - 1]) + {ks[|ks| - 1].ref}
  {
    var init := ks[..|ks| - 1];
    var k := ks[|ks| - 1];
    assert ks == init + [k];
  }

  /** N fresh types are all recorded, and allocations and calls each grow by N. */
  lemma {:induction false} EmitTypesFreshRecords(env: Env, b: Builder, ks: seq<Klass>)
    requires FreshTypes(b, ks)
    ensures EmitTypes(env, b, ks).types == b.types + RefsOf(ks)
    ensures |EmitTypes(env, b, ks).allocations| == |b.allocations| + |ks|
    ensures |EmitTypes(env, b, ks).calls| == |b.calls| + |ks|
  {
    if ks != [] {
      var init := ks[..|ks| - 1];
      FreshSplit(b, ks);
      EmitTypesFreshRecords(env, b, init);
      EmitTypeStep(env, EmitTypes(env, b, init), ks[|ks| - 1]);
    }
  }

  /** Once an array type is emitted among fresh types, the constant-1 slot is taken. */
  lemma {:induction false} EmitTypesTakeSlot(env: Env, b: Builder, ks: seq<Klass>)
    requires FreshTypes(b, ks)
    ensures (exists k :: k in ks && IsArrayType(k.ref)) ==> EmitTypes(env, b, ks).one != Unallocated
  {
    if ks != [] {
      var init := ks[..|ks| - 1];
      var k := ks[|ks| - 1];
      FreshSplit(b, ks);
      EmitTypesTakeSlot(env, b, init);
      EmitTypesFreshRecords(env, b, init);
      var r' := EmitTypes(env, b, init);
      EmitTypeGrows(env, r', k);
      EmitTypeStep(env, r', k);
      if exists k0 :: k0 in ks && IsArrayType(k0.ref) {
        if !IsArrayType(k.ref) {
          var k0 :| k0 in ks && IsArrayType(k0.ref);
          assert k0 in init by { assert ks == init + [k]; }
        }
      }
    }
  }

  /**
   * N fresh types append exactly N allocate / return / construct triples, in
   * iteration order, every array allocation using the one constant-1 slot.
   */
  lemma {:induction false} EmitTypesFresh(env: Env, b: Builder, ks: seq<Klass>)
    requires FreshTypes(b, ks)
    ensures EmitTypes(env, b, ks).log == b.log + Triples(env, ks, EmitTypes(env, b, ks).one)
  {
    if ks != [] {
      var init := ks[..|ks| - 1];
      var k := ks[|ks| - 1];
      FreshSplit(b, ks);
      EmitTypesFresh(env, b, init);
      EmitTypesFreshRecords(env, b, init);
      var r' := EmitTypes(env, b, init);
      var r := EmitType(env, r', k);
      EmitTypeStep(env, r', k);
      var one := r.one;
      assert r.log == r'.log + Triple(env, k.ref, one);
      assert Triples(env, ks, one) == Triples(env, init, one) + Triple(env, k.ref, one);
      if r'.one != one {
        EmitTypesTakeSlot(env, b, init);
        TriplesWithoutArrays(env, init, r'.one, one);
      }
    }
  }

  /** Array types of any dimensionality share a single constant-1 slot, taken from `nextLocal`. */
  lemma ArraysShareOneSlot(env: Env, b: Builder, ks: seq<Klass>)
    requires FreshTypes(b, ks)
    requires b.one == Unallocated
    requires exists k :: k in ks && IsArrayType(k.ref)
    ensures EmitTypes(env, b, ks).one == b.nextLocal
    ensures EmitTypes(env, b, ks).nextLocal == b.nextLocal + 1
    ensures EmitTypes(env, b, ks).log == b.log + Triples(env, ks, b.nextLocal)
  {
    EmitTypesFresh(env, b, ks);
    EmitTypesTakeSlot(env, b, ks);
    EmitTypesGrows(env, b, ks);
  }

  // ---------------------------------------------------------------------
  // Dispatch over the three abstractions

  /** The marker interface adds no statement and records one warning. */
  lemma SerializableIgnored(env: Env, b: Builder, T: TypeAbstraction)
    requires T.t == JavaIoSerializable
    ensures AddForAbstraction(env, b, T) == b.(warnings := b.warnings + [IgnoreSerializable])
  {
  }

  /**
   * A point type never appends a return; it appends a constructor call only
   * for an array type, and only when the simple allocation happened.
   */
  lemma PointTypeNoReturn(env: Env, b: Builder, t: TypeRef)
    requires t != JavaIoSerializable
    ensures var r := AddForAbstraction(env, b, PointType(t));
      && b.log <= r.log
      && (forall s :: s in r.log[|b.log|..] ==> !s.Return?)
      && ((exists s :: s in r.log[|b.log|..] && s.Invoke?) <==> IsArrayType(t) && t !in b.types)
      && (t in b.types <==> r.log == b.log)
      && r.one == b.one && r.nextLocal == b.nextLocal && r.warnings == b.warnings
  {
    var r := AddForAbstraction(env, b, PointType(t));
    if t !in b.types {
      var i := env.localFor(t);
      var a := New(i, t, [], env.newSiteFor(t));
      if IsArrayType(t) {
        assert r.log[|b.log|..] == [a, InvokeFor(env, t, i)];
      } else {
        assert r.log[|b.log|..] == [a];
      }
    }
  }

  /**
   * A cone records a no-subtypes warning exactly when it expands to nothing
   * and a many-subtypes warning exactly when it expands beyond the bound, then
   * hands the whole expansion to the set-of-types step; an empty cone appends
   * the lone fallback return.
   */
  lemma ConeDispatch(env: Env, b: Builder, t: TypeRef, isInterface: bool)
    requires t != JavaIoSerializable
    ensures var T := ConeType(t, isInterface);
      var ks := ConeMembers(env, t, isInterface);
      var r := AddForAbstraction(env, b, T);
      && b.warnings <= r.warnings
      && (NoSubtypes(T) in r.warnings[|b.warnings|..] <==> |ks| == 0)
      && (ManySubtypes(T, |ks|) in r.warnings[|b.warnings|..] <==> |ks| > env.coneBound)
      && r.(warnings := b.warnings) == AddForSet(env, b, ks)
  {
    var T := ConeType(t, isInterface);
    var ks := ConeMembers(env, t, isInterface);
    var w := ConeWarnings(env, T, |ks|);
    var r := AddForAbstraction(env, b, T);
    AddForSetGrows(env, b.(warnings := b.warnings + w), ks);
    assert r.warnings[|b.warnings|..] == w;
    if ks != [] {
      EmitTypesIgnoresWarnings(env, b, ks, b.warnings + w);
      EmitTypesGrows(env, b, ks);
    }
  }

  lemma {:induction false} EmitTypesIgnoresWarnings(env: Env, b: Builder, ks: seq<Klass>, w: seq<Warning>)
    ensures EmitTypes(env, b.(warnings := w), ks) == EmitTypes(env, b, ks).(warnings := w)
  {
    if ks != [] {
      EmitTypesIgnoresWarnings(env, b, ks[..|ks| - 1], w);
    }
  }

  /** A set abstraction is handed verbatim to the set-of-types step, with no warning. */
  lemma SetTypeDispatch(env: Env, b: Builder, t: TypeRef, points: seq<Klass>)
    requires t != JavaIoSerializable
    ensures AddForAbstraction(env, b, SetType(t, points)) == AddForSet(env, b, points)
  {
  }

  // ---------------------------------------------------------------------
  // The fallback return of an empty set of types

  /**
   * The lone return added for an empty set of types names `nextLocal` without
   * taking it, so an array type added next takes that same value number as
   * its constant-1 slot: the fallback return then returns the constant 1.
   */
  lemma FallbackReturnSharesSlot(env: Env, b: Builder, k: Klass)
    requires b.one == Unallocated && !k.isAbstract && k.ref !in b.types && IsArrayType(k.ref)
    ensures var r := EmitType(env, AddForSet(env, b, []), k);
      && Return(r.one) in r.log
      && r.one == b.nextLocal
  {
    var b1 := AddForSet(env, b, []);
    assert b1.log == b.log + [Return(b.nextLocal)];
    var r := EmitType(env, b1, k);
    assert r.one == b.nextLocal;
    assert r.log[|b.log|] == Return(b.nextLocal);
  }
}
