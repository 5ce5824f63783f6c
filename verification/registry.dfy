/**
 * The registry of the factory bypass: the types discovered per analysis
 * context, and the specialised factory methods built for contexts so far.
 * Recording a new type for a context whose method exists pushes the type
 * into that method and invalidates the method's cached IR; a user-supplied
 * reflection specification, where it covers a caller site, takes precedence
 * over the discovered types.
 */
module FactoryBypass {
  import opened FactoryIr
  import opened SyntheticBody
  import BodyProperties
  import opened FactoryMethod

  /** A user reflection specification: caller method -> program counter -> types. */
  type UserSpec = map<string, map<nat, set<TypeRef>>>

  /** The types the user specification names for a context; only caller-site contexts are covered. */
  function UserTypes(spec: Option<UserSpec>, context: Context): Option<set<TypeRef>> {
    if spec.Some? && context.CallerSite? && context.caller in spec.value && context.pc in spec.value[context.caller]
    then Some(spec.value[context.caller][context.pc])
    else None
  }

  /**
   * The types a factory method may create in a context: a user specification
   * entry wins outright; without one, the discovered types, and none when
   * nothing was discovered.
   */
  function TypesForContext(spec: Option<UserSpec>, discovered: map<Context, set<TypeRef>>, context: Context): (r: Option<set<TypeRef>>)
    ensures UserTypes(spec, context).Some? ==> r == UserTypes(spec, context)
    ensures UserTypes(spec, context).None? ==> (r.Some? <==> context in discovered)
    ensures UserTypes(spec, context).None? && context in discovered ==> r == Some(discovered[context])
  {
    match UserTypes(spec, context)
    case Some(types) => Some(types)
    case None => if context in discovered then Some(discovered[context]) else None
  }

  /** Where the user specification covers a context, the discovered types are neither consulted nor merged. */
  lemma UserSpecOverrides(spec: Option<UserSpec>, discovered: map<Context, set<TypeRef>>, context: Context)
    requires UserTypes(spec, context).Some?
    ensures forall other :: TypesForContext(spec, other, context) == TypesForContext(spec, discovered, context)
  {
  }

  class FactoryBypassInterpreter {
    const env: Env
    const userSpec: Option<UserSpec>
    /** The types a factory method might create, per context. */
    var typesByContext: map<Context, set<TypeRef>>
    /** The synthetic method built for each context so far. */
    var syntheticMethodCache: map<Context, SpecializedFactoryMethod>
    /** Every invalidation of the IR cache, with the method and context it named. */
    ghost var invalidations: seq<(SpecializedFactoryMethod, Context)>

    /**
     * Each cached method is the one for its own context, shares the
     * registry's collaborators, keeps the builder invariant, and still
     * starts with the statements of the summary it was specialised from.
     */
    ghost predicate Valid()
      reads this, syntheticMethodCache.Values
    {
      forall c :: c in syntheticMethodCache ==> Serves(syntheticMethodCache[c], c)
    }

    /** `m` is a fit method for context `c` in this registry. */
    ghost predicate Serves(m: SpecializedFactoryMethod, c: Context)
      reads m
    {
      && m.context == c
      && m.env == env
      && m.Valid()
      && BodyProperties.Originals(m.summary.statements) <= m.allInstructions
    }

    constructor (env: Env, userSpec: Option<UserSpec>)
      ensures this.env == env && this.userSpec == userSpec
      ensures typesByContext == map[] && syntheticMethodCache == map[] && invalidations == []
      ensures Valid()
    {
      this.env := env;
      this.userSpec := userSpec;
      typesByContext := map[];
      syntheticMethodCache := map[];
      invalidations := [];
    }

    /**
     * Whether the interpreter handles a node: exactly when its method is a
     * synthetic factory method and its context is covered by the user
     * specification or has a recorded type.
     */
    function Understands(node: CGNode): (r: bool)
      reads this
      ensures r <==>
        && node.summary.isSynthetic && node.summary.isFactory
        && (UserTypes(userSpec, node.context).Some? || node.context in typesByContext)
    {
      if node.summary.isSynthetic && node.summary.isFactory then
        TypesForContext(userSpec, typesByContext, node.context).Some?
      else false
    }

    /** Cached methods of two different contexts are never equal. */
    lemma DistinctContextsDistinctMethods(c1: Context, c2: Context)
      requires Valid()
      requires c1 in syntheticMethodCache && c2 in syntheticMethodCache && c1 != c2
      ensures !syntheticMethodCache[c1].Equals(syntheticMethodCache[c2])
    {
      assert Serves(syntheticMethodCache[c1], c1) && Serves(syntheticMethodCache[c2], c2);
    }

    /** The discovered types of a context; an absent context has none. */
    function TypesOf(context: Context): set<TypeRef>
      reads this
    {
      if context in typesByContext then typesByContext[context] else {}
    }

    /**
     * Record that a factory method may create `type` in `context`. Reports
     * whether the type was new; only a new type reaches the cached method
     * for the context, if there is one, and invalidates its IR once.
     */
    method RecordType(context: Context, t: TypeRef) returns (added: bool)
      requires Valid()
      modifies this, syntheticMethodCache.Values
      ensures Valid()
      ensures added <==> t !in old(TypesOf(context))
      ensures typesByContext == old(typesByContext)[context := old(TypesOf(context)) + {t}]
      ensures syntheticMethodCache == old(syntheticMethodCache)
      ensures forall node: CGNode :: node.context == context && node.summary.isSynthetic && node.summary.isFactory ==> Understands(node)
      ensures forall c :: c in syntheticMethodCache && (c != context || !added) ==>
        syntheticMethodCache[c].State() == old(syntheticMethodCache[c].State())
      ensures added && context in syntheticMethodCache ==>
        var m := syntheticMethodCache[context];
        && m.State() == AddForAbstraction(env, old(m.State()), env.abstractionOf(t))
        && old(m.allInstructions) <= m.allInstructions
        && invalidations == old(invalidations) + [(m, context)]
      ensures !(added && context in syntheticMethodCache) ==> invalidations == old(invalidations)
      ensures forall c :: c in syntheticMethodCache ==> syntheticMethodCache[c].seedOrder == old(syntheticMethodCache[c].seedOrder)
    {
      var types := TypesOf(context);
      if t in types {
        assert context in typesByContext && types + {t} == types;
        assert typesByContext[context := types + {t}] == typesByContext;
        return false;
      }
      typesByContext := typesByContext[context := types + {t}];
      if context in syntheticMethodCache {
        var m := syntheticMethodCache[context];
        assert Serves(m, context);
        ghost var before := m.State();
        m.AddStatementsForTypeAbstraction(env.abstractionOf(t));
        BodyProperties.AddForAbstractionGrows(env, before, env.abstractionOf(t));
        assert Serves(m, context);
        invalidations := invalidations + [(m, context)];
      }
      return true;
    }

    /**
     * The method for the node's context: the cached one when there is one;
     * otherwise a new method over the context's types, which is cached.
     */
    method FindOrCreate(node: CGNode) returns (m: SpecializedFactoryMethod)
      requires Valid()
      requires node.context in syntheticMethodCache || TypesForContext(userSpec, typesByContext, node.context).Some?
      modifies this
      ensures Valid()
      ensures typesByContext == old(typesByContext) && invalidations == old(invalidations)
      ensures node.context in syntheticMethodCache && syntheticMethodCache[node.context] == m
      ensures old(node.context in syntheticMethodCache) ==>
        m == old(syntheticMethodCache[node.context]) && syntheticMethodCache == old(syntheticMethodCache)
      ensures old(node.context !in syntheticMethodCache) ==>
        var S := TypesForContext(userSpec, typesByContext, node.context).value;
        && fresh(m) && m.summary == node.summary
        && syntheticMethodCache == old(syntheticMethodCache)[node.context := m]
        && m.State() == AddAll(env, Seed(node.summary.statements), m.seedOrder)
        && |m.seedOrder| == |S| && (forall t :: t in m.seedOrder <==> t in S)
    {
      if node.context in syntheticMethodCache {
        m := syntheticMethodCache[node.context];
        return;
      }
      var S := TypesForContext(userSpec, typesByContext, node.context).value;
      m := new SpecializedFactoryMethod(node.summary, node.context, env, S);
      syntheticMethodCache := syntheticMethodCache[node.context := m];
    }

    /**
     * The number of statements of the node's method, which starts with all of
     * its summary's. A cached method is reused and counted as it stands;
     * otherwise the new method is cached under the node's context only.
     */
    method GetNumberOfStatements(node: CGNode) returns (n: nat)
      requires Valid()
      requires node.context in syntheticMethodCache || TypesForContext(userSpec, typesByContext, node.context).Some?
      modifies this
      ensures Valid()
      ensures typesByContext == old(typesByContext) && invalidations == old(invalidations)
      ensures node.context in syntheticMethodCache
      ensures n == |syntheticMethodCache[node.context].allInstructions|
      ensures n >= |syntheticMethodCache[node.context].summary.statements|
      ensures old(node.context in syntheticMethodCache) ==>
        && syntheticMethodCache == old(syntheticMethodCache)
        && n == |old(syntheticMethodCache[node.context].allInstructions)|
      ensures old(node.context !in syntheticMethodCache) ==>
        && fresh(syntheticMethodCache[node.context])
        && syntheticMethodCache == old(syntheticMethodCache)[node.context := syntheticMethodCache[node.context]]
        && n >= |node.summary.statements|
        && var m := syntheticMethodCache[node.context];
           var S := old(TypesForContext(userSpec, typesByContext, node.context)).value;
           && n == |AddAll(env, Seed(node.summary.statements), m.seedOrder).log|
           && |m.seedOrder| == |S| && (forall t :: t in m.seedOrder <==> t in S)
    {
      var m := FindOrCreate(node);
      n := |m.allInstructions|;
    }
  }

  /**
   * Recording the same type twice: the first call may add it, the second never
   * does and changes nothing, so the net effect is that of the first call.
   */
  method RecordTypeTwice(r: FactoryBypassInterpreter, context: Context, t: TypeRef) returns (first: bool, second: bool)
    requires r.Valid()
    modifies r, r.syntheticMethodCache.Values
    ensures r.Valid()
    ensures first <==> t !in old(r.TypesOf(context))
    ensures !second
    ensures t in r.TypesOf(context)
    ensures r.typesByContext == old(r.typesByContext)[context := old(r.TypesOf(context)) + {t}]
    ensures r.syntheticMethodCache == old(r.syntheticMethodCache)
    ensures forall c :: c in r.syntheticMethodCache && (c != context || !first) ==>
      r.syntheticMethodCache[c].State() == old(r.syntheticMethodCache[c].State())
    ensures first && context in r.syntheticMethodCache ==>
      var m := r.syntheticMethodCache[context];
      m.State() == AddForAbstraction(r.env, old(m.State()), r.env.abstractionOf(t))
    ensures r.invalidations == old(r.invalidations) +
      (if first && context in r.syntheticMethodCache then [(r.syntheticMethodCache[context], context)] else [])
  {
    first := r.RecordType(context, t);
    second := r.RecordType(context, t);
  }

  /** A new type for a context the user specification covers never changes that context's types. */
  lemma RecordedTypeHiddenByUserSpec(spec: Option<UserSpec>, discovered: map<Context, set<TypeRef>>, context: Context, types: set<TypeRef>)
    requires UserTypes(spec, context).Some?
    ensures TypesForContext(spec, discovered[context := types], context) == TypesForContext(spec, discovered, context)
  {
  }

  /** Otherwise the context's types grow by exactly the recorded type. */
  lemma RecordedTypeVisible(spec: Option<UserSpec>, discovered: map<Context, set<TypeRef>>, context: Context, t: TypeRef)
    requires UserTypes(spec, context).None?
    ensures var before := if context in discovered then discovered[context] else {};
      TypesForContext(spec, discovered[context := before + {t}], context) == Some(before + {t})
  {
  }
}
