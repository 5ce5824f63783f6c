/**
 * Entities shared by the factory-method specialiser: type references, the
 * three type abstractions, the statements of a synthetic method body,
 * analysis contexts, warnings, and the collaborators that live outside this
 * model (class-hierarchy queries and the helpers inherited from the
 * specialised-method superclass).
 */
module FactoryIr {

  datatype Option<T> = None | Some(value: T)

  /** A reference to a type of the analysed program; `dims > 0` for an array type. */
  datatype TypeRef = TypeRef(name: string, dims: nat)

  predicate IsArrayType(t: TypeRef) {
    t.dims > 0
  }

  /** The marker interface whose abstraction is deliberately ignored. */
  const JavaIoSerializable: TypeRef := TypeRef("Ljava/io/Serializable", 0)

  /** A class as the hierarchy reports it: its reference and whether it can be instantiated. */
  datatype Klass = Klass(ref: TypeRef, isAbstract: bool)

  /**
   * The three type abstractions: exactly one type, the cone below a type
   * (its implementors when it is an interface, its subclasses otherwise),
   * and an explicit list of points. `t` is the type each reports as its own.
   */
  datatype TypeAbstraction =
    | PointType(t: TypeRef)
    | ConeType(t: TypeRef, isInterface: bool)
    | SetType(t: TypeRef, points: seq<Klass>)

  /** An instruction carried over from the method summary being specialised. */
  datatype Instr = Instr(defs: seq<int>, uses: seq<int>, isNew: bool, isInvoke: bool)

  /**
   * A statement of the synthetic body. Value numbers are `int`s;
   * `sizes` are the value numbers of an array allocation's dimension operands.
   */
  datatype Stmt =
    | New(def: int, t: TypeRef, sizes: seq<int>, site: nat)
    | Return(v: int)
    | Invoke(args: seq<int>, exc: int, t: TypeRef, site: nat)
    | Original(instr: Instr)

  /** Soundness warnings; they never affect what is built. */
  datatype Warning =
    | IgnoreSerializable
    | NoSubtypes(abstraction: TypeAbstraction)
    | ManySubtypes(abstraction: TypeAbstraction, size: nat)

  /**
   * An analysis context. A caller-site context is keyed by the calling
   * call-graph node (`callerNode`, an opaque identity: two nodes of one method
   * in different contexts differ), the method that node runs (`caller`) and
   * the program counter of the call; every other kind is an opaque key.
   */
  datatype Context =
    | CallerSite(callerNode: nat, caller: string, pc: nat)
    | OtherContext(key: nat)

  /** The method summary a factory method is specialised from. */
  datatype Summary = Summary(statements: seq<Instr>, isSynthetic: bool, isFactory: bool)

  /** A call-graph node: a method in a context. */
  datatype CGNode = CGNode(summary: Summary, context: Context)

  /**
   * Collaborators outside this model. The hierarchy queries (implementors,
   * subclasses, and the abstraction chosen for a type reference), the value
   * numbers and site numbers the specialised-method superclass hands out per
   * type, and the cone size above which a warning is recorded.
   */
  datatype Env = Env(
    implementors: TypeRef -> seq<Klass>,
    subclasses: TypeRef -> seq<Klass>,
    abstractionOf: TypeRef -> TypeAbstraction,
    localFor: TypeRef -> nat,
    newSiteFor: TypeRef -> nat,
    callSiteFor: TypeRef -> nat,
    excFor: TypeRef -> nat,
    coneBound: nat)
}
