/** Shared vocabulary of the SSA front end: opaque identities, storage classes,
    and the outcome types in which every Go `panic` becomes an explicit Abort
    kind and every `return nil, false` becomes NotOk. */
module Common {

  /** Identities handed out by the backend and by the parser; nothing about
      them is modelled beyond equality. */
  type BlockId = nat
  type ValueId = nat
  type NodeId = nat

  datatype Option<+T> = None | Some(value: T)

  /** The base part of a storage class. Base classes that the class switch of
      buildSSA does not name (PEXTERN, PPARAMREF, ...) are OtherBase. */
  datatype BaseClass = AutoBase | ParamBase | ParamOutBase | FuncBase | OtherBase(code: nat)

  /** A NodeClass: a base class together with the PHEAP bit, which marks a
      variable that escapes to the heap. */
  datatype NodeClass = NodeClass(base: BaseClass, heap: bool)

  const PAUTO := NodeClass(AutoBase, false)
  const PPARAM := NodeClass(ParamBase, false)
  const PPARAMOUT := NodeClass(ParamOutBase, false)
  const PFUNC := NodeClass(FuncBase, false)

  /** The class `c | PHEAP`. */
  function WithHeap(c: NodeClass): NodeClass {
    c.(heap := true)
  }

  /** An argument of a formatted diagnostic. */
  datatype Arg = ClassArg(nodeClass: NodeClass) | TextArg(text: string)

  /** Why a construction stopped by panicking. */
  datatype Abort =
    | MethodsUnsupported                       // getParameters met a receiver
    | NameClash(name: string)                  // getVars: a parameter and a local share a name
    | NoBlocks                                 // the block scan produced no block
    | Fatal(format: string, args: seq<Arg>)    // the package Fatalf, reached by Fatalf and Unimplementedf
    | WarnlPanic                               // Warnl
    | NilDereference                           // a nil pointer was dereferenced

  /** The outcome of one step: a value, the recoverable not-ok result, or a panic. */
  datatype Result<+T> = Ok(value: T) | NotOk | Panic(abort: Abort) {

    predicate IsFailure() {
      !Ok?
    }

    function PropagateFailure<U>(): Result<U>
      requires !Ok?
    {
      if NotOk? then NotOk else Panic(abort)
    }

    function Extract(): T
      requires Ok?
    {
      value
    }
  }

  /** The messages the driver and the builder print on their way. */
  datatype Notice =
    | ParseFailed
    | TypeCheckFailed
    | LookupFailed
    | NotAFunction
    | DeclNotFound
    | MethodsNotSupported
    | MultipleReturnsNotSupported

  /** An outcome together with the notices printed before it was reached. */
  datatype Run<+T> = Run(result: Result<T>, notices: seq<Notice>)
}
