/** The values the container handles: contracts, concretes, dependencies, the components it
    produces and the failures it raises. JavaScript's dynamic shapes (string or function contract,
    named or anonymous function concrete, Value box or plain contract) become tagged unions. */
module Values {

  datatype Option<T> = None | Some(value: T)

  /** A JavaScript function as the container sees it: an identity and its `name` property,
      which is empty for an anonymous function. */
  datatype Fn = Fn(id: nat, name: string)

  /** A value that resolution passes around or returns. Objects come in two kinds: the ones the
      container itself constructed with `new` (numbered in order of construction) and all
      others, such as a bound instance or whatever a factory returns. */
  datatype Val =
    | Undefined
    | Null
    | Primitive(p: int)     // a number, string or boolean: it cannot carry properties
    | HostObject(id: nat)   // an object created outside the container
    | Instance(index: nat)  // the index-th object the container constructed

  predicate IsObject(v: Val) {
    v.HostObject? || v.Instance?
  }

  /** A contract is a name, or a constructor whose `name` is the contract name. */
  datatype Contract = Name(name: string) | Type(ctor: Fn)

  /** The name under which a contract is registered and looked up (`getName`). */
  function NameOf(c: Contract): (n: string)
    ensures c.Name? ==> n == c.name
    ensures c.Type? ==> n == c.ctor.name
  {
    match c
    case Name(n) => n
    case Type(f) => f.name
  }

  /** What `resolve` accepts and what dependency lists and property maps hold: a contract to
      look up, or a value wrapped by `value(...)` that resolves to itself. */
  datatype Dependency = Lookup(contract: Contract) | Value(value: Val)

  /** The argument of `to(...)`: a function (a class when named, a factory when anonymous) or
      any other value, which becomes a fixed instance. */
  datatype Concrete = Function(f: Fn) | Literal(value: Val)

  /** The failures. The first three are the library's own; TypeError is what the JavaScript
      engine raises when the code dereferences a missing builder or description, or assigns a
      property on a primitive; StackExhausted stands for running out of stack in unbounded
      recursion. */
  datatype Error =
    | InvalidContract
    | ConcreteNotSpecified
    | ComponentNotFound(name: string)
    | TypeError
    | StackExhausted

  datatype Result<T> = Ok(value: T) | Err(error: Error)

  /** The record of one `new` performed by the container: which constructor, with which arguments. */
  datatype Construction = Construction(ctor: Fn, args: seq<Val>)
}
