/** Builders, the strategies that produce a component, and the stored registration record. */
module Builders {
  import opened Values

  /** The memo cell of a singleton decorator: its `instance` field, undefined until a build
      succeeds with a defined value. */
  class Cell {
    var instance: Val

    constructor ()
      ensures instance == Undefined
    {
      instance := Undefined;
    }
  }

  /** The four builder variants. A singleton decorates whatever builder its description held when
      `asSingleton` was called, which may be none at all. */
  datatype Builder =
    | WrapperBuilder(instance: Val)
    | ClassBuilder(ctor: Fn)
    | MethodBuilder(fn: Fn)
    | SingletonBuilder(cell: Cell, inner: Option<Builder>)

  /** The memo cells a builder uses, its own and those of the decorators it wraps. */
  function CellsOf(b: Builder): set<Cell> {
    match b
    case SingletonBuilder(cell, inner) =>
      {cell} + (if inner.Some? then CellsOf(inner.value) else {})
    case _ => {}
  }

  function CellsOfOption(b: Option<Builder>): set<Cell> {
    if b.Some? then CellsOf(b.value) else {}
  }

  /** The builder `to(concrete)` attaches: a named function is a class, an anonymous one a
      factory, anything else a fixed instance; undefined and null are refused. */
  function BuilderFor(concrete: Concrete): (r: Result<Builder>)
    ensures r.Err? <==> concrete == Literal(Undefined) || concrete == Literal(Null)
    ensures r.Err? ==> r.error == ConcreteNotSpecified
    ensures r.Ok? ==> CellsOf(r.value) == {}
    ensures r.Ok? && r.value.ClassBuilder? <==> concrete.Function? && concrete.f.name != ""
    ensures r.Ok? && r.value.MethodBuilder? <==> concrete.Function? && concrete.f.name == ""
    ensures r.Ok? && r.value.ClassBuilder? ==> r.value.ctor == concrete.f
    ensures r.Ok? && r.value.MethodBuilder? ==> r.value.fn == concrete.f
    ensures r.Ok? && r.value.WrapperBuilder? ==> r.value.instance == concrete.value
  {
    match concrete
    case Literal(v) =>
      if v == Undefined || v == Null then Err(ConcreteNotSpecified) else Ok(WrapperBuilder(v))
    case Function(f) =>
      if f.name != "" then Ok(ClassBuilder(f)) else Ok(MethodBuilder(f))
  }

  /** A registration as resolution reads it: the component's name, its builder, the dependency
      contracts passed positionally, and the properties to inject (in enumeration order). The
      last three are unset (None) until the fluent chain sets them. */
  datatype Description = Description(
    name: string,
    builder: Option<Builder>,
    dependencies: Option<seq<Dependency>>,
    properties: Option<seq<(string, Dependency)>>)

  /** Unset dependencies or properties behave as an empty list. */
  function Listed<T>(o: Option<seq<T>>): (r: seq<T>)
    ensures o.None? ==> r == []
    ensures o.Some? ==> r == o.value
  {
    if o.Some? then o.value else []
  }
}
