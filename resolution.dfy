/** The resolution algorithm as functions over an explicit state: what `resolve`, `getBuilder`
    and the builders' `build` compute, and what they change. The imperative container in module
    Registry is proved to follow these functions step for step.

    `fuel` is the stack still available: every build that `resolve` starts takes one frame, and
    a resolution that would need more fails with StackExhausted. */
module Resolution {
  import opened Values
  import opened Builders

  /** Everything resolution may change: the container's builder cache, the singleton memo cells,
      the caller's identity map (None when no map was passed), the objects constructed so far
      and the properties assigned on objects. */
  datatype State = State(
    builders: map<string, Option<Builder>>,
    cells: map<Cell, Val>,
    identity: Option<map<string, Val>>,
    instances: seq<Construction>,
    fields: map<(Val, string), Val>)

  /** What resolution only reads: the registered descriptions and the host's factory functions,
      an opaque function of the factory and its arguments. */
  datatype Env = Env(descriptions: map<string, Description>, invoke: (Fn, seq<Val>) -> Val)

  /** The identity map holds a defined value for `name`, so `resolve` returns it unbuilt. */
  predicate Hit(s: State, name: string) {
    s.identity.Some? && name in s.identity.value && s.identity.value[name] != Undefined
  }

  predicate Cached(builders: map<string, Option<Builder>>, name: string) {
    name in builders && builders[name].Some?
  }

  /** The content of a memo cell; a cell the state does not list is still undefined. */
  function CellValue(s: State, c: Cell): Val {
    if c in s.cells then s.cells[c] else Undefined
  }

  function Describe(env: Env, name: string): Option<Description> {
    if name in env.descriptions then Some(env.descriptions[name]) else None
  }

  /** Every description is stored under its own name (what `bind` maintains). */
  ghost predicate NamesAgree(env: Env) {
    forall n | n in env.descriptions :: env.descriptions[n].name == n
  }

  /** ComponentNotFound names a contract that really has no description. */
  ghost predicate HonestNotFound<T>(env: Env, r: Result<T>) {
    r.Err? && r.error.ComponentNotFound? ==> r.error.name !in env.descriptions
  }

  /** What no step of resolution undoes: a cached builder stays cached, a memo cell that holds a
      defined instance keeps it. */
  ghost predicate Keeps(s: State, s': State) {
    && (forall n | Cached(s.builders, n) :: Cached(s'.builders, n) && s'.builders[n] == s.builders[n])
    && (forall c | c in s.cells && s.cells[c] != Undefined :: CellValue(s', c) == s.cells[c])
  }

  /** How a state may evolve during one resolution: the identity map keeps its keys (it is
      written only under keys it already has), constructed objects are only appended, assigned
      properties are never removed, and Keeps holds. */
  ghost predicate Evolves(s: State, s': State) {
    && (s'.identity.Some? <==> s.identity.Some?)
    && (s.identity.Some? ==> s'.identity.value.Keys == s.identity.value.Keys)
    && s.instances <= s'.instances
    && s.fields.Keys <= s'.fields.Keys
    && Keeps(s, s')
  }

  /** Every identity-map entry that holds a defined value keeps that value. */
  ghost predicate HitsKept(s: State, s': State) {
    forall n | Hit(s, n) :: Hit(s', n) && s'.identity.value[n] == s.identity.value[n]
  }

  /** `v` is an object the container constructed with `ctor` between state `s` and state `s'`. */
  ghost predicate FreshInstance(s: State, s': State, v: Val, ctor: Fn) {
    v.Instance? && |s.instances| <= v.index < |s'.instances| && s'.instances[v.index].ctor == ctor
  }

  /** `getBuilder`: a cached builder wins; otherwise the description's builder, which is then
      cached (even when it is unset); no description and nothing cached is ComponentNotFound. */
  function GetBuilder(descriptions: map<string, Description>, builders: map<string, Option<Builder>>, name: string)
    : (r: (Result<Option<Builder>>, map<string, Option<Builder>>))
    ensures r.0.Err? <==> !Cached(builders, name) && name !in descriptions
    ensures r.0.Err? ==> r.0.error == ComponentNotFound(name) && r.1 == builders
    ensures r.0.Ok? ==> r.1 == builders[name := r.0.value]
    ensures Cached(builders, name) ==> r.0 == Ok(builders[name])
    ensures !Cached(builders, name) && name in descriptions ==> r.0 == Ok(descriptions[name].builder)
  {
    if Cached(builders, name) then (Ok(builders[name]), builders)
    else if name !in descriptions then (Err(ComponentNotFound(name)), builders)
    else (Ok(descriptions[name].builder), builders[name := descriptions[name].builder])
  }

  /** `resolve(d, identityMap)`: a value box and an identity-map hit short-circuit; anything
      else is a lookup. */
  function Resolve(fuel: nat, env: Env, s: State, d: Dependency): (r: (Result<Val>, State))
    ensures d.Value? ==> r == (Ok(d.value), s)
    ensures d.Lookup? && Hit(s, NameOf(d.contract)) ==> r == (Ok(s.identity.value[NameOf(d.contract)]), s)
    ensures d.Lookup? && !Hit(s, NameOf(d.contract)) && !Cached(s.builders, NameOf(d.contract))
            && NameOf(d.contract) !in env.descriptions
            ==> r == (Err(ComponentNotFound(NameOf(d.contract))), s)
    decreases fuel, 1
  {
    match d
    case Value(v) => (Ok(v), s)
    case Lookup(c) =>
      var name := NameOf(c);
      if Hit(s, name) then (Ok(s.identity.value[name]), s)
      else ResolveMiss(fuel, env, s, name)
  }

  /** The part of `resolve` past both short-circuits: fetch the builder, then build with one
      frame less; no builder at all is a TypeError. */
  function ResolveMiss(fuel: nat, env: Env, s: State, name: string): (r: (Result<Val>, State))
    ensures !Cached(s.builders, name) && name !in env.descriptions ==> r == (Err(ComponentNotFound(name)), s)
    ensures fuel == 0 ==> r.0.Err? && r.1.identity == s.identity && r.1.instances == s.instances
    decreases fuel, 0
  {
    var (b, builders) := GetBuilder(env.descriptions, s.builders, name);
    var s1 := s.(builders := builders);
    if b.Err? then (Err(b.error), s1)
    else if fuel == 0 then (Err(StackExhausted), s1)
    else if b.value.None? then (Err(TypeError), s1)
    else Build(fuel - 1, env, s1, b.value.value, Describe(env, name))
  }

  /** `build(container, description, identityMap)` of each builder variant. */
  function Build(fuel: nat, env: Env, s: State, b: Builder, desc: Option<Description>): (r: (Result<Val>, State))
    ensures b.WrapperBuilder? ==> r == (Ok(b.instance), s)
    ensures b.SingletonBuilder? && CellValue(s, b.cell) != Undefined ==> r == (Ok(CellValue(s, b.cell)), s)
    ensures b.SingletonBuilder? && r.0.Ok? && r.0.value != Undefined ==> CellValue(r.1, b.cell) == r.0.value
    ensures (b.ClassBuilder? || b.MethodBuilder?) && desc.None? ==> r == (Err(TypeError), s)
    decreases fuel, 3, b
  {
    match b
    case WrapperBuilder(v) => (Ok(v), s)
    case SingletonBuilder(cell, inner) =>
      if CellValue(s, cell) != Undefined then (Ok(CellValue(s, cell)), s)
      else if inner.None? then (Err(TypeError), s)
      else
        var (v, s1) := Build(fuel, env, s, inner.value, desc);
        if v.Err? then (v, s1) else (v, s1.(cells := s1.cells[cell := v.value]))
    case _ =>
      if desc.None? then (Err(TypeError), s)
      else
        var (args, s1) := BuildDependencies(fuel, env, s, Listed(desc.value.dependencies));
        if args.Err? then (Err(args.error), s1)
        else
          var (component, s2) := CreateComponent(env, s1, b, args.value);
          var s3 := Record(s2, desc.value.name, component);
          var (done, s4) := InjectProperties(fuel, env, s3, component, Listed(desc.value.properties));
          if done.Err? then (Err(done.error), s4) else (Ok(component), s4)
  }

  /** `createComponent` of a class builder (`new ctor(...args)`: a fresh object) and of a
      factory builder (the factory's result). */
  function CreateComponent(env: Env, s: State, b: Builder, args: seq<Val>): (r: (Val, State))
    requires b.ClassBuilder? || b.MethodBuilder?
    ensures b.ClassBuilder? ==> r.0 == Instance(|s.instances|)
                                && r.1 == s.(instances := s.instances + [Construction(b.ctor, args)])
    ensures b.MethodBuilder? ==> r == (env.invoke(b.fn, args), s)
  {
    match b
    case ClassBuilder(ctor) => (Instance(|s.instances|), s.(instances := s.instances + [Construction(ctor, args)]))
    case MethodBuilder(fn) => (env.invoke(fn, args), s)
  }

  /** Writes a freshly built component into the identity map, only when the caller declared its
      name there beforehand. */
  function Record(s: State, name: string, component: Val): (s': State)
    ensures s.identity.Some? && name in s.identity.value ==>
              s' == s.(identity := Some(s.identity.value[name := component]))
    ensures !(s.identity.Some? && name in s.identity.value) ==> s' == s
  {
    if s.identity.Some? && name in s.identity.value
    then s.(identity := Some(s.identity.value[name := component]))
    else s
  }

  /** `buildDependencies`: resolves the contracts left to right against the same identity map
      and collects the results in declared order. */
  function BuildDependencies(fuel: nat, env: Env, s: State, deps: seq<Dependency>): (r: (Result<seq<Val>>, State))
    ensures r.0.Ok? ==> |r.0.value| == |deps|
    decreases fuel, 2, |deps|
  {
    if deps == [] then (Ok([]), s)
    else
      var (v, s1) := Resolve(fuel, env, s, deps[0]);
      if v.Err? then (Err(v.error), s1)
      else
        var (vs, s2) := BuildDependencies(fuel, env, s1, deps[1..]);
        if vs.Err? then (vs, s2) else (Ok([v.value] + vs.value), s2)
  }

  /** `injectProperties`: for each property in order, resolves its contract and assigns the
      result on the component; assigning on a value that is not an object is a TypeError. */
  function InjectProperties(fuel: nat, env: Env, s: State, component: Val, props: seq<(string, Dependency)>)
    : (r: (Result<()>, State))
    ensures !IsObject(component) && props != [] ==> r.0.Err?
    decreases fuel, 2, |props|
  {
    if props == [] then (Ok(()), s)
    else
      var (v, s1) := Resolve(fuel, env, s, props[0].1);
      if v.Err? then (Err(v.error), s1)
      else if !IsObject(component) then (Err(TypeError), s1)
      else InjectProperties(fuel, env, s1.(fields := s1.fields[(component, props[0].0) := v.value]), component, props[1..])
  }

  /** Puts values already resolved in front of the outcome of resolving the remaining ones. */
  function Prepend(done: seq<Val>, rest: (Result<seq<Val>>, State)): (r: (Result<seq<Val>>, State))
    ensures r.1 == rest.1
    ensures r.0.Ok? <==> rest.0.Ok?
    ensures r.0.Ok? ==> r.0.value == done + rest.0.value
    ensures r.0.Err? ==> r.0 == rest.0
  {
    if rest.0.Ok? then (Ok(done + rest.0.value), rest.1) else rest
  }

  lemma PrependTwice(a: seq<Val>, b: seq<Val>, rest: (Result<seq<Val>>, State))
    ensures Prepend(a, Prepend(b, rest)) == Prepend(a + b, rest)
  {
    if rest.0.Ok? {
      assert a + (b + rest.0.value) == (a + b) + rest.0.value;
    }
  }
}
