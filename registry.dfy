/** The container as the program has it: objects whose methods update their fields in place.
    Each resolution method is proved to compute exactly what the function of the same name in
    module Resolution computes, on a snapshot of the state it may change. */
module Registry {
  import opened Values
  import opened Builders
  import Resolution
  import Evolution

  /** The JavaScript engine's side of a resolution: the factory functions (an opaque function of
      the factory and its arguments), the objects the container constructs, and the properties
      assigned on objects. */
  class Host {
    const invoke: (Fn, seq<Val>) -> Val
    var instances: seq<Construction>
    var fields: map<(Val, string), Val>

    constructor (invoke: (Fn, seq<Val>) -> Val)
      ensures this.invoke == invoke && instances == [] && fields == map[]
    {
      this.invoke := invoke;
      instances := [];
      fields := map[];
    }

    /** `new ctor(...args)`: a fresh object, recorded with its constructor and arguments. */
    method Construct(ctor: Fn, args: seq<Val>) returns (v: Val)
      modifies this`instances
      ensures v == Instance(|old(instances)|)
      ensures instances == old(instances) + [Construction(ctor, args)]
    {
      v := Instance(|instances|);
      instances := instances + [Construction(ctor, args)];
    }

    /** `target[property] = value` in strict mode: refused on anything but an object. */
    method Assign(target: Val, property: string, value: Val) returns (ok: bool)
      modifies this`fields
      ensures ok == IsObject(target)
      ensures fields == if ok then old(fields)[(target, property) := value] else old(fields)
    {
      ok := IsObject(target);
      if ok {
        fields := fields[(target, property) := value];
      }
    }
  }

  /** The caller's identity map, shared by reference by the whole resolution. */
  class IdentityMap {
    var entries: map<string, Val>

    constructor (entries: map<string, Val>)
      ensures this.entries == entries
    {
      this.entries := entries;
    }
  }

  /** A registration record, shared between the container and the fluent chain that fills it. */
  class ComponentDescription {
    const name: string
    var builder: Option<Builder>
    var dependencies: Option<seq<Dependency>>
    var injectProperties: Option<seq<(string, Dependency)>>

    constructor (name: string)
      ensures this.name == name && builder == None && dependencies == None && injectProperties == None
    {
      this.name := name;
      builder := None;
      dependencies := None;
      injectProperties := None;
    }

    /** The record as resolution reads it. */
    function Current(): (d: Description)
      reads this
      ensures d.name == name && d.builder == builder
      ensures d.dependencies == dependencies && d.properties == injectProperties
    {
      Description(name, builder, dependencies, injectProperties)
    }
  }

  function DescriptionOf(desc: ComponentDescription?): Option<Description>
    reads desc
  {
    if desc == null then None else Some(desc.Current())
  }

  /** What `bind(...)` returns: the way to attach a builder to the new description. */
  class ConcreteSpecification {
    const description: ComponentDescription

    constructor (description: ComponentDescription)
      ensures this.description == description
    {
      this.description := description;
    }

    /** `to(concrete)`: attaches the builder the concrete calls for, or refuses undefined and
        null without touching the description. */
    method To(concrete: Concrete) returns (r: Result<DependencySpecification>)
      modifies description`builder
      ensures BuilderFor(concrete).Err? ==> r == Err(ConcreteNotSpecified) && description.builder == old(description.builder)
      ensures BuilderFor(concrete).Ok? ==>
                && r.Ok? && fresh(r.value) && r.value.description == description
                && description.builder == Some(BuilderFor(concrete).value)
    {
      var b := BuilderFor(concrete);
      if b.Err? {
        return Err(b.error);
      }
      description.builder := Some(b.value);
      var spec := new DependencySpecification(description);
      return Ok(spec);
    }
  }

  /** What `to(...)` returns: each call rewrites one field of the shared description and
      returns the same specification, so calls chain in any order and the last write wins. */
  class DependencySpecification {
    const description: ComponentDescription

    constructor (description: ComponentDescription)
      ensures this.description == description
    {
      this.description := description;
    }

    /** `use(...contracts)`: the dependencies, passed positionally in this order. */
    method Use(contracts: seq<Dependency>) returns (self: DependencySpecification)
      modifies description`dependencies
      ensures self == this && description.dependencies == Some(contracts)
    {
      description.dependencies := Some(contracts);
      return this;
    }

    /** `set(properties)`: the properties to inject after construction. */
    method Set(properties: seq<(string, Dependency)>) returns (self: DependencySpecification)
      modifies description`injectProperties
      ensures self == this && description.injectProperties == Some(properties)
    {
      description.injectProperties := Some(properties);
      return this;
    }

    /** `asSingleton()`: wraps whatever builder is current in a new memoizing decorator, so two
        calls nest two decorators. */
    method AsSingleton() returns (self: DependencySpecification)
      modifies description`builder
      ensures self == this
      ensures description.builder.Some? && description.builder.value.SingletonBuilder?
      ensures description.builder.value.inner == old(description.builder)
      ensures fresh(description.builder.value.cell) && description.builder.value.cell.instance == Undefined
    {
      var cell := new Cell();
      description.builder := Some(SingletonBuilder(cell, description.builder));
      return this;
    }
  }

  /** How the build of a class or factory component is assembled from its steps, for the
      method that performs them one after the other. */
  lemma FailedDependencies(fuel: nat, env: Resolution.Env, s0: Resolution.State, b: Builder, d: Description,
                           args: Result<seq<Val>>, s1: Resolution.State)
    requires b.ClassBuilder? || b.MethodBuilder?
    requires (args, s1) == Resolution.BuildDependencies(fuel, env, s0, Listed(d.dependencies)) && args.Err?
    ensures Resolution.Build(fuel, env, s0, b, Some(d)) == (Err(args.error), s1)
  {
  }

  lemma ComponentSteps(fuel: nat, env: Resolution.Env, s0: Resolution.State, b: Builder, d: Description,
                       args: seq<Val>, s1: Resolution.State, component: Val, s2: Resolution.State,
                       s3: Resolution.State, done: Result<()>, s4: Resolution.State)
    requires b.ClassBuilder? || b.MethodBuilder?
    requires (Ok(args), s1) == Resolution.BuildDependencies(fuel, env, s0, Listed(d.dependencies))
    requires (component, s2) == Resolution.CreateComponent(env, s1, b, args)
    requires s3 == Resolution.Record(s2, d.name, component)
    requires (done, s4) == Resolution.InjectProperties(fuel, env, s3, component, Listed(d.properties))
    ensures Resolution.Build(fuel, env, s0, b, Some(d)) == (if done.Err? then Err(done.error) else Ok(component), s4)
  {
  }

  class Container {
    var descriptions: map<string, ComponentDescription>
    var builders: map<string, Option<Builder>>
    const host: Host

    constructor (host: Host)
      ensures Valid() && descriptions == map[] && builders == map[] && this.host == host
    {
      descriptions := map[];
      builders := map[];
      this.host := host;
    }

    /** Every description is stored under its own name, and only described names are cached. */
    ghost predicate Valid()
      reads this`descriptions, this`builders
    {
      && (forall n | n in descriptions :: descriptions[n].name == n)
      && builders.Keys <= descriptions.Keys
    }

    /** The invariant gives the resolution functions their standing assumption: every
        description is stored under its own name. */
    lemma ValidNamesAgree()
      requires Valid()
      ensures Env().descriptions.Keys == descriptions.Keys
      ensures Resolution.NamesAgree(Env())
    {
      forall n | n in Env().descriptions
        ensures Env().descriptions[n].name == n
      {
        assert Env().descriptions[n] == descriptions[n].Current();
      }
    }

    /** What resolution reads. */
    ghost function Env(): Resolution.Env
      reads this`descriptions, descriptions.Values
    {
      Resolution.Env(map n | n in descriptions :: descriptions[n].Current(), host.invoke)
    }

    /** Every memo cell reachable from a cached or registered builder. */
    ghost function Cells(): set<Cell>
      reads this`descriptions, this`builders, descriptions.Values
    {
      (set n, c | n in builders && c in CellsOfOption(builders[n]) :: c)
      + (set n, c | n in descriptions && c in CellsOfOption(descriptions[n].builder) :: c)
    }

    ghost predicate Closed(cs: set<Cell>)
      reads this`descriptions, this`builders, descriptions.Values
    {
      && (forall n | n in builders :: CellsOfOption(builders[n]) <= cs)
      && (forall n | n in descriptions :: CellsOfOption(descriptions[n].builder) <= cs)
    }

    /** What resolution may change, with the memo cells in `cs`. */
    ghost function Snapshot(cs: set<Cell>, ids: IdentityMap?): Resolution.State
      reads this`builders, cs, ids, host
    {
      Resolution.State(builders, CellContents(cs), IdentityOf(ids), host.instances, host.fields)
    }

    static ghost function CellContents(cs: set<Cell>): map<Cell, Val>
      reads cs
    {
      map c | c in cs :: c.instance
    }

    static ghost function IdentityOf(ids: IdentityMap?): Option<map<string, Val>>
      reads ids
    {
      if ids == null then None else Some(ids.entries)
    }

    /** `bind(contract)`: a fresh, empty description under the contract's name, replacing any
        earlier one; an empty name is refused. The builder cache is left alone. */
    method Bind(contract: Contract) returns (r: Result<ConcreteSpecification>)
      requires Valid()
      modifies this`descriptions
      ensures Valid()
      ensures NameOf(contract) == "" ==> r == Err(InvalidContract) && descriptions == old(descriptions)
      ensures NameOf(contract) != "" ==>
                && r.Ok? && fresh(r.value) && fresh(r.value.description)
                && descriptions == old(descriptions)[NameOf(contract) := r.value.description]
                && r.value.description.Current() == Description(NameOf(contract), None, None, None)
    {
      var name := NameOf(contract);
      if name == "" {
        return Err(InvalidContract);
      }
      var description := new ComponentDescription(name);
      descriptions := descriptions[name := description];
      var spec := new ConcreteSpecification(description);
      return Ok(spec);
    }

    /** `value(v)`: a box that resolution returns as is, without a lookup. */
    function Value(v: Val): (d: Dependency)
      ensures d.Value? && d.value == v
    {
      Dependency.Value(v)
    }

    /** `resolve(contract, identityMap)`, with `fuel` frames of stack. */
    method Resolve(d: Dependency, identityMap: IdentityMap?, fuel: nat) returns (r: Result<Val>)
      requires Valid()
      modifies this`builders, Cells(), identityMap, host
      ensures Valid()
      ensures (r, Snapshot(old(Cells()), identityMap)) == Resolution.Resolve(fuel, Env(), old(Snapshot(Cells(), identityMap)), d)
      ensures Env() == old(Env()) && Cells() <= old(Cells())
    {
      ghost var cs := Cells();
      ghost var env := Env();
      ghost var s0 := Snapshot(cs, identityMap);
      r := ResolveIn(d, identityMap, fuel, cs);
      Evolution.ResolveEvolves(fuel, env, s0, d);
      ValidNamesAgree();
      assert builders.Keys <= s0.builders.Keys + env.descriptions.Keys;
    }

    method ResolveIn(d: Dependency, ids: IdentityMap?, fuel: nat, ghost cs: set<Cell>) returns (r: Result<Val>)
      requires Closed(cs)
      modifies this`builders, cs, ids, host
      ensures Closed(cs) && Env() == old(Env())
      ensures (r, Snapshot(cs, ids)) == Resolution.Resolve(fuel, Env(), old(Snapshot(cs, ids)), d)
      decreases fuel, 0, 1
    {
      match d
      case Value(v) =>
        return Ok(v);
      case Lookup(c) =>
        var name := NameOf(c);
        if ids != null && name in ids.entries && ids.entries[name] != Undefined {
          return Ok(ids.entries[name]);
        }
        r := ResolveMiss(name, ids, fuel, cs);
    }

    /** The part of `resolve` past both short-circuits: fetch the builder and build. */
    method ResolveMiss(name: string, ids: IdentityMap?, fuel: nat, ghost cs: set<Cell>) returns (r: Result<Val>)
      requires Closed(cs)
      modifies this`builders, cs, ids, host
      ensures Closed(cs) && Env() == old(Env())
      ensures (r, Snapshot(cs, ids)) == Resolution.ResolveMiss(fuel, Env(), old(Snapshot(cs, ids)), name)
      decreases fuel, 0, 0
    {
      ghost var s0 := Snapshot(cs, ids);
      var b := GetBuilder(name, cs);
      ghost var s1 := Snapshot(cs, ids);
      assert s1 == s0.(builders := builders);
      if b.Err? {
        return Err(b.error);
      }
      if fuel == 0 {
        return Err(StackExhausted);
      }
      if b.value.None? {
        return Err(TypeError);
      }
      var desc := if name in descriptions then descriptions[name] else null;
      r := Build(b.value.value, desc, ids, fuel - 1, cs);
    }

    /** `getBuilder(name)`. */
    method GetBuilder(name: string, ghost cs: set<Cell>) returns (r: Result<Option<Builder>>)
      requires Closed(cs)
      modifies this`builders
      ensures (r, builders) == Resolution.GetBuilder(Env().descriptions, old(builders), name)
      ensures Closed(cs) && Env() == old(Env())
      ensures r.Ok? && r.value.Some? ==> CellsOf(r.value.value) <= cs
    {
      if name in builders && builders[name].Some? {
        return Ok(builders[name]);
      }
      if name !in descriptions {
        return Err(ComponentNotFound(name));
      }
      builders := builders[name := descriptions[name].builder];
      return Ok(builders[name]);
    }

    /** The `build` of each builder variant. */
    method Build(b: Builder, desc: ComponentDescription?, ids: IdentityMap?, fuel: nat, ghost cs: set<Cell>)
      returns (r: Result<Val>)
      requires Closed(cs) && CellsOf(b) <= cs
      modifies this`builders, cs, ids, host
      ensures Closed(cs) && Env() == old(Env())
      ensures (r, Snapshot(cs, ids)) == Resolution.Build(fuel, Env(), old(Snapshot(cs, ids)), b, DescriptionOf(desc))
      decreases fuel, 3, b, 1
    {
      match b
      case WrapperBuilder(v) =>
        return Ok(v);
      case SingletonBuilder(_, _) =>
        r := BuildSingleton(b, desc, ids, fuel, cs);
      case ClassBuilder(_) =>
        r := BuildComponent(b, desc, ids, fuel, cs);
      case MethodBuilder(_) =>
        r := BuildComponent(b, desc, ids, fuel, cs);
    }

    /** The singleton decorator's `build`: the memo cell's instance when it has one; otherwise the
        inner builder's full build, stored in the cell when it succeeds. */
    method BuildSingleton(b: Builder, desc: ComponentDescription?, ids: IdentityMap?, fuel: nat, ghost cs: set<Cell>)
      returns (r: Result<Val>)
      requires b.SingletonBuilder? && Closed(cs) && CellsOf(b) <= cs
      modifies this`builders, cs, ids, host
      ensures Closed(cs) && Env() == old(Env())
      ensures (r, Snapshot(cs, ids)) == Resolution.Build(fuel, Env(), old(Snapshot(cs, ids)), b, DescriptionOf(desc))
      decreases fuel, 3, b, 0
    {
      var cell := b.cell;
      if cell.instance == Undefined {
        if b.inner.None? {
          return Err(TypeError);
        }
        var v := Build(b.inner.value, desc, ids, fuel, cs);
        if v.Err? {
          return v;
        }
        Memoize(cell, v.value, ids, cs);
      }
      return Ok(cell.instance);
    }

    /** Stores a singleton's instance in its memo cell. */
    method Memoize(cell: Cell, v: Val, ids: IdentityMap?, ghost cs: set<Cell>)
      requires cell in cs
      modifies cell
      ensures cell.instance == v
      ensures Snapshot(cs, ids) == old(Snapshot(cs, ids)).(cells := old(CellContents(cs))[cell := v])
    {
      cell.instance := v;
      assert CellContents(cs) == old(CellContents(cs))[cell := v];
    }

    /** The shared `build` of class and factory builders: dependencies, construction, the
        identity-map write, then property injection. */
    method BuildComponent(b: Builder, desc: ComponentDescription?, ids: IdentityMap?, fuel: nat, ghost cs: set<Cell>)
      returns (r: Result<Val>)
      requires b.ClassBuilder? || b.MethodBuilder?
      requires Closed(cs)
      modifies this`builders, cs, ids, host
      ensures Closed(cs) && Env() == old(Env())
      ensures (r, Snapshot(cs, ids)) == Resolution.Build(fuel, Env(), old(Snapshot(cs, ids)), b, DescriptionOf(desc))
      decreases fuel, 2
    {
      if desc == null {
        return Err(TypeError);
      }
      ghost var env := Env();
      ghost var s0 := Snapshot(cs, ids);
      ghost var d := desc.Current();
      assert DescriptionOf(desc) == Some(d);
      var name, dependencies, properties := desc.name, desc.dependencies, desc.injectProperties;
      var args := BuildDependencies(dependencies, ids, fuel, cs);
      ghost var s1 := Snapshot(cs, ids);
      assert (args, s1) == Resolution.BuildDependencies(fuel, env, s0, Listed(d.dependencies));
      if args.Err? {
        FailedDependencies(fuel, env, s0, b, d, args, s1);
        return Err(args.error);
      }
      var component := CreateComponent(b, args.value);
      ghost var s2 := Snapshot(cs, ids);
      assert (component, s2) == Resolution.CreateComponent(env, s1, b, args.value);
      Record(ids, name, component, cs);
      ghost var s3 := Snapshot(cs, ids);
      assert s3 == Resolution.Record(s2, d.name, component);
      var done := InjectProperties(component, properties, ids, fuel, cs);
      ghost var s4 := Snapshot(cs, ids);
      assert Env() == env;
      assert (done, s4) == Resolution.InjectProperties(fuel, env, s3, component, Listed(d.properties));
      ComponentSteps(fuel, env, s0, b, d, args.value, s1, component, s2, s3, done, s4);
      if done.Err? {
        return Err(done.error);
      }
      return Ok(component);
    }

    /** The identity-map write after construction: only under a name the map already has. */
    method Record(ids: IdentityMap?, name: string, component: Val, ghost cs: set<Cell>)
      requires Closed(cs)
      modifies ids
      ensures Closed(cs) && Env() == old(Env())
      ensures Snapshot(cs, ids) == Resolution.Record(old(Snapshot(cs, ids)), name, component)
    {
      if ids != null && name in ids.entries {
        ids.entries := ids.entries[name := component];
      }
    }

    /** `createComponent` of a class builder and of a factory builder. */
    method CreateComponent(b: Builder, args: seq<Val>) returns (component: Val)
      requires b.ClassBuilder? || b.MethodBuilder?
      modifies host`instances
      ensures b.ClassBuilder? ==> component == Instance(|old(host.instances)|)
                                  && host.instances == old(host.instances) + [Construction(b.ctor, args)]
      ensures b.MethodBuilder? ==> component == host.invoke(b.fn, args) && host.instances == old(host.instances)
    {
      if b.ClassBuilder? {
        component := host.Construct(b.ctor, args);
      } else {
        component := host.invoke(b.fn, args);
      }
    }

    /** `buildDependencies`. */
    method BuildDependencies(dependencies: Option<seq<Dependency>>, ids: IdentityMap?, fuel: nat, ghost cs: set<Cell>)
      returns (r: Result<seq<Val>>)
      requires Closed(cs)
      modifies this`builders, cs, ids, host
      ensures Closed(cs) && Env() == old(Env())
      ensures (r, Snapshot(cs, ids)) == Resolution.BuildDependencies(fuel, Env(), old(Snapshot(cs, ids)), Listed(dependencies))
      decreases fuel, 1
    {
      var resolved: seq<Val> := [];
      if dependencies.Some? {
        var deps := dependencies.value;
        ghost var env := Env();
        ghost var s0 := Snapshot(cs, ids);
        var i := 0;
        assert deps[i..] == deps;
        ghost var whole := Resolution.BuildDependencies(fuel, env, s0, deps);
        assert Resolution.Prepend([], whole) == whole by {
          if whole.0.Ok? {
            assert [] + whole.0.value == whole.0.value;
          }
        }
        while i < |deps|
          invariant 0 <= i <= |deps|
          invariant Closed(cs) && Env() == env
          invariant Resolution.BuildDependencies(fuel, env, s0, deps)
                    == Resolution.Prepend(resolved, Resolution.BuildDependencies(fuel, env, Snapshot(cs, ids), deps[i..]))
        {
          assert deps[i..][0] == deps[i] && deps[i..][1..] == deps[i + 1..];
          ghost var si := Snapshot(cs, ids);
          var v := ResolveIn(deps[i], ids, fuel, cs);
          if v.Err? {
            return Err(v.error);
          }
          ghost var rest := Resolution.BuildDependencies(fuel, env, Snapshot(cs, ids), deps[i + 1..]);
          assert Resolution.BuildDependencies(fuel, env, si, deps[i..]) == Resolution.Prepend([v.value], rest);
          Resolution.PrependTwice(resolved, [v.value], rest);
          resolved := resolved + [v.value];
          i := i + 1;
        }
        assert deps[i..] == [] && resolved + [] == resolved;
      }
      return Ok(resolved);
    }

    /** `injectProperties`. */
    method InjectProperties(component: Val, properties: Option<seq<(string, Dependency)>>, ids: IdentityMap?, fuel: nat,
                            ghost cs: set<Cell>)
      returns (r: Result<()>)
      requires Closed(cs)
      modifies this`builders, cs, ids, host
      ensures Closed(cs) && Env() == old(Env())
      ensures (r, Snapshot(cs, ids)) == Resolution.InjectProperties(fuel, Env(), old(Snapshot(cs, ids)), component, Listed(properties))
      decreases fuel, 1
    {
      if properties.None? {
        return Ok(());
      }
      var props := properties.value;
      ghost var env := Env();
      ghost var s0 := Snapshot(cs, ids);
      var i := 0;
      assert props[i..] == props;
      while i < |props|
        invariant 0 <= i <= |props|
        invariant Closed(cs) && Env() == env
        invariant Resolution.InjectProperties(fuel, env, s0, component, props)
                  == Resolution.InjectProperties(fuel, env, Snapshot(cs, ids), component, props[i..])
      {
        assert props[i..][0] == props[i] && props[i..][1..] == props[i + 1..];
        var (property, contract) := props[i];
        var v := ResolveIn(contract, ids, fuel, cs);
        if v.Err? {
          return Err(v.error);
        }
        var ok := host.Assign(component, property, v.value);
        if !ok {
          return Err(TypeError);
        }
        i := i + 1;
      }
      return Ok(());
    }
  }
}
