/** Properties of resolution that relate several steps or several calls: the order in which
    dependencies are resolved, what singletons and identity maps share, what a class builder
    keeps apart, and what the builder cache remembers. */
module Properties {
  import opened Values
  import opened Builders
  import opened Resolution
  import opened Evolution

  /** Dependencies are resolved strictly left to right: resolving `xs + ys` is resolving `xs`
      and then, from the state that left, resolving `ys`; the first failure stops the rest. */
  lemma {:induction false} DependenciesResolveLeftToRight(fuel: nat, env: Env, s: State, xs: seq<Dependency>, ys: seq<Dependency>)
    ensures BuildDependencies(fuel, env, s, xs + ys)
            == (var (a, s1) := BuildDependencies(fuel, env, s, xs);
                if a.Err? then (a, s1) else Prepend(a.value, BuildDependencies(fuel, env, s1, ys)))
    decreases |xs|
  {
    if xs == [] {
      assert xs + ys == ys;
      assert Prepend([], BuildDependencies(fuel, env, s, ys)) == BuildDependencies(fuel, env, s, ys) by {
        var rest := BuildDependencies(fuel, env, s, ys);
        if rest.0.Ok? {
          assert [] + rest.0.value == rest.0.value;
        }
      }
    } else {
      assert (xs + ys)[0] == xs[0];
      assert (xs + ys)[1..] == xs[1..] + ys;
      var (v, s1) := Resolve(fuel, env, s, xs[0]);
      if v.Ok? {
        DependenciesResolveLeftToRight(fuel, env, s1, xs[1..], ys);
        var (a, s2) := BuildDependencies(fuel, env, s1, xs[1..]);
        if a.Ok? {
          PrependTwice([v.value], a.value, BuildDependencies(fuel, env, s2, ys));
        }
      }
    }
  }

  /** The dependency list `[value(v0), value(v1), ...]`. */
  function Boxed(vs: seq<Val>): (ds: seq<Dependency>)
    ensures |ds| == |vs|
    ensures forall i | 0 <= i < |vs| :: ds[i] == Value(vs[i])
  {
    seq(|vs|, i requires 0 <= i < |vs| => Value(vs[i]))
  }

  /** Values wrapped by `value(...)` reach the component exactly as given, in order, without a
      lookup and without touching any state; this holds whatever the stack depth. */
  lemma {:induction false} BoxedDependenciesPassThrough(fuel: nat, env: Env, s: State, vs: seq<Val>)
    ensures BuildDependencies(fuel, env, s, Boxed(vs)) == (Ok(vs), s)
    decreases |vs|
  {
    if vs != [] {
      assert Boxed(vs)[1..] == Boxed(vs[1..]);
      BoxedDependenciesPassThrough(fuel, env, s, vs[1..]);
      assert [vs[0]] + vs[1..] == vs;
    }
  }

  /** A factory with boxed dependencies and no properties is called with exactly those values, in
      order, and its result is the component (recorded under its name when the identity map
      declares it). */
  lemma FactoryReceivesArgumentsInOrder(fuel: nat, env: Env, s: State, fn: Fn, d: Description, vs: seq<Val>)
    requires d.dependencies == Some(Boxed(vs)) && d.properties == None
    ensures Build(fuel, env, s, MethodBuilder(fn), Some(d))
            == (Ok(env.invoke(fn, vs)), Record(s, d.name, env.invoke(fn, vs)))
  {
    BoxedDependenciesPassThrough(fuel, env, s, vs);
  }

  /** A class with boxed dependencies and no properties is constructed once, with exactly those
      arguments, and the component is that new object. */
  lemma ClassReceivesArgumentsInOrder(fuel: nat, env: Env, s: State, ctor: Fn, d: Description, vs: seq<Val>)
    requires d.dependencies == Some(Boxed(vs)) && d.properties == None
    ensures var (r, s') := Build(fuel, env, s, ClassBuilder(ctor), Some(d));
            && r == Ok(Instance(|s.instances|))
            && s'.instances == s.instances + [Construction(ctor, vs)]
  {
    BoxedDependenciesPassThrough(fuel, env, s, vs);
  }

  /** Once a name has been resolved without a failure, its builder is cached: a later `bind`,
      `to` or `asSingleton` on the same name cannot change what the container builds for it. */
  lemma CachedBuilderOutlivesRebinding(fuel: nat, env: Env, s: State, name: string, later: Env, s2: State)
    requires !Hit(s, name)
    requires var (r, s1) := Resolve(fuel, env, s, Lookup(Name(name))); r.Ok? && Keeps(s1, s2)
    ensures GetBuilder(env.descriptions, s.builders, name).0.Ok?
    ensures GetBuilder(later.descriptions, s2.builders, name)
            == (GetBuilder(env.descriptions, s.builders, name).0, s2.builders)
  {
    var (b, builders) := GetBuilder(env.descriptions, s.builders, name);
    if b.Ok? && fuel > 0 && b.value.Some? {
      BuildEvolves(fuel - 1, env, s.(builders := builders), b.value.value, Describe(env, name));
    }
  }

  /** Once a resolution of a singleton's name has completed with a defined instance, every
      later resolution of that name returns that same instance and changes nothing, in any
      identity map that holds no defined value under that name. A resolution that re-enters
      the singleton before its first build returns may build it again
      (Reentrance.ReentrantSingletonBuildsTwice). */
  lemma SingletonResolvesToOneInstance(f1: nat, f2: nat, env: Env, s: State, name: string, s2: State)
    requires !Hit(s, name)
    requires var b := GetBuilder(env.descriptions, s.builders, name).0;
             b.Ok? && b.value.Some? && b.value.value.SingletonBuilder?
    requires var (r, s1) := Resolve(f1, env, s, Lookup(Name(name)));
             r.Ok? && r.value != Undefined && Keeps(s1, s2)
    requires !Hit(s2, name) && f2 > 0
    ensures Resolve(f2, env, s2, Lookup(Name(name))) == (Resolve(f1, env, s, Lookup(Name(name))).0, s2)
  {
    var (b, builders) := GetBuilder(env.descriptions, s.builders, name);
    if f1 > 0 {
      BuildEvolves(f1 - 1, env, s.(builders := builders), b.value.value, Describe(env, name));
    }
  }

  /** Without the singleton decorator a class is constructed anew on every resolution that
      reaches its builder: two such resolutions give two different objects of that class. */
  lemma TransientClassGivesDistinctInstances(f1: nat, f2: nat, env: Env, s: State, name: string, ctor: Fn, s2: State)
    requires !Hit(s, name)
    requires GetBuilder(env.descriptions, s.builders, name).0 == Ok(Some(ClassBuilder(ctor)))
    requires var (r, s1) := Resolve(f1, env, s, Lookup(Name(name)));
             r.Ok? && Keeps(s1, s2) && s1.instances <= s2.instances
    requires !Hit(s2, name)
    requires Resolve(f2, env, s2, Lookup(Name(name))).0.Ok?
    ensures var (r1, s1) := Resolve(f1, env, s, Lookup(Name(name)));
            var (r2, s3) := Resolve(f2, env, s2, Lookup(Name(name)));
            && r1.value != r2.value
            && FreshInstance(s, s1, r1.value, ctor)
            && FreshInstance(s2, s3, r2.value, ctor)
  {
    var builders := GetBuilder(env.descriptions, s.builders, name).1;
    var s1 := Resolve(f1, env, s, Lookup(Name(name))).1;
    if f1 > 0 {
      BuildEvolves(f1 - 1, env, s.(builders := builders), ClassBuilder(ctor), Describe(env, name));
    }
    var builders2 := GetBuilder(env.descriptions, s2.builders, name).1;
    assert s2.builders[name] == s1.builders[name];
    if f2 > 0 {
      BuildEvolves(f2 - 1, env, s2.(builders := builders2), ClassBuilder(ctor), Describe(env, name));
    }
  }

  /** Building a class or factory component under a name the identity map declares writes the
      component into the map before its properties are injected, so a defined result is a hit
      from then on. */
  lemma DeclaredComponentIsRecorded(fuel: nat, env: Env, s: State, b: Builder, d: Description)
    requires b.ClassBuilder? || b.MethodBuilder?
    requires NamesAgree(env)
    requires s.identity.Some? && d.name in s.identity.value
    requires var r := Build(fuel, env, s, b, Some(d)).0;
             r.Ok? && (b.MethodBuilder? ==> r.value != Undefined)
    ensures var (r, s') := Build(fuel, env, s, b, Some(d));
            Hit(s', d.name) && s'.identity.value[d.name] == r.value
  {
    var (args, s1) := BuildDependencies(fuel, env, s, Listed(d.dependencies));
    DependenciesEvolve(fuel, env, s, Listed(d.dependencies));
    var (component, s2) := CreateComponent(env, s1, b, args.value);
    PropertiesEvolve(fuel, env, Record(s2, d.name, component), component, Listed(d.properties));
  }

  /** One identity map shared by several `resolve` calls makes a class or factory whose name it
      declares behave as a singleton for the duration of that map: once a resolution of it has
      completed with a defined value, any other resolution in between leaves it in place and
      resolving it again returns the same value without building. (A lookup made while its own
      constructor dependencies are resolved comes too early: Reentrance.IdentityMapMissesConstructorCycle.) */
  lemma SharedIdentityMapGivesOneInstance(f1: nat, f2: nat, f3: nat, env: Env, s: State, name: string, b: Builder, other: Dependency)
    requires b.ClassBuilder? || b.MethodBuilder?
    requires NamesAgree(env)
    requires s.identity.Some? && name in s.identity.value && !Hit(s, name)
    requires GetBuilder(env.descriptions, s.builders, name).0 == Ok(Some(b))
    requires var z := Resolve(f1, env, s, Lookup(Name(name))).0;
             z.Ok? && (b.MethodBuilder? ==> z.value != Undefined)
    ensures var (z, s1) := Resolve(f1, env, s, Lookup(Name(name)));
            var s2 := Resolve(f2, env, s1, other).1;
            Resolve(f3, env, s2, Lookup(Name(name))) == (z, s2)
  {
    var s0 := s.(builders := GetBuilder(env.descriptions, s.builders, name).1);
    assert Resolve(f1, env, s, Lookup(Name(name))) == Build(f1 - 1, env, s0, b, Describe(env, name));
    DeclaredComponentIsRecorded(f1 - 1, env, s0, b, env.descriptions[name]);
    ResolveEvolves(f2, env, Resolve(f1, env, s, Lookup(Name(name))).1, other);
  }

  /** The state a class build has reached once its dependencies are resolved, the object is
      constructed and the identity-map write is done: the point where property injection
      starts. */
  function BeforeInjection(fuel: nat, env: Env, s: State, ctor: Fn, d: Description): (r: (Val, State))
    requires BuildDependencies(fuel, env, s, Listed(d.dependencies)).0.Ok?
    ensures r.0.Instance?
  {
    var (args, s1) := BuildDependencies(fuel, env, s, Listed(d.dependencies));
    var (component, s2) := CreateComponent(env, s1, ClassBuilder(ctor), args.value);
    (component, Record(s2, d.name, component))
  }

  /** A component whose name the identity map declares answers every lookup of that name made
      while its properties are injected, directly or through other components: after any prefix
      of the properties, in every state that keeps the hits of that point (which every
      resolution does, Evolution.ResolveEvolves), resolving the name returns the component and
      changes nothing. */
  lemma RecordedComponentAnswersItsName(fuel: nat, env: Env, s: State, ctor: Fn, d: Description,
                                        xs: seq<(string, Dependency)>, f: nat, u: State)
    requires NamesAgree(env)
    requires s.identity.Some? && d.name in s.identity.value
    requires BuildDependencies(fuel, env, s, Listed(d.dependencies)).0.Ok?
    ensures var (component, s3) := BeforeInjection(fuel, env, s, ctor, d);
            var (a, t) := InjectProperties(fuel, env, s3, component, xs);
            a.Ok? && HitsKept(t, u) ==> Resolve(f, env, u, Lookup(Name(d.name))) == (Ok(component), u)
  {
    DependenciesEvolve(fuel, env, s, Listed(d.dependencies));
    var (component, s3) := BeforeInjection(fuel, env, s, ctor, d);
    assert Hit(s3, d.name) && s3.identity.value[d.name] == component;
    PropertiesEvolve(fuel, env, s3, component, xs);
  }

  /** A property whose contract leads back to the component being built (a cycle through
      properties) receives that very component, provided the identity map declares its name:
      the component is recorded before its properties are resolved, so this holds whatever
      properties come before it. */
  lemma PropertyCycleSeesTheComponent(fuel: nat, env: Env, s: State, ctor: Fn, d: Description,
                                      xs: seq<(string, Dependency)>, p: string)
    requires NamesAgree(env)
    requires d.properties == Some(xs + [(p, Lookup(Name(d.name)))])
    requires s.identity.Some? && d.name in s.identity.value
    requires BuildDependencies(fuel, env, s, Listed(d.dependencies)).0.Ok?
    ensures var (r, s') := Build(fuel, env, s, ClassBuilder(ctor), Some(d));
            && (xs == [] ==> r.Ok?)
            && (r.Ok? ==> (r.value, p) in s'.fields && s'.fields[(r.value, p)] == r.value)
  {
    var dep := Lookup(Name(d.name));
    var (component, s3) := BeforeInjection(fuel, env, s, ctor, d);
    RecordedComponentAnswersItsName(fuel, env, s, ctor, d, xs, fuel, InjectProperties(fuel, env, s3, component, xs).1);
    PropertiesInjectLeftToRight(fuel, env, s3, component, xs, [(p, dep)]);
    LastPropertyHoldsResolvedValue(fuel, env, s3, component, xs, p, dep);
  }

  /** Properties are injected strictly in order: injecting `xs + ys` is injecting `xs` and then,
      from the state that left, injecting `ys`; the first failure stops the rest. */
  lemma {:induction false} PropertiesInjectLeftToRight(fuel: nat, env: Env, s: State, component: Val,
                                                       xs: seq<(string, Dependency)>, ys: seq<(string, Dependency)>)
    ensures InjectProperties(fuel, env, s, component, xs + ys)
            == (var (a, s1) := InjectProperties(fuel, env, s, component, xs);
                if a.Err? then (a, s1) else InjectProperties(fuel, env, s1, component, ys))
    decreases |xs|
  {
    if xs == [] {
      assert xs + ys == ys;
    } else {
      assert (xs + ys)[0] == xs[0];
      assert (xs + ys)[1..] == xs[1..] + ys;
      var (v, s1) := Resolve(fuel, env, s, xs[0].1);
      if v.Ok? && IsObject(component) {
        PropertiesInjectLeftToRight(fuel, env, s1.(fields := s1.fields[(component, xs[0].0) := v.value]), component, xs[1..], ys);
      }
    }
  }

  /** After the properties before it have been injected, a property receives exactly what its
      contract resolves to at that point, and no later assignment is left to overwrite it when
      it comes last. */
  lemma LastPropertyHoldsResolvedValue(fuel: nat, env: Env, s: State, component: Val,
                                       xs: seq<(string, Dependency)>, p: string, dep: Dependency)
    requires IsObject(component)
    ensures var (a, s1) := InjectProperties(fuel, env, s, component, xs);
            var (r, s2) := InjectProperties(fuel, env, s, component, xs + [(p, dep)]);
            a.Ok? && Resolve(fuel, env, s1, dep).0.Ok?
            ==> r.Ok? && (component, p) in s2.fields && s2.fields[(component, p)] == Resolve(fuel, env, s1, dep).0.value
  {
    PropertiesInjectLeftToRight(fuel, env, s, component, xs, [(p, dep)]);
    var (a, s1) := InjectProperties(fuel, env, s, component, xs);
    if a.Ok? {
      var (v, t) := Resolve(fuel, env, s1, dep);
      if v.Ok? {
        assert InjectProperties(fuel, env, s1, component, [(p, dep)])
               == InjectProperties(fuel, env, t.(fields := t.fields[(component, p) := v.value]), component, []);
      }
    }
  }
}
