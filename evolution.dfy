/** What every resolution step guarantees about the state it leaves, proved by one induction that
    follows the mutual recursion of `resolve`, `build`, `buildDependencies` and
    `injectProperties`: the state only evolves (Resolution.Evolves), the builder cache gains
    only described names, identity-map hits survive when descriptions sit under their own
    names, ComponentNotFound is never raised for a described name, and a successful lookup
    leaves its builder cached. */
module Evolution {
  import opened Values
  import opened Builders
  import opened Resolution

  /** `resolve` evolves the state; after a miss that succeeds the builder is cached. */
  lemma {:induction false} ResolveEvolves(fuel: nat, env: Env, s: State, d: Dependency)
    ensures var (r, s') := Resolve(fuel, env, s, d);
            && Evolves(s, s')
            && s'.builders.Keys <= s.builders.Keys + env.descriptions.Keys
            && (NamesAgree(env) ==> HitsKept(s, s'))
            && HonestNotFound(env, r)
            && (d.Lookup? && !Hit(s, NameOf(d.contract)) && r.Ok? ==> Cached(s'.builders, NameOf(d.contract)))
    decreases fuel, 1
  {
    if d.Lookup? && !Hit(s, NameOf(d.contract)) {
      MissEvolves(fuel, env, s, NameOf(d.contract));
    }
  }

  /** The miss path of `resolve`: `getBuilder` caches before anything is built, and the build
      that follows only evolves the state. */
  lemma {:induction false} MissEvolves(fuel: nat, env: Env, s: State, name: string)
    ensures var (r, s') := ResolveMiss(fuel, env, s, name);
            && Evolves(s, s')
            && s'.builders.Keys <= s.builders.Keys + env.descriptions.Keys
            && (NamesAgree(env) && !Hit(s, name) ==> HitsKept(s, s'))
            && HonestNotFound(env, r)
            && (r.Ok? ==> Cached(s'.builders, name))
    decreases fuel, 0
  {
    var (b, builders) := GetBuilder(env.descriptions, s.builders, name);
    var s1 := s.(builders := builders);
    assert Evolves(s, s1) && HitsKept(s, s1);
    if b.Ok? && fuel > 0 && b.value.Some? {
      BuildEvolves(fuel - 1, env, s1, b.value.value, Describe(env, name));
    }
  }

  /** Every builder variant evolves the state, and a class builder that succeeds returns an
      object constructed during that build. */
  lemma {:induction false} BuildEvolves(fuel: nat, env: Env, s: State, b: Builder, desc: Option<Description>)
    ensures var (r, s') := Build(fuel, env, s, b, desc);
            && Evolves(s, s')
            && s'.builders.Keys <= s.builders.Keys + env.descriptions.Keys
            && (NamesAgree(env) && (desc.Some? ==> !Hit(s, desc.value.name)) ==> HitsKept(s, s'))
            && HonestNotFound(env, r)
            && (b.ClassBuilder? && r.Ok? ==> FreshInstance(s, s', r.value, b.ctor))
    decreases fuel, 4, b
  {
    match b
    case WrapperBuilder(_) =>
    case SingletonBuilder(cell, inner) =>
      if CellValue(s, cell) == Undefined && inner.Some? {
        BuildEvolves(fuel, env, s, inner.value, desc);
      }
    case _ =>
      if desc.Some? {
        ComponentEvolves(fuel, env, s, b, desc.value);
      }
  }

  /** Building a class or factory component: dependencies, construction, recording in the
      identity map and property injection each evolve the state. */
  lemma {:induction false} ComponentEvolves(fuel: nat, env: Env, s: State, b: Builder, desc: Description)
    requires b.ClassBuilder? || b.MethodBuilder?
    ensures var (r, s') := Build(fuel, env, s, b, Some(desc));
            && Evolves(s, s')
            && s'.builders.Keys <= s.builders.Keys + env.descriptions.Keys
            && (NamesAgree(env) && !Hit(s, desc.name) ==> HitsKept(s, s'))
            && HonestNotFound(env, r)
            && (b.ClassBuilder? && r.Ok? ==> FreshInstance(s, s', r.value, b.ctor))
    decreases fuel, 3
  {
    var (args, s1) := BuildDependencies(fuel, env, s, Listed(desc.dependencies));
    DependenciesEvolve(fuel, env, s, Listed(desc.dependencies));
    if args.Ok? {
      var (component, s2) := CreateComponent(env, s1, b, args.value);
      var s3 := Record(s2, desc.name, component);
      RecordEvolves(s, s1, s2, desc.name, component);
      PropertiesEvolve(fuel, env, s3, component, Listed(desc.properties));
      var s4 := InjectProperties(fuel, env, s3, component, Listed(desc.properties)).1;
      EvolvesTransitive(s, s3, s4);
      if NamesAgree(env) && !Hit(s, desc.name) {
        HitsKeptTransitive(s, s3, s4);
      }
    }
  }

  /** Construction and the identity-map write that follows it, taken after the dependencies:
      the state still only evolves, the new object is the last one appended, and hits other
      than the component's own name are untouched. */
  lemma RecordEvolves(s: State, s1: State, s2: State, name: string, component: Val)
    requires Evolves(s, s1)
    requires s2.builders == s1.builders && s2.cells == s1.cells && s2.identity == s1.identity
    requires s2.fields == s1.fields && s1.instances <= s2.instances
    ensures Evolves(s, Record(s2, name, component))
    ensures HitsKept(s, s1) && !Hit(s, name) ==> HitsKept(s, Record(s2, name, component))
  {
  }

  lemma EvolvesTransitive(s1: State, s2: State, s3: State)
    requires Evolves(s1, s2) && Evolves(s2, s3)
    ensures Evolves(s1, s3)
  {
  }

  lemma HitsKeptTransitive(s1: State, s2: State, s3: State)
    requires HitsKept(s1, s2) && HitsKept(s2, s3)
    ensures HitsKept(s1, s3)
  {
  }

  /** Resolving a dependency list evolves the state, and each boxed value lands at its own
      position of the result. */
  lemma {:induction false} DependenciesEvolve(fuel: nat, env: Env, s: State, deps: seq<Dependency>)
    ensures var (r, s') := BuildDependencies(fuel, env, s, deps);
            && Evolves(s, s')
            && s'.builders.Keys <= s.builders.Keys + env.descriptions.Keys
            && (NamesAgree(env) ==> HitsKept(s, s'))
            && HonestNotFound(env, r)
            && (r.Ok? ==> forall i | 0 <= i < |deps| && deps[i].Value? :: r.value[i] == deps[i].value)
    decreases fuel, 2, |deps|
  {
    if deps != [] {
      ResolveEvolves(fuel, env, s, deps[0]);
      var (v, s1) := Resolve(fuel, env, s, deps[0]);
      if v.Ok? {
        DependenciesEvolve(fuel, env, s1, deps[1..]);
        var (vs, s2) := BuildDependencies(fuel, env, s1, deps[1..]);
        if vs.Ok? {
          forall i | 0 <= i < |deps| && deps[i].Value?
            ensures ([v.value] + vs.value)[i] == deps[i].value
          {
            if i > 0 {
              assert deps[1..][i - 1] == deps[i];
            }
          }
        }
      }
    }
  }

  /** Injecting properties evolves the state, and when it succeeds every property it was given
      has been assigned on the component. */
  lemma {:induction false} PropertiesEvolve(fuel: nat, env: Env, s: State, component: Val, props: seq<(string, Dependency)>)
    ensures var (r, s') := InjectProperties(fuel, env, s, component, props);
            && Evolves(s, s')
            && s'.builders.Keys <= s.builders.Keys + env.descriptions.Keys
            && (NamesAgree(env) ==> HitsKept(s, s'))
            && HonestNotFound(env, r)
            && (r.Ok? ==> forall i | 0 <= i < |props| :: (component, props[i].0) in s'.fields)
    decreases fuel, 2, |props|
  {
    if props != [] {
      ResolveEvolves(fuel, env, s, props[0].1);
      var (v, s1) := Resolve(fuel, env, s, props[0].1);
      if v.Ok? && IsObject(component) {
        var t := s1.(fields := s1.fields[(component, props[0].0) := v.value]);
        PropertiesEvolve(fuel, env, t, component, props[1..]);
        var (r2, s2) := InjectProperties(fuel, env, t, component, props[1..]);
        if r2.Ok? {
          forall i | 0 <= i < |props|
            ensures (component, props[i].0) in s2.fields
          {
            if i > 0 {
              assert props[1..][i - 1] == props[i];
            } else {
              assert (component, props[0].0) in t.fields;
            }
          }
        }
      }
    }
  }
}
