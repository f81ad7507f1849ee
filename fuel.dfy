/** The stack depth `fuel` is only a bound: a resolution that did not run out of stack gives the
    same outcome and leaves the same state when it is given one frame more, so every outcome
    other than StackExhausted is the one a deeper stack would give. Proved by one induction that
    follows the mutual recursion of the resolution functions. */
module Fuel {
  import opened Values
  import opened Builders
  import opened Resolution

  lemma {:induction false} ResolveNeedsNoMoreFuel(fuel: nat, env: Env, s: State, d: Dependency)
    ensures Resolve(fuel, env, s, d).0 != Err(StackExhausted) ==> Resolve(fuel + 1, env, s, d) == Resolve(fuel, env, s, d)
    decreases fuel, 1
  {
    if d.Lookup? && !Hit(s, NameOf(d.contract)) {
      MissNeedsNoMoreFuel(fuel, env, s, NameOf(d.contract));
    }
  }

  lemma {:induction false} MissNeedsNoMoreFuel(fuel: nat, env: Env, s: State, name: string)
    ensures ResolveMiss(fuel, env, s, name).0 != Err(StackExhausted) ==> ResolveMiss(fuel + 1, env, s, name) == ResolveMiss(fuel, env, s, name)
    decreases fuel, 0
  {
    var (b, builders) := GetBuilder(env.descriptions, s.builders, name);
    if b.Ok? && fuel > 0 && b.value.Some? {
      BuildNeedsNoMoreFuel(fuel - 1, env, s.(builders := builders), b.value.value, Describe(env, name));
    }
  }

  lemma {:induction false} BuildNeedsNoMoreFuel(fuel: nat, env: Env, s: State, b: Builder, desc: Option<Description>)
    ensures Build(fuel, env, s, b, desc).0 != Err(StackExhausted) ==> Build(fuel + 1, env, s, b, desc) == Build(fuel, env, s, b, desc)
    decreases fuel, 4, b
  {
    match b
    case WrapperBuilder(_) =>
    case SingletonBuilder(cell, inner) =>
      if CellValue(s, cell) == Undefined && inner.Some? {
        BuildNeedsNoMoreFuel(fuel, env, s, inner.value, desc);
      }
    case _ =>
      if desc.Some? {
        ComponentNeedsNoMoreFuel(fuel, env, s, b, desc.value);
      }
  }

  lemma {:induction false} ComponentNeedsNoMoreFuel(fuel: nat, env: Env, s: State, b: Builder, desc: Description)
    requires b.ClassBuilder? || b.MethodBuilder?
    ensures Build(fuel, env, s, b, Some(desc)).0 != Err(StackExhausted) ==> Build(fuel + 1, env, s, b, Some(desc)) == Build(fuel, env, s, b, Some(desc))
    decreases fuel, 3
  {
    var (args, s1) := BuildDependencies(fuel, env, s, Listed(desc.dependencies));
    DependenciesNeedNoMoreFuel(fuel, env, s, Listed(desc.dependencies));
    if args.Ok? {
      var (component, s2) := CreateComponent(env, s1, b, args.value);
      PropertiesNeedNoMoreFuel(fuel, env, Record(s2, desc.name, component), component, Listed(desc.properties));
    }
  }

  lemma {:induction false} DependenciesNeedNoMoreFuel(fuel: nat, env: Env, s: State, deps: seq<Dependency>)
    ensures BuildDependencies(fuel, env, s, deps).0 != Err(StackExhausted)
            ==> BuildDependencies(fuel + 1, env, s, deps) == BuildDependencies(fuel, env, s, deps)
    decreases fuel, 2, |deps|
  {
    if deps != [] {
      ResolveNeedsNoMoreFuel(fuel, env, s, deps[0]);
      var (v, s1) := Resolve(fuel, env, s, deps[0]);
      if v.Ok? {
        DependenciesNeedNoMoreFuel(fuel, env, s1, deps[1..]);
      }
    }
  }

  lemma {:induction false} PropertiesNeedNoMoreFuel(fuel: nat, env: Env, s: State, component: Val, props: seq<(string, Dependency)>)
    ensures InjectProperties(fuel, env, s, component, props).0 != Err(StackExhausted)
            ==> InjectProperties(fuel + 1, env, s, component, props) == InjectProperties(fuel, env, s, component, props)
    decreases fuel, 2, |props|
  {
    if props != [] {
      ResolveNeedsNoMoreFuel(fuel, env, s, props[0].1);
      var (v, s1) := Resolve(fuel, env, s, props[0].1);
      if v.Ok? && IsObject(component) {
        PropertiesNeedNoMoreFuel(fuel, env, s1.(fields := s1.fields[(component, props[0].0) := v.value]), component, props[1..]);
      }
    }
  }
}
