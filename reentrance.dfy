/** Two resolutions that re-enter a component while it is still being built. Class A takes a B
    in its constructor, and class B has a property `x` resolved by the contract "A". The
    singleton memo and the identity-map write both happen only after the dependencies are
    resolved, so the inner lookup of "A" made while B is injected builds a second A, which B
    keeps, while the outer resolution returns a third object. */
module Reentrance {
  import opened Values
  import opened Builders
  import opened Resolution

  const A := Fn(1, "A")
  const B := Fn(2, "B")

  /** The registration of A (with the given builder) and of B. */
  function Registered(b: Builder): (d: map<string, Description>)
    ensures d.Keys == {"A", "B"} && d["A"].builder == Some(b) && d["B"].builder == Some(ClassBuilder(B))
  {
    map["A" := Description("A", Some(b), Some([Lookup(Name("B"))]), None),
        "B" := Description("B", Some(ClassBuilder(B)), None, Some([("x", Lookup(Name("A")))]))]
  }

  /** One step of a trace: a lookup that misses the identity map builds with one frame less. */
  lemma MissStep(fuel: nat, env: Env, s: State, name: string, b: Builder)
    requires fuel > 0 && !Hit(s, name)
    requires Cached(s.builders, name) || name in env.descriptions
    requires GetBuilder(env.descriptions, s.builders, name).0 == Ok(Some(b))
    ensures Resolve(fuel, env, s, Lookup(Name(name)))
            == Build(fuel - 1, env, s.(builders := s.builders[name := Some(b)]), b, Describe(env, name))
  {
  }

  /** One step of a trace: a class build whose dependencies and properties are known. */
  lemma ClassStep(fuel: nat, env: Env, s: State, ctor: Fn, d: Description, args: seq<Val>, s1: State, s': State)
    requires BuildDependencies(fuel, env, s, Listed(d.dependencies)) == (Ok(args), s1)
    requires var c := Instance(|s1.instances|);
             InjectProperties(fuel, env, Record(s1.(instances := s1.instances + [Construction(ctor, args)]), d.name, c), c,
                              Listed(d.properties)) == (Ok(()), s')
    ensures Build(fuel, env, s, ClassBuilder(ctor), Some(d)) == (Ok(Instance(|s1.instances|)), s')
  {
  }

  /** One step of a trace: a single dependency. */
  lemma OneDependency(fuel: nat, env: Env, s: State, d: Dependency, v: Val, s1: State)
    requires Resolve(fuel, env, s, d) == (Ok(v), s1)
    ensures BuildDependencies(fuel, env, s, [d]) == (Ok([v]), s1)
  {
    assert [d][1..] == [];
    assert BuildDependencies(fuel, env, s1, []) == (Ok([]), s1);
    assert [v] + [] == [v];
  }

  /** One step of a trace: a single property on an object. */
  lemma OneProperty(fuel: nat, env: Env, s: State, component: Val, p: string, d: Dependency, v: Val, s1: State)
    requires IsObject(component)
    requires Resolve(fuel, env, s, d) == (Ok(v), s1)
    ensures InjectProperties(fuel, env, s, component, [(p, d)]) == (Ok(()), s1.(fields := s1.fields[(component, p) := v]))
  {
    assert [(p, d)][1..] == [];
    var t := s1.(fields := s1.fields[(component, p) := v]);
    assert InjectProperties(fuel, env, t, component, []) == (Ok(()), t);
  }

  /** A singleton A is constructed twice by one resolution. The call is
      `resolve("A", {B: undefined})`. The inner resolution of "A", made while B's property
      is injected, finds the memo cell still undefined: the cell is only filled once the outer
      build returns. So B's `x` holds object 1, while the result and the memo cell hold
      object 2. */
  lemma ReentrantSingletonBuildsTwice(env: Env, b: Builder)
    requires b.SingletonBuilder? && b.inner == Some(ClassBuilder(A))
    requires env.descriptions == Registered(b)
    ensures var s0 := State(map[], map[b.cell := Undefined], Some(map["B" := Undefined]), [], map[]);
            var (r, s') := Resolve(3, env, s0, Lookup(Name("A")));
            && r == Ok(Instance(2))
            && CellValue(s', b.cell) == Instance(2)
            && s'.instances == [Construction(B, []), Construction(A, [Instance(0)]), Construction(A, [Instance(0)])]
            && (Instance(0), "x") in s'.fields && s'.fields[(Instance(0), "x")] == Instance(1)
  {
    var dA := env.descriptions["A"];
    var dB := env.descriptions["B"];
    var s0 := State(map[], map[b.cell := Undefined], Some(map["B" := Undefined]), [], map[]);
    var s1 := s0.(builders := s0.builders["A" := Some(b)]);
    var s2 := s1.(builders := s1.builders["B" := Some(ClassBuilder(B))]);
    var s3 := s2.(instances := s2.instances + [Construction(B, [])]);
    var s4 := s3.(identity := Some(s3.identity.value["B" := Instance(0)]));
    assert Record(s3, "B", Instance(0)) == s4;
    // The inner resolution of "A", made while B's property is injected.
    OneDependency(0, env, s4, Lookup(Name("B")), Instance(0), s4);
    var s5 := s4.(instances := s4.instances + [Construction(A, [Instance(0)])]);
    ClassStep(0, env, s4, A, dA, [Instance(0)], s4, s5);
    var s6 := s5.(cells := s5.cells[b.cell := Instance(1)]);
    assert Build(0, env, s4, b, Some(dA)) == (Ok(Instance(1)), s6);
    assert s4.builders["A" := Some(b)] == s4.builders;
    MissStep(1, env, s4, "A", b);
    OneProperty(1, env, s4, Instance(0), "x", Lookup(Name("A")), Instance(1), s6);
    var s7 := s6.(fields := s6.fields[(Instance(0), "x") := Instance(1)]);
    // B is built, recorded and injected.
    ClassStep(1, env, s2, B, dB, [], s2, s7);
    MissStep(2, env, s1, "B", ClassBuilder(B));
    // The outer build of A.
    OneDependency(2, env, s1, Lookup(Name("B")), Instance(0), s7);
    var s8 := s7.(instances := s7.instances + [Construction(A, [Instance(0)])]);
    ClassStep(2, env, s1, A, dA, [Instance(0)], s7, s8);
    var s9 := s8.(cells := s8.cells[b.cell := Instance(2)]);
    assert Build(2, env, s1, b, Some(dA)) == (Ok(Instance(2)), s9);
    MissStep(3, env, s0, "A", b);
  }

  /** An identity map that declares both names does not make the cycle share one A. The call
      is `resolve("A", {A: undefined, B: undefined})` with A an undecorated class. A's
      dependencies are resolved before A is written into the map, so the lookup of "A" made
      while B is injected still misses and builds object 1. B's `x` keeps object 1. The outer
      build then returns object 2 and overwrites the map's entry with it. */
  lemma IdentityMapMissesConstructorCycle(env: Env)
    requires env.descriptions == Registered(ClassBuilder(A))
    ensures var s0 := State(map[], map[], Some(map["A" := Undefined, "B" := Undefined]), [], map[]);
            var (r, s') := Resolve(3, env, s0, Lookup(Name("A")));
            && r == Ok(Instance(2))
            && s'.identity == Some(map["A" := Instance(2), "B" := Instance(0)])
            && (Instance(0), "x") in s'.fields && s'.fields[(Instance(0), "x")] == Instance(1)
  {
    var dA := env.descriptions["A"];
    var dB := env.descriptions["B"];
    var s0 := State(map[], map[], Some(map["A" := Undefined, "B" := Undefined]), [], map[]);
    var s1 := s0.(builders := s0.builders["A" := Some(ClassBuilder(A))]);
    var s2 := s1.(builders := s1.builders["B" := Some(ClassBuilder(B))]);
    var s3 := s2.(instances := s2.instances + [Construction(B, [])]);
    var s4 := s3.(identity := Some(s3.identity.value["B" := Instance(0)]));
    assert Record(s3, "B", Instance(0)) == s4;
    // The inner resolution of "A", made while B's property is injected: "A" is still undefined.
    OneDependency(0, env, s4, Lookup(Name("B")), Instance(0), s4);
    var s5 := s4.(instances := s4.instances + [Construction(A, [Instance(0)])]);
    var s6 := s5.(identity := Some(s5.identity.value["A" := Instance(1)]));
    assert Record(s5, "A", Instance(1)) == s6;
    ClassStep(0, env, s4, A, dA, [Instance(0)], s4, s6);
    assert s4.builders["A" := Some(ClassBuilder(A))] == s4.builders;
    MissStep(1, env, s4, "A", ClassBuilder(A));
    OneProperty(1, env, s4, Instance(0), "x", Lookup(Name("A")), Instance(1), s6);
    var s7 := s6.(fields := s6.fields[(Instance(0), "x") := Instance(1)]);
    // B is built, recorded and injected.
    ClassStep(1, env, s2, B, dB, [], s2, s7);
    MissStep(2, env, s1, "B", ClassBuilder(B));
    // The outer build of A, which overwrites the entry the inner build wrote.
    OneDependency(2, env, s1, Lookup(Name("B")), Instance(0), s7);
    var s8 := s7.(instances := s7.instances + [Construction(A, [Instance(0)])]);
    var s9 := s8.(identity := Some(s8.identity.value["A" := Instance(2)]));
    assert Record(s8, "A", Instance(2)) == s9;
    ClassStep(2, env, s1, A, dA, [Instance(0)], s7, s9);
    MissStep(3, env, s0, "A", ClassBuilder(A));
    assert s9.identity.value == map["A" := Instance(2), "B" := Instance(0)];
  }
}
