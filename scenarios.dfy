/** A client of the imperative container: registration through the fluent chain followed by
    resolution, checked against the resolution functions. */
module Scenarios {
  import opened Values
  import opened Builders
  import opened Resolution
  import Registry
  import Properties

  /** The two resolutions of a singleton class with no dependencies and no properties: the first
      caches the builder, constructs the object and stores it in the memo cell; the second
      returns it from the cell and changes nothing. */
  lemma SingletonTrace(env: Env, d: Description, b: Builder, ctor: Fn)
    requires b.SingletonBuilder? && b.inner == Some(ClassBuilder(ctor))
    requires d == Description("logger", Some(b), None, None) && env.descriptions == map["logger" := d]
    ensures var s0 := State(map[], map[b.cell := Undefined], None, [], map[]);
            var s3 := State(map["logger" := Some(b)], map[b.cell := Instance(0)], None, [Construction(ctor, [])], map[]);
            && Resolve(3, env, s0, Lookup(Name("logger"))) == (Ok(Instance(0)), s3)
            && Resolve(3, env, s3, Lookup(Name("logger"))) == (Ok(Instance(0)), s3)
  {
    var s0 := State(map[], map[b.cell := Undefined], None, [], map[]);
    var s1 := s0.(builders := map["logger" := Some(b)]);
    assert GetBuilder(env.descriptions, s0.builders, "logger") == (Ok(Some(b)), s1.builders);
    assert BuildDependencies(2, env, s1, []) == (Ok([]), s1);
    var s2 := s1.(instances := [Construction(ctor, [])]);
    assert s1.instances + [Construction(ctor, [])] == s2.instances;
    assert CreateComponent(env, s1, ClassBuilder(ctor), []) == (Instance(0), s2);
    assert Record(s2, "logger", Instance(0)) == s2;
    assert InjectProperties(2, env, s2, Instance(0), []) == (Ok(()), s2);
    assert Build(2, env, s1, ClassBuilder(ctor), Some(d)) == (Ok(Instance(0)), s2);
    var s3 := s2.(cells := map[b.cell := Instance(0)]);
    assert CellValue(s1, b.cell) == Undefined && s2.cells[b.cell := Instance(0)] == s3.cells;
    assert Build(2, env, s1, b, Some(d)) == (Ok(Instance(0)), s3);
    assert s3.builders["logger" := Some(b)] == s3.builders;
  }

  /** Registers a class `Logger` under the name "logger" as a singleton. */
  method RegisterSingletonLogger(invoke: (Fn, seq<Val>) -> Val) returns (c: Registry.Container, ghost b: Builder)
    ensures fresh(c) && fresh(c.host) && b.SingletonBuilder? && fresh(b.cell) && c.Valid()
    ensures b.inner == Some(ClassBuilder(Fn(1, "Logger")))
    ensures c.Cells() == {b.cell}
    ensures c.Env() == Env(map["logger" := Description("logger", Some(b), None, None)], invoke)
    ensures c.Snapshot({b.cell}, null) == State(map[], map[b.cell := Undefined], None, [], map[])
  {
    var host := new Registry.Host(invoke);
    c := new Registry.Container(host);
    var bound := c.Bind(Name("logger"));
    var spec := bound.value.To(Function(Fn(1, "Logger")));
    var _ := spec.value.AsSingleton();
    ghost var desc := bound.value.description;
    b := desc.builder.value;
    assert c.descriptions == map["logger" := desc] && c.builders == map[];
    assert CellsOfOption(desc.builder) == {b.cell} by {
      assert CellsOf(ClassBuilder(Fn(1, "Logger"))) == {};
    }
    assert c.descriptions["logger"].builder == Some(b);
    assert b.cell in c.Cells();
    assert desc.Current() == Description("logger", Some(b), None, None);
    assert c.Env().descriptions == map["logger" := desc.Current()];
    assert b.cell.instance == Undefined;
    assert Registry.Container.CellContents({b.cell}) == map[b.cell := Undefined];
  }

  /** The state a first resolution of "logger" leaves: the builder cached, the memo cell holding
      the one object constructed. */
  ghost function AfterFirst(b: Builder): State
    requires b.SingletonBuilder?
  {
    State(map["logger" := Some(b)], map[b.cell := Instance(0)], None, [Construction(Fn(1, "Logger"), [])], map[])
  }

  /** Resolves the registered singleton once: the container constructs `Logger` and the result
      is that object. */
  method ResolveOnce(c: Registry.Container, ghost b: Builder) returns (first: Result<Val>)
    requires c.Valid() && b.SingletonBuilder? && b.inner == Some(ClassBuilder(Fn(1, "Logger")))
    requires c.Cells() == {b.cell}
    requires c.Env().descriptions == map["logger" := Description("logger", Some(b), None, None)]
    requires c.Snapshot({b.cell}, null) == State(map[], map[b.cell := Undefined], None, [], map[])
    modifies c`builders, b.cell, c.host
    ensures c.Valid() && c.Cells() == {b.cell} && c.Env() == old(c.Env())
    ensures c.Snapshot({b.cell}, null) == AfterFirst(b)
    ensures first == Ok(Instance(0))
  {
    ghost var env := c.Env();
    SingletonTrace(env, env.descriptions["logger"], b, Fn(1, "Logger"));
    first := c.Resolve(Lookup(Name("logger")), null, 3);
    assert c.builders == map["logger" := Some(b)];
    assert b.cell in c.Cells() by {
      assert b.cell in CellsOf(b);
      assert "logger" in c.builders && b.cell in CellsOfOption(c.builders["logger"]);
    }
  }

  /** Resolving a singleton twice through the container gives the one object it constructed. */
  method SingletonScenario(invoke: (Fn, seq<Val>) -> Val) returns (first: Result<Val>, second: Result<Val>)
    ensures first == second == Ok(Instance(0))
  {
    var c;
    ghost var b;
    c, b := RegisterSingletonLogger(invoke);
    first := ResolveOnce(c, b);
    SingletonTrace(c.Env(), c.Env().descriptions["logger"], b, Fn(1, "Logger"));
    second := c.Resolve(Lookup(Name("logger")), null, 3);
  }

  /** A resolution followed by a rebinding of the same name, on the imperative container: the
      invariant survives both, and after a successful resolution the name keeps the builder
      that resolution fetched, whatever the new description holds. */
  method ResolveThenRebind(c: Registry.Container, name: string, fuel: nat) returns (r: Result<Val>)
    requires c.Valid() && name != ""
    modifies c`builders, c`descriptions, c.Cells(), c.host
    ensures c.Valid()
    ensures r.Ok? ==> && name in c.builders
                      && GetBuilder(old(c.Env()).descriptions, old(c.builders), name).0 == Ok(c.builders[name])
  {
    ghost var env := c.Env();
    ghost var s := c.Snapshot(c.Cells(), null);
    r := c.Resolve(Lookup(Name(name)), null, fuel);
    ghost var s1 := Resolve(fuel, env, s, Lookup(Name(name))).1;
    assert c.builders == s1.builders;
    if r.Ok? {
      Properties.CachedBuilderOutlivesRebinding(fuel, env, s, name, env, s1);
    }
    var _ := c.Bind(Name(name));
  }
}
