/** The container's registries are plain JavaScript objects, so reading `this.builders[name]`
    also sees the members every object inherits from Object.prototype. The rest of the model
    reads only the entries the container itself wrote; this module models the lookup as written
    and exhibits the registration it breaks. */
module Inheritance {
  import opened Values
  import opened Builders
  import opened Resolution

  /** Names that every plain object answers through its prototype (a selection). */
  const InheritedNames: set<string> :=
    {"constructor", "toString", "toLocaleString", "valueOf", "hasOwnProperty", "isPrototypeOf", "propertyIsEnumerable"}

  /** `getBuilder` as written: for an inherited name with no own cache entry the cache test sees
      the inherited function rather than undefined, so nothing is fetched or cached and that
      function, which has no `build`, is handed back (Ok(None): the caller's `.build(...)` is a
      TypeError); every other name behaves as Resolution.GetBuilder. */
  function GetBuilderAsWritten(descriptions: map<string, Description>, builders: map<string, Option<Builder>>, name: string)
    : (r: (Result<Option<Builder>>, map<string, Option<Builder>>))
    ensures name !in InheritedNames || name in builders ==> r == GetBuilder(descriptions, builders, name)
    ensures name in InheritedNames && name !in builders ==> r == (Ok(None), builders)
  {
    if name in InheritedNames && name !in builders then (Ok(None), builders)
    else GetBuilder(descriptions, builders, name)
  }

  /** `resolve(contract)` without an identity map, with the lookup as written; the builds it
      starts are those of the model. */
  function ResolveAsWritten(fuel: nat, env: Env, s: State, d: Dependency): (r: (Result<Val>, State))
    requires s.identity.None?
    ensures !(d.Lookup? && NameOf(d.contract) in InheritedNames) ==> r == Resolve(fuel, env, s, d)
    ensures d.Lookup? && NameOf(d.contract) in InheritedNames && NameOf(d.contract) !in s.builders && fuel > 0
            ==> r == (Err(TypeError), s)
  {
    match d
    case Value(v) => (Ok(v), s)
    case Lookup(c) =>
      var name := NameOf(c);
      var (b, builders) := GetBuilderAsWritten(env.descriptions, s.builders, name);
      var s1 := s.(builders := builders);
      if b.Err? then (Err(b.error), s1)
      else if fuel == 0 then (Err(StackExhausted), s1)
      else if b.value.None? then (Err(TypeError), s1)
      else Build(fuel - 1, env, s1, b.value.value, Describe(env, name))
  }

  /** A component bound under the name "constructor" to a fixed instance cannot be resolved as
      written (TypeError), while the lookup of own entries returns the bound instance. */
  lemma ConstructorIsUnresolvable(fuel: nat, invoke: (Fn, seq<Val>) -> Val, v: Val)
    requires fuel > 0
    ensures var d := Description("constructor", Some(WrapperBuilder(v)), None, None);
            var env := Env(map["constructor" := d], invoke);
            var s := State(map[], map[], None, [], map[]);
            && ResolveAsWritten(fuel, env, s, Lookup(Name("constructor"))) == (Err(TypeError), s)
            && Resolve(fuel, env, s, Lookup(Name("constructor")))
               == (Ok(v), s.(builders := map["constructor" := Some(WrapperBuilder(v))]))
  {
  }
}
