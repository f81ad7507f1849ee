# robo-container: a verified model of the container core

robo-container is a small dependency-injection container for JavaScript. Components are
registered under a *contract* (a name, or a constructor whose `name` is used) with a fluent
chain `bind(contract).to(concrete).use(...deps).set(props).asSingleton()`, and obtained with
`resolve(contract, identityMap)`. A concrete that is a named function is constructed with `new`,
an anonymous function is called as a factory, and any other value is returned as is. A
singleton stores the defined instance its inner build returns and serves it to every later
build of its name. An identity map that holds a defined value under that name still answers
first (index.js:39-40). An optional *identity map*, passed by the caller and threaded through
one resolution, receives each component whose name it declares as soon as that component is
constructed. When that component is defined, the map serves it to every later lookup of that
name in the same resolution. An undefined entry counts as a miss (index.js:39), so a factory
that returns undefined is built again. Neither mechanism covers
a lookup made while the component's own constructor dependencies are still being resolved: the
memo is written only after the inner build returns (index.js:176), and the identity map only
after the dependencies and the construction (index.js:109-111). A cycle that re-enters a
component at that point builds it again (module `Reentrance`).

This project models that core in two layers:

- `values.dfy` (module `Values`) holds the values the container handles: contracts, concretes,
  dependencies and `value(...)` boxes, components, and the failures.
- `builders.dfy` (module `Builders`) holds the four builder variants. A singleton's memo is a
  heap cell (`Cell`). `BuilderFor` is the classification `to` performs. It also holds the
  registration record as resolution reads it.
- `resolution.dfy` (module `Resolution`) states what resolution computes, as functions over an
  explicit state: the builder cache, the memo cells, the caller's identity map, the objects
  constructed so far and the properties assigned. It covers `getBuilder`, `resolve`, each
  builder's `build`, `buildDependencies`, `injectProperties` and `createComponent`. Their
  contracts state what each short-circuit returns and which errors arise.
- `evolution.dfy` (module `Evolution`) proves, by one induction over the mutual recursion of
  those functions, what a resolution never undoes, that identity-map hits survive, that
  ComponentNotFound is raised only for undescribed names, and that a class build returns an
  object it constructed.
- `fuel.dfy` (module `Fuel`) proves that the stack depth is only a bound: an outcome other than
  `StackExhausted` is the same with a deeper stack.
- `registry.dfy` (module `Registry`) is the container as the program has it: classes whose
  methods update fields in place.
  - `Container` has `bind`, `resolve`, `value`, `getBuilder` and the builds.
  - `ComponentDescription`, `ConcreteSpecification` and `DependencySpecification` hold the
    fluent chain.
  - `Host` stands for the JavaScript engine's `new`, factory calls and property assignment.
  - `IdentityMap` is the caller's identity map.

  Every resolution method is proved to return and leave exactly what the function of the same
  name in `Resolution` computes. `buildDependencies` and `injectProperties` keep their loops.
- `properties.dfy` (module `Properties`) proves what holds across several steps or several
  calls:
  - dependencies are resolved and properties injected left to right;
  - boxed values pass through untouched;
  - after a singleton's resolution has completed with a defined instance, every later
    resolution that the identity map does not answer returns that instance without building;
  - a class without the decorator gives a new object per resolution;
  - a shared identity map gives one object per declared name once that name's resolution has
    completed with a defined value;
  - a property that cycles back to its component receives that component, when the identity
    map declares the component's name;
  - a cached builder outlives a later rebinding.
- `reentrance.dfy` (module `Reentrance`) traces two resolutions that re-enter a component
  through a constructor dependency:
  - a singleton class is constructed twice by one resolution;
  - an identity map declaring both names of the cycle still hands the cycle two different
    objects.
- `scenarios.dfy` (module `Scenarios`) registers a singleton through the imperative fluent
  chain and resolves it twice through the imperative container.
- `inherited.dfy` (module `Inheritance`) models the registry lookup as written for names that
  every JavaScript object inherits (see Findings).

Three things are modelled as explicit inputs:

- **Stack depth** is a `fuel` argument. Every build that `resolve` starts takes one unit, and a
  resolution that would need more fails with `StackExhausted`. This stands for the engine's
  stack overflow on a cycle that no identity map breaks.
- **JavaScript TypeErrors** that the code provokes are the error `TypeError`:
  - building a name whose builder was never set;
  - building a singleton whose `asSingleton()` was called before `to()`: it wraps an unset
    builder (index.js:94), and its first build calls `.build` on undefined (index.js:176);
  - a cached builder whose description is missing. The code cannot reach this case:
    index.js:52 caches only described names and nothing removes a description. The model
    still defines it, because `Resolution` takes an arbitrary state;
  - injecting a property into a value that is not an object.
- **Factories** are an opaque function `invoke` of the factory and its argument sequence.

Constructed objects are numbered in order of construction, and each records its constructor
and arguments.

## Model

| member | source | states |
|---|---|---|
| Values.NameOf | index.js:57-59 | a name contract names itself; a constructor contract is named by the constructor's `name` |
| Builders.BuilderFor | index.js:67-79 | undefined and null are refused with ConcreteNotSpecified and nothing else is; a named function gives a class builder over that constructor and an anonymous one a factory builder over that function (both directions); any other value gives a fixed-instance builder holding that value; no memo cell is created |
| Resolution.GetBuilder | index.js:49-55 | fails with ComponentNotFound(name) exactly when nothing is cached and no description exists, and then leaves the cache alone; a cached builder wins; otherwise the description's builder is returned and cached, even when it is unset |
| Resolution.Resolve | index.js:33-43 | a value box returns its value with no state change; an identity-map entry that is not undefined is returned with no state change; a name that is neither a hit, nor cached, nor described is ComponentNotFound(name) with no state change |
| Resolution.ResolveMiss | index.js:39-42 | past both short-circuits, a name neither cached nor described is ComponentNotFound(name) with no state change; with no stack left the resolution fails having constructed nothing and written nothing into the identity map |
| Resolution.Build | index.js:108-179 | a fixed instance is returned with no state change; a singleton whose cell is filled returns it with no state change, and a successful defined build fills its cell; a class or factory build without a description is a TypeError with no state change |
| Resolution.CreateComponent | index.js:152-165 | a class constructs exactly one new object with the resolved arguments and returns it; a factory returns its result for those arguments and constructs nothing |
| Resolution.Record | index.js:110-111 | the component is written into the identity map only under a key the map already has; otherwise nothing changes |
| Resolution.BuildDependencies | index.js:116-124 | on success exactly one value per declared dependency |
| Resolution.InjectProperties | index.js:126-132 | a component that is not an object, with properties to inject, fails |
| Evolution.ResolveEvolves | index.js:33-43 | a resolution never undoes anything and caches builders only for described names: cached builders stay, filled memo cells keep their instance, the identity map keeps its keys, constructed objects are only appended and assigned properties stay; with every description under its own name, identity-map hits keep their values; every ComponentNotFound names a name with no description; a successful lookup that missed the map leaves its builder cached |
| Evolution.MissEvolves | index.js:39-42 | the same for the lookup past the short-circuits: `getBuilder` caches before building, so success leaves the builder cached, and hits other than the name itself are kept |
| Evolution.BuildEvolves | index.js:139-179 | every builder variant only evolves the state as above, and a class build that succeeds returns an object constructed during that build by that class |
| Evolution.ComponentEvolves | index.js:108-114 | dependencies, construction, the identity-map write and property injection together only evolve the state; the identity-map write replaces no hit other than the component's own name; a successful class build returns the object it constructed |
| Evolution.DependenciesEvolve | index.js:116-124 | resolving a dependency list only evolves the state, and on success every boxed dependency's value sits at that dependency's position |
| Evolution.PropertiesEvolve | index.js:126-132 | injecting properties only evolves the state, and on success every listed property is assigned on the component |
| Fuel.ResolveNeedsNoMoreFuel | index.js:33-43 | a resolution that did not run out of stack gives the same result and leaves the same state with one frame more |
| Fuel.MissNeedsNoMoreFuel | index.js:39-42 | the same for the lookup past the short-circuits |
| Fuel.BuildNeedsNoMoreFuel | index.js:139-179 | the same for every builder variant |
| Fuel.ComponentNeedsNoMoreFuel | index.js:108-114 | the same for a class or factory build |
| Fuel.DependenciesNeedNoMoreFuel | index.js:116-124 | the same for a dependency list |
| Fuel.PropertiesNeedNoMoreFuel | index.js:126-132 | the same for property injection |
| Registry.Host.Construct | index.js:153-154 | `new` returns the next object number and records its constructor and arguments |
| Registry.Host.Assign | index.js:130 | an assignment succeeds exactly on objects and then sets that property and nothing else |
| Registry.ComponentDescription.constructor | index.js:99-104 | a new description holds its name with builder, dependencies and properties unset |
| Registry.Container.constructor | index.js:21-23 | a new container has no descriptions and no cached builders, and its invariant holds |
| Registry.Container.Bind | index.js:25-31 | an empty name is InvalidContract and leaves the registry unchanged; otherwise the name maps to a fresh, empty description, other names keep their entries, and the invariant is kept |
| Registry.Container.Value | index.js:45-47 | `value(v)` is a box holding v, which Resolution.Resolve returns unchanged |
| Registry.ConcreteSpecification.To | index.js:67-79 | a refused concrete fails with ConcreteNotSpecified and leaves the builder; otherwise the description's builder becomes the one BuilderFor gives, and a new specification over the same description is returned |
| Registry.DependencySpecification.Use | index.js:83-86 | replaces the dependency list with the given contracts in order and returns the same specification |
| Registry.DependencySpecification.Set | index.js:88-91 | replaces the property list and returns the same specification |
| Registry.DependencySpecification.AsSingleton | index.js:93-96 | wraps whatever builder is current, possibly none or another singleton, in a decorator with a new, empty memo cell; returns the same specification |
| Registry.Container.Resolve | index.js:33-43 | returns and leaves exactly what Resolution.Resolve computes from the state before; the registry is unchanged, no new memo cells appear and the container's invariant is kept, so it can be bound again |
| Registry.Container.ValidNamesAgree | index.js:25-31 | under the invariant, the described names are exactly the registry's keys and every description sits under its own name |
| Registry.Container.ResolveIn | index.js:33-43 | the same, for the recursion, with the memo cells framed |
| Registry.Container.ResolveMiss | index.js:39-42 | returns and leaves exactly what Resolution.ResolveMiss computes: the builder is fetched and cached, then built with one frame less |
| Registry.Container.GetBuilder | index.js:49-55 | returns and caches exactly what Resolution.GetBuilder computes |
| Registry.Container.Build | index.js:139-179 | returns and leaves exactly what Resolution.Build computes, for every builder variant |
| Registry.Container.BuildSingleton | index.js:174-179 | returns and leaves exactly what Resolution.Build computes for a singleton: a filled cell is returned as is; otherwise the inner build runs, and its result is stored only when it succeeds |
| Registry.Container.Memoize | index.js:176 | stores the instance in the memo cell and changes no other part of the state |
| Registry.Container.BuildComponent | index.js:108-114 | returns and leaves exactly what Resolution.Build computes for a class or factory: dependencies, then construction, then the identity-map write, then properties |
| Registry.Container.Record | index.js:110-111 | writes the component into the identity map exactly as Resolution.Record does, and changes nothing else |
| Registry.Container.CreateComponent | index.js:152-165 | a class gives the next object number, recorded with its arguments; a factory gives its result and constructs nothing |
| Registry.Container.BuildDependencies | index.js:116-124 | the loop returns and leaves exactly what Resolution.BuildDependencies computes |
| Registry.Container.InjectProperties | index.js:126-132 | the loop returns and leaves exactly what Resolution.InjectProperties computes |
| Properties.DependenciesResolveLeftToRight | index.js:116-124 | resolving `xs + ys` is resolving `xs` and then, from the state that left, `ys`; the first failure stops the rest |
| Properties.BoxedDependenciesPassThrough | index.js:33-36 | boxed dependencies yield exactly their values, in order, with no lookup and no state change, whatever the stack depth |
| Properties.FactoryReceivesArgumentsInOrder | index.js:163-165 | a factory with boxed dependencies is called with exactly those values in declared order, and its result is the component |
| Properties.ClassReceivesArgumentsInOrder | index.js:152-155 | a class with boxed dependencies is constructed once with exactly those arguments, and the component is the new object |
| Properties.CachedBuilderOutlivesRebinding | index.js:49-55 | once a name was resolved successfully, any later registry, including a rebinding or a singleton wrap of that name, is served the builder first fetched |
| Properties.SingletonResolvesToOneInstance | index.js:174-179 | after a singleton resolved to a defined instance, every later resolution of its name returns that same instance and changes nothing, in any identity map that holds no defined value under that name |
| Properties.TransientClassGivesDistinctInstances | index.js:152-155 | without the decorator, two resolutions of a class give two different objects, both of that class |
| Properties.DeclaredComponentIsRecorded | index.js:108-112 | a class or factory built successfully under a name the identity map declares (a factory with a defined result) is a hit in that map afterwards, holding the result, whether or not the name was a hit before |
| Properties.SharedIdentityMapGivesOneInstance | index.js:38-41 | with one identity map declaring Z, after Z was built by its class or factory to a defined value, any other resolution leaves it, and resolving Z again returns the same value without building and changes nothing |
| Properties.RecordedComponentAnswersItsName | index.js:110-112 | once a class component is written into the identity map, every resolution of its name after any prefix of its properties, in any state that keeps the map's hits (which every resolution does), returns that component and changes nothing, so indirect cycles see it too |
| Properties.PropertyCycleSeesTheComponent | index.js:108-114 | a class component's last property, whose contract is the component's own declared name receives that very component, whatever properties come before it; with no earlier properties the build succeeds |
| Properties.PropertiesInjectLeftToRight | index.js:126-132 | injecting `xs + ys` is injecting `xs` and then, from the state that left, `ys`; the first failure stops the rest |
| Properties.LastPropertyHoldsResolvedValue | index.js:128-131 | after the earlier properties, the last property holds exactly what its contract resolves to at that point |
| Reentrance.ReentrantSingletonBuildsTwice | index.js:174-179 | with singleton class A depending on B, B's property `x` resolving "A", and the map `{B: undefined}`, one `resolve("A")` constructs A twice: B's `x` holds the first A, and the result and the memo cell hold the second |
| Reentrance.IdentityMapMissesConstructorCycle | index.js:108-114 | with class A depending on B, B's property `x` resolving "A", and the map `{A: undefined, B: undefined}`, one `resolve("A")` gives B's `x` one A while the result and the map's entry for "A" are another |
| Scenarios.SingletonTrace | index.js:174-179 | the two resolutions of a singleton class: the first caches the builder, constructs object 0 and fills the cell; the second returns object 0 and changes nothing |
| Scenarios.RegisterSingletonLogger | index.js:93-96 | `bind("logger").to(Logger).asSingleton()` leaves one description holding a singleton over the class builder, with one empty memo cell |
| Scenarios.ResolveOnce | index.js:33-43 | the first `resolve("logger")` on the imperative container returns object 0, caches the builder and fills the memo cell |
| Scenarios.SingletonScenario | index.js:174-179 | two `resolve("logger")` calls on the imperative container both return object 0 |
| Scenarios.ResolveThenRebind | index.js:49-55 | on the imperative container, a successful `resolve` followed by `bind` of any name keeps the invariant, and the builder that resolution fetched stays cached under the name afterwards |
| Inheritance.GetBuilderAsWritten | index.js:49-55 | for a name inherited from Object.prototype with no own cache entry, the lookup as written hands back a non-builder; every other name is looked up as in Resolution.GetBuilder |
| Inheritance.ResolveAsWritten | index.js:33-43 | without an identity map, resolving an inherited name as written fails with TypeError whatever is bound under it; other contracts resolve as in Resolution.Resolve |
| Inheritance.ConstructorIsUnresolvable | index.js:50-52 | a fixed instance bound as "constructor" cannot be resolved as written, while the own-entry lookup returns it |

## Left out

- The callable façade `roboContainer` (index.js:184-200) is not part of this model. It
  delegates to one shared container through prototype tricks and adds no algorithm.
- The error classes' prototype set-up (index.js:3-19) is replaced by the `Error` datatype.
  `ConcreteNotSpecified` carries no name: the code throws it without arguments (index.js:68).
  `ComponentNotFound(name)` carries the name index.js:51 passes. The thrown error does not
  keep it: index.js:4 calls `Error.call(this, message)`, which builds a separate Error and
  discards it. So the name in the model, and what `Resolution.HonestNotFound` states about it,
  is the argument the code passes, not a field a caller can read.
- JavaScript construction and invocation are abstract:
  - a class build always yields a new object;
  - a constructor that throws, that returns an object of its own, or a named function that
    cannot be constructed (an arrow or method function) is not modelled;
  - factories are pure functions of their arguments, so a factory that calls back into the
    container is not modelled.
- Contracts that are neither strings nor functions, such as numbers or objects coerced to keys,
  are not modelled. Primitive values are represented by one integer tag.
- An injected-property map is an ordered list of the object's own enumerable keys. Getters,
  setters, frozen objects and non-object property maps passed to `set` are not modelled.
- Assigning a property on a non-object is modelled as a TypeError raised after the property's
  contract has been resolved. The resolution's effects are kept.
- Stack exhaustion is approximated by `fuel`: the real limit depends on the engine and on frame
  sizes. Every build takes a frame, so at fuel 0 even a fixed instance fails with
  `StackExhausted`; module `Fuel` proves that any other outcome is unchanged by more fuel.
- Registry.DependencySpecification.Set: `set` stores the caller's property object by reference
  (index.js:89), so the caller's later changes to that object reach the description; the model
  stores a copy of its entries taken at the call, and such later changes are not modelled.
- Nothing is rolled back on failure. A failed resolution keeps the builders it cached
  (index.js:52) and the components it wrote into the identity map (index.js:111), and the
  properties assigned before the failure (index.js:130); the model keeps them too.
- Inherited names are treated differently by the identity map. With a map, the code's
  `identityMap[name]` also sees inherited members, so resolving "constructor" returns the
  inherited function. `Inheritance.ResolveAsWritten` models only the path without a map.
- Resolution.InjectProperties: its own contract states only the failure on a non-object. Which
  properties are assigned is stated by Evolution.PropertiesEvolve, and the value each one
  receives by Properties.LastPropertyHoldsResolvedValue.
- Properties.TransientClassGivesDistinctInstances: stated for class builders only. A factory
  returns whatever it returns, so distinctness depends on the factory.

## Findings

| source | as written | input that shows it | evidently intended | confidence | as-written member | corrected member |
|---|---|---|---|---|---|---|
| index.js:50-52 | the builder cache and the registry are plain objects, so `this.builders[name]` sees members inherited from Object.prototype; for such a name the cache test finds a function, nothing is fetched, and `.build` on it throws | `bind("constructor").to(obj)` then `resolve("constructor")` throws TypeError instead of returning `obj` | a registered name is served its own description's builder whatever the name (own-key lookup, e.g. `hasOwnProperty` or a prototype-less map) | high, by reading; not executed | Inheritance.ConstructorIsUnresolvable | Resolution.GetBuilder |
