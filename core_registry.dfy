/**
 * The first runtime registry: `setup()` installs a registry on the global object;
 * the registry keeps a table from module id to module record and offers
 * `define`, `update` and the `require` each module factory is handed.
 *
 * `define` turns the factory function object itself into the module record
 * (`const module = factory as Module`), so records are keyed by the factory's
 * identity and two ids defined with the same factory share one record. Running a
 * factory is recorded as an invocation; what the factory does is not modelled,
 * except whether it throws: `throwing` names the factories whose call throws.
 */
module CoreRegistry {
  import opened Wrappers
  import opened JsObjects

  /** `ModuleId` is a JavaScript number. */
  type ModuleId = int

  /** The identity of a factory function. */
  type FactoryRef = nat

  /** An entry of a `DependencyMap`, classified by `typeof`: a module id, an object,
      a function (modelled by the value a call returns), or anything else. */
  datatype Dependency =
    | DepId(id: ModuleId)
    | DepObject(value: Value)
    | DepFunction(result: Value)
    | DepOther

  datatype ModuleRecord = ModuleRecord(id: ModuleId, exports: Ref, deps: seq<Dependency>, ready: bool)

  /** One call of a factory: the exports object it was handed, the id its `require`
      is bound to, and the record's `ready` flag while it ran. */
  datatype Invocation = Invocation(factory: FactoryRef, exports: Ref, boundId: ModuleId, readyDuringCall: bool)

  class ModuleRegistry {
    /** `moduleRegistry`: module id to the factory that serves as its record. */
    var table: map<ModuleId, FactoryRef>
    /** The module fields `define` writes onto each factory object. */
    var records: map<FactoryRef, ModuleRecord>
    /** Exports objects are numbered in creation order; `nextExports` is the next one. */
    var nextExports: Ref
    var invocations: seq<Invocation>

    ghost predicate Valid()
      reads this
    {
      (forall id :: id in table ==> table[id] in records)
      && (forall f :: f in records ==> records[f].exports < nextExports)
    }

    constructor()
      ensures Valid()
      ensures table == map[] && records == map[] && invocations == []
    {
      table := map[];
      records := map[];
      nextExports := 0;
      invocations := [];
    }

    /** `targetModule.deps[index]`; `None` stands for `undefined`. */
    function Entry(moduleId: ModuleId, index: int): (e: Option<Dependency>)
      reads this
      requires Valid()
      ensures e.Some? <==> moduleId in table && 0 <= index < |records[table[moduleId]].deps|
      ensures e.Some? ==> e.value == records[table[moduleId]].deps[index]
    {
      if moduleId in table && 0 <= index < |records[table[moduleId]].deps|
      then Some(records[table[moduleId]].deps[index])
      else None
    }

    /** The exports object currently stored for `id`. */
    function CurrentExports(id: ModuleId): Ref
      reads this
      requires Valid() && id in table
    {
      records[table[id]].exports
    }

    /** `require(moduleId, index)`, the function handed to a factory bound to its id. */
    function Require(moduleId: ModuleId, index: int): (r: Result<Value>)
      reads this
      requires Valid()
      ensures r == Err(ModuleNotFound) <==> moduleId !in table
      ensures moduleId in table && Entry(moduleId, index).None? ==> r == Err(InvalidDependency)
      ensures Entry(moduleId, index) == Some(DepOther) ==> r == Err(InvalidDependency)
      ensures forall t :: Entry(moduleId, index) == Some(DepId(t)) ==>
                r == if t in table then Ok(ObjRef(CurrentExports(t))) else Err(TypeError)
      ensures forall v :: Entry(moduleId, index) == Some(DepObject(v)) ==> r == Ok(v)
      ensures forall v :: Entry(moduleId, index) == Some(DepFunction(v)) ==> r == Ok(v)
    {
      if moduleId !in table then Err(ModuleNotFound)
      else match Entry(moduleId, index)
        case None => Err(InvalidDependency)
        case Some(DepId(t)) =>
          // `moduleRegistry[dependency].exports` of a missing module reads from `undefined`
          if t in table then Ok(ObjRef(CurrentExports(t))) else Err(TypeError)
        case Some(DepObject(v)) => Ok(v)
        case Some(DepFunction(v)) => Ok(v)
        case Some(DepOther) => Err(InvalidDependency)
    }

    /** `define(factory, id, deps)`: writes the module fields onto the factory, stores
        it under `id` (replacing any earlier entry), runs it once with a fresh empty
        exports object and a `require` bound to `id`, and only then marks it ready.
        A factory that throws leaves the module stored but not ready, and the error
        propagates. */
    method Define(factory: FactoryRef, id: ModuleId, deps: seq<Dependency>, throwing: set<FactoryRef>) returns (r: Outcome)
      requires Valid()
      modifies this
      ensures Valid()
      ensures r == (if factory in throwing then Fail(FactoryThrew) else Pass)
      ensures table == old(table)[id := factory]
      ensures records == old(records)[factory := ModuleRecord(id, old(nextExports), deps, r.Pass?)]
      ensures forall f :: f in old(records) ==> old(records)[f].exports != records[factory].exports
      ensures invocations == old(invocations) + [Invocation(factory, old(nextExports), id, false)]
      // the module's `require` resolves its entries against `deps` ...
      ensures forall i :: 0 <= i < |deps| ==> Entry(id, i) == Some(deps[i])
      // ... and every module that names `id` now sees the fresh exports object
      ensures forall m, i :: Entry(m, i) == Some(DepId(id)) ==> Require(m, i) == Ok(ObjRef(old(nextExports)))
    {
      var exports := nextExports;
      nextExports := nextExports + 1;
      records := records[factory := ModuleRecord(id, exports, deps, false)];
      table := table[id := factory];
      invocations := invocations + [Invocation(factory, exports, id, records[factory].ready)];
      if factory in throwing {
        return Fail(FactoryThrew);
      }
      records := records[factory := records[factory].(ready := true)];
      r := Pass;
    }

    /** `update(id, deps)`: throws for an unknown id; otherwise replaces the deps,
        assigns a fresh empty exports object and runs the factory again with it.
        `ready`, `id` and every other record are left alone; a factory that throws
        does so after the deps and exports were replaced. */
    method Update(id: ModuleId, deps: seq<Dependency>, throwing: set<FactoryRef>) returns (r: Outcome)
      requires Valid()
      modifies this
      ensures Valid()
      ensures old(id !in table) ==> r == Fail(ModuleNotFound) && unchanged(this)
      ensures old(id in table) ==> (
        && table == old(table)
        && r == (if table[id] in throwing then Fail(FactoryThrew) else Pass)
        && records == old(records)[table[id] := old(records)[table[id]].(deps := deps, exports := old(nextExports))]
        && invocations == old(invocations) + [Invocation(table[id], old(nextExports), id, old(records)[table[id]].ready)])
      ensures forall f :: f in old(records) ==> old(records)[f].exports < nextExports
      // after `update(id)`, every module that names `id` sees the new exports object
      ensures old(id in table) ==>
        forall m, i :: Entry(m, i) == Some(DepId(id)) ==> Require(m, i) == Ok(ObjRef(old(nextExports)))
    {
      if id !in table {
        return Fail(ModuleNotFound);
      }
      var factory := table[id];
      records := records[factory := records[factory].(deps := deps)];
      var exports := nextExports;
      nextExports := nextExports + 1;
      records := records[factory := records[factory].(exports := exports)];
      invocations := invocations + [Invocation(factory, exports, id, records[factory].ready)];
      r := if factory in throwing then Fail(FactoryThrew) else Pass;
    }
  }

  /** The global object as `setup` sees it: the names `in` finds and the registries
      installed so far. */
  class GlobalContext {
    var names: set<string>
    var registries: map<string, ModuleRegistry>

    /** Every installed registry is visible under its name. */
    ghost predicate Valid()
      reads this
    {
      registries.Keys <= names
    }

    /** `setup({ registryName })`: throws when the name is already present, otherwise
        defines it as a new, empty registry. */
    method Setup(registryName: string) returns (r: Outcome)
      requires Valid()
      modifies this
      ensures Valid()
      ensures old(registryName in names) ==> r == Fail(SetupTwice) && unchanged(this)
      ensures old(registryName !in names) ==> (
        && r == Pass
        && names == old(names) + {registryName}
        && registries.Keys == old(registries.Keys) + {registryName}
        && (forall n :: n in old(registries) ==> registries[n] == old(registries)[n])
        && fresh(registries[registryName])
        && registries[registryName].Valid() && registries[registryName].table == map[])
    {
      if registryName in names {
        return Fail(SetupTwice);
      }
      var registry := new ModuleRegistry();
      names := names + {registryName};
      registries := registries[registryName := registry];
      r := Pass;
    }
  }
}
