/**
 * The second copy of the `Map`-keyed registry, which leaves the property copying
 * to the shared utilities instead of carrying its own copy. Its `exports(...)`
 * and `exports.ns(...)` look the copier up as `utils.__copyProps`, a name the
 * utilities do not export (they export it as `copyProps`): as written, both
 * calls throw. `ExportsAsWritten` and `NamespaceAsWritten` model that; the
 * class below models the evidently intended behaviour through `copyProps`.
 */
module GlobalModule {
  import opened Wrappers
  import opened JsObjects
  import opened CopyProps
  import opened GlobalRegistry
  import opened ExportsTag

  /** The names the utilities module exports. */
  const UtilsExports: set<string> := {"hasOwnProp", "depProp", "copyProps"}

  /** The name `__exports` and `__ns` call on the utilities namespace. */
  const CalledName: string := "__copyProps"

  /** `__exports` as written, given the names the utilities module exports: calling
      a missing member of a namespace object throws before anything is copied. */
  function ExportsAsWritten(utils: set<string>, h: Heap, target: Value, defs: map<string, Value>): (r: Result<Heap>)
    requires h.Wf()
    requires target.ObjRef? ==> target.ref in h.objs
    ensures CalledName !in utils ==> r == Err(TypeError)
    ensures CalledName in utils ==> r == ExportsInto(h, target, defs)
  {
    if CalledName in utils then ExportsInto(h, target, defs) else Err(TypeError)
  }

  /** `__ns` as written, given the names the utilities module exports: the call
      throws unless the copier is found. */
  function NamespaceAsWritten(utils: set<string>, h: Heap, exports: Ref): (r: Result<Allocated>)
    requires h.Wf() && exports in h.objs
    ensures CalledName !in utils ==> r == Err(TypeError)
    ensures CalledName in utils ==> r == Ok(Namespace(h, exports))
  {
    if CalledName in utils then Ok(Namespace(h, exports)) else Err(TypeError)
  }

  /** Every `exports(...)` and every `exports.ns(...)` throws as written, even for
      an exports object and definitions `copyProps` would merge without error. */
  lemma AsWrittenCopierIsMissing(h: Heap, target: Ref, defs: map<string, Value>)
    requires h.Wf() && target in h.objs
    ensures ExportsAsWritten(UtilsExports, h, ObjRef(target), defs) == Err(TypeError)
    ensures ExportsInto(h, ObjRef(target), defs).Ok?
    ensures NamespaceAsWritten(UtilsExports, h, target) == Err(TypeError)
  {
  }

  /** The registry of this copy. It is a class of its own, not the one of
      `GlobalRegistry`, because the source keeps the two registries in separate
      files that differ in how `exports(...)` and `exports.ns(...)` reach the
      copier; everything else is the same, and the functions both use (`ExportsInto`,
      `Namespace`) are shared. */
  class Registry {
    var heap: Heap
    /** Every module object created so far, reachable through its context. */
    var modules: map<ModuleRef, Module>
    var nextModule: ModuleRef
    /** `moduleRegistry`: module id to module object. */
    var table: map<ModuleId, ModuleRef>

    ghost predicate Valid()
      reads this
    {
      heap.Wf()
      && (forall m :: m in modules ==> m < nextModule)
      && (forall id :: id in table ==> table[id] in modules)
      && (forall m :: m in modules && modules[m].exports.ObjRef? ==> modules[m].exports.ref in heap.objs)
    }

    constructor()
      ensures Valid() && table == map[] && modules == map[]
    {
      heap := EmptyHeap();
      modules := map[];
      nextModule := 0;
      table := map[];
    }

    /** `__get(id)`. */
    function Lookup(id: ModuleId): (r: Result<ModuleRef>)
      reads this
      requires Valid()
      ensures r.Err? <==> id !in table
      ensures r.Err? ==> r.error == ModuleNotFound
      ensures r.Ok? ==> r.value == table[id] && r.value in modules
    {
      if id in table then Ok(table[id]) else Err(ModuleNotFound)
    }

    /** `register(id)`: a new module with fresh tagged empty exports, stored under
        `id` in place of any earlier one; returns its context. */
    method Register(id: ModuleId) returns (ctx: ModuleRef)
      requires Valid()
      modifies this
      ensures Valid()
      ensures ctx !in old(modules)
      ensures table == old(table)[id := ctx]
      ensures modules.Keys == old(modules.Keys) + {ctx}
      ensures forall m :: m in old(modules) ==> modules[m] == old(modules)[m]
      ensures modules[ctx].id == id && modules[ctx].exports.ObjRef?
      ensures var e := modules[ctx].exports.ref;
        e !in old(heap.objs) && heap.objs == old(heap.objs)[e := EmptyObj(ExportsProto)]
    {
      var e := CreateExports(heap);
      heap := e.heap;
      ctx := nextModule;
      nextModule := nextModule + 1;
      modules := modules[ctx := Module(id, ObjRef(e.ref))];
      table := table[id := ctx];
    }

    /** `getContext(id)`: throws for an unknown id; otherwise gives the module a
        fresh empty tagged exports object and returns its unchanged context. */
    method GetContext(id: ModuleId) returns (r: Result<ModuleRef>)
      requires Valid()
      modifies this
      ensures Valid()
      ensures r == old(Lookup(id))
      ensures r.Err? ==> unchanged(this)
      ensures r.Ok? ==>
        table == old(table)
        && modules.Keys == old(modules.Keys)
        && (forall m :: m in modules && m != r.value ==> modules[m] == old(modules)[m])
        && modules[r.value].id == old(modules)[r.value].id
        && modules[r.value].exports.ObjRef?
        && var e := modules[r.value].exports.ref;
           e !in old(heap.objs) && heap.objs == old(heap.objs)[e := EmptyObj(ExportsProto)]
    {
      r := Lookup(id);
      if r.Err? {
        return;
      }
      var e := CreateExports(heap);
      heap := e.heap;
      modules := modules[r.value := modules[r.value].(exports := ObjRef(e.ref))];
    }

    /** `clear()`: afterwards every lookup throws. */
    method Clear()
      requires Valid()
      modifies this
      ensures Valid()
      ensures table == map[] && modules == old(modules) && heap == old(heap)
      ensures forall id :: Lookup(id) == Err(ModuleNotFound)
    {
      table := map[];
    }

    /** `context.require(id)`. */
    method Require(id: ModuleId) returns (r: Result<Value>)
      requires Valid()
      modifies this
      ensures Valid()
      ensures table == old(table) && modules == old(modules)
      ensures old(Lookup(id)).Err? ==> r == Err(ModuleNotFound) && heap == old(heap)
      ensures old(Lookup(id)).Ok? ==>
        var p := Interop(old(heap), old(modules)[old(table)[id]].exports);
        r == Ok(p.value) && heap == p.heap
    {
      var m := Lookup(id);
      if m.Err? {
        return Err(ModuleNotFound);
      }
      var p := Interop(heap, modules[m.value].exports);
      heap := p.heap;
      r := Ok(p.value);
    }

    /** `context.exports.ns(exports)`. */
    method Ns(exports: Ref) returns (ns: Ref)
      requires Valid() && exports in heap.objs
      modifies this
      ensures Valid()
      ensures table == old(table) && modules == old(modules)
      ensures var a := Namespace(old(heap), exports); heap == a.heap && ns == a.ref
    {
      var n := CreateExports(heap);
      var h', _ := CopyPropsInto(n.heap, n.ref, exports, Some("default"));
      heap := h';
      ns := n.ref;
    }

    /** `context.exports(definitions)`: merges into the module's exports as they are
        when the call happens, not as they were when the context was made. */
    method Exports(ctx: ModuleRef, defs: map<string, Value>) returns (r: Outcome)
      requires Valid() && ctx in modules
      modifies this
      ensures Valid()
      ensures table == old(table) && modules == old(modules)
      ensures var res := ExportsInto(old(heap), old(modules)[ctx].exports, defs);
        (res.Err? ==> r == Fail(res.error) && heap == old(heap))
        && (res.Ok? ==> r == Pass && heap == res.value)
    {
      var target := modules[ctx].exports;
      if !target.ObjRef? {
        if defs == map[] {
          return Pass;
        }
        return Fail(TypeError);
      }
      var d := Alloc(heap, DefinitionsObject(defs));
      var h', _ := CopyPropsInto(d.heap, target.ref, d.ref, None);
      heap := h';
      r := Pass;
    }

    /** `context.module.exports = value`, the CommonJS assignment target. */
    method SetModuleExports(ctx: ModuleRef, value: Value)
      requires Valid() && ctx in modules
      requires value.ObjRef? ==> value.ref in heap.objs
      modifies this
      ensures Valid()
      ensures table == old(table) && heap == old(heap)
      ensures modules == old(modules)[ctx := old(modules)[ctx].(exports := value)]
    {
      modules := modules[ctx := modules[ctx].(exports := value)];
    }
  }
}
