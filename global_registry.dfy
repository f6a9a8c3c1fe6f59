/**
 * The registry keyed by a `Map`: `register(id)` creates a module with a fresh
 * tagged exports object and a context, `getContext(id)` swaps in a fresh exports
 * object and hands the same context back, `clear()` empties the table. A context
 * carries `require` (CommonJS/ESM interop), `exports(definitions)` (merge through
 * `copyProps` into the module's current exports) with `exports.ns` (namespace
 * without `default`), and `module`, whose `exports` CommonJS code may reassign.
 *
 * The pure definitions here are shared by the two copies of this registry.
 */
module GlobalRegistry {
  import opened Wrappers
  import opened JsObjects
  import opened CopyProps
  import opened ExportsTag

  type ModuleId = int

  /** A module object. Its context is created with it and refers to it, so one
      reference names both. */
  type ModuleRef = nat

  datatype Module = Module(id: ModuleId, exports: Value)

  /** A value produced by code that may allocate: the heap afterwards and the value. */
  datatype Produced = Produced(heap: Heap, value: Value)

  /** `__require`'s interop: tagged exports are handed out as they are; anything
      else is wrapped in a new `{ default: exports }`. */
  function Interop(h: Heap, exports: Value): (p: Produced)
    requires h.Wf()
    ensures p.heap.Wf()
    ensures IsExportsObject(h, exports) ==> p == Produced(h, exports)
    ensures !IsExportsObject(h, exports) ==>
      p.value.ObjRef? && p.value.ref !in h.objs
      && p.heap.objs == h.objs[p.value.ref := DefaultBox(exports)]
  {
    if IsExportsObject(h, exports) then Produced(h, exports)
    else
      var a := Alloc(h, DefaultBox(exports));
      Produced(a.heap, ObjRef(a.ref))
  }

  /** `__ns(exports)`: a fresh tagged object with a live getter for each own name
      of `exports` except `default`. */
  function Namespace(h: Heap, exports: Ref): (a: Allocated)
    requires h.Wf() && exports in h.objs
    ensures a.ref !in h.objs && a.heap.Wf()
    ensures a.heap.objs.Keys == h.objs.Keys + {a.ref}
    ensures forall r :: r in h.objs ==> a.heap.objs[r] == h.objs[r]
    ensures a.heap.objs[a.ref].proto == ExportsProto
    ensures a.heap.objs[a.ref].own.Keys == h.objs[exports].own.Keys - {"default"}
    ensures forall k :: k in a.heap.objs[a.ref].own ==> a.heap.objs[a.ref].own[k] == Live(exports, k)
  {
    var n := CreateExports(h);
    Allocated(CopyPropsSpec(n.heap, n.ref, exports, Some("default")), n.ref)
  }

  /** The object `definitions()` returns: one data property per definition. */
  function DefinitionsObject(defs: map<string, Value>): Obj {
    Obj(map k | k in defs :: Data(defs[k]), {}, PlainProto, false)
  }

  /** `__exports(module.exports, definitions)`: `copyProps` from the definitions
      object into the current exports. Defining a property on a primitive throws;
      so does asking `undefined` or `null` for its own properties. */
  function ExportsInto(h: Heap, target: Value, defs: map<string, Value>): (r: Result<Heap>)
    requires h.Wf()
    requires target.ObjRef? ==> target.ref in h.objs
    ensures r.Err? <==> !target.ObjRef? && defs != map[]
    ensures r.Ok? ==> r.value.Wf()
    ensures r.Ok? && target.ObjRef? ==>
      r.value.objs.Keys >= h.objs.Keys
      && r.value.objs[target.ref].own.Keys == h.objs[target.ref].own.Keys + defs.Keys
      && (forall k :: k in h.objs[target.ref].own ==> r.value.objs[target.ref].own[k] == h.objs[target.ref].own[k])
      && r.value.objs[target.ref].proto == h.objs[target.ref].proto
    // a name the exports did not have reads the value it was defined with
    ensures r.Ok? && target.ObjRef? ==>
      forall k :: k in defs && k !in h.objs[target.ref].own ==> Get(r.value, target.ref, k) == defs[k]
  {
    if !target.ObjRef? then
      if defs == map[] then Ok(h) else Err(TypeError)
    else
      var d := Alloc(h, DefinitionsObject(defs));
      DefinitionsRead(d.heap, target.ref, d.ref, defs, h.objs[target.ref].own.Keys);
      Ok(CopyPropsSpec(d.heap, target.ref, d.ref, None))
  }

  /** After copying from a definitions object, each name the target lacked reads
      through its getter to the definition's data slot. */
  lemma DefinitionsRead(h: Heap, target: Ref, defsRef: Ref, defs: map<string, Value>, had: set<string>)
    requires target in h.objs && defsRef in h.objs && target != defsRef
    requires h.objs[defsRef] == DefinitionsObject(defs) && h.objs[target].own.Keys == had
    ensures var h' := CopyPropsSpec(h, target, defsRef, None);
      forall k :: k in defs && k !in had ==> Get(h', target, k) == defs[k]
  {
    var h' := CopyPropsSpec(h, target, defsRef, None);
    assert target in h'.objs.Keys;
    var n := |h'.objs| - 1;
    forall k | k in defs && k !in had
      ensures Get(h', target, k) == defs[k]
    {
      CopiedNameReadsSource(h, target, defsRef, None, k, n);
      assert h'.objs[defsRef].own[k] == Data(defs[k]);
    }
  }

  /** A second `exports(...)` on the same exports object cannot overwrite a name an
      earlier call defined: the earlier slot survives, whatever the new value. */
  lemma {:induction false} ExportsNeverOverwrite(h: Heap, target: Ref, first: map<string, Value>, second: map<string, Value>, k: string)
    requires h.Wf() && target in h.objs
    requires k in first
    ensures var h1 := ExportsInto(h, ObjRef(target), first).value;
      var h2 := ExportsInto(h1, ObjRef(target), second).value;
      k in h1.objs[target].own && h2.objs[target].own[k] == h1.objs[target].own[k]
  {
    var h1 := ExportsInto(h, ObjRef(target), first).value;
    assert k in h1.objs[target].own;
  }

  /** Copied exports stay recognisable: `copyProps` never changes a tag. */
  lemma ExportsKeepTag(h: Heap, target: Ref, defs: map<string, Value>)
    requires h.Wf() && target in h.objs && h.objs[target].proto == ExportsProto
    ensures IsExportsObject(ExportsInto(h, ObjRef(target), defs).value, ObjRef(target))
  {
  }

  /** A namespace read reaches the source's current value. */
  lemma NamespaceReadsSource(h: Heap, exports: Ref, k: string, fuel: nat)
    requires h.Wf() && exports in h.objs
    requires k in h.objs[exports].own && k != "default"
    ensures var a := Namespace(h, exports);
      GetFuel(a.heap, a.ref, k, fuel + 1) == GetFuel(a.heap, exports, k, fuel)
  {
  }

  class Registry {
    var heap: Heap
    /** Every module object created so far, reachable through its context. */
    var modules: map<ModuleRef, Module>
    var nextModule: ModuleRef
    /** `moduleRegistry`: module id to module object. */
    var table: map<ModuleId, ModuleRef>

    ghost predicate Valid()
      reads this
    {
      heap.Wf()
      && (forall m :: m in modules ==> m < nextModule)
      && (forall id :: id in table ==> table[id] in modules)
      && (forall m :: m in modules && modules[m].exports.ObjRef? ==> modules[m].exports.ref in heap.objs)
    }

    constructor()
      ensures Valid() && table == map[] && modules == map[]
    {
      heap := EmptyHeap();
      modules := map[];
      nextModule := 0;
      table := map[];
    }

    /** `__get(id)`. */
    function Lookup(id: ModuleId): (r: Result<ModuleRef>)
      reads this
      requires Valid()
      ensures r.Err? <==> id !in table
      ensures r.Err? ==> r.error == ModuleNotFound
      ensures r.Ok? ==> r.value == table[id] && r.value in modules
    {
      if id in table then Ok(table[id]) else Err(ModuleNotFound)
    }

    /** `register(id)`: a new module with fresh tagged empty exports, stored under
        `id` in place of any earlier one; returns its context. */
    method Register(id: ModuleId) returns (ctx: ModuleRef)
      requires Valid()
      modifies this
      ensures Valid()
      ensures ctx !in old(modules)
      ensures table == old(table)[id := ctx]
      ensures modules.Keys == old(modules.Keys) + {ctx}
      ensures forall m :: m in old(modules) ==> modules[m] == old(modules)[m]
      ensures modules[ctx].id == id && modules[ctx].exports.ObjRef?
      ensures var e := modules[ctx].exports.ref;
        e !in old(heap.objs) && heap.objs == old(heap.objs)[e := EmptyObj(ExportsProto)]
    {
      var e := CreateExports(heap);
      heap := e.heap;
      ctx := nextModule;
      nextModule := nextModule + 1;
      modules := modules[ctx := Module(id, ObjRef(e.ref))];
      table := table[id := ctx];
    }

    /** `getContext(id)`: throws for an unknown id; otherwise gives the module a
        fresh empty tagged exports object and returns its unchanged context. */
    method GetContext(id: ModuleId) returns (r: Result<ModuleRef>)
      requires Valid()
      modifies this
      ensures Valid()
      ensures r == old(Lookup(id))
      ensures r.Err? ==> unchanged(this)
      ensures r.Ok? ==>
        table == old(table)
        && modules.Keys == old(modules.Keys)
        && (forall m :: m in modules && m != r.value ==> modules[m] == old(modules)[m])
        && modules[r.value].id == old(modules)[r.value].id
        && modules[r.value].exports.ObjRef?
        && var e := modules[r.value].exports.ref;
           e !in old(heap.objs) && heap.objs == old(heap.objs)[e := EmptyObj(ExportsProto)]
    {
      r := Lookup(id);
      if r.Err? {
        return;
      }
      var e := CreateExports(heap);
      heap := e.heap;
      modules := modules[r.value := modules[r.value].(exports := ObjRef(e.ref))];
    }

    /** `clear()`: afterwards every lookup throws. */
    method Clear()
      requires Valid()
      modifies this
      ensures Valid()
      ensures table == map[] && modules == old(modules) && heap == old(heap)
      ensures forall id :: Lookup(id) == Err(ModuleNotFound)
    {
      table := map[];
    }

    /** `context.require(id)`. */
    method Require(id: ModuleId) returns (r: Result<Value>)
      requires Valid()
      modifies this
      ensures Valid()
      ensures table == old(table) && modules == old(modules)
      ensures old(Lookup(id)).Err? ==> r == Err(ModuleNotFound) && heap == old(heap)
      ensures old(Lookup(id)).Ok? ==>
        var p := Interop(old(heap), old(modules)[old(table)[id]].exports);
        r == Ok(p.value) && heap == p.heap
    {
      var m := Lookup(id);
      if m.Err? {
        return Err(ModuleNotFound);
      }
      var p := Interop(heap, modules[m.value].exports);
      heap := p.heap;
      r := Ok(p.value);
    }

    /** `context.exports.ns(exports)`. */
    method Ns(exports: Ref) returns (ns: Ref)
      requires Valid() && exports in heap.objs
      modifies this
      ensures Valid()
      ensures table == old(table) && modules == old(modules)
      ensures var a := Namespace(old(heap), exports); heap == a.heap && ns == a.ref
    {
      var n := CreateExports(heap);
      var h', _ := CopyPropsInto(n.heap, n.ref, exports, Some("default"));
      heap := h';
      ns := n.ref;
    }

    /** `context.exports(definitions)`: merges into the module's exports as they are
        when the call happens, not as they were when the context was made. */
    method Exports(ctx: ModuleRef, defs: map<string, Value>) returns (r: Outcome)
      requires Valid() && ctx in modules
      modifies this
      ensures Valid()
      ensures table == old(table) && modules == old(modules)
      ensures var res := ExportsInto(old(heap), old(modules)[ctx].exports, defs);
        (res.Err? ==> r == Fail(res.error) && heap == old(heap))
        && (res.Ok? ==> r == Pass && heap == res.value)
    {
      var target := modules[ctx].exports;
      if !target.ObjRef? {
        if defs == map[] {
          return Pass;
        }
        return Fail(TypeError);
      }
      var d := Alloc(heap, DefinitionsObject(defs));
      var h', _ := CopyPropsInto(d.heap, target.ref, d.ref, None);
      heap := h';
      r := Pass;
    }

    /** `context.module.exports = value`, the CommonJS assignment target. */
    method SetModuleExports(ctx: ModuleRef, value: Value)
      requires Valid() && ctx in modules
      requires value.ObjRef? ==> value.ref in heap.objs
      modifies this
      ensures Valid()
      ensures table == old(table) && heap == old(heap)
      ensures modules == old(modules)[ctx := old(modules)[ctx].(exports := value)]
    {
      modules := modules[ctx := modules[ctx].(exports := value)];
    }
  }
}
