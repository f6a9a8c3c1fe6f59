/**
 * The slice of the JavaScript object model that the runtime relies on.
 *
 * An object is a map from its own property names to slots; a slot is either a
 * data property or a live getter that reads another object's property at read
 * time (what `Object.defineProperty(dest, key, { get: () => source[key] })`
 * installs). Objects live in a heap addressed by references, so identity
 * ("the same object", "a fresh object") is explicit.
 */
module JsObjects {
  import opened Wrappers

  type Ref = nat

  datatype Value =
    | Undefined
    | Null
    | Bool(b: bool)
    | Num(n: int)
    | Str(s: string)
    | ObjRef(ref: Ref)

  datatype Slot =
    | Data(value: Value)
    | Live(source: Ref, key: string)

  /** `ExportsProto` marks an object built by the runtime's exports constructor
      (`new ExportObject()`, `Object.create(__ref)`); every other object is plain. */
  datatype Proto = PlainProto | ExportsProto

  /** `inherited` holds the enumerable names a `for ... in` loop reaches through
      the prototype; their values are not modelled. `callable` marks a function
      object, for which `typeof` gives `'function'` rather than `'object'`; its code
      is not modelled. */
  datatype Obj = Obj(own: map<string, Slot>, inherited: set<string>, proto: Proto, callable: bool)

  function EmptyObj(proto: Proto): (o: Obj)
    ensures o.own == map[] && o.inherited == {} && o.proto == proto && !o.callable
  {
    Obj(map[], {}, proto, false)
  }

  /** `{ default: v }`. */
  function DefaultBox(v: Value): (o: Obj)
    ensures o.own == map["default" := Data(v)] && o.proto == PlainProto && !o.callable
  {
    Obj(map["default" := Data(v)], {}, PlainProto, false)
  }

  /** A heap with an allocation counter: every allocated reference is below `next`. */
  datatype Heap = Heap(objs: map<Ref, Obj>, next: Ref) {
    ghost predicate Wf() {
      forall r :: r in objs ==> r < next
    }
  }

  function EmptyHeap(): (h: Heap)
    ensures h.Wf() && h.objs == map[]
  {
    Heap(map[], 0)
  }

  datatype Allocated = Allocated(heap: Heap, ref: Ref)

  /** Allocates `o` at a reference no existing object uses. */
  function Alloc(h: Heap, o: Obj): (a: Allocated)
    requires h.Wf()
    ensures a.ref !in h.objs
    ensures a.heap.Wf() && a.heap.objs == h.objs[a.ref := o]
  {
    Allocated(Heap(h.objs[h.next := o], h.next + 1), h.next)
  }

  /** `o[key]` for an object reference, following live getters for at most `fuel` steps. */
  function GetFuel(h: Heap, r: Ref, key: string, fuel: nat): Value
    decreases fuel
  {
    if r !in h.objs || key !in h.objs[r].own then Undefined
    else match h.objs[r].own[key]
      case Data(v) => v
      case Live(src, k) => if fuel == 0 then Undefined else GetFuel(h, src, k, fuel - 1)
  }

  /** `o[key]`. A chain of getters that does not repeat an object is shorter than the heap. */
  function Get(h: Heap, r: Ref, key: string): Value {
    GetFuel(h, r, key, |h.objs|)
  }

  /** `v[key]` for any value: reading a property of `undefined` or `null` throws;
      primitives have no modelled properties. */
  function GetProp(h: Heap, v: Value, key: string): Result<Value> {
    match v
    case Undefined => Err(TypeError)
    case Null => Err(TypeError)
    case ObjRef(r) => Ok(Get(h, r, key))
    case _ => Ok(Undefined)
  }

  /** `typeof v === 'object'`: `null` and every object that is not a function. */
  predicate TypeofObject(h: Heap, v: Value) {
    v.Null? || (v.ObjRef? && v.ref in h.objs && !h.objs[v.ref].callable)
  }

  predicate IsExportsObject(h: Heap, v: Value) {
    v.ObjRef? && v.ref in h.objs && h.objs[v.ref].proto == ExportsProto
  }
}
