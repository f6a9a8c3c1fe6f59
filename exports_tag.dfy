/**
 * Recognising exports objects by their prototype: `createExports()` builds an
 * empty object whose prototype is a private sentinel, `isExports(o)` compares
 * `o`'s prototype with that sentinel.
 */
module ExportsTag {
  import opened Wrappers
  import opened JsObjects

  /** The sentinel `__ref`: an ordinary object literal, so its prototype is the plain one. */
  function Sentinel(): (o: Obj)
    ensures o.own == map[] && o.proto == PlainProto
  {
    EmptyObj(PlainProto)
  }

  /** `createExports()`: a new empty object whose prototype is the sentinel. */
  function CreateExports(h: Heap): (a: Allocated)
    requires h.Wf()
    ensures a.ref !in h.objs && a.heap.Wf()
    ensures a.heap.objs == h.objs[a.ref := EmptyObj(ExportsProto)]
  {
    Alloc(h, EmptyObj(ExportsProto))
  }

  /** `isExports(o)`. `Object.getPrototypeOf` throws on `undefined` and `null`; a
      primitive's prototype is its wrapper's, never the sentinel. */
  function IsExports(h: Heap, v: Value): (r: Result<bool>)
    ensures r.Err? <==> v.Undefined? || v.Null?
    ensures r.Ok? ==> (r.value <==> v.ObjRef? && v.ref in h.objs && h.objs[v.ref].proto == ExportsProto)
  {
    match v
    case Undefined => Err(TypeError)
    case Null => Err(TypeError)
    case ObjRef(r) => Ok(r in h.objs && h.objs[r].proto == ExportsProto)
    case _ => Ok(false)
  }

  /** What `createExports()` returns is recognised, is new, and has no own names;
      two calls give two distinct objects. */
  lemma CreatedExportsAreRecognised(h: Heap)
    requires h.Wf()
    ensures var a := CreateExports(h);
      IsExports(a.heap, ObjRef(a.ref)) == Ok(true)
      && a.heap.objs[a.ref].own == map[]
      && CreateExports(a.heap).ref != a.ref
  {
  }

  /** Object literals, the sentinel among them, are rejected. */
  lemma PlainObjectsAreNotExports(h: Heap, r: Ref)
    requires r in h.objs && h.objs[r].proto == PlainProto
    ensures IsExports(h, ObjRef(r)) == Ok(false)
    ensures IsExports(h.(objs := h.objs[r := Sentinel()]), ObjRef(r)) == Ok(false)
  {
  }
}
