/**
 * `interopDefaultExport(module)`: gives a CommonJS module's exports a `default`.
 * When `module.exports.default` is defined the exports are returned as they are;
 * otherwise a value whose `typeof` is `'object'` gets `default` pointing at itself
 * (in place, through `Object.assign`) and any other value, a function included, is
 * wrapped as `{ default: value }`.
 */
module Interop {
  import opened Wrappers
  import opened JsObjects

  datatype Interop = Interop(heap: Heap, result: Value)

  predicate ExportsInHeap(h: Heap, exports: Value) {
    exports.ObjRef? ==> exports.ref in h.objs
  }

  /** `Object.assign(target, { default: target })`. Assigning over a getter-only
      property throws in strict code; any other slot is overwritten or created. */
  function AssignDefaultToSelf(h: Heap, r: Ref): (res: Result<Heap>)
    requires r in h.objs
    ensures res.Ok? ==> res.value == h.(objs := h.objs[r := h.objs[r].(own := h.objs[r].own["default" := Data(ObjRef(r))])])
    ensures res.Err? <==> "default" in h.objs[r].own && h.objs[r].own["default"].Live?
  {
    var o := h.objs[r];
    if "default" in o.own && o.own["default"].Live? then Err(TypeError)
    else Ok(h.(objs := h.objs[r := o.(own := o.own["default" := Data(ObjRef(r))])]))
  }

  function InteropDefaultExport(h: Heap, exports: Value): (r: Result<Interop>)
    requires h.Wf() && ExportsInHeap(h, exports)
    // reading `.default` of `undefined` or `null` throws
    ensures exports.Undefined? || exports.Null? ==> r == Err(TypeError)
    // a defined `default`: the exports themselves, nothing changes
    ensures GetProp(h, exports, "default").Ok? && GetProp(h, exports, "default").value != Undefined
      ==> r == Ok(Interop(h, exports))
  {
    match GetProp(h, exports, "default")
    case Err(e) => Err(e)
    case Ok(d) =>
      if d != Undefined then Ok(Interop(h, exports))
      else if TypeofObject(h, exports) then
        match AssignDefaultToSelf(h, exports.ref)
        case Err(e) => Err(e)
        case Ok(h') => Ok(Interop(h', exports))
      else
        var a := Alloc(h, DefaultBox(exports));
        Ok(Interop(a.heap, ObjRef(a.ref)))
  }

  /** An object without `default` is given `default` pointing at itself and is
      returned as the same object; only its `default` slot changes. */
  lemma ObjectGetsSelfDefault(h: Heap, r: Ref)
    requires h.Wf() && r in h.objs && !h.objs[r].callable
    requires Get(h, r, "default") == Undefined
    requires !("default" in h.objs[r].own && h.objs[r].own["default"].Live?)
    ensures var res := InteropDefaultExport(h, ObjRef(r));
      res.Ok? && res.value.result == ObjRef(r)
      && res.value.heap.objs.Keys == h.objs.Keys
      && (forall q :: q in h.objs && q != r ==> res.value.heap.objs[q] == h.objs[q])
      && res.value.heap.objs[r].own == h.objs[r].own["default" := Data(ObjRef(r))]
      && Get(res.value.heap, r, "default") == ObjRef(r)
  {
  }

  /** A function without `default` is not an object to `typeof`: it is wrapped in a
      new `{ default: fn }` and is itself left as it was. */
  lemma FunctionIsWrapped(h: Heap, r: Ref)
    requires h.Wf() && r in h.objs && h.objs[r].callable
    requires Get(h, r, "default") == Undefined
    ensures var res := InteropDefaultExport(h, ObjRef(r));
      res.Ok? && res.value.result.ObjRef? && res.value.result.ref !in h.objs
      && res.value.heap.objs == h.objs[res.value.result.ref := DefaultBox(ObjRef(r))]
      && Get(res.value.heap, res.value.result.ref, "default") == ObjRef(r)
  {
  }

  /** A primitive is wrapped in a new `{ default: value }`; no existing object changes. */
  lemma PrimitiveIsWrapped(h: Heap, v: Value)
    requires h.Wf()
    requires v.Bool? || v.Num? || v.Str?
    ensures var res := InteropDefaultExport(h, v);
      res.Ok? && res.value.result.ObjRef? && res.value.result.ref !in h.objs
      && res.value.heap.objs == h.objs[res.value.result.ref := DefaultBox(v)]
      && Get(res.value.heap, res.value.result.ref, "default") == v
  {
  }

  /** Whatever branch is taken, the result has a defined `default`. */
  lemma {:induction false} ResultHasDefault(h: Heap, exports: Value)
    requires h.Wf() && ExportsInHeap(h, exports)
    requires InteropDefaultExport(h, exports).Ok?
    ensures var res := InteropDefaultExport(h, exports).value;
      ExportsInHeap(res.heap, res.result)
      && GetProp(res.heap, res.result, "default").Ok?
      && GetProp(res.heap, res.result, "default").value != Undefined
  {
    var d := GetProp(h, exports, "default");
    if d.value == Undefined {
      var res := InteropDefaultExport(h, exports).value;
      if TypeofObject(h, exports) {
        assert res.heap.objs[exports.ref].own["default"] == Data(exports);
      } else {
        assert res.heap.objs[res.result.ref].own["default"] == Data(exports);
      }
    }
  }

  /** Applying the interop to its own result changes nothing more. */
  lemma {:induction false} InteropIdempotent(h: Heap, exports: Value)
    requires h.Wf() && ExportsInHeap(h, exports)
    requires InteropDefaultExport(h, exports).Ok?
    ensures var res := InteropDefaultExport(h, exports).value;
      res.heap.Wf() && ExportsInHeap(res.heap, res.result)
      && InteropDefaultExport(res.heap, res.result) == Ok(res)
  {
    ResultHasDefault(h, exports);
  }
}
