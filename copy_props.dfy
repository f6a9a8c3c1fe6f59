/**
 * `copyProps(destination, source, except?)`: for every name a `for ... in` loop
 * visits on `source`, when the name differs from `except`, is an own property of
 * `source` and not yet an own property of `destination`, define on `destination`
 * an enumerable getter reading `source[name]` at access time.
 */
module CopyProps {
  import opened Wrappers
  import opened JsObjects

  /** The names `for (const key in source)` visits: own and inherited enumerable ones. */
  function Enumerated(o: Obj): set<string> {
    o.own.Keys + o.inherited
  }

  function ExceptSet(except: Option<string>): set<string> {
    if except.Some? then {except.value} else {}
  }

  /** The guard of the loop body, against the destination as it was before the loop. */
  predicate Copies(dest: Obj, source: Obj, except: Option<string>, key: string) {
    except != Some(key) && key in source.own && key !in dest.own
  }

  /** `dest` after the loop body has run for the names in `keys`. */
  function CopiedFor(dest: Obj, sourceRef: Ref, source: Obj, except: Option<string>, keys: set<string>): Obj {
    dest.(own := dest.own + map k | k in keys && Copies(dest, source, except, k) :: Live(sourceRef, k))
  }

  lemma CopiedForNone(dest: Obj, sourceRef: Ref, source: Obj, except: Option<string>)
    ensures CopiedFor(dest, sourceRef, source, except, {}) == dest
  {
    assert (map k | k in {} && Copies(dest, source, except, k) :: Live(sourceRef, k)) == map[];
    assert dest.own + map[] == dest.own;
  }

  lemma CopiedForStep(dest: Obj, sourceRef: Ref, source: Obj, except: Option<string>, keys: set<string>, key: string)
    requires key !in keys
    ensures var before := CopiedFor(dest, sourceRef, source, except, keys);
      CopiedFor(dest, sourceRef, source, except, keys + {key})
      == if Copies(dest, source, except, key) then before.(own := before.own[key := Live(sourceRef, key)]) else before
  {
    var before := CopiedFor(dest, sourceRef, source, except, keys);
    var after := CopiedFor(dest, sourceRef, source, except, keys + {key});
    if Copies(dest, source, except, key) {
      assert after.own == before.own[key := Live(sourceRef, key)];
    } else {
      assert after.own == before.own;
    }
  }

  /** The destination object once every enumerated name has been considered. */
  function Copied(dest: Obj, sourceRef: Ref, source: Obj, except: Option<string>): (o: Obj)
    ensures o.own.Keys == dest.own.Keys + (source.own.Keys - ExceptSet(except))
    ensures forall k :: k in dest.own ==> o.own[k] == dest.own[k]
    ensures forall k :: k in o.own && k !in dest.own ==> o.own[k] == Live(sourceRef, k)
    ensures o.inherited == dest.inherited && o.proto == dest.proto
  {
    CopiedFor(dest, sourceRef, source, except, Enumerated(source))
  }

  /** The heap after `copyProps(dest, source, except)`: only `dest` changes. */
  function CopyPropsSpec(h: Heap, dest: Ref, source: Ref, except: Option<string>): Heap
    requires dest in h.objs && source in h.objs
  {
    h.(objs := h.objs[dest := Copied(h.objs[dest], source, h.objs[source], except)])
  }

  /** The loop of `copyProps`. The order of the `for ... in` walk is left open
      (`:|`); the result does not depend on it. Returns `destination`. */
  method CopyPropsInto(h: Heap, dest: Ref, source: Ref, except: Option<string>) returns (h': Heap, r: Ref)
    requires dest in h.objs && source in h.objs
    ensures h' == CopyPropsSpec(h, dest, source, except)
    ensures r == dest
  {
    var d0 := h.objs[dest];
    var s0 := h.objs[source];
    var pending := Enumerated(s0);
    ghost var visited: set<string> := {};
    h' := h;
    CopiedForNone(d0, source, s0, except);
    assert h.objs[dest := d0] == h.objs;
    while pending != {}
      invariant pending + visited == Enumerated(s0) && pending !! visited
      invariant h' == h.(objs := h.objs[dest := CopiedFor(d0, source, s0, except, visited)])
      decreases pending
    {
      var key :| key in pending;
      var d := h'.objs[dest];
      var s := h'.objs[source];
      if dest == source {
        assert forall k :: !Copies(d0, s0, except, k);
        assert CopiedFor(d0, source, s0, except, visited) == d0;
      }
      assert s == s0;
      assert key in d.own <==> key in d0.own;
      CopiedForStep(d0, source, s0, except, visited, key);
      if except != Some(key) && key in s.own && key !in d.own {
        h' := h'.(objs := h'.objs[dest := d.(own := d.own[key := Live(source, key)])]);
      }
      pending := pending - {key};
      visited := visited + {key};
    }
    r := dest;
  }

  /** A copied name reads through to the source: `dest[k]` is `source[k]`, whatever
      `source[k]` holds when it is read. */
  lemma CopiedNameReadsSource(h: Heap, dest: Ref, source: Ref, except: Option<string>, k: string, fuel: nat)
    requires dest in h.objs && source in h.objs
    requires k !in h.objs[dest].own && k in h.objs[source].own && except != Some(k)
    ensures GetFuel(CopyPropsSpec(h, dest, source, except), dest, k, fuel + 1)
         == GetFuel(CopyPropsSpec(h, dest, source, except), source, k, fuel)
  {
  }

  /** Copying the same source a second time changes nothing. */
  lemma {:induction false} CopyPropsIdempotent(h: Heap, dest: Ref, source: Ref, except: Option<string>)
    requires dest in h.objs && source in h.objs
    ensures var h1 := CopyPropsSpec(h, dest, source, except);
      CopyPropsSpec(h1, dest, source, except) == h1
  {
    var h1 := CopyPropsSpec(h, dest, source, except);
    var s := h.objs[source];
    var d1 := h1.objs[dest];
    if dest == source {
      assert forall k :: !Copies(h.objs[dest], s, except, k);
      assert (map k | k in Enumerated(s) && Copies(h.objs[dest], s, except, k) :: Live(source, k)) == map[];
      assert h.objs[dest].own + map[] == h.objs[dest].own;
      assert h1.objs == h.objs;
    } else {
      assert h1.objs[source] == s;
      assert forall k :: !Copies(d1, s, except, k);
      assert (map k | k in Enumerated(s) && Copies(d1, s, except, k) :: Live(source, k)) == map[];
      assert d1.own + map[] == d1.own;
      assert Copied(d1, source, s, except) == d1;
    }
  }

  /** The names already on `dest` keep their slots; `except` is never copied;
      names visible on the source only through its prototype are never copied. */
  lemma CopyPropsKeepsAndSkips(h: Heap, dest: Ref, source: Ref, except: Option<string>, k: string)
    requires dest in h.objs && source in h.objs
    ensures var o := CopyPropsSpec(h, dest, source, except).objs[dest];
      (k in h.objs[dest].own ==> o.own[k] == h.objs[dest].own[k])
      && (k !in h.objs[dest].own && (except == Some(k) || k !in h.objs[source].own) ==> k !in o.own)
  {
  }
}
