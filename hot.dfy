/**
 * The demo's hot-reload runtime: a `HotContext` per module collects accept and
 * dispose callbacks until it is locked, `hot(id)` makes a new one, and the
 * HMR client reacts to server messages: `reload` reloads the page, `update`
 * runs the module's dispose callbacks, evaluates the new body, then runs its
 * accept callbacks, and logs (without reloading) when any step throws.
 */
module Hot {
  import opened Wrappers

  /** The identity of a callback function. */
  type Callback = nat

  class HotContext {
    var id: string
    var locked: bool
    var acceptCallbacks: seq<Callback>
    var disposeCallbacks: seq<Callback>

    constructor(id: string)
      ensures this.id == id && !locked
      ensures acceptCallbacks == [] && disposeCallbacks == []
    {
      this.id := id;
      locked := false;
      acceptCallbacks := [];
      disposeCallbacks := [];
    }

    /** `accept(callback)`: remembered only while unlocked. */
    method Accept(callback: Callback)
      modifies this
      ensures id == old(id) && locked == old(locked) && disposeCallbacks == old(disposeCallbacks)
      ensures acceptCallbacks == if old(locked) then old(acceptCallbacks) else old(acceptCallbacks) + [callback]
    {
      if locked {
        return;
      }
      acceptCallbacks := acceptCallbacks + [callback];
    }

    /** `dispose(callback)`: remembered only while unlocked. */
    method Dispose(callback: Callback)
      modifies this
      ensures id == old(id) && locked == old(locked) && acceptCallbacks == old(acceptCallbacks)
      ensures disposeCallbacks == if old(locked) then old(disposeCallbacks) else old(disposeCallbacks) + [callback]
    {
      if locked {
        return;
      }
      disposeCallbacks := disposeCallbacks + [callback];
    }

    /** `lock()`: permanent, since no method clears `locked`. */
    method Lock()
      modifies this
      ensures locked
      ensures id == old(id) && acceptCallbacks == old(acceptCallbacks) && disposeCallbacks == old(disposeCallbacks)
    {
      locked := true;
    }
  }

  /** `window.__modules.hot(id)`: a new context on every call. */
  method NewHot(id: string) returns (c: HotContext)
    ensures fresh(c)
    ensures c.id == id && !c.locked && c.acceptCallbacks == [] && c.disposeCallbacks == []
  {
    c := new HotContext(id);
  }

  /** A message after `JSON.parse`. */
  datatype Message =
    | ReloadMessage
    | UpdateMessage(id: string, body: string)
    | OtherMessage(kind: string)

  /** The `accept` and `dispose` properties of what `getContext(id)` returns;
      `None` is `undefined`. */
  datatype TargetContext = TargetContext(accept: Option<Callback>, dispose: Option<Callback>)

  /** What the client cannot see: the contexts `getContext` hands out (a missing id
      throws), the callbacks that throw, and the bodies whose evaluation throws. */
  datatype World = World(contexts: map<string, TargetContext>, throwing: set<Callback>, failingBodies: set<string>)

  datatype Event =
    | PageReloaded
    | CallbackCalled(callback: Callback, argument: Option<string>)
    | BodyEvaluated(body: string)
    | ErrorLogged

  datatype Run = Run(events: seq<Event>, outcome: Outcome)

  /** `callbacks.forEach((callback) => callback(argument))`, stopping at the first throw:
      calling `undefined` throws a `TypeError`, a callback that throws propagates its
      own exception. */
  function RunCallbacks(w: World, callbacks: seq<Option<Callback>>, argument: Option<string>): (r: Run)
    ensures |r.events| <= |callbacks|
    ensures forall e :: e in r.events ==> e.CallbackCalled? && e.argument == argument
    ensures r.outcome.Pass? ==> |r.events| == |callbacks|
  {
    if callbacks == [] then Run([], Pass)
    else match callbacks[0]
      case None => Run([], Fail(TypeError))
      case Some(cb) =>
        if cb in w.throwing then Run([CallbackCalled(cb, argument)], Fail(CallbackThrew))
        else
          var rest := RunCallbacks(w, callbacks[1..], argument);
          Run([CallbackCalled(cb, argument)] + rest.events, rest.outcome)
  }

  /** Whether a callback slot is a defined callback that returns normally. */
  predicate Completes(w: World, c: Option<Callback>) {
    c.Some? && c.value !in w.throwing
  }

  /** The run calls the callbacks in order: event `i` is the call of the `i`-th
      callback, and every call but the last returned normally. */
  lemma {:induction false} RunCallbacksInOrder(w: World, callbacks: seq<Option<Callback>>, argument: Option<string>)
    ensures var r := RunCallbacks(w, callbacks, argument);
      && (forall i :: 0 <= i < |r.events| ==> callbacks[i] == Some(r.events[i].callback))
      && (forall i :: 0 <= i < |r.events| - 1 ==> Completes(w, callbacks[i]))
  {
    if callbacks != [] && Completes(w, callbacks[0]) {
      var tail := callbacks[1..];
      RunCallbacksInOrder(w, tail, argument);
      var rest := RunCallbacks(w, tail, argument);
      var r := RunCallbacks(w, callbacks, argument);
      assert r.events == [CallbackCalled(callbacks[0].value, argument)] + rest.events;
      forall i | 1 <= i < |r.events|
        ensures r.events[i] == rest.events[i - 1] && callbacks[i] == tail[i - 1]
      {
      }
    }
  }

  /** The run passes iff every callback is defined and none throws. */
  lemma {:induction false} RunCallbacksPassIff(w: World, callbacks: seq<Option<Callback>>, argument: Option<string>)
    ensures RunCallbacks(w, callbacks, argument).outcome.Pass? <==>
              forall i :: 0 <= i < |callbacks| ==> Completes(w, callbacks[i])
  {
    if callbacks != [] {
      var tail := callbacks[1..];
      if Completes(w, callbacks[0]) {
        RunCallbacksPassIff(w, tail, argument);
        if forall i :: 0 <= i < |tail| ==> Completes(w, tail[i]) {
          forall i | 0 <= i < |callbacks| ensures Completes(w, callbacks[i]) {
            if i > 0 { assert callbacks[i] == tail[i - 1]; }
          }
        } else {
          var j :| 0 <= j < |tail| && !Completes(w, tail[j]);
          assert callbacks[j + 1] == tail[j];
        }
      }
    }
  }

  /** A failing run stops either at an undefined callback, which is not called, with
      a `TypeError`, or right after the call of one that threw, with that callback's
      exception. */
  lemma {:induction false} RunCallbacksStop(w: World, callbacks: seq<Option<Callback>>, argument: Option<string>)
    ensures var r := RunCallbacks(w, callbacks, argument);
      r.outcome.Fail? ==>
        || (r.outcome == Fail(TypeError) && |r.events| < |callbacks| && callbacks[|r.events|].None?)
        || (r.outcome == Fail(CallbackThrew)
            && 0 < |r.events| <= |callbacks| && callbacks[|r.events| - 1] == Some(r.events[|r.events| - 1].callback)
            && r.events[|r.events| - 1].callback in w.throwing)
  {
    if callbacks != [] && Completes(w, callbacks[0]) {
      var tail := callbacks[1..];
      RunCallbacksStop(w, tail, argument);
      var rest := RunCallbacks(w, tail, argument);
      var r := RunCallbacks(w, callbacks, argument);
      assert r.events == [CallbackCalled(callbacks[0].value, argument)] + rest.events;
      if r.outcome.Fail? {
        var k := |rest.events|;
        assert |r.events| == k + 1;
        if k > 0 {
          assert r.events[k] == rest.events[k - 1];
          assert callbacks[k] == tail[k - 1];
        }
        if k < |tail| {
          assert callbacks[k + 1] == tail[k];
        }
      }
    }
  }

  /** `handleModuleUpdate(id, body)` as a sequence of observable events. */
  function UpdateRun(w: World, id: string, body: string): Run {
    if id !in w.contexts then Run([], Fail(ModuleNotFound))
    else
      var target := w.contexts[id];
      var disposed := RunCallbacks(w, [target.dispose], None);
      if disposed.outcome.Fail? then disposed
      else if body in w.failingBodies then Run(disposed.events + [BodyEvaluated(body)], Fail(EvalThrew))
      else
        var accepted := RunCallbacks(w, [target.accept], Some(body));
        Run(disposed.events + [BodyEvaluated(body)] + accepted.events, accepted.outcome)
  }

  /** `handleMessage(event)`. */
  function MessageEvents(w: World, m: Message): seq<Event> {
    match m
    case ReloadMessage => [PageReloaded]
    case UpdateMessage(id, body) =>
      var run := UpdateRun(w, id, body);
      run.events + (if run.outcome.Fail? then [ErrorLogged] else [])
    case OtherMessage(_) => []
  }

  /** The two `forEach` loops of `handleModuleUpdate`. */
  method RunCallbackList(w: World, callbacks: seq<Option<Callback>>, argument: Option<string>) returns (r: Run)
    ensures r == RunCallbacks(w, callbacks, argument)
  {
    var events: seq<Event> := [];
    var i := 0;
    while i < |callbacks|
      invariant 0 <= i <= |callbacks|
      invariant RunCallbacks(w, callbacks, argument)
             == Run(events + RunCallbacks(w, callbacks[i..], argument).events, RunCallbacks(w, callbacks[i..], argument).outcome)
    {
      match callbacks[i]
      case None =>
        return Run(events, Fail(TypeError));
      case Some(cb) =>
        events := events + [CallbackCalled(cb, argument)];
        if cb in w.throwing {
          return Run(events, Fail(CallbackThrew));
        }
      assert callbacks[i..][1..] == callbacks[i + 1..];
      i := i + 1;
    }
    r := Run(events, Pass);
  }

  method HandleModuleUpdate(w: World, id: string, body: string) returns (r: Run)
    ensures r == UpdateRun(w, id, body)
  {
    if id !in w.contexts {
      return Run([], Fail(ModuleNotFound));
    }
    var target := w.contexts[id];
    var acceptCallbacks := [target.accept];
    var disposeCallbacks := [target.dispose];
    var disposed := RunCallbackList(w, disposeCallbacks, None);
    if disposed.outcome.Fail? {
      return disposed;
    }
    var events := disposed.events + [BodyEvaluated(body)];
    if body in w.failingBodies {
      return Run(events, Fail(EvalThrew));
    }
    var accepted := RunCallbackList(w, acceptCallbacks, Some(body));
    r := Run(events + accepted.events, accepted.outcome);
  }

  /** `handleMessage`: a failed update is logged and, the reload being commented
      out, nothing else happens. */
  method HandleMessage(w: World, m: Message) returns (events: seq<Event>)
    ensures events == MessageEvents(w, m)
  {
    match m
    case ReloadMessage =>
      events := [PageReloaded];
    case UpdateMessage(id, body) =>
      var run := HandleModuleUpdate(w, id, body);
      events := run.events;
      if run.outcome.Fail? {
        events := events + [ErrorLogged];
      }
    case OtherMessage(_) =>
      events := [];
  }

  /** Only a `reload` message reloads the page; a failing update does not. */
  lemma {:induction false} ReloadOnlyOnReloadMessage(w: World, m: Message)
    ensures PageReloaded in MessageEvents(w, m) <==> m.ReloadMessage?
  {
    if m.UpdateMessage? {
      var run := UpdateRun(w, m.id, m.body);
      assert PageReloaded !in run.events;
    }
  }

  /** A successful update calls every dispose callback without an argument, then
      evaluates the body, then calls every accept callback with `{ body }`. */
  lemma {:induction false} UpdateOrder(w: World, id: string, body: string)
    requires UpdateRun(w, id, body).outcome.Pass?
    ensures id in w.contexts
    ensures var t := w.contexts[id];
      t.dispose.Some? && t.accept.Some?
      && UpdateRun(w, id, body).events
         == [CallbackCalled(t.dispose.value, None), BodyEvaluated(body), CallbackCalled(t.accept.value, Some(body))]
  {
    var t := w.contexts[id];
    assert RunCallbacks(w, [t.dispose], None).outcome.Pass?;
    assert [t.dispose][1..] == [];
    assert [t.accept][1..] == [];
  }

  /** A context without a `dispose` property, which is what the registry's
      `getContext` returns, makes every update throw before the body is evaluated. */
  lemma NoDisposeMeansNoEvaluation(w: World, id: string, body: string)
    requires id in w.contexts && w.contexts[id].dispose.None?
    ensures UpdateRun(w, id, body) == Run([], Fail(TypeError))
    ensures MessageEvents(w, UpdateMessage(id, body)) == [ErrorLogged]
  {
  }
}
