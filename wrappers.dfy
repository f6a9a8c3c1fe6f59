/** Failure-compatible wrappers, and a sequence fact, shared by every module of the model. */
module Wrappers {

  datatype Option<T> = None | Some(value: T) {
    function GetOr(default: T): T {
      if Some? then value else default
    }
  }

  /** The errors the runtime throws. `TypeError` stands for the engine's own errors
      (reading a property of `undefined`, defining a property on a primitive, ...);
      `FactoryThrew`, `CallbackThrew` and `EvalThrew` for whatever a module factory,
      a hot-update callback or an evaluated update body throws, which propagates
      unchanged. */
  datatype Error =
    | ModuleNotFound
    | InvalidDependency
    | SetupTwice
    | TypeError
    | FactoryThrew
    | CallbackThrew
    | EvalThrew

  datatype Result<T> = Ok(value: T) | Err(error: Error)

  /** The outcome of an operation that returns nothing but may throw. */
  datatype Outcome = Pass | Fail(error: Error)

  /** Concatenation regroups freely; loops that extend an accumulator call this to
      keep the solver from proving it element by element. */
  lemma AppendAssoc<T>(a: seq<T>, b: seq<T>, c: seq<T>)
    ensures (a + b) + c == a + (b + c)
  {
  }

  /** A list rebuilt from a new head and a rebuilt tail: element `i` past the head is
      the tail's `i - 1`, which stands where the original's `i` stood. */
  lemma ConsIndices<T, U>(s: seq<T>, x: U, t: seq<U>)
    requires s != [] && |t| == |s| - 1
    ensures |[x] + t| == |s| && ([x] + t)[0] == x
    ensures forall i :: 1 <= i < |s| ==> ([x] + t)[i] == t[i - 1] && s[1..][i - 1] == s[i]
  {
  }

  /** The middle part of a concatenation, and where each of its elements lands. */
  lemma MiddleOf<T>(a: seq<T>, b: seq<T>, c: seq<T>, d: seq<T>)
    ensures var r := a + b + c + d;
      && |r| == |a| + |b| + |c| + |d|
      && r[|a|..|a| + |b|] == b
      && forall j :: 0 <= j < |b| ==> r[|a| + j] == b[j]
  {
    var r := a + b + c + d;
    assert r[|a|..|a| + |b|] == b;
  }
}
