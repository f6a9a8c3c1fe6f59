/**
 * The dependency collector (`module_collector.rs`): a visitor that records every
 * module a program imports or requires, keyed by source, rewrites `require('x')`
 * and `import('x')` into calls of a private require function, and then produces
 * the dependency object `var __d = { 'x': () => …, … }` together with one
 * destructuring require statement per ES import.
 *
 * Expression traversal is pure here: `VisitExpr` and its companions return the
 * rewritten node, the references recorded on the way (in visiting order) and
 * whether a `require`/`import()` with a non-string argument made the visitor
 * panic. The collector's methods apply those records to `mods`.
 */
module ModuleCollection {
  import opened Wrappers
  import opened SwcAst
  import opened SwcUtils
  import opened OHashMaps
  import Models

  /** A member one ES import binds: the exported name it reads (`ident`), the local
      name it binds when that differs (`alias`), and whether it is `* as ident`. */
  datatype ModuleMember = ModuleMember(ident: Atom, alias: Option<Atom>, isNs: bool) {
    /** The local name the member is bound to. */
    function Local(): Atom {
      alias.GetOr(ident)
    }
  }

  /** What the collector knows about one source. */
  datatype ModuleRef =
    | RequireRef(origExpr: Expr)
    | ImportRef(members: seq<ModuleMember>)
    | DynImportRef(origExpr: Expr)

  // Import specifiers.

  /** One specifier's member; a type-only named specifier has none. */
  function ImportMemberFor(spec: ImportSpec): (m: Option<ModuleMember>)
    ensures m.None? <==> IsTypeOnlyImport(spec)
    ensures m.Some? ==> m.value.Local() == spec.local
    ensures m.Some? ==> (m.value.isNs <==> spec.ImportStarSpec?)
    ensures m.Some? && spec.ImportDefaultSpec? ==> m.value.ident == "default"
  {
    match spec
    case ImportDefaultSpec(local) => Some(ModuleMember("default", Some(local), false))
    case ImportNamedSpec(local, imported, isTypeOnly) =>
      if isTypeOnly then None
      else if imported.Some? && imported.value.NameIdent? then Some(ModuleMember(imported.value.sym, Some(local), false))
      else Some(ModuleMember(local, None, false))
    case ImportStarSpec(local) => Some(ModuleMember(local, None, true))
  }

  /** The members of an import declaration, in specifier order. */
  function ImportMembersOf(specs: seq<ImportSpec>): seq<ModuleMember> {
    if specs == [] then []
    else ImportMembersOf(specs[..|specs| - 1]) + OptionToSeq(ImportMemberFor(specs[|specs| - 1]))
  }

  /** Every member binds the local name of a specifier that is not type-only, and
      every such specifier contributes one member, in order. */
  lemma {:induction false} ImportMembersBindLocals(specs: seq<ImportSpec>)
    ensures |ImportMembersOf(specs)| <= |specs|
    ensures forall m :: m in ImportMembersOf(specs) <==>
      exists i :: 0 <= i < |specs| && ImportMemberFor(specs[i]) == Some(m)
  {
    if specs != [] {
      var n := |specs| - 1;
      var init := specs[..n];
      ImportMembersBindLocals(init);
      forall m | m in ImportMembersOf(specs)
        ensures exists i :: 0 <= i < |specs| && ImportMemberFor(specs[i]) == Some(m)
      {
        if m in ImportMembersOf(init) {
          var i :| 0 <= i < n && ImportMemberFor(init[i]) == Some(m);
          assert specs[i] == init[i];
        } else {
          assert ImportMemberFor(specs[n]) == Some(m);
        }
      }
      forall i | 0 <= i < |specs| && ImportMemberFor(specs[i]).Some?
        ensures ImportMemberFor(specs[i]).value in ImportMembersOf(specs)
      {
        if i < n {
          assert init[i] == specs[i];
        }
      }
    }
  }

  /** The collector's member and the runtime delegate's `ImportMember` read the same
      exported name into the same local binding; a namespace import is `* as local`
      in both. */
  lemma ImportMemberAgrees(spec: ImportSpec)
    requires !IsTypeOnlyImport(spec)
    ensures ImportMemberFor(spec).value.Local() == Models.ImportMemberOf(spec).Local()
    ensures !spec.ImportStarSpec? ==> Some(ImportMemberFor(spec).value.ident) == Models.ImportMemberOf(spec).ImportedName()
    ensures spec.ImportStarSpec? <==> (ImportMemberFor(spec).value.isNs && Models.ImportMemberOf(spec).NamespaceMember?)
  {
  }

  // Expression traversal.

  /** A reference recorded while visiting, under the source it names. */
  datatype Capture = Capture(src: Atom, ref: ModuleRef)

  /** The result of visiting a node. */
  datatype Visited<T> = Visited(node: T, captures: seq<Capture>, panics: bool)

  /** `require(arg)`: a call of the identifier `require` with exactly one argument
      and no type arguments. */
  predicate IsRequireCall(e: Expr) {
    e.Call? && e.callee.CalleeExpr? && e.callee.expr.IdentExpr? && e.callee.expr.id.sym == "require"
    && |e.args| == 1 && !e.hasTypeArgs
  }

  /** `import(arg, …)`: a dynamic import with at least one argument and no type arguments. */
  predicate IsDynamicImport(e: Expr) {
    e.Call? && e.callee.CalleeImport? && |e.args| >= 1 && !e.hasTypeArgs
  }

  /** A call the visitor acts on instead of descending into it. */
  predicate IsModuleCall(e: Expr) {
    IsRequireCall(e) || IsDynamicImport(e)
  }

  /** The first argument of a call when it is a string literal. */
  function StrArg(e: Expr): (r: Option<Atom>)
    requires e.Call? && |e.args| >= 1
    ensures r.Some? <==> e.args[0].LitExpr? && e.args[0].lit.StrLit?
  {
    if e.args[0].LitExpr? && e.args[0].lit.StrLit? then Some(e.args[0].lit.value) else None
  }

  /** `get_require_expr`: `requireIdent('src')`. */
  function RequireExpr(requireIdent: Atom, src: Atom): (e: Expr)
    ensures e.Call? && e.callee.CalleeExpr? && e.args == [LitExpr(StrLit(src))]
  {
    Call(CalleeExpr(Id(requireIdent)), [LitExpr(StrLit(src))], false)
  }

  /** A record is the `require` or `import()` call it was found at, under that call's
      string argument. */
  predicate IsCallCapture(c: Capture) {
    match c.ref
    case RequireRef(orig) => IsRequireCall(orig) && StrArg(orig) == Some(c.src)
    case DynImportRef(orig) => IsDynamicImport(orig) && StrArg(orig) == Some(c.src)
    case ImportRef(_) => false
  }

  /** What the visitor records at a `require`/`import()` call: the call itself, under
      its string argument; a call with another argument records nothing. */
  function CaptureOf(call: Expr): (c: Option<Capture>)
    ensures c.Some? <==> IsModuleCall(call) && StrArg(call).Some?
    ensures c.Some? ==> IsCallCapture(c.value) && c.value.src == StrArg(call).value
  {
    if IsModuleCall(call) && StrArg(call).Some? then
      Some(Capture(StrArg(call).value, if IsRequireCall(call) then RequireRef(call) else DynImportRef(call)))
    else None
  }

  predicate CallCaptures(cs: seq<Capture>) {
    forall i :: 0 <= i < |cs| ==> IsCallCapture(cs[i])
  }

  function Join<S, T>(a: Visited<S>, b: Visited<T>): seq<Capture> {
    a.captures + b.captures
  }

  /** `visit_mut_expr`: a `require` or dynamic import with a string argument is
      recorded and replaced by `requireIdent('src')` without visiting inside it; with
      any other argument the visitor panics; every other expression has its
      children visited. */
  function VisitExpr(e: Expr, req: Atom): (r: Visited<Expr>)
    decreases e
    ensures r.node.IdentExpr? <==> e.IdentExpr?
    ensures e.IdentExpr? ==> r == Visited(e, [], false)
    ensures CallCaptures(r.captures)
    // a `require('src')` or `import('src', …)` is recorded under `src` and replaced
    // by `req('src')`; with any other argument the visitor panics
    ensures IsModuleCall(e) && StrArg(e).Some? ==>
      r == Visited(RequireExpr(req, StrArg(e).value), [CaptureOf(e).value], false)
    ensures IsModuleCall(e) && StrArg(e).None? ==> r.panics
  {
    if IsModuleCall(e) then
      match StrArg(e)
      case Some(src) =>
        Visited(RequireExpr(req, src), [Capture(src, if IsRequireCall(e) then RequireRef(e) else DynImportRef(e))], false)
      case None => Visited(e, [], true)
    else
      match e
      case Member(obj, prop) =>
        var o := VisitExpr(obj, req);
        var p := VisitMemberProp(prop, req);
        Visited(Member(o.node, p.node), Join(o, p), o.panics || p.panics)
      case Call(callee, args, typeArgs) =>
        var c := VisitCallee(callee, req);
        var a := VisitExprs(args, req);
        Visited(Call(c.node, a.node, typeArgs), Join(c, a), c.panics || a.panics)
      case Assign(op, left, right) =>
        var l := VisitTarget(left, req);
        var v := VisitExpr(right, req);
        Visited(Assign(op, l.node, v.node), Join(l, v), l.panics || v.panics)
      case SeqExpr(es) =>
        var v := VisitExprs(es, req);
        Visited(SeqExpr(v.node), v.captures, v.panics)
      case ObjectLit(props) =>
        var v := VisitProps(props, req);
        Visited(ObjectLit(v.node), v.captures, v.panics)
      case LazyFn(body) =>
        var v := VisitExpr(body, req);
        Visited(LazyFn(v.node), v.captures, v.panics)
      case FnExpr(params, stmts) =>
        var v := VisitStmts(stmts, req);
        Visited(FnExpr(params, v.node), v.captures, v.panics)
      case DeclExpr(decl) =>
        var v := VisitDecl(decl, req);
        Visited(DeclExpr(v.node), v.captures, v.panics)
      case _ => Visited(e, [], false)
  }

  function VisitMemberProp(prop: MemberProp, req: Atom): (r: Visited<MemberProp>)
    decreases prop
    ensures CallCaptures(r.captures)
  {
    match prop
    case PropComputed(x) =>
      var v := VisitExpr(x, req);
      Visited(PropComputed(v.node), v.captures, v.panics)
    case _ => Visited(prop, [], false)
  }

  function VisitCallee(callee: Callee, req: Atom): (r: Visited<Callee>)
    decreases callee
    ensures callee.CalleeExpr? <==> r.node.CalleeExpr?
    ensures callee.CalleeExpr? ==> (r.node.expr.IdentExpr? <==> callee.expr.IdentExpr?)
    ensures callee.CalleeExpr? && callee.expr.IdentExpr? ==> r.node == callee
    ensures !callee.CalleeExpr? ==> r == Visited(callee, [], false)
    ensures CallCaptures(r.captures)
  {
    match callee
    case CalleeExpr(x) =>
      var v := VisitExpr(x, req);
      Visited(CalleeExpr(v.node), v.captures, v.panics)
    case _ => Visited(callee, [], false)
  }

  function VisitTarget(target: AssignTarget, req: Atom): (r: Visited<AssignTarget>)
    decreases target
    ensures CallCaptures(r.captures)
  {
    match target
    case TargetMember(obj, prop) =>
      var o := VisitExpr(obj, req);
      var p := VisitMemberProp(prop, req);
      Visited(TargetMember(o.node, p.node), Join(o, p), o.panics || p.panics)
    case _ => Visited(target, [], false)
  }

  function VisitExprs(es: seq<Expr>, req: Atom): (r: Visited<seq<Expr>>)
    decreases es
    ensures |r.node| == |es|
    ensures forall i :: 0 <= i < |es| ==> r.node[i] == VisitExpr(es[i], req).node
    ensures CallCaptures(r.captures)
  {
    if es == [] then Visited([], [], false)
    else
      var h := VisitExpr(es[0], req);
      var t := VisitExprs(es[1..], req);
      ConsIndices(es, h.node, t.node);
      Visited([h.node] + t.node, Join(h, t), h.panics || t.panics)
  }

  function VisitProps(ps: seq<Prop>, req: Atom): (r: Visited<seq<Prop>>)
    decreases ps
    ensures CallCaptures(r.captures)
  {
    if ps == [] then Visited([], [], false)
    else
      var h := VisitProp(ps[0], req);
      var t := VisitProps(ps[1..], req);
      Visited([h.node] + t.node, Join(h, t), h.panics || t.panics)
  }

  function VisitProp(p: Prop, req: Atom): (r: Visited<Prop>)
    decreases p
    ensures CallCaptures(r.captures)
  {
    match p
    case KeyValue(key, value) =>
      var v := VisitExpr(value, req);
      Visited(KeyValue(key, v.node), v.captures, v.panics)
    case Spread(x) =>
      var v := VisitExpr(x, req);
      Visited(Spread(v.node), v.captures, v.panics)
    case Shorthand(_) => Visited(p, [], false)
  }

  /** The statements are visited one by one, in order: each is rewritten on its own,
      and the records of the first come before those of the rest. */
  function VisitStmts(ss: seq<Stmt>, req: Atom): (r: Visited<seq<Stmt>>)
    decreases ss
    ensures |r.node| == |ss|
    ensures forall i :: 0 <= i < |ss| ==> r.node[i] == VisitStmt(ss[i], req).node
    ensures ss != [] ==> r.captures == VisitStmt(ss[0], req).captures + VisitStmts(ss[1..], req).captures
    ensures ss != [] ==> (r.panics <==> VisitStmt(ss[0], req).panics || VisitStmts(ss[1..], req).panics)
    ensures CallCaptures(r.captures)
  {
    if ss == [] then Visited([], [], false)
    else
      var h := VisitStmt(ss[0], req);
      var t := VisitStmts(ss[1..], req);
      ConsIndices(ss, h.node, t.node);
      Visited([h.node] + t.node, Join(h, t), h.panics || t.panics)
  }

  function VisitStmt(s: Stmt, req: Atom): (r: Visited<Stmt>)
    decreases s
    ensures CallCaptures(r.captures)
  {
    match s
    case ExprStmt(x) =>
      var v := VisitExpr(x, req);
      Visited(ExprStmt(v.node), v.captures, v.panics)
    case DeclStmt(decl) =>
      var v := VisitDecl(decl, req);
      Visited(DeclStmt(v.node), v.captures, v.panics)
    case _ => Visited(s, [], false)
  }

  function VisitDecl(decl: Decl, req: Atom): (r: Visited<Decl>)
    decreases decl
    ensures CallCaptures(r.captures)
  {
    match decl
    case VarDecl(kind, decls) =>
      var v := VisitDeclarators(decls, req);
      Visited(VarDecl(kind, v.node), v.captures, v.panics)
    case _ => Visited(decl, [], false)
  }

  function VisitDeclarators(ds: seq<VarDeclarator>, req: Atom): (r: Visited<seq<VarDeclarator>>)
    decreases ds
    ensures CallCaptures(r.captures)
  {
    if ds == [] then Visited([], [], false)
    else
      var t := VisitDeclarators(ds[1..], req);
      match ds[0].init
      case None => Visited([ds[0]] + t.node, t.captures, t.panics)
      case Some(x) =>
        assert x < ds[0].init && ds[0].init < ds[0];
        assert x < ds[0];
        var h := VisitExpr(x, req);
        Visited([VarDeclarator(ds[0].name, Some(h.node))] + t.node, h.captures + t.captures, h.panics || t.panics)
  }

  // The calls the visitor reaches: every `require`/`import()` call that is not inside
  // another one, in visiting order.

  function ReachedCalls(e: Expr): (calls: seq<Expr>)
    decreases e
  {
    if IsModuleCall(e) then [e]
    else
      match e
      case Member(obj, prop) => ReachedCalls(obj) + ReachedInMemberProp(prop)
      case Call(callee, args, _) => ReachedInCallee(callee) + ReachedInExprs(args)
      case Assign(_, left, right) => ReachedInTarget(left) + ReachedCalls(right)
      case SeqExpr(es) => ReachedInExprs(es)
      case ObjectLit(props) => ReachedInProps(props)
      case LazyFn(body) => ReachedCalls(body)
      case FnExpr(_, stmts) => ReachedInStmts(stmts)
      case DeclExpr(decl) => ReachedInDecl(decl)
      case _ => []
  }

  function ReachedInMemberProp(prop: MemberProp): seq<Expr>
    decreases prop
  {
    if prop.PropComputed? then ReachedCalls(prop.expr) else []
  }

  function ReachedInCallee(callee: Callee): seq<Expr>
    decreases callee
  {
    if callee.CalleeExpr? then ReachedCalls(callee.expr) else []
  }

  function ReachedInTarget(target: AssignTarget): seq<Expr>
    decreases target
  {
    if target.TargetMember? then ReachedCalls(target.obj) + ReachedInMemberProp(target.prop) else []
  }

  function ReachedInExprs(es: seq<Expr>): seq<Expr>
    decreases es
  {
    if es == [] then [] else ReachedCalls(es[0]) + ReachedInExprs(es[1..])
  }

  function ReachedInProps(ps: seq<Prop>): seq<Expr>
    decreases ps
  {
    if ps == [] then [] else ReachedInProp(ps[0]) + ReachedInProps(ps[1..])
  }

  function ReachedInProp(p: Prop): seq<Expr>
    decreases p
  {
    match p
    case KeyValue(_, value) => ReachedCalls(value)
    case Spread(x) => ReachedCalls(x)
    case Shorthand(_) => []
  }

  function ReachedInStmts(ss: seq<Stmt>): seq<Expr>
    decreases ss
  {
    if ss == [] then [] else ReachedInStmt(ss[0]) + ReachedInStmts(ss[1..])
  }

  function ReachedInStmt(s: Stmt): seq<Expr>
    decreases s
  {
    match s
    case ExprStmt(x) => ReachedCalls(x)
    case DeclStmt(decl) => ReachedInDecl(decl)
    case _ => []
  }

  function ReachedInDecl(decl: Decl): seq<Expr>
    decreases decl
  {
    if decl.VarDecl? then ReachedInDeclarators(decl.decls) else []
  }

  function ReachedInDeclarators(ds: seq<VarDeclarator>): seq<Expr>
    decreases ds
  {
    if ds == [] then []
    else
      match ds[0].init
      case None => ReachedInDeclarators(ds[1..])
      case Some(x) =>
        assert x < ds[0].init && ds[0].init < ds[0];
        ReachedCalls(x) + ReachedInDeclarators(ds[1..])
  }

  /** The records of the reached calls, in order. */
  function CapturesOf(calls: seq<Expr>): seq<Capture> {
    if calls == [] then [] else OptionToSeq(CaptureOf(calls[0])) + CapturesOf(calls[1..])
  }

  /** A reached call whose argument is not a string literal: the visitor panics on it. */
  predicate Unresolved(call: Expr) {
    IsModuleCall(call) && StrArg(call).None?
  }

  predicate AnyUnresolved(calls: seq<Expr>) {
    exists i :: 0 <= i < |calls| && Unresolved(calls[i])
  }

  /** A visit records exactly the reached calls with a string argument, in order, and
      panics exactly when a reached call has another argument. */
  predicate RecordsCalls<T>(v: Visited<T>, calls: seq<Expr>) {
    v.captures == CapturesOf(calls) && (v.panics <==> AnyUnresolved(calls))
  }

  lemma {:induction false} CapturesAppend(a: seq<Expr>, b: seq<Expr>)
    ensures CapturesOf(a + b) == CapturesOf(a) + CapturesOf(b)
  {
    if a == [] {
      assert a + b == b;
    } else {
      assert (a + b)[0] == a[0];
      assert (a + b)[1..] == a[1..] + b;
      CapturesAppend(a[1..], b);
    }
  }

  lemma CallsAppend(a: seq<Expr>, b: seq<Expr>)
    ensures CapturesOf(a + b) == CapturesOf(a) + CapturesOf(b)
    ensures AnyUnresolved(a + b) <==> AnyUnresolved(a) || AnyUnresolved(b)
  {
    CapturesAppend(a, b);
    if AnyUnresolved(a + b) {
      var i :| 0 <= i < |a + b| && Unresolved((a + b)[i]);
      if i < |a| {
        assert a[i] == (a + b)[i];
      } else {
        assert b[i - |a|] == (a + b)[i];
      }
    }
    if AnyUnresolved(a) {
      var i :| 0 <= i < |a| && Unresolved(a[i]);
      assert (a + b)[i] == a[i];
    }
    if AnyUnresolved(b) {
      var i :| 0 <= i < |b| && Unresolved(b[i]);
      assert (a + b)[|a| + i] == b[i];
    }
  }

  /** Two visits joined record what their calls, joined, say. */
  lemma JoinRecords<S, T>(a: Visited<S>, calls: seq<Expr>, b: Visited<T>, calls': seq<Expr>)
    requires RecordsCalls(a, calls) && RecordsCalls(b, calls')
    ensures a.captures + b.captures == CapturesOf(calls + calls')
    ensures (a.panics || b.panics) <==> AnyUnresolved(calls + calls')
  {
    CallsAppend(calls, calls');
  }

  lemma NoCalls()
    ensures CapturesOf([]) == [] && !AnyUnresolved([])
  {
  }

  /** Completeness and soundness of the visitor's records: exactly one record per
      reached call with a string argument, in visiting order, and a panic exactly
      when some reached call has another argument. */
  lemma {:induction false} VisitExprRecords(e: Expr, req: Atom)
    ensures RecordsCalls(VisitExpr(e, req), ReachedCalls(e))
    decreases e
  {
    var r := VisitExpr(e, req);
    if IsModuleCall(e) {
      assert ReachedCalls(e) == [e];
      assert [e][1..] == [];
      assert CapturesOf([e]) == OptionToSeq(CaptureOf(e)) + CapturesOf([]);
      assert Unresolved(e) ==> AnyUnresolved([e]) by { assert [e][0] == e; }
    } else {
      match e
      case Member(obj, prop) =>
        VisitExprRecords(obj, req);
        VisitMemberPropRecords(prop, req);
        JoinRecords(VisitExpr(obj, req), ReachedCalls(obj), VisitMemberProp(prop, req), ReachedInMemberProp(prop));
      case Call(callee, args, _) =>
        VisitCalleeRecords(callee, req);
        VisitExprsRecords(args, req);
        JoinRecords(VisitCallee(callee, req), ReachedInCallee(callee), VisitExprs(args, req), ReachedInExprs(args));
      case Assign(_, left, right) =>
        VisitTargetRecords(left, req);
        VisitExprRecords(right, req);
        JoinRecords(VisitTarget(left, req), ReachedInTarget(left), VisitExpr(right, req), ReachedCalls(right));
      case SeqExpr(es) => VisitExprsRecords(es, req);
      case ObjectLit(props) => VisitPropsRecords(props, req);
      case LazyFn(body) => VisitExprRecords(body, req);
      case FnExpr(_, stmts) => VisitStmtsRecords(stmts, req);
      case DeclExpr(decl) => VisitDeclRecords(decl, req);
      case _ => NoCalls();
    }
  }

  lemma {:induction false} VisitMemberPropRecords(prop: MemberProp, req: Atom)
    ensures RecordsCalls(VisitMemberProp(prop, req), ReachedInMemberProp(prop))
    decreases prop
  {
    if prop.PropComputed? {
      VisitExprRecords(prop.expr, req);
    } else {
      NoCalls();
    }
  }

  lemma {:induction false} VisitCalleeRecords(callee: Callee, req: Atom)
    ensures RecordsCalls(VisitCallee(callee, req), ReachedInCallee(callee))
    decreases callee
  {
    if callee.CalleeExpr? {
      VisitExprRecords(callee.expr, req);
    } else {
      NoCalls();
    }
  }

  lemma {:induction false} VisitTargetRecords(target: AssignTarget, req: Atom)
    ensures RecordsCalls(VisitTarget(target, req), ReachedInTarget(target))
    decreases target
  {
    if target.TargetMember? {
      VisitExprRecords(target.obj, req);
      VisitMemberPropRecords(target.prop, req);
      JoinRecords(VisitExpr(target.obj, req), ReachedCalls(target.obj),
                  VisitMemberProp(target.prop, req), ReachedInMemberProp(target.prop));
    } else {
      NoCalls();
    }
  }

  lemma {:induction false} VisitExprsRecords(es: seq<Expr>, req: Atom)
    ensures RecordsCalls(VisitExprs(es, req), ReachedInExprs(es))
    decreases es
  {
    if es == [] {
      NoCalls();
    } else {
      VisitExprRecords(es[0], req);
      VisitExprsRecords(es[1..], req);
      JoinRecords(VisitExpr(es[0], req), ReachedCalls(es[0]), VisitExprs(es[1..], req), ReachedInExprs(es[1..]));
    }
  }

  lemma {:induction false} VisitPropsRecords(ps: seq<Prop>, req: Atom)
    ensures RecordsCalls(VisitProps(ps, req), ReachedInProps(ps))
    decreases ps
  {
    if ps == [] {
      NoCalls();
    } else {
      VisitPropRecords(ps[0], req);
      VisitPropsRecords(ps[1..], req);
      JoinRecords(VisitProp(ps[0], req), ReachedInProp(ps[0]), VisitProps(ps[1..], req), ReachedInProps(ps[1..]));
    }
  }

  lemma {:induction false} VisitPropRecords(p: Prop, req: Atom)
    ensures RecordsCalls(VisitProp(p, req), ReachedInProp(p))
    decreases p
  {
    match p
    case KeyValue(_, value) => VisitExprRecords(value, req);
    case Spread(x) => VisitExprRecords(x, req);
    case Shorthand(_) => NoCalls();
  }

  lemma {:induction false} VisitStmtsRecords(ss: seq<Stmt>, req: Atom)
    ensures RecordsCalls(VisitStmts(ss, req), ReachedInStmts(ss))
    decreases ss
  {
    if ss == [] {
      NoCalls();
    } else {
      VisitStmtRecords(ss[0], req);
      VisitStmtsRecords(ss[1..], req);
      JoinRecords(VisitStmt(ss[0], req), ReachedInStmt(ss[0]), VisitStmts(ss[1..], req), ReachedInStmts(ss[1..]));
    }
  }

  lemma {:induction false} VisitStmtRecords(s: Stmt, req: Atom)
    ensures RecordsCalls(VisitStmt(s, req), ReachedInStmt(s))
    decreases s
  {
    match s
    case ExprStmt(x) => VisitExprRecords(x, req);
    case DeclStmt(decl) => VisitDeclRecords(decl, req);
    case _ => NoCalls();
  }

  lemma {:induction false} VisitDeclRecords(decl: Decl, req: Atom)
    ensures RecordsCalls(VisitDecl(decl, req), ReachedInDecl(decl))
    decreases decl
  {
    if decl.VarDecl? {
      VisitDeclaratorsRecords(decl.decls, req);
    } else {
      NoCalls();
    }
  }

  lemma {:induction false} VisitDeclaratorsRecords(ds: seq<VarDeclarator>, req: Atom)
    ensures RecordsCalls(VisitDeclarators(ds, req), ReachedInDeclarators(ds))
    decreases ds
  {
    if ds == [] {
      NoCalls();
    } else {
      VisitDeclaratorsRecords(ds[1..], req);
      match ds[0].init
      case None =>
      case Some(x) =>
        assert x < ds[0].init && ds[0].init < ds[0];
        VisitExprRecords(x, req);
        JoinRecords(VisitExpr(x, req), ReachedCalls(x), VisitDeclarators(ds[1..], req), ReachedInDeclarators(ds[1..]));
    }
  }

  /** Every reached call with a string argument has its record among the visitor's. */
  lemma {:induction false} ReachedCallRecorded(calls: seq<Expr>, i: nat)
    requires i < |calls| && CaptureOf(calls[i]).Some?
    ensures CaptureOf(calls[i]).value in CapturesOf(calls)
  {
    if i > 0 {
      ReachedCallRecorded(calls[1..], i - 1);
    }
  }

  /** The visitor misses no call it reaches: each `require('src')`/`import('src')`
      among them is recorded under `src`. */
  lemma VisitRecordsEveryCall(e: Expr, req: Atom, call: Expr)
    requires call in ReachedCalls(e) && IsModuleCall(call) && StrArg(call).Some?
    ensures Capture(StrArg(call).value, if IsRequireCall(call) then RequireRef(call) else DynImportRef(call))
            in VisitExpr(e, req).captures
  {
    VisitExprRecords(e, req);
    var i :| 0 <= i < |ReachedCalls(e)| && ReachedCalls(e)[i] == call;
    ReachedCallRecorded(ReachedCalls(e), i);
  }

  // Visiting the output again changes nothing: every `require`/`import()` has been
  // replaced by a call of the private require function, which is not `require`.

  lemma {:induction false} VisitExprTwice(e: Expr, req: Atom)
    requires req != "require"
    requires !VisitExpr(e, req).panics
    ensures VisitExpr(VisitExpr(e, req).node, req) == Visited(VisitExpr(e, req).node, [], false)
    decreases e
  {
    var r := VisitExpr(e, req);
    if IsModuleCall(e) {
      var src := StrArg(e).value;
      var x := LitExpr(StrLit(src));
      assert r.node == Call(CalleeExpr(Id(req)), [x], false);
      assert VisitExpr(Id(req), req) == Visited(Id(req), [], false);
      assert VisitCallee(CalleeExpr(Id(req)), req) == Visited(CalleeExpr(Id(req)), [], false);
      assert [x][1..] == [];
      assert VisitExpr(x, req) == Visited(x, [], false);
      assert VisitExprs([], req) == Visited([], [], false);
      assert [x][0] == x;
      assert VisitExprs([x], req).node == [x] + [] == [x];
      assert VisitExprs([x], req).captures == [] + [] == [];
      assert VisitExprs([x], req) == Visited([x], [], false);
    } else {
      match e
      case Member(obj, prop) =>
        VisitExprTwice(obj, req);
        VisitMemberPropTwice(prop, req);
      case Call(callee, args, typeArgs) =>
        VisitCalleeTwice(callee, req);
        VisitExprsTwice(args, req);
      case Assign(op, left, right) =>
        VisitTargetTwice(left, req);
        VisitExprTwice(right, req);
      case SeqExpr(es) => VisitExprsTwice(es, req);
      case ObjectLit(props) => VisitPropsTwice(props, req);
      case LazyFn(body) => VisitExprTwice(body, req);
      case FnExpr(params, stmts) => VisitStmtsTwice(stmts, req);
      case DeclExpr(decl) => VisitDeclTwice(decl, req);
      case _ =>
    }
  }

  lemma {:induction false} VisitMemberPropTwice(prop: MemberProp, req: Atom)
    requires req != "require"
    requires !VisitMemberProp(prop, req).panics
    ensures VisitMemberProp(VisitMemberProp(prop, req).node, req) == Visited(VisitMemberProp(prop, req).node, [], false)
    decreases prop
  {
    if prop.PropComputed? {
      VisitExprTwice(prop.expr, req);
    }
  }

  lemma {:induction false} VisitCalleeTwice(callee: Callee, req: Atom)
    requires req != "require"
    requires !VisitCallee(callee, req).panics
    ensures VisitCallee(VisitCallee(callee, req).node, req) == Visited(VisitCallee(callee, req).node, [], false)
    decreases callee
  {
    if callee.CalleeExpr? {
      VisitExprTwice(callee.expr, req);
    }
  }

  lemma {:induction false} VisitTargetTwice(target: AssignTarget, req: Atom)
    requires req != "require"
    requires !VisitTarget(target, req).panics
    ensures VisitTarget(VisitTarget(target, req).node, req) == Visited(VisitTarget(target, req).node, [], false)
    decreases target
  {
    if target.TargetMember? {
      VisitExprTwice(target.obj, req);
      VisitMemberPropTwice(target.prop, req);
    }
  }

  lemma {:induction false} VisitExprsTwice(es: seq<Expr>, req: Atom)
    requires req != "require"
    requires !VisitExprs(es, req).panics
    ensures VisitExprs(VisitExprs(es, req).node, req) == Visited(VisitExprs(es, req).node, [], false)
    decreases es
  {
    if es != [] {
      VisitExprTwice(es[0], req);
      VisitExprsTwice(es[1..], req);
      var r := VisitExprs(es, req);
      assert r.node[0] == VisitExpr(es[0], req).node;
      assert r.node[1..] == VisitExprs(es[1..], req).node;
    }
  }

  lemma {:induction false} VisitPropTwice(p: Prop, req: Atom)
    requires req != "require"
    requires !VisitProp(p, req).panics
    ensures VisitProp(VisitProp(p, req).node, req) == Visited(VisitProp(p, req).node, [], false)
    decreases p
  {
    match p
    case KeyValue(_, value) => VisitExprTwice(value, req);
    case Spread(x) => VisitExprTwice(x, req);
    case Shorthand(_) =>
  }

  lemma {:induction false} VisitPropsTwice(ps: seq<Prop>, req: Atom)
    requires req != "require"
    requires !VisitProps(ps, req).panics
    ensures VisitProps(VisitProps(ps, req).node, req) == Visited(VisitProps(ps, req).node, [], false)
    decreases ps
  {
    if ps != [] {
      VisitPropTwice(ps[0], req);
      VisitPropsTwice(ps[1..], req);
      var r := VisitProps(ps, req);
      assert r.node[0] == VisitProp(ps[0], req).node;
      assert r.node[1..] == VisitProps(ps[1..], req).node;
    }
  }

  lemma {:induction false} VisitStmtsTwice(ss: seq<Stmt>, req: Atom)
    requires req != "require"
    requires !VisitStmts(ss, req).panics
    ensures VisitStmts(VisitStmts(ss, req).node, req) == Visited(VisitStmts(ss, req).node, [], false)
    decreases ss
  {
    if ss != [] {
      VisitStmtTwice(ss[0], req);
      VisitStmtsTwice(ss[1..], req);
      var r := VisitStmts(ss, req);
      assert r.node[0] == VisitStmt(ss[0], req).node;
      assert r.node[1..] == VisitStmts(ss[1..], req).node;
    }
  }

  lemma {:induction false} VisitStmtTwice(s: Stmt, req: Atom)
    requires req != "require"
    requires !VisitStmt(s, req).panics
    ensures VisitStmt(VisitStmt(s, req).node, req) == Visited(VisitStmt(s, req).node, [], false)
    decreases s
  {
    match s
    case ExprStmt(x) => VisitExprTwice(x, req);
    case DeclStmt(decl) => VisitDeclTwice(decl, req);
    case _ =>
  }

  lemma {:induction false} VisitDeclTwice(decl: Decl, req: Atom)
    requires req != "require"
    requires !VisitDecl(decl, req).panics
    ensures VisitDecl(VisitDecl(decl, req).node, req) == Visited(VisitDecl(decl, req).node, [], false)
    decreases decl
  {
    if decl.VarDecl? {
      VisitDeclaratorsTwice(decl.decls, req);
    }
  }

  lemma {:induction false} VisitDeclaratorsTwice(ds: seq<VarDeclarator>, req: Atom)
    requires req != "require"
    requires !VisitDeclarators(ds, req).panics
    ensures VisitDeclarators(VisitDeclarators(ds, req).node, req) == Visited(VisitDeclarators(ds, req).node, [], false)
    decreases ds
  {
    if ds != [] {
      VisitDeclaratorsTwice(ds[1..], req);
      var r := VisitDeclarators(ds, req);
      var t := VisitDeclarators(ds[1..], req);
      match ds[0].init
      case None =>
        assert r.node[0] == ds[0] && r.node[1..] == t.node;
      case Some(x) =>
        assert x < ds[0].init && ds[0].init < ds[0];
        assert x < ds[0];
        VisitExprTwice(x, req);
        assert r.node[0] == VarDeclarator(ds[0].name, Some(VisitExpr(x, req).node));
        assert r.node[1..] == t.node;
    }
  }

  // Recording.

  /** `mods` after the records of a visit, in order; a later record of a source
      replaces an earlier one. */
  function ApplyCaptures(mods: map<Atom, ModuleRef>, cs: seq<Capture>): map<Atom, ModuleRef> {
    if cs == [] then mods
    else
      var last := cs[|cs| - 1];
      ApplyCaptures(mods, cs[..|cs| - 1])[last.src := last.ref]
  }

  /** The sources a visit records. */
  function CaptureSources(cs: seq<Capture>): set<Atom> {
    if cs == [] then {} else CaptureSources(cs[..|cs| - 1]) + {cs[|cs| - 1].src}
  }

  lemma {:induction false} CaptureSourcesHas(cs: seq<Capture>, c: Capture)
    requires c in cs
    ensures c.src in CaptureSources(cs)
  {
    if cs[|cs| - 1] != c {
      var i :| 0 <= i < |cs| && cs[i] == c;
      assert cs[..|cs| - 1][i] == c;
      CaptureSourcesHas(cs[..|cs| - 1], c);
    }
  }

  /** Recording adds exactly the recorded sources; each now holds a `require` or
      dynamic-import reference to a call with that source as its argument, and every
      other source keeps what it had. */
  lemma {:induction false} ApplyCapturesRecords(mods: map<Atom, ModuleRef>, cs: seq<Capture>)
    requires CallCaptures(cs)
    ensures ApplyCaptures(mods, cs).Keys == mods.Keys + CaptureSources(cs)
    ensures forall src :: src in CaptureSources(cs) ==> IsCallCapture(Capture(src, ApplyCaptures(mods, cs)[src]))
    ensures forall src :: src in mods && src !in CaptureSources(cs) ==> ApplyCaptures(mods, cs)[src] == mods[src]
  {
    if cs != [] {
      var init := cs[..|cs| - 1];
      assert CallCaptures(init) by {
        forall i | 0 <= i < |init| ensures IsCallCapture(init[i]) {
          assert init[i] == cs[i];
        }
      }
      ApplyCapturesRecords(mods, init);
      assert IsCallCapture(cs[|cs| - 1]);
    }
  }

  // Module items.

  /** `mods` after an import of `members` from `src`: an existing import of the same
      source is extended, anything else is replaced. */
  function MergeImport(mods: map<Atom, ModuleRef>, src: Atom, members: seq<ModuleMember>): (r: map<Atom, ModuleRef>)
    ensures r.Keys == mods.Keys + {src}
    ensures r[src] == ImportRef((if src in mods && mods[src].ImportRef? then mods[src].members else []) + members)
    ensures forall k :: k in mods && k != src ==> r[k] == mods[k]
  {
    if src in mods && mods[src].ImportRef? then mods[src := ImportRef(mods[src].members + members)]
    else
      assert [] + members == members;
      mods[src := ImportRef(members)]
  }

  /** `x = value;`, what an export declaration is replaced with; `x` is a private
      identifier created for that declaration alone. */
  function ExportAssign(x: Atom, value: Expr): ModuleItem {
    StmtItem(ExprStmt(AssignIdent(x, value)))
  }

  /** Whether visiting the statements among `items` panics. */
  predicate ItemsPanic(items: seq<ModuleItem>, req: Atom) {
    exists i :: 0 <= i < |items| && items[i].StmtItem? && VisitStmt(items[i].stmt, req).panics
  }

  /** `visit_mut_module_items`, one item: statements are visited; imports are merged
      into `mods`; export declarations become assignments to the export binding
      (`declValue` stands for the declaration-to-expression conversion); every other
      item is kept. `x` is the private identifier drawn for this item. */
  function CollectItem(mods: map<Atom, ModuleRef>, item: ModuleItem, x: Atom, req: Atom, declValue: Decl -> Expr): (map<Atom, ModuleRef>, ModuleItem) {
    match item
    case StmtItem(s) =>
      var v := VisitStmt(s, req);
      (ApplyCaptures(mods, v.captures), StmtItem(v.node))
    case DeclItem(d) =>
      match d
      case Import(src, specs) => (MergeImport(mods, src, ImportMembersOf(specs)), item)
      case ExportDeclaration(decl) => (mods, ExportAssign(x, declValue(decl)))
      case ExportDefaultDeclaration(dd) => (mods, ExportAssign(x, GetExprFromDefaultDecl(dd).value))
      case _ => (mods, item)
  }

  /** The items in order; item `i` draws `idents(i)`. */
  function CollectItems(mods: map<Atom, ModuleRef>, items: seq<ModuleItem>, idents: IdentSupply, req: Atom, declValue: Decl -> Expr): (map<Atom, ModuleRef>, seq<ModuleItem>) {
    if items == [] then (mods, [])
    else
      var init := CollectItems(mods, items[..|items| - 1], idents, req, declValue);
      var step := CollectItem(init.0, items[|items| - 1], idents(|items| - 1), req, declValue);
      (step.0, init.1 + [step.1])
  }

  /** The items keep their number and order: an import stays where it was and an
      export declaration becomes, in its place, an assignment to an identifier of
      its own. */
  lemma {:induction false} CollectItemsInPlace(mods: map<Atom, ModuleRef>, items: seq<ModuleItem>, idents: IdentSupply, req: Atom, declValue: Decl -> Expr)
    ensures |CollectItems(mods, items, idents, req, declValue).1| == |items|
    ensures forall i :: 0 <= i < |items| && IsImport(items[i]) ==> CollectItems(mods, items, idents, req, declValue).1[i] == items[i]
    ensures forall i :: 0 <= i < |items| && items[i].DeclItem? && items[i].moduleDecl.ExportDeclaration? ==>
      CollectItems(mods, items, idents, req, declValue).1[i] == ExportAssign(idents(i), declValue(items[i].moduleDecl.decl))
  {
    if items != [] {
      var init := items[..|items| - 1];
      CollectItemsInPlace(mods, init, idents, req, declValue);
      forall i | 0 <= i < |init| ensures items[i] == init[i] { }
    }
  }

  /** Members of the imports of `src` among `items`, in order. */
  function ImportedFrom(items: seq<ModuleItem>, src: Atom): seq<ModuleMember> {
    if items == [] then []
    else
      var last := items[|items| - 1];
      ImportedFrom(items[..|items| - 1], src)
        + (if IsImport(last) && last.moduleDecl.src == src then ImportMembersOf(last.moduleDecl.specs) else [])
  }

  predicate IsImportOf(item: ModuleItem, src: Atom) {
    IsImport(item) && item.moduleDecl.src == src
  }

  /** Imports of one source are grouped: over a list of import declarations, the
      source is recorded exactly when some import names it, and its reference holds
      the members of all of them in order. */
  lemma {:induction false} ImportsGroupBySource(mods: map<Atom, ModuleRef>, items: seq<ModuleItem>, src: Atom, idents: IdentSupply, req: Atom, declValue: Decl -> Expr)
    requires forall i :: 0 <= i < |items| ==> IsImport(items[i])
    requires src !in mods
    ensures src in CollectItems(mods, items, idents, req, declValue).0 <==> exists i :: 0 <= i < |items| && IsImportOf(items[i], src)
    ensures src in CollectItems(mods, items, idents, req, declValue).0 ==>
      CollectItems(mods, items, idents, req, declValue).0[src] == ImportRef(ImportedFrom(items, src))
  {
    if items != [] {
      var n := |items| - 1;
      var init := items[..n];
      var last := items[n];
      forall i | 0 <= i < n ensures IsImport(init[i]) {
        assert init[i] == items[i];
      }
      ImportsGroupBySource(mods, init, src, idents, req, declValue);
      var m0 := CollectItems(mods, init, idents, req, declValue).0;
      var members := ImportMembersOf(last.moduleDecl.specs);
      CollectLastImport(mods, items, idents, req, declValue);
      var m := CollectItems(mods, items, idents, req, declValue).0;
      assert m == MergeImport(m0, last.moduleDecl.src, members);
      assert ImportedFrom(items, src) == ImportedFrom(init, src) + (if IsImportOf(last, src) then members else []);
      // an import of `src` among `init` is one among `items`, and conversely unless it is `last`
      forall i | 0 <= i < n && IsImportOf(init[i], src) ensures IsImportOf(items[i], src) {
        assert init[i] == items[i];
      }
      if IsImportOf(last, src) {
        assert IsImportOf(items[n], src);
        if src in m0 {
          assert m0[src] == ImportRef(ImportedFrom(init, src));
        } else {
          NoImportsFrom(init, src);
        }
      } else {
        assert last.moduleDecl.src != src;
        forall i | 0 <= i < |items| && IsImportOf(items[i], src) ensures i < n && IsImportOf(init[i], src) {
          assert i != n;
          assert init[i] == items[i];
        }
      }
    }
  }

  /** Collecting items that end with an import merges that import into what the
      earlier items collected. */
  lemma CollectLastImport(mods: map<Atom, ModuleRef>, items: seq<ModuleItem>, idents: IdentSupply, req: Atom, declValue: Decl -> Expr)
    requires items != [] && IsImport(items[|items| - 1])
    ensures var last := items[|items| - 1];
      CollectItems(mods, items, idents, req, declValue).0
        == MergeImport(CollectItems(mods, items[..|items| - 1], idents, req, declValue).0, last.moduleDecl.src, ImportMembersOf(last.moduleDecl.specs))
  {
  }

  lemma {:induction false} NoImportsFrom(items: seq<ModuleItem>, src: Atom)
    requires forall i :: 0 <= i < |items| ==> !IsImportOf(items[i], src)
    ensures ImportedFrom(items, src) == []
  {
    if items != [] {
      var init := items[..|items| - 1];
      forall i | 0 <= i < |init| ensures !IsImportOf(init[i], src) {
        assert init[i] == items[i];
      }
      NoImportsFrom(init, src);
      assert !IsImportOf(items[|items| - 1], src);
    }
  }

  // The dependency object and the require statements.

  /** `to_dep_obj`'s property for one member: `ident: alias` or the shorthand `ident`. */
  function DepProp(m: ModuleMember): Prop {
    match m.alias
    case Some(alias) => KeyValue(m.ident, Id(alias))
    case None => Shorthand(m.ident)
  }

  /** `to_require_dep`'s pattern property for one member: `ident: alias` or `ident`. */
  function RequirePatProp(m: ModuleMember): PatProp {
    match m.alias
    case Some(alias) => KeyValuePat(m.ident, alias)
    case None => AssignPat(m.ident)
  }

  /** `to_dep_obj`: a function returning the imported members as an object, or, for
      a `require` or `import()`, returning the original call. */
  function ToDepObj(ref: ModuleRef): (e: Expr)
    ensures e.LazyFn?
    ensures ref.ImportRef? ==> e.body.ObjectLit? && |e.body.props| == |ref.members|
    ensures ref.ImportRef? ==> forall i :: 0 <= i < |ref.members| ==>
      PropBinding(e.body.props[i]) == Some((ref.members[i].ident, ref.members[i].Local()))
    ensures !ref.ImportRef? ==> e.body == ref.origExpr
  {
    match ref
    case ImportRef(members) => LazyFn(ObjectLit(seq(|members|, i requires 0 <= i < |members| => DepProp(members[i]))))
    case RequireRef(orig) => LazyFn(orig)
    case DynImportRef(orig) => LazyFn(orig)
  }

  /** `to_require_dep`: for an import, `var { members } = requireIdent('src');`; a
      `require` or `import()` has been rewritten in place already and has none. */
  function ToRequireDep(req: Atom, src: Atom, ref: ModuleRef): (r: Option<ModuleItem>)
    ensures r.Some? <==> ref.ImportRef?
  {
    match ref
    case ImportRef(members) =>
      var pat := PatObject(seq(|members|, i requires 0 <= i < |members| => RequirePatProp(members[i])));
      Some(StmtItem(DeclStmt(VarDecl(VarKindVar, [VarDeclarator(pat, Some(RequireExpr(req, src)))]))))
    case _ => None
  }

  /** The require statement of an import destructures exactly what its dependency
      object holds: the same keys into the same locals, in the same order, from a
      call of the require function with the source. */
  lemma RequireMatchesDepObj(req: Atom, src: Atom, ref: ModuleRef)
    requires ref.ImportRef?
    ensures var d := ToRequireDep(req, src, ref).value.stmt.decl.decls;
      |d| == 1 && d[0].init == Some(RequireExpr(req, src)) && d[0].name.PatObject?
      && |d[0].name.props| == |ToDepObj(ref).body.props|
      && forall i :: 0 <= i < |d[0].name.props| ==>
        Some(PatBinding(d[0].name.props[i])) == PropBinding(ToDepObj(ref).body.props[i])
  {
  }

  /** The dependency object's properties for the sources in `order`. */
  function DepProps(mods: map<Atom, ModuleRef>, order: seq<Atom>): (r: seq<Prop>)
    requires forall k :: k in order ==> k in mods
    ensures |r| == |order|
    ensures forall i :: 0 <= i < |order| ==> r[i] == KeyValue(order[i], ToDepObj(mods[order[i]]))
  {
    if order == [] then []
    else
      var k := order[|order| - 1];
      DepProps(mods, order[..|order| - 1]) + [KeyValue(k, ToDepObj(mods[k]))]
  }

  /** The require statements for the sources in `order`. */
  function RequireStmts(req: Atom, mods: map<Atom, ModuleRef>, order: seq<Atom>): seq<ModuleItem>
    requires forall k :: k in order ==> k in mods
  {
    if order == [] then []
    else
      var k := order[|order| - 1];
      RequireStmts(req, mods, order[..|order| - 1]) + OptionToSeq(ToRequireDep(req, k, mods[k]))
  }

  /** The sources in `order` that were imported (rather than required). */
  function ImportSources(mods: map<Atom, ModuleRef>, order: seq<Atom>): seq<Atom>
    requires forall k :: k in order ==> k in mods
  {
    if order == [] then []
    else
      var k := order[|order| - 1];
      ImportSources(mods, order[..|order| - 1]) + (if mods[k].ImportRef? then [k] else [])
  }

  /** One require statement per imported source, in order, each destructuring from
      that source. */
  lemma {:induction false} RequireStmtsPerImport(req: Atom, mods: map<Atom, ModuleRef>, order: seq<Atom>)
    requires forall k :: k in order ==> k in mods
    ensures forall k :: k in ImportSources(mods, order) <==> k in order && mods[k].ImportRef?
    ensures var rs := RequireStmts(req, mods, order);
      var srcs := ImportSources(mods, order);
      |rs| == |srcs|
      && forall i :: 0 <= i < |rs| ==> srcs[i] in mods && rs[i] == ToRequireDep(req, srcs[i], mods[srcs[i]]).value
  {
    if order != [] {
      RequireStmtsPerImport(req, mods, order[..|order| - 1]);
    }
  }

  /** `var __d = { props };`. */
  function DepsDecl(deps: Atom, props: seq<Prop>): ModuleItem {
    StmtItem(DeclStmt(VarDecl(VarKindVar, [VarDeclarator(PatIdent(deps), Some(ObjectLit(props)))])))
  }

  class ModuleCollector {
    /** The sources collected so far, with what is known about each. */
    var mods: map<Atom, ModuleRef>
    /** The private identifiers of the exports argument and of the require function. */
    const exportsIdent: Atom
    const requireIdent: Atom

    /** `ModuleCollector::default`; the private identifiers come from the caller. */
    constructor (exportsIdent: Atom, requireIdent: Atom)
      ensures mods == map[]
      ensures this.exportsIdent == exportsIdent && this.requireIdent == requireIdent
    {
      mods := map[];
      this.exportsIdent := exportsIdent;
      this.requireIdent := requireIdent;
    }

    /** `to_import_members`. */
    method ToImportMembers(specs: seq<ImportSpec>) returns (members: seq<ModuleMember>)
      ensures members == ImportMembersOf(specs)
    {
      members := [];
      var i := 0;
      while i < |specs|
        invariant 0 <= i <= |specs|
        invariant members == ImportMembersOf(specs[..i])
      {
        assert specs[..i + 1][..i] == specs[..i];
        match specs[i] {
          case ImportDefaultSpec(local) =>
            members := members + [ModuleMember("default", Some(local), false)];
          case ImportNamedSpec(local, imported, false) =>
            if imported.Some? && imported.value.NameIdent? {
              members := members + [ModuleMember(imported.value.sym, Some(local), false)];
            } else {
              members := members + [ModuleMember(local, None, false)];
            }
          case ImportStarSpec(local) =>
            members := members + [ModuleMember(local, None, true)];
          case _ =>
        }
        i := i + 1;
      }
      assert specs[..i] == specs;
    }

    /** Applies the records of a visit to `mods`, one `insert` each. */
    method Record(cs: seq<Capture>)
      modifies this
      ensures mods == ApplyCaptures(old(mods), cs)
    {
      var i := 0;
      while i < |cs|
        invariant 0 <= i <= |cs|
        invariant mods == ApplyCaptures(old(mods), cs[..i])
      {
        assert cs[..i + 1][..i] == cs[..i];
        mods := mods[cs[i].src := cs[i].ref];
        i := i + 1;
      }
      assert cs[..i] == cs;
    }

    /** `visit_mut_expr`. */
    method VisitMutExpr(e: Expr) returns (r: Expr)
      requires !VisitExpr(e, requireIdent).panics
      modifies this
      ensures r == VisitExpr(e, requireIdent).node
      ensures mods == ApplyCaptures(old(mods), VisitExpr(e, requireIdent).captures)
      // what is recorded is the reached calls, in visiting order
      ensures mods == ApplyCaptures(old(mods), CapturesOf(ReachedCalls(e)))
      // no reached `require('src')`/`import('src')` is missed
      ensures forall call :: call in ReachedCalls(e) && CaptureOf(call).Some? ==> CaptureOf(call).value.src in mods
    {
      var v := VisitExpr(e, requireIdent);
      VisitExprRecords(e, requireIdent);
      Record(v.captures);
      r := v.node;
      forall call | call in ReachedCalls(e) && CaptureOf(call).Some?
        ensures CaptureOf(call).value.src in mods
      {
        var i :| 0 <= i < |ReachedCalls(e)| && ReachedCalls(e)[i] == call;
        ReachedCallRecorded(ReachedCalls(e), i);
        CaptureSourcesHas(v.captures, CaptureOf(call).value);
        ApplyCapturesRecords(old(mods), v.captures);
      }
    }

    /** `visit_mut_module_items`: the items are rewritten one by one while `mods`
        collects what they import and require. */
    method VisitModuleItems(items: seq<ModuleItem>, idents: IdentSupply, declValue: Decl -> Expr) returns (out: seq<ModuleItem>)
      requires !ItemsPanic(items, requireIdent)
      modifies this
      ensures (mods, out) == CollectItems(old(mods), items, idents, requireIdent, declValue)
    {
      out := [];
      var i := 0;
      while i < |items|
        invariant 0 <= i <= |items|
        invariant (mods, out) == CollectItems(old(mods), items[..i], idents, requireIdent, declValue)
      {
        assert items[..i + 1][..i] == items[..i];
        var item := items[i];
        match item {
          case StmtItem(s) =>
            var v := VisitStmt(s, requireIdent);
            Record(v.captures);
            out := out + [StmtItem(v.node)];
          case DeclItem(d) =>
            match d {
              case Import(src, specs) =>
                var members := ToImportMembers(specs);
                if src in mods && mods[src].ImportRef? {
                  mods := mods[src := ImportRef(mods[src].members + members)];
                } else {
                  mods := mods[src := ImportRef(members)];
                }
                out := out + [item];
              case ExportDeclaration(decl) =>
                out := out + [ExportAssign(idents(i), declValue(decl))];
              case ExportDefaultDeclaration(dd) =>
                out := out + [ExportAssign(idents(i), GetExprFromDefaultDecl(dd).value)];
              case _ =>
                out := out + [item];
            }
        }
        i := i + 1;
      }
      assert items[..i] == items;
    }

    /** `get_deps_ast`, visiting the sources in `order` (the map's iteration order):
        the dependency object's name (`depsIdent`, the private identifier created for
        it), its declaration, and the require statements. */
    method GetDepsAst(depsIdent: Atom, order: seq<Atom>) returns (deps: Atom, declItems: seq<ModuleItem>, requireStmts: seq<ModuleItem>)
      requires Distinct(order) && (forall k :: k in order <==> k in mods)
      ensures deps == depsIdent
      ensures declItems == [DepsDecl(deps, DepProps(mods, order))]
      ensures requireStmts == RequireStmts(requireIdent, mods, order)
    {
      deps := depsIdent;
      var props: seq<Prop> := [];
      requireStmts := [];
      var i := 0;
      while i < |order|
        invariant 0 <= i <= |order|
        invariant props == DepProps(mods, order[..i])
        invariant requireStmts == RequireStmts(requireIdent, mods, order[..i])
      {
        assert order[..i + 1][..i] == order[..i];
        var key := order[i];
        var item := ToRequireDep(requireIdent, key, mods[key]);
        if item.Some? {
          requireStmts := requireStmts + [item.value];
        }
        props := props + [KeyValue(key, ToDepObj(mods[key]))];
        i := i + 1;
      }
      assert order[..i] == order;
      declItems := [DepsDecl(deps, props)];
    }
  }
}
