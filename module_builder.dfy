/**
 * The module builder: it gathers the collected dependencies, exports and bindings
 * into requires, export properties, declarators and specifiers, then lays out the
 * body of a module or of a script around a `register` context declaration.
 */
module ModuleBuilding {
  import opened Wrappers
  import opened SwcAst
  import opened Buckets
  import opened Collected

  /** A collected dependency: a base dependency, or another kind the builder skips. */
  datatype Dep = BaseDep(dep: DepRecord) | OtherDep(tag: nat)

  /** What a builder has gathered so far. */
  datatype Parts = Parts(
    bindImports: seq<ModuleItem>,
    reqCalls: seq<Stmt>,
    bindingStmt: Option<Stmt>,
    expProps: seq<Prop>,
    expDecls: seq<VarDeclarator>,
    expSpecs: seq<ExportSpec>)

  /** The requires of the base dependencies, in order. */
  function DepRequires(ctx: Atom, deps: seq<Dep>): (r: seq<Stmt>)
    ensures |r| <= |deps|
  {
    if deps == [] then []
    else
      var last := deps[|deps| - 1];
      DepRequires(ctx, deps[..|deps| - 1]) + (if last.BaseDep? then [DepRequireStmt(ctx, last.dep)] else [])
  }

  /** Each base dependency gets exactly one require, which destructures its members from
      its source; other dependencies get none. */
  lemma {:induction false} DepRequiresPerDep(ctx: Atom, deps: seq<Dep>)
    ensures forall d :: d in deps && d.BaseDep? ==> ConstRequire(ctx, d.dep.src, PatObject(d.dep.props)) in DepRequires(ctx, deps)
    ensures forall s :: s in DepRequires(ctx, deps) ==> exists d :: d in deps && d.BaseDep? && s == DepRequireStmt(ctx, d.dep)
  {
    if deps != [] {
      var init := deps[..|deps| - 1];
      DepRequiresPerDep(ctx, init);
      assert deps == init + [deps[|deps| - 1]];
    }
  }

  /** `const ctx = global.__modules.register('id');`. */
  function RegisterConst(id: Atom, ctx: Atom): (s: Stmt)
    ensures ContextDeclOf(s) == Some((VarKindConst, "register", StrLit(id), ctx))
  {
    ContextDecl(VarKindConst, "register", StrLit(id), ctx)
  }

  /** The statements after the module's own: the binding statement if any, the
      exports call if there are export properties, the export variables if there are
      declarators. */
  function ExtraStmts(ctx: Atom, p: Parts): (r: seq<Stmt>)
    ensures |r| == (if p.bindingStmt.Some? then 1 else 0) + (if p.expProps != [] then 1 else 0) + (if p.expDecls != [] then 1 else 0)
    ensures p.bindingStmt.Some? ==> r[0] == p.bindingStmt.value
    ensures p.expDecls != [] ==> r[|r| - 1] == VarDeclStmt(p.expDecls)
    ensures p.expProps != [] ==> ExprStmt(ExportsCall(ctx, p.expProps)) in r
  {
    (if p.bindingStmt.Some? then [p.bindingStmt.value] else [])
    + (if p.expProps != [] then [ExprStmt(ExportsCall(ctx, p.expProps))] else [])
    + (if p.expDecls != [] then [VarDeclStmt(p.expDecls)] else [])
  }

  /** The body of a module: for the runtime, the context declaration, the requires,
      the module's statements and the extra statements; otherwise the imports, the
      re-export imports, the context declaration, the statements, the extra
      statements, the other module declarations and the export specifiers. Empty
      statements are dropped. */
  function BuildModuleOf(p: Parts, ctx: Atom, id: Atom, runtime: bool, orig: seq<ModuleItem>): seq<ModuleItem> {
    var stmts := Select(orig, StmtBucket, false);
    var extra := StmtItems(ExtraStmts(ctx, p));
    if runtime then
      [StmtItem(RegisterConst(id, ctx))] + StmtItems(p.reqCalls) + stmts + extra
    else
      Select(orig, ImportBucket, false) + p.bindImports + [StmtItem(RegisterConst(id, ctx))] + stmts + extra
      + Select(orig, ExportBucket, false) + (if p.expSpecs != [] then [NamedExports(p.expSpecs)] else [])
  }

  /** A runtime module body is a script: it starts with the context declaration, holds
      no import or export declaration, and has as many items as the capacity the
      builder reserves. */
  lemma RuntimeModuleIsScript(p: Parts, ctx: Atom, id: Atom, orig: seq<ModuleItem>)
    ensures var r := BuildModuleOf(p, ctx, id, true, orig);
      && r[0] == StmtItem(RegisterConst(id, ctx))
      && (forall i :: 0 <= i < |r| ==> r[i].StmtItem?)
      && |r| == 1 + |p.reqCalls| + |Select(orig, StmtBucket, false)| + |ExtraStmts(ctx, p)|
  {
    SelectKinds(orig, false);
    var r := BuildModuleOf(p, ctx, id, true, orig);
    var stmts := Select(orig, StmtBucket, false);
    var k := 1 + |p.reqCalls|;
    forall i | 0 <= i < |r|
      ensures r[i].StmtItem?
    {
      if k <= i < k + |stmts| {
        assert r[i] == stmts[i - k];
        assert stmts[i - k] in stmts;
      }
    }
  }

  /** A module body for the browser keeps every item of the original module but its
      empty statements, puts every import before the context declaration (given that
      the re-export imports are imports), and has as many items as the capacity the
      builder reserves. */
  lemma ModuleKeepsItems(p: Parts, ctx: Atom, id: Atom, orig: seq<ModuleItem>)
    requires forall i :: 0 <= i < |p.bindImports| ==> IsImport(p.bindImports[i])
    ensures var r := BuildModuleOf(p, ctx, id, false, orig);
      var k := |Select(orig, ImportBucket, false)| + |p.bindImports|;
      && (forall x :: x in orig && x != StmtItem(EmptyStmt) ==> x in r)
      && k < |r| && r[k] == StmtItem(RegisterConst(id, ctx))
      && (forall i :: 0 <= i < k ==> IsImport(r[i]))
      && |r| == |Select(orig, ImportBucket, false)| + |p.bindImports| + 1 + |Select(orig, StmtBucket, false)|
         + |ExtraStmts(ctx, p)| + |Select(orig, ExportBucket, false)| + (if p.expSpecs != [] then 1 else 0)
  {
    var imports := Select(orig, ImportBucket, false);
    var exports := Select(orig, ExportBucket, false);
    var stmts := Select(orig, StmtBucket, false);
    var extra := StmtItems(ExtraStmts(ctx, p));
    var named := if p.expSpecs != [] then [NamedExports(p.expSpecs)] else [];
    var r := BuildModuleOf(p, ctx, id, false, orig);
    assert r == imports + p.bindImports + [StmtItem(RegisterConst(id, ctx))] + stmts + extra + exports + named;
    forall x | x in orig && x != StmtItem(EmptyStmt)
      ensures x in r
    {
      SelectMembers(orig, BucketOf(x, false), false);
      if BucketOf(x, false) == ImportBucket {
        assert x in imports;
      } else if BucketOf(x, false) == ExportBucket {
        assert x in exports;
      } else {
        assert x in stmts;
      }
    }
    forall i | 0 <= i < |imports| + |p.bindImports|
      ensures IsImport(r[i])
    {
      if i < |imports| {
        assert r[i] == imports[i];
        SelectMembers(orig, ImportBucket, false);
        assert imports[i] in imports;
      } else {
        assert r[i] == p.bindImports[i - |imports|];
      }
    }
  }

  /** The body of a script: the context declaration, the requires, the script's own
      statements, then the extra statements. */
  function BuildScriptOf(p: Parts, ctx: Atom, id: Atom, orig: seq<Stmt>): seq<Stmt> {
    [RegisterConst(id, ctx)] + p.reqCalls + orig + ExtraStmts(ctx, p)
  }

  /** A script body keeps the script's statements in one piece, in order, right after
      the requires, and has one item more than the size the builder counts. */
  lemma ScriptKeepsStatements(p: Parts, ctx: Atom, id: Atom, orig: seq<Stmt>)
    ensures var r := BuildScriptOf(p, ctx, id, orig);
      var k := 1 + |p.reqCalls|;
      && r[0] == RegisterConst(id, ctx)
      && k + |orig| <= |r| && r[1..k] == p.reqCalls && r[k..k + |orig|] == orig
      && |r| == 1 + |p.reqCalls| + |orig| + (if p.expProps != [] then 1 else 0) + (if p.expDecls != [] then 1 else 0)
         + (if p.bindingStmt.Some? then 1 else 0)
  {
    var r := BuildScriptOf(p, ctx, id, orig);
    var k := 1 + |p.reqCalls|;
    assert r[1..k] == p.reqCalls;
    assert r[k..k + |orig|] == orig;
  }

  class ModuleBuilder {
    const ctx: Atom
    var bindImports: seq<ModuleItem>
    var reqCalls: seq<Stmt>
    var bindingStmt: Option<Stmt>
    var expProps: seq<Prop>
    var expDecls: seq<VarDeclarator>
    var expSpecs: seq<ExportSpec>

    function State(): Parts
      reads this
    {
      Parts(bindImports, reqCalls, bindingStmt, expProps, expDecls, expSpecs)
    }

    /** The re-export imports are module imports. */
    predicate Valid()
      reads this
    {
      forall i :: 0 <= i < |bindImports| ==> IsImport(bindImports[i])
    }

    constructor(ctx: Atom)
      ensures this.ctx == ctx && Valid()
      ensures State() == Parts([], [], None, [], [], [])
    {
      this.ctx := ctx;
      bindImports := [];
      reqCalls := [];
      bindingStmt := None;
      expProps := [];
      expDecls := [];
      expSpecs := [];
    }

    /** Adds a require for each base dependency. */
    method CollectDeps(deps: seq<Dep>)
      modifies this
      ensures State() == old(State()).(reqCalls := old(reqCalls) + DepRequires(ctx, deps))
    {
      var i := 0;
      while i < |deps|
        invariant 0 <= i <= |deps|
        invariant State() == old(State()).(reqCalls := old(reqCalls) + DepRequires(ctx, deps[..i]))
      {
        assert deps[..i + 1][..i] == deps[..i];
        match deps[i] {
          case BaseDep(dep) =>
            reqCalls := reqCalls + [DepRequireStmt(ctx, dep)];
          case OtherDep(_) =>
        }
        i := i + 1;
      }
      assert deps[..i] == deps;
    }

    /** The `for_each` closure of `collect_exps`, for one export. */
    method CollectExp(e: Exp)
      requires Valid()
      modifies this
      ensures Valid()
      ensures bindImports == old(bindImports) + (if e.IsReExport() then [ReExportImport(e)] else [])
      ensures reqCalls == old(reqCalls) + (if e.IsReExport() then [ReExportRequire(ctx, e)] else [])
      ensures bindingStmt == old(bindingStmt)
      ensures expProps == old(expProps) + e.ExpProps()
      ensures expDecls == old(expDecls) + (if e.LocalExp? then e.decls else [])
      ensures expSpecs == old(expSpecs) + (if e.LocalExp? then e.specs else [])
    {
      if e.LocalExp? {
        expDecls := expDecls + e.decls;
        expProps := expProps + e.props;
        expSpecs := expSpecs + e.specs;
      } else {
        bindImports := bindImports + [ReExportImport(e)];
        reqCalls := reqCalls + [ReExportRequire(ctx, e)];
        expProps := expProps + e.ExpProps();
      }
    }

    /** Adds the declarators, properties and specifiers of the local exports, and the
        import, require and properties of each re-export. */
    method CollectExps(exps: seq<Exp>)
      requires Valid()
      modifies this
      ensures Valid()
      ensures State() == old(State()).(
        bindImports := old(bindImports) + ReExportImports(exps),
        reqCalls := old(reqCalls) + ReExportRequires(ctx, exps),
        expProps := old(expProps) + AllProps(exps),
        expDecls := old(expDecls) + LocalDecls(exps),
        expSpecs := old(expSpecs) + LocalSpecs(exps))
    {
      var i := 0;
      while i < |exps|
        invariant 0 <= i <= |exps|
        invariant Valid()
        invariant bindImports == old(bindImports) + ReExportImports(exps[..i])
        invariant reqCalls == old(reqCalls) + ReExportRequires(ctx, exps[..i])
        invariant bindingStmt == old(bindingStmt)
        invariant expProps == old(expProps) + AllProps(exps[..i])
        invariant expDecls == old(expDecls) + LocalDecls(exps[..i])
        invariant expSpecs == old(expSpecs) + LocalSpecs(exps[..i])
      {
        var e := exps[i];
        ghost var pre := exps[..i];
        assert exps[..i + 1] == pre + [e];
        ExpsSnoc(ctx, pre, e);
        AppendAssoc(old(bindImports), ReExportImports(pre), if e.IsReExport() then [ReExportImport(e)] else []);
        AppendAssoc(old(reqCalls), ReExportRequires(ctx, pre), if e.IsReExport() then [ReExportRequire(ctx, e)] else []);
        AppendAssoc(old(expProps), AllProps(pre), e.ExpProps());
        AppendAssoc(old(expDecls), LocalDecls(pre), if e.LocalExp? then e.decls else []);
        AppendAssoc(old(expSpecs), LocalSpecs(pre), if e.LocalExp? then e.specs else []);
        CollectExp(e);
        i := i + 1;
      }
      assert exps[..i] == exps;
    }

    /** With bindings, sets the binding statement to their assignments; without,
        changes nothing. */
    method CollectBindings(bindings: seq<Binding>)
      modifies this
      ensures bindings == [] ==> State() == old(State())
      ensures bindings != [] ==> State() == old(State()).(bindingStmt := Some(BindingsSeqStmt(bindings)))
    {
      if bindings == [] {
        return;
      }
      bindingStmt := Some(BindingsSeqStmt(bindings));
    }

    /** Gathers the dependencies, then the exports, then the bindings. */
    method Collect(deps: seq<Dep>, exps: seq<Exp>, bindings: seq<Binding>)
      requires Valid()
      modifies this
      ensures Valid()
      ensures State() == old(State()).(
        bindImports := old(bindImports) + ReExportImports(exps),
        reqCalls := old(reqCalls) + DepRequires(ctx, deps) + ReExportRequires(ctx, exps),
        bindingStmt := if bindings == [] then old(bindingStmt) else Some(BindingsSeqStmt(bindings)),
        expProps := old(expProps) + AllProps(exps),
        expDecls := old(expDecls) + LocalDecls(exps),
        expSpecs := old(expSpecs) + LocalSpecs(exps))
    {
      CollectDeps(deps);
      CollectExps(exps);
      CollectBindings(bindings);
    }

    /** Sorts the original items into imports, other module declarations and non-empty
        statements, then lays out the module body. */
    method BuildModule(id: Atom, runtime: bool, orig: seq<ModuleItem>) returns (items: seq<ModuleItem>)
      ensures items == BuildModuleOf(State(), ctx, id, runtime, orig)
    {
      var imports, exports, stmts := [], [], [];
      var i := 0;
      while i < |orig|
        invariant 0 <= i <= |orig|
        invariant imports == Select(orig[..i], ImportBucket, false)
        invariant exports == Select(orig[..i], ExportBucket, false)
        invariant stmts == Select(orig[..i], StmtBucket, false)
      {
        assert orig[..i + 1][..i] == orig[..i];
        var item := orig[i];
        match item {
          case DeclItem(d) =>
            if d.Import? {
              imports := imports + [item];
            } else {
              exports := exports + [item];
            }
          case StmtItem(s) =>
            if !s.EmptyStmt? {
              stmts := stmts + [item];
            }
        }
        i := i + 1;
      }
      assert orig[..i] == orig;
      var extra := StmtItems(ExtraStmts(ctx, State()));
      var contextDecl := StmtItem(RegisterConst(id, ctx));
      if runtime {
        items := [contextDecl] + StmtItems(reqCalls) + stmts + extra;
      } else {
        items := imports + bindImports + [contextDecl] + stmts + extra + exports;
        if expSpecs != [] {
          items := items + [NamedExports(expSpecs)];
        }
      }
    }

    /** Lays out the script body. */
    method BuildScript(id: Atom, orig: seq<Stmt>) returns (stmts: seq<Stmt>)
      ensures stmts == BuildScriptOf(State(), ctx, id, orig)
    {
      stmts := [RegisterConst(id, ctx)] + reqCalls + orig;
      if bindingStmt.Some? {
        stmts := stmts + [bindingStmt.value];
      }
      if expProps != [] {
        stmts := stmts + [ExprStmt(ExportsCall(ctx, expProps))];
      }
      if expDecls != [] {
        stmts := stmts + [VarDeclStmt(expDecls)];
      }
    }
  }
}
