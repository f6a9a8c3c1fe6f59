/**
 * The module transformer: it wraps the statements of a module into a
 * `global.__modules.define(function (ctx) { … }, id, deps)` call, keeps the import
 * and export declarations at module level, and passes the define call an object of
 * getters, one per dependency source.
 */
module Transformer {
  import opened Wrappers
  import opened SwcAst
  import opened Buckets
  import opened Collected
  import opened Phase

  /** The property a dependency getter reads a pattern property back with: `key: local`
      or the shorthand `key`. */
  function GetterProp(p: PatProp): Prop {
    match p
    case KeyValuePat(key, local) => KeyValue(key, Id(local))
    case AssignPat(key) => Shorthand(key)
  }

  /** `() => ({ … })`: the getter of a dependency's members; it reads back every
      binding the dependency's pattern destructures, under the same key, in order. */
  function DepGetterExpr(props: seq<PatProp>): (r: Expr)
    ensures r.LazyFn? && r.body.ObjectLit? && |r.body.props| == |props|
    ensures forall i :: 0 <= i < |props| ==> PropBinding(r.body.props[i]) == Some(PatBinding(props[i]))
  {
    LazyFn(ObjectLit(seq(|props|, i requires 0 <= i < |props| => GetterProp(props[i]))))
  }

  /** The require of each dependency. */
  function DepRequires(ctx: Atom, deps: seq<DepRecord>): (r: seq<Stmt>)
    ensures |r| == |deps|
    ensures forall i :: 0 <= i < |deps| ==> r[i] == ConstRequire(ctx, deps[i].src, PatObject(deps[i].props))
  {
    seq(|deps|, i requires 0 <= i < |deps| => DepRequireStmt(ctx, deps[i]))
  }

  /** The getter of each dependency, keyed by its source. */
  function DepGetters(deps: seq<DepRecord>): (r: seq<(Atom, Expr)>)
    ensures |r| == |deps|
    ensures forall i :: 0 <= i < |deps| ==> r[i] == (deps[i].src, DepGetterExpr(deps[i].props))
  {
    seq(|deps|, i requires 0 <= i < |deps| => (deps[i].src, DepGetterExpr(deps[i].props)))
  }

  /** The getter of each re-export: `() => mod`, keyed by its source. */
  function ReExportGetters(exps: seq<Exp>): seq<(Atom, Expr)> {
    if exps == [] then []
    else
      var last := exps[|exps| - 1];
      ReExportGetters(exps[..|exps| - 1]) + (if last.IsReExport() then [(last.src, LazyFn(Id(last.modIdent)))] else [])
  }

  /** The non-empty statements among the items, in order. */
  function NonEmptyStmts(items: seq<ModuleItem>): seq<Stmt> {
    if items == [] then []
    else
      var last := items[|items| - 1];
      NonEmptyStmts(items[..|items| - 1]) + (if last.StmtItem? && !last.stmt.EmptyStmt? then [last.stmt] else [])
  }

  lemma ReExportGettersSnoc(exps: seq<Exp>, e: Exp)
    ensures ReExportGetters(exps + [e])
         == ReExportGetters(exps) + (if e.IsReExport() then [(e.src, LazyFn(Id(e.modIdent)))] else [])
  {
    assert (exps + [e])[..|exps|] == exps;
  }

  lemma NonEmptyStmtsSnoc(items: seq<ModuleItem>, item: ModuleItem)
    ensures NonEmptyStmts(items + [item])
         == NonEmptyStmts(items) + (if item.StmtItem? && !item.stmt.EmptyStmt? then [item.stmt] else [])
  {
    assert (items + [item])[..|items|] == items;
  }

  /** The non-empty statements are the statement bucket of the items. */
  lemma {:induction false} NonEmptyStmtsAreStmtBucket(items: seq<ModuleItem>)
    ensures StmtItems(NonEmptyStmts(items)) == Select(items, StmtBucket, false)
  {
    if items != [] {
      var init := items[..|items| - 1];
      var last := items[|items| - 1];
      NonEmptyStmtsAreStmtBucket(init);
      var tail := if last.StmtItem? && !last.stmt.EmptyStmt? then [last.stmt] else [];
      assert NonEmptyStmts(items) == NonEmptyStmts(init) + tail;
      assert StmtItems(NonEmptyStmts(init) + tail) == StmtItems(NonEmptyStmts(init)) + StmtItems(tail);
    }
  }

  /** `const deps = { 'src': getter, … };`. */
  function DepsDeclStmt(depsIdent: Atom, getters: seq<(Atom, Expr)>): (s: Stmt)
    ensures s.DeclStmt? && s.decl.VarDecl? && s.decl.kind == VarKindConst && |s.decl.decls| == 1
    ensures var init := s.decl.decls[0].init;
      init.Some? && init.value.ObjectLit? && |init.value.props| == |getters|
      && forall i :: 0 <= i < |getters| ==> init.value.props[i] == KeyValue(getters[i].0, getters[i].1)
  {
    var props := seq(|getters|, i requires 0 <= i < |getters| => KeyValue(getters[i].0, getters[i].1));
    DeclStmt(VarDecl(VarKindConst, [VarDeclarator(PatIdent(depsIdent), Some(ObjectLit(props)))]))
  }

  /** `global.__modules.define(function (ctx) { stmts }, 'id', deps)`. */
  function DefineCall(id: Atom, ctx: Atom, depsIdent: Atom, stmts: seq<Stmt>): Expr {
    MethodCall(MemberOf(Id("global"), "__modules"), "define", [FnExpr([ctx], stmts), LitExpr(StrLit(id)), Id(depsIdent)])
  }

  /** The statements of the define function: the dependency requires, the re-export
      requires, the module's non-empty statements, the bindings and the exports call. */
  function DefineStmts(ctx: Atom, deps: seq<DepRecord>, exps: seq<Exp>, bindings: seq<Binding>, body: seq<ModuleItem>): seq<Stmt> {
    DepRequires(ctx, deps) + ReExportRequires(ctx, exps) + NonEmptyStmts(body)
    + [BindingsSeqStmt(bindings), ExprStmt(ExportsCall(ctx, AllProps(exps)))]
  }

  /** The transformed module body. */
  function TransformedBody(id: Atom, ctx: Atom, depsIdent: Atom, deps: seq<DepRecord>, exps: seq<Exp>,
                           bindings: seq<Binding>, body: seq<ModuleItem>): seq<ModuleItem> {
    var specs := LocalSpecs(exps);
    var decls := LocalDecls(exps);
    ReExportImports(exps) + Select(body, ImportBucket, false)
    + [StmtItem(DepsDeclStmt(depsIdent, DepGetters(deps) + ReExportGetters(exps))),
       StmtItem(ExprStmt(DefineCall(id, ctx, depsIdent, DefineStmts(ctx, deps, exps, bindings, body))))]
    + Select(body, ExportBucket, false) + (if specs != [] then [NamedExports(specs)] else [])
    + (if decls != [] then [StmtItem(VarDeclStmt(decls))] else [])
  }

  /** Each re-export adds a getter returning the module it is bound to, under its
      source, in the order of the re-exports. */
  lemma {:induction false} ReExportGettersPerReExport(exps: seq<Exp>)
    ensures |ReExportGetters(exps)| == |ReExports(exps)|
    ensures forall i :: 0 <= i < |ReExports(exps)| ==>
      ReExportGetters(exps)[i] == (ReExports(exps)[i].src, LazyFn(Id(ReExports(exps)[i].modIdent)))
  {
    if exps != [] {
      ReExportGettersPerReExport(exps[..|exps| - 1]);
    }
  }

  /** The transformed body starts with every import, goes on with the deps object and
      the define call, and ends with the export declarations and the export variables;
      it has at most the capacity the transformer reserves. */
  lemma TransformedLayout(id: Atom, ctx: Atom, depsIdent: Atom, deps: seq<DepRecord>, exps: seq<Exp>,
                          bindings: seq<Binding>, body: seq<ModuleItem>)
    ensures var r := TransformedBody(id, ctx, depsIdent, deps, exps, bindings, body);
      var k := |ReExportImports(exps)| + |Select(body, ImportBucket, false)|;
      var exports := Select(body, ExportBucket, false) + (if LocalSpecs(exps) != [] then [NamedExports(LocalSpecs(exps))] else []);
      && k + 2 <= |r|
      && (forall i :: 0 <= i < k ==> IsImport(r[i]))
      && r[k] == StmtItem(DepsDeclStmt(depsIdent, DepGetters(deps) + ReExportGetters(exps)))
      && r[k + 1].StmtItem? && r[k + 1].stmt.ExprStmt?
      && r[k + 1].stmt.expr == DefineCall(id, ctx, depsIdent, DefineStmts(ctx, deps, exps, bindings, body))
      && (forall i :: k + 2 <= i < k + 2 + |exports| ==> r[i].DeclItem? && !IsImport(r[i]))
      && |r| == k + 2 + |exports| + (if LocalDecls(exps) != [] then 1 else 0)
      && |r| <= k + |exports| + 3
  {
    var r := TransformedBody(id, ctx, depsIdent, deps, exps, bindings, body);
    var reImports := ReExportImports(exps);
    var imports := Select(body, ImportBucket, false);
    var selected := Select(body, ExportBucket, false);
    var head := reImports + imports;
    var calls := [StmtItem(DepsDeclStmt(depsIdent, DepGetters(deps) + ReExportGetters(exps))),
                  StmtItem(ExprStmt(DefineCall(id, ctx, depsIdent, DefineStmts(ctx, deps, exps, bindings, body))))];
    var exports := selected + (if LocalSpecs(exps) != [] then [NamedExports(LocalSpecs(exps))] else []);
    var vars := if LocalDecls(exps) != [] then [StmtItem(VarDeclStmt(LocalDecls(exps)))] else [];
    SelectKinds(body, false);
    forall x | x in head
      ensures IsImport(x)
    {
      if x in reImports {
        var i :| 0 <= i < |reImports| && reImports[i] == x;
      }
    }
    AppendAssoc(head + calls, selected, exports[|selected|..]);
    assert exports == selected + exports[|selected|..];
    assert r == head + calls + exports + vars;
    LayoutIndices(head, calls, exports, vars);
  }

  /** Nothing of the original module is lost: its import and export declarations stay
      in the module body, its non-empty statements move into the define function. */
  lemma TransformedKeepsItems(id: Atom, ctx: Atom, depsIdent: Atom, deps: seq<DepRecord>, exps: seq<Exp>,
                              bindings: seq<Binding>, body: seq<ModuleItem>)
    ensures forall x :: x in body && x.DeclItem? ==> x in TransformedBody(id, ctx, depsIdent, deps, exps, bindings, body)
    ensures forall s :: StmtItem(s) in body && !s.EmptyStmt? ==> s in DefineStmts(ctx, deps, exps, bindings, body)
  {
    SelectMembers(body, ImportBucket, false);
    SelectMembers(body, ExportBucket, false);
    SelectMembers(body, StmtBucket, false);
    NonEmptyStmtsAreStmtBucket(body);
    forall s | StmtItem(s) in body && !s.EmptyStmt?
      ensures s in NonEmptyStmts(body)
    {
      var ss := NonEmptyStmts(body);
      assert StmtItem(s) in StmtItems(ss);
      var j :| 0 <= j < |ss| && StmtItems(ss)[j] == StmtItem(s);
      assert ss[j] == s;
    }
  }

  /** The deps object and the define function agree: the i-th dependency's getter is
      keyed by its source and reads back what its require destructures, and each
      re-export's getter returns the module its require binds. */
  lemma GettersMatchRequires(ctx: Atom, deps: seq<DepRecord>, exps: seq<Exp>)
    ensures var getters := DepGetters(deps) + ReExportGetters(exps);
      var requires_ := DepRequires(ctx, deps) + ReExportRequires(ctx, exps);
      |getters| == |requires_| == |deps| + |ReExports(exps)|
      && (forall i :: 0 <= i < |deps| ==>
            getters[i].0 == deps[i].src && requires_[i] == ConstRequire(ctx, deps[i].src, PatObject(deps[i].props))
            && getters[i].1 == DepGetterExpr(deps[i].props))
      && (forall j :: 0 <= j < |ReExports(exps)| ==>
            var e := ReExports(exps)[j];
            getters[|deps| + j] == (e.src, LazyFn(Id(e.modIdent)))
            && requires_[|deps| + j] == ConstRequire(ctx, e.src, PatIdent(e.modIdent)))
  {
    ReExportGettersPerReExport(exps);
    ReExportImportsAndRequires(ctx, exps);
    var getters := DepGetters(deps) + ReExportGetters(exps);
    var requires_ := DepRequires(ctx, deps) + ReExportRequires(ctx, exps);
    forall j | 0 <= j < |ReExports(exps)|
      ensures var e := ReExports(exps)[j];
        getters[|deps| + j] == (e.src, LazyFn(Id(e.modIdent)))
        && requires_[|deps| + j] == ConstRequire(ctx, e.src, PatIdent(e.modIdent))
    {
      assert getters[|deps| + j] == ReExportGetters(exps)[j];
      assert requires_[|deps| + j] == ReExportRequires(ctx, exps)[j];
    }
  }

  /** A module's body, which the transformer replaces. */
  class Module {
    var body: seq<ModuleItem>

    constructor(body: seq<ModuleItem>)
      ensures this.body == body
    {
      this.body := body;
    }
  }

  class GlobalModuleTransformer {
    const id: Atom
    const ctx: Atom
    const depsIdent: Atom
    const phase: ModulePhase

    constructor(id: Atom, phase: ModulePhase, ctx: Atom, depsIdent: Atom)
      ensures this.id == id && this.phase == phase && this.ctx == ctx && this.depsIdent == depsIdent
    {
      this.id := id;
      this.phase := phase;
      this.ctx := ctx;
      this.depsIdent := depsIdent;
    }

    /** The getter and the require of each dependency. */
    method DepParts(deps: seq<DepRecord>) returns (depGetters: seq<(Atom, Expr)>, requireCalls: seq<Stmt>)
      ensures depGetters == DepGetters(deps) && requireCalls == DepRequires(ctx, deps)
    {
      depGetters, requireCalls := [], [];
      var i := 0;
      while i < |deps|
        invariant 0 <= i <= |deps|
        invariant depGetters == DepGetters(deps[..i])
        invariant requireCalls == DepRequires(ctx, deps[..i])
      {
        depGetters := depGetters + [(deps[i].src, DepGetterExpr(deps[i].props))];
        requireCalls := requireCalls + [DepRequireStmt(ctx, deps[i])];
        i := i + 1;
      }
      assert deps[..i] == deps;
    }

    /** Goes through the exports: local ones add declarators, properties and
        specifiers; each re-export adds an import, a getter, a require and its
        properties. */
    method ExpParts(exps: seq<Exp>, getters0: seq<(Atom, Expr)>, stmts0: seq<Stmt>)
      returns (imports: seq<ModuleItem>, depGetters: seq<(Atom, Expr)>, stmts: seq<Stmt>,
               expProps: seq<Prop>, expDecls: seq<VarDeclarator>, expSpecs: seq<ExportSpec>)
      ensures imports == ReExportImports(exps)
      ensures depGetters == getters0 + ReExportGetters(exps)
      ensures stmts == stmts0 + ReExportRequires(ctx, exps)
      ensures expProps == AllProps(exps) && expDecls == LocalDecls(exps) && expSpecs == LocalSpecs(exps)
    {
      imports, depGetters, stmts := [], getters0, stmts0;
      expProps, expDecls, expSpecs := [], [], [];
      var j := 0;
      while j < |exps|
        invariant 0 <= j <= |exps|
        invariant imports == ReExportImports(exps[..j])
        invariant depGetters == getters0 + ReExportGetters(exps[..j])
        invariant stmts == stmts0 + ReExportRequires(ctx, exps[..j])
        invariant expProps == AllProps(exps[..j])
        invariant expDecls == LocalDecls(exps[..j])
        invariant expSpecs == LocalSpecs(exps[..j])
      {
        var e := exps[j];
        ghost var pre := exps[..j];
        assert exps[..j + 1] == pre + [e];
        ExpsSnoc(ctx, pre, e);
        ReExportGettersSnoc(pre, e);
        AppendAssoc(getters0, ReExportGetters(pre), if e.IsReExport() then [(e.src, LazyFn(Id(e.modIdent)))] else []);
        AppendAssoc(stmts0, ReExportRequires(ctx, pre), if e.IsReExport() then [ReExportRequire(ctx, e)] else []);
        match e {
          case LocalExp(decls, props, specs) =>
            expDecls := expDecls + decls;
            expProps := expProps + props;
            expSpecs := expSpecs + specs;
          case ReExportNamedExp(src, modIdent, named) =>
            imports := imports + [ReExportImport(e)];
            depGetters := depGetters + [(src, LazyFn(Id(modIdent)))];
            stmts := stmts + [ReExportRequire(ctx, e)];
            expProps := expProps + named;
          case ReExportAllExp(src, modIdent, prop) =>
            imports := imports + [ReExportImport(e)];
            depGetters := depGetters + [(src, LazyFn(Id(modIdent)))];
            stmts := stmts + [ReExportRequire(ctx, e)];
            expProps := expProps + [prop];
        }
        j := j + 1;
      }
      assert exps[..j] == exps;
    }

    /** One original item: an import joins the imports, another module declaration
        the exports, a non-empty statement the statements. */
    method BodyPart(item: ModuleItem, imports0: seq<ModuleItem>, exports0: seq<ModuleItem>, stmts0: seq<Stmt>)
      returns (imports: seq<ModuleItem>, exports: seq<ModuleItem>, stmts: seq<Stmt>)
      ensures imports == imports0 + (if BucketOf(item, false) == ImportBucket then [item] else [])
      ensures exports == exports0 + (if BucketOf(item, false) == ExportBucket then [item] else [])
      ensures stmts == stmts0 + (if item.StmtItem? && !item.stmt.EmptyStmt? then [item.stmt] else [])
    {
      imports, exports, stmts := imports0, exports0, stmts0;
      match item {
        case DeclItem(d) =>
          if d.Import? {
            imports := imports + [item];
          } else {
            exports := exports + [item];
          }
        case StmtItem(s) =>
          if !s.EmptyStmt? {
            stmts := stmts + [s];
          }
      }
    }

    /** Goes through the original items: imports after the re-export imports, other
        module declarations to the exports, non-empty statements after the requires. */
    method BodyParts(body: seq<ModuleItem>, imports0: seq<ModuleItem>, stmts0: seq<Stmt>)
      returns (imports: seq<ModuleItem>, exports: seq<ModuleItem>, stmts: seq<Stmt>)
      ensures imports == imports0 + Select(body, ImportBucket, false)
      ensures exports == Select(body, ExportBucket, false)
      ensures stmts == stmts0 + NonEmptyStmts(body)
    {
      imports, exports, stmts := imports0, [], stmts0;
      var k := 0;
      while k < |body|
        invariant 0 <= k <= |body|
        invariant imports == imports0 + Select(body[..k], ImportBucket, false)
        invariant exports == Select(body[..k], ExportBucket, false)
        invariant stmts == stmts0 + NonEmptyStmts(body[..k])
      {
        var item := body[k];
        ghost var pre := body[..k];
        assert body[..k + 1] == pre + [item];
        SelectSnoc(pre, item, ImportBucket, false);
        SelectSnoc(pre, item, ExportBucket, false);
        AppendAssoc(imports0, Select(pre, ImportBucket, false), if BucketOf(item, false) == ImportBucket then [item] else []);
        NonEmptyStmtsSnoc(pre, item);
        AppendAssoc(stmts0, NonEmptyStmts(pre), if item.StmtItem? && !item.stmt.EmptyStmt? then [item.stmt] else []);
        imports, exports, stmts := BodyPart(item, imports, exports, stmts);
        k := k + 1;
      }
      assert body[..k] == body;
    }

    /** Replaces the module's body by its transformed body, given what the collector
        gathered from it. */
    method VisitMutModule(m: Module, deps: seq<DepRecord>, exps: seq<Exp>, bindings: seq<Binding>)
      modifies m
      ensures m.body == TransformedBody(id, ctx, depsIdent, deps, exps, bindings, old(m.body))
    {
      var body := m.body;
      var depGetters, requireCalls := DepParts(deps);
      var imports, stmts, expProps, expDecls, expSpecs;
      imports, depGetters, stmts, expProps, expDecls, expSpecs := ExpParts(exps, depGetters, requireCalls);
      var exports;
      imports, exports, stmts := BodyParts(body, imports, stmts);
      stmts := stmts + [BindingsSeqStmt(bindings)];
      stmts := stmts + [ExprStmt(ExportsCall(ctx, expProps))];
      assert stmts == DefineStmts(ctx, deps, exps, bindings, body);
      var named := if |expSpecs| > 0 then [NamedExports(expSpecs)] else [];
      var varDecl := if |expDecls| > 0 then [StmtItem(VarDeclStmt(expDecls))] else [];
      var newBody := imports + [StmtItem(DepsDeclStmt(depsIdent, depGetters)), StmtItem(ExprStmt(DefineCall(id, ctx, depsIdent, stmts)))]
        + exports + named + varDecl;
      m.body := newBody;
    }
  }
}
