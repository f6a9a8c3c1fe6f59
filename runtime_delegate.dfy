/**
 * The runtime delegate: it turns a module into a script for the runtime phase. The
 * module's context is fetched with `getContext(id)`, imports become requires of the
 * context, re-exports become required module bindings, `require(…)` and `import(…)`
 * calls become `ctx.require(…)` with the source remapped through the path table.
 */
module RuntimeDelegation {
  import opened Wrappers
  import opened SwcAst
  import opened SwcUtils
  import opened Buckets
  import opened OHashMaps
  import opened Phase
  import opened Models
  import opened Delegates
  import ModuleCollection

  /** `var ctx = global.__modules.getContext(id);`. */
  function ContextStmt(id: int, ctx: Atom): (s: Stmt)
    ensures ContextDeclOf(s) == Some((VarKindVar, "getContext", NumLit(id), ctx))
  {
    GetContextStmt(NumLit(id), ctx)
  }

  /** The runtime module body: the context, the dependency requires, the re-export
      bindings, the module's statements (import and export declarations removed), the
      export bindings, the exports call and the export variables. */
  function RuntimeModuleBodyOf(id: int, ctx: Atom, deps: seq<(Atom, ModuleRef)>, exps: seq<ExportRef>,
                               bindings: seq<ModuleItem>, orig: seq<ModuleItem>): seq<ModuleItem> {
    var ast := ExportsAstOf(ctx, exps, Runtime);
    [StmtItem(ContextStmt(id, ctx))] + DepsAst(ctx, deps) + ast.preBody + Select(orig, StmtBucket, true) + bindings + ast.postBody
  }

  /** Every statement `deps_to_ast` emits is a statement. */
  lemma DepsAstStmts(ctx: Atom, deps: seq<(Atom, ModuleRef)>)
    ensures AllStmts(DepsAst(ctx, deps))
  {
    var items := DepsAst(ctx, deps);
    DepsAstRequiresSources(ctx, deps);
    forall i | 0 <= i < |items|
      ensures items[i].StmtItem?
    {
      assert items[i] in items;
      var j :| 0 <= j < |deps| && IsRequireOf(items[i], ctx, deps[j].0);
    }
  }

  /** In the runtime phase, the re-export bindings and the trailing statements of
      `exports_to_ast` are statements. */
  lemma RuntimeExportsAstStmts(ctx: Atom, exps: seq<ExportRef>)
    ensures AllStmts(ExportsAstOf(ctx, exps, Runtime).preBody)
    ensures AllStmts(ExportsAstOf(ctx, exps, Runtime).postBody)
  {
    PreBodyPerReExport(ctx, exps, Runtime);
  }

  lemma AllStmtsConcat(a: seq<ModuleItem>, b: seq<ModuleItem>)
    requires AllStmts(a) && AllStmts(b)
    ensures AllStmts(a + b)
  {
  }

  /** The runtime module body is a script: no import or export declaration is left in
      it, given that the bindings are statements. */
  lemma RuntimeBodyIsScript(id: int, ctx: Atom, deps: seq<(Atom, ModuleRef)>, exps: seq<ExportRef>,
                            bindings: seq<ModuleItem>, orig: seq<ModuleItem>)
    requires AllStmts(bindings)
    ensures AllStmts(RuntimeModuleBodyOf(id, ctx, deps, exps, bindings, orig))
  {
    var ast := ExportsAstOf(ctx, exps, Runtime);
    var depItems := DepsAst(ctx, deps);
    var stmts := Select(orig, StmtBucket, true);
    DepsAstStmts(ctx, deps);
    RuntimeExportsAstStmts(ctx, exps);
    SelectKinds(orig, true);
    var head := [StmtItem(ContextStmt(id, ctx))];
    assert AllStmts(stmts) by {
      forall i | 0 <= i < |stmts| ensures stmts[i].StmtItem? {
        assert stmts[i] in stmts;
      }
    }
    AllStmtsConcat(head, depItems);
    AllStmtsConcat(head + depItems, ast.preBody);
    AllStmtsConcat(head + depItems + ast.preBody, stmts);
    AllStmtsConcat(head + depItems + ast.preBody + stmts, bindings);
    AllStmtsConcat(head + depItems + ast.preBody + stmts + bindings, ast.postBody);
  }

  /** The runtime module body keeps every statement of the module, empty ones included,
      together and in order, after the context, the requires and the re-export
      bindings; it has exactly as many items as the delegate counts. */
  lemma RuntimeBodyKeepsStatements(id: int, ctx: Atom, deps: seq<(Atom, ModuleRef)>, exps: seq<ExportRef>,
                                   bindings: seq<ModuleItem>, orig: seq<ModuleItem>)
    ensures var r := RuntimeModuleBodyOf(id, ctx, deps, exps, bindings, orig);
      var ast := ExportsAstOf(ctx, exps, Runtime);
      var stmts := Select(orig, StmtBucket, true);
      var k := 1 + |DepsAst(ctx, deps)| + |ast.preBody|;
      && r[0] == StmtItem(ContextStmt(id, ctx))
      && k + |stmts| <= |r| && r[k..k + |stmts|] == stmts
      && (forall x :: x in orig && x.StmtItem? ==> x in r)
      && |r| == |DepsAst(ctx, deps)| + |ast.preBody| + |stmts| + |bindings| + |ast.postBody| + 1
  {
    var ast := ExportsAstOf(ctx, exps, Runtime);
    var stmts := Select(orig, StmtBucket, true);
    SelectMembers(orig, StmtBucket, true);
    var r := RuntimeModuleBodyOf(id, ctx, deps, exps, bindings, orig);
    var front := [StmtItem(ContextStmt(id, ctx))] + DepsAst(ctx, deps) + ast.preBody;
    assert r == front + stmts + bindings + ast.postBody;
    MiddleOf(front, stmts, bindings, ast.postBody);
    var k := |front|;
    forall x | x in orig && x.StmtItem?
      ensures x in r
    {
      assert x in stmts;
      var j :| 0 <= j < |stmts| && stmts[j] == x;
      assert r[k + j] == x;
    }
  }

  /** The require the runtime puts in place of `require('src')` or `import('src')`:
      `ctx.require(src)`, the source remapped through the path table. */
  function RuntimeRequire(ctx: Atom, paths: Option<map<string, string>>, lit: Lit): (e: Expr)
    ensures lit.StrLit? && paths.Some? && lit.value in paths.value ==> e == RequireCall(ctx, StrLit(paths.value[lit.value]))
    ensures lit.StrLit? && (paths.None? || lit.value !in paths.value) ==> e == RequireCall(ctx, lit)
    ensures !lit.StrLit? ==> e == RequireCall(ctx, NullLit)
  {
    RequireCall(ctx, GetSrcLit(lit, paths).value)
  }

  /** A dynamic `import(…)` without type arguments. */
  predicate IsImportCall(call: Expr)
    requires call.Call?
  {
    call.callee.CalleeImport? && !call.hasTypeArgs
  }

  class RuntimeDelegate {
    const id: int
    const paths: Option<map<string, string>>
    const ctx: Atom
    const deps: OHashMap<Atom, ModuleRef>
    var exps: seq<ExportRef>
    var bindings: seq<ModuleItem>

    /** The dependency map is well formed and the bindings are statements. */
    ghost predicate Valid()
      reads this, deps
    {
      deps.Valid() && AllStmts(bindings)
    }

    constructor(id: int, paths: Option<map<string, string>>, ctx: Atom)
      ensures Valid() && fresh(deps)
      ensures this.id == id && this.paths == paths && this.ctx == ctx
      ensures deps.entries == map[] && deps.keys == [] && exps == [] && bindings == []
    {
      this.id := id;
      this.paths := paths;
      this.ctx := ctx;
      deps := new OHashMap();
      exps := [];
      bindings := [];
    }

    /** The script body: the context declaration, then the script unchanged. */
    method MakeScriptBody(orig: seq<Stmt>) returns (body: seq<Stmt>)
      ensures |body| == |orig| + 1 && body[0] == ContextStmt(id, ctx) && body[1..] == orig
    {
      body := [ContextStmt(id, ctx)] + orig;
    }

    /** The module body; the export records and bindings are taken (left empty). */
    method MakeModuleBody(orig: seq<ModuleItem>) returns (body: seq<ModuleItem>)
      requires Valid()
      modifies this
      ensures Valid()
      ensures body == RuntimeModuleBodyOf(id, ctx, deps.Iter(), old(exps), old(bindings), orig)
      ensures exps == [] && bindings == []
    {
      var taken := exps;
      var takenBindings := bindings;
      exps := [];
      bindings := [];
      var stmts := Select(orig, StmtBucket, true);
      var depItems := DepsToAst(ctx, deps);
      var ast := ExportsToAst(ctx, taken, Runtime);
      body := [StmtItem(ContextStmt(id, ctx))] + depItems + ast.preBody + stmts + takenBindings + ast.postBody;
    }

    /** An import adds its members to its source's entry: appended to the members
        already imported from that source, or under a new entry listed last. */
    method Import(src: Atom, specs: seq<ImportSpec>)
      requires Valid()
      modifies deps
      ensures Valid()
      ensures deps.entries == old(deps.entries)[src := ModuleRef(
        (if src in old(deps.entries) then old(deps.entries)[src].members else []) + ImportMembersOf(specs))]
      ensures deps.keys == InsertedKeys(old(deps.keys), old(deps.entries), src)
    {
      var members := ToImportMembers(specs);
      var current := deps.Get(src);
      if current.Some? {
        deps.SetExisting(src, ModuleRef(current.value.members + members));
      } else {
        assert src !in deps.entries;
        assert [] + members == members;
        deps.Insert(src, ModuleRef(members));
      }
    }

    /** `export <declaration>`: the export record and the binding statement are
        recorded, and the export statement takes the declaration's place. */
    method ExportDecl(origIdent: Atom, declExpr: Expr, bindIdent: Atom) returns (item: ModuleItem)
      requires Valid()
      modifies this
      ensures Valid()
      ensures var d := GetFromExportDecl(origIdent, declExpr, bindIdent);
        item == d.exportStmt && exps == old(exps) + [d.exportRef] && bindings == old(bindings) + [d.bindingStmt]
    {
      var d := GetFromExportDecl(origIdent, declExpr, bindIdent);
      exps := exps + [d.exportRef];
      bindings := bindings + [d.bindingStmt];
      item := d.exportStmt;
    }

    /** `export default class/function …`: replaced by the assignment of the class or
        function to the binding variable, which is recorded as the default export. */
    method ExportDefaultDecl(dd: DefaultDecl, bindIdent: Atom) returns (item: ModuleItem)
      requires Valid()
      modifies this
      ensures Valid()
      ensures item == DefaultDeclAssign(dd, bindIdent)
      ensures exps == old(exps) + [DefaultExportRef(bindIdent)] && bindings == old(bindings)
    {
      item := DefaultDeclAssign(dd, bindIdent);
      exps := exps + [DefaultExportRef(bindIdent)];
    }

    /** `export default expr`: replaced by `bind = expr`, recorded as the default export. */
    method ExportDefaultExpr(expr: Expr, bindIdent: Atom) returns (r: Option<Expr>)
      requires Valid()
      modifies this
      ensures Valid()
      ensures r == Some(AssignIdent(bindIdent, expr))
      ensures exps == old(exps) + [DefaultExportRef(bindIdent)] && bindings == old(bindings)
    {
      exps := exps + [DefaultExportRef(bindIdent)];
      r := Some(AssignIdent(bindIdent, expr));
    }

    /** `export { … }` and `export … from 'src'`: the export record is appended. */
    method ExportNamed(n: NamedExport, modIdent: Atom)
      requires Valid()
      requires n.src.Some? ==> |n.specs| > 0
      requires n.src.None? || !n.specs[0].ExportNamespaceSpec? ==> IdentOrigs(n.specs)
      modifies this
      ensures Valid()
      ensures exps == old(exps) + [ExportRefOf(n, modIdent)] && bindings == old(bindings)
    {
      exps := exps + [ExportRefOf(n, modIdent)];
    }

    /** `export * from 'src'`: an unaliased re-export of everything is appended. */
    method ExportAll(src: Atom, modIdent: Atom)
      requires Valid()
      modifies this
      ensures Valid()
      ensures exps == old(exps) + [ReExportAll(modIdent, src, None)] && bindings == old(bindings)
    {
      exps := exps + [ReExportAll(modIdent, src, None)];
    }

    /** `require(lit)` and `import(lit, …)` become the context's require of the
        (remapped) source; any other call is left alone. The argument must be a
        literal, and a dynamic import must have one. A literal that is not a string
        is reported as an error diagnostic (`reported`). */
    method CallExpr(call: Expr) returns (r: Option<Expr>, reported: bool)
      requires call.Call?
      requires ModuleCollection.IsRequireCall(call) ==> call.args[0].LitExpr?
      requires IsImportCall(call) ==> |call.args| >= 1 && call.args[0].LitExpr?
      ensures r.Some? <==> ModuleCollection.IsRequireCall(call) || IsImportCall(call)
      ensures r.Some? ==> r.value == RuntimeRequire(ctx, paths, call.args[0].lit)
      ensures reported <==> r.Some? && !call.args[0].lit.StrLit?
    {
      if ModuleCollection.IsRequireCall(call) {
        var src := GetSrcLit(call.args[0].lit, paths);
        r, reported := Some(RequireCall(ctx, src.value)), src.reported;
      } else if call.callee.CalleeImport? && !call.hasTypeArgs {
        var src := GetSrcLit(call.args[0].lit, paths);
        r, reported := Some(RequireCall(ctx, src.value)), src.reported;
      } else {
        r, reported := None, false;
      }
    }
  }
}
