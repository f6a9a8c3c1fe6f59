/**
 * The bundle delegate: the module registers its context with `register(id)` and
 * keeps its own items in place; re-exported modules are bound by imports placed
 * before the module's items, and the exports are handed to the context after them.
 */
module BundleDelegation {
  import opened Wrappers
  import opened SwcAst
  import opened Phase
  import opened Models
  import opened Delegates

  /** `var ctx = global.__modules.register(id);`. */
  function RegisterCtx(id: int, ctx: Atom): (s: Stmt)
    ensures ContextDeclOf(s) == Some((VarKindVar, "register", NumLit(id), ctx))
  {
    RegisterStmt(NumLit(id), ctx)
  }

  /** The body: the register statement, the re-export bindings, the original items
      unchanged, the export bindings, the exports call and the export variables. */
  function BundleModuleBodyOf(id: int, ctx: Atom, exps: seq<ExportRef>, bindings: seq<ModuleItem>, orig: seq<ModuleItem>): seq<ModuleItem> {
    var ast := ExportsAstOf(ctx, exps, Bundle);
    [StmtItem(RegisterCtx(id, ctx))] + ast.preBody + orig + bindings + ast.postBody
  }

  /** The original items stay together and in order after the register statement and
      one import per re-export; the body has one item for the register statement, the
      original items, the bindings and the exports parts. */
  lemma BundleBodyKeepsItems(id: int, ctx: Atom, exps: seq<ExportRef>, bindings: seq<ModuleItem>, orig: seq<ModuleItem>)
    ensures var r := BundleModuleBodyOf(id, ctx, exps, bindings, orig);
      var ast := ExportsAstOf(ctx, exps, Bundle);
      var k := 1 + |ast.preBody|;
      && r[0] == StmtItem(RegisterCtx(id, ctx))
      && |ast.preBody| == |ReExports(exps)|
      && (forall i :: 1 <= i < k ==> IsImport(r[i]))
      && k + |orig| <= |r| && r[k..k + |orig|] == orig
      && |r| == 1 + |ast.preBody| + |orig| + |bindings| + |ast.postBody|
  {
    var ast := ExportsAstOf(ctx, exps, Bundle);
    var r := BundleModuleBodyOf(id, ctx, exps, bindings, orig);
    var front := [StmtItem(RegisterCtx(id, ctx))] + ast.preBody;
    assert r == front + orig + bindings + ast.postBody;
    MiddleOf(front, orig, bindings, ast.postBody);
    PreBodyFollowsPhase(ctx, exps, Bundle);
    forall i | 1 <= i < 1 + |ast.preBody|
      ensures IsImport(r[i])
    {
      assert r[i] == front[i] == ast.preBody[i - 1];
      assert ast.preBody[i - 1] in ast.preBody;
    }
  }

  class BundleDelegate {
    const id: int
    const ctx: Atom
    var exps: seq<ExportRef>
    var bindings: seq<ModuleItem>

    constructor(id: int, ctx: Atom)
      ensures this.id == id && this.ctx == ctx && exps == [] && bindings == []
    {
      this.id := id;
      this.ctx := ctx;
      exps := [];
      bindings := [];
    }

    /** The script body: the register statement, then the script unchanged. */
    method MakeScriptBody(orig: seq<Stmt>) returns (body: seq<Stmt>)
      ensures |body| == |orig| + 1 && body[0] == RegisterCtx(id, ctx) && body[1..] == orig
    {
      body := [RegisterCtx(id, ctx)] + orig;
    }

    /** The module body; the export records and bindings are taken (left empty). */
    method MakeModuleBody(orig: seq<ModuleItem>) returns (newBody: seq<ModuleItem>)
      modifies this
      ensures newBody == BundleModuleBodyOf(id, ctx, old(exps), old(bindings), orig)
      ensures exps == [] && bindings == []
    {
      var taken := exps;
      var takenBindings := bindings;
      exps := [];
      bindings := [];
      var ast := ExportsToAst(ctx, taken, Bundle);
      newBody := [StmtItem(RegisterCtx(id, ctx))] + ast.preBody + orig + takenBindings + ast.postBody;
    }

    /** Imports are kept as they are; nothing is recorded. */
    method Import(src: Atom, specs: seq<ImportSpec>)
      modifies this
      ensures unchanged(this)
    {
    }

    /** `export <declaration>`: the export record and the binding statement are
        recorded, and the export statement takes the declaration's place. */
    method ExportDecl(origIdent: Atom, declExpr: Expr, bindIdent: Atom) returns (item: ModuleItem)
      modifies this
      ensures var d := GetFromExportDecl(origIdent, declExpr, bindIdent);
        item == d.exportStmt && exps == old(exps) + [d.exportRef] && bindings == old(bindings) + [d.bindingStmt]
    {
      var d := GetFromExportDecl(origIdent, declExpr, bindIdent);
      exps := exps + [d.exportRef];
      bindings := bindings + [d.bindingStmt];
      item := d.exportStmt;
    }

    /** `export default class/function …`: replaced by the assignment of the class or
        function to the binding variable, which is recorded as the default export. */
    method ExportDefaultDecl(dd: DefaultDecl, bindIdent: Atom) returns (item: ModuleItem)
      modifies this
      ensures item == DefaultDeclAssign(dd, bindIdent)
      ensures exps == old(exps) + [DefaultExportRef(bindIdent)] && bindings == old(bindings)
    {
      exps := exps + [DefaultExportRef(bindIdent)];
      item := DefaultDeclAssign(dd, bindIdent);
    }

    /** `export default expr`: replaced by `bind = expr`, recorded as the default export. */
    method ExportDefaultExpr(expr: Expr, bindIdent: Atom) returns (r: Expr)
      modifies this
      ensures r == AssignIdent(bindIdent, expr)
      ensures exps == old(exps) + [DefaultExportRef(bindIdent)] && bindings == old(bindings)
    {
      exps := exps + [DefaultExportRef(bindIdent)];
      r := AssignIdent(bindIdent, expr);
    }

    /** `export { … }` and `export … from 'src'`: the export record is appended, with
        no path table. */
    method ExportNamed(n: NamedExport, modIdent: Atom)
      requires n.src.Some? ==> |n.specs| > 0
      requires n.src.None? || !n.specs[0].ExportNamespaceSpec? ==> IdentOrigs(n.specs)
      modifies this
      ensures exps == old(exps) + [ExportRefOf(n, modIdent)] && bindings == old(bindings)
    {
      exps := exps + [ExportRefOf(n, modIdent)];
    }

    /** `export * from 'src'`: an unaliased re-export of everything is appended. */
    method ExportAll(src: Atom, modIdent: Atom)
      modifies this
      ensures exps == old(exps) + [ReExportAll(modIdent, src, None)] && bindings == old(bindings)
    {
      exps := exps + [ReExportAll(modIdent, src, None)];
    }

    /** Calls are never rewritten. */
    method CallExpr(call: Expr) returns (r: Option<Expr>)
      requires call.Call?
      ensures r == None
    {
      r := None;
    }
  }
}
