/**
 * The register delegate: the module keeps its imports and exports at module level,
 * registers its context with `register(id)`, binds each re-exported module with an
 * import, and hands its exports to the context. Imports and calls are left alone.
 */
module RegisterDelegation {
  import opened Wrappers
  import opened SwcAst
  import opened Buckets
  import opened Phase
  import opened Models
  import opened Delegates

  /** The body: the register statement, the imports, the re-export bindings, the
      statements (empty ones included), the export bindings, the exports call and the
      export variables, and last the other module declarations. The register phase is
      the bundle phase: re-exported modules are bound by imports. */
  function RegisterBodyOf(id: int, ctx: Atom, exps: seq<ExportRef>, bindings: seq<ModuleItem>, orig: seq<ModuleItem>): seq<ModuleItem> {
    var ast := ExportsAstOf(ctx, exps, Bundle);
    [StmtItem(RegisterStmt(NumLit(id), ctx))] + Select(orig, ImportBucket, true) + ast.preBody
    + Select(orig, StmtBucket, true) + bindings + ast.postBody + Select(orig, ExportBucket, true)
  }

  /** Whatever goes around them, the three buckets of the original items together
      keep every item as often as it occurs. */
  lemma BucketsKeepItems(orig: seq<ModuleItem>, head: seq<ModuleItem>, pre: seq<ModuleItem>,
                         mid: seq<ModuleItem>, post: seq<ModuleItem>)
    ensures var r := head + Select(orig, ImportBucket, true) + pre + Select(orig, StmtBucket, true)
                     + mid + post + Select(orig, ExportBucket, true);
      multiset(orig) <= multiset(r) && |r| == |head| + |orig| + |pre| + |mid| + |post|
  {
    var imports := Select(orig, ImportBucket, true);
    var stmts := Select(orig, StmtBucket, true);
    var exports := Select(orig, ExportBucket, true);
    SelectPartition(orig, true);
    NothingDropped(orig);
    assert multiset(Select(orig, Dropped, true)) == multiset{};
    var r := head + imports + pre + stmts + mid + post + exports;
    assert multiset(r) == multiset(head) + multiset(imports) + multiset(pre) + multiset(stmts)
      + multiset(mid) + multiset(post) + multiset(exports);
    assert |orig| == |imports| + |stmts| + |exports| by {
      assert |multiset(orig)| == |multiset(imports)| + |multiset(exports)| + |multiset(stmts)|;
    }
  }

  /** Nothing of the original module is lost, each item kept as often as it occurs,
      and the body has one item more than the original, the bindings and the exports
      parts. */
  lemma RegisterBodyKeepsItems(id: int, ctx: Atom, exps: seq<ExportRef>, bindings: seq<ModuleItem>, orig: seq<ModuleItem>)
    ensures var r := RegisterBodyOf(id, ctx, exps, bindings, orig);
      var ast := ExportsAstOf(ctx, exps, Bundle);
      && multiset(orig) <= multiset(r)
      && |r| == 1 + |orig| + |ast.preBody| + |bindings| + |ast.postBody|
  {
    var ast := ExportsAstOf(ctx, exps, Bundle);
    BucketsKeepItems(orig, [StmtItem(RegisterStmt(NumLit(id), ctx))], ast.preBody, bindings, ast.postBody);
  }

  /** Every import, the module's own and the re-export bindings, comes right after
      the register statement. */
  lemma RegisterBodyImportsFirst(id: int, ctx: Atom, exps: seq<ExportRef>, bindings: seq<ModuleItem>, orig: seq<ModuleItem>)
    ensures var r := RegisterBodyOf(id, ctx, exps, bindings, orig);
      var k := |Select(orig, ImportBucket, true)| + |ExportsAstOf(ctx, exps, Bundle).preBody|;
      && k < |r| && r[0] == StmtItem(RegisterStmt(NumLit(id), ctx))
      && (forall i :: 1 <= i <= k ==> IsImport(r[i]))
  {
    var ast := ExportsAstOf(ctx, exps, Bundle);
    var imports := Select(orig, ImportBucket, true);
    var r := RegisterBodyOf(id, ctx, exps, bindings, orig);
    var front := [StmtItem(RegisterStmt(NumLit(id), ctx))] + imports + ast.preBody;
    assert r == front + Select(orig, StmtBucket, true) + bindings + ast.postBody + Select(orig, ExportBucket, true);
    PreBodyFollowsPhase(ctx, exps, Bundle);
    SelectKinds(orig, true);
    forall i | 1 <= i <= |imports| + |ast.preBody|
      ensures IsImport(r[i])
    {
      assert r[i] == front[i];
      if i <= |imports| {
        assert front[i] == imports[i - 1];
        assert imports[i - 1] in imports;
      } else {
        assert front[i] == ast.preBody[i - 1 - |imports|];
        assert ast.preBody[i - 1 - |imports|] in ast.preBody;
      }
    }
  }

  class RegisterDelegate {
    const id: int
    const ctx: Atom
    var exps: seq<ExportRef>
    var bindings: seq<ModuleItem>

    constructor(id: int, ctx: Atom)
      ensures this.id == id && this.ctx == ctx && exps == [] && bindings == []
    {
      this.id := id;
      this.ctx := ctx;
      exps := [];
      bindings := [];
    }

    /** Sorts the original items into statements, imports and other module
        declarations, then lays out the body; the export records and bindings are
        taken (left empty). */
    method MakeBody(orig: seq<ModuleItem>) returns (newBody: seq<ModuleItem>)
      modifies this
      ensures newBody == RegisterBodyOf(id, ctx, old(exps), old(bindings), orig)
      ensures exps == [] && bindings == []
    {
      var taken := exps;
      var takenBindings := bindings;
      exps := [];
      bindings := [];
      var imports, exports, body := [], [], [];
      var i := 0;
      while i < |orig|
        invariant 0 <= i <= |orig|
        invariant imports == Select(orig[..i], ImportBucket, true)
        invariant exports == Select(orig[..i], ExportBucket, true)
        invariant body == Select(orig[..i], StmtBucket, true)
      {
        assert orig[..i + 1][..i] == orig[..i];
        var item := orig[i];
        match item {
          case StmtItem(_) =>
            body := body + [item];
          case DeclItem(d) =>
            if d.Import? {
              imports := imports + [item];
            } else {
              exports := exports + [item];
            }
        }
        i := i + 1;
      }
      assert orig[..i] == orig;
      var ast := ExportsToAst(ctx, taken, Bundle);
      newBody := [StmtItem(RegisterStmt(NumLit(id), ctx))] + imports + ast.preBody + body + takenBindings + ast.postBody + exports;
    }

    /** Imports are kept as they are; nothing is recorded. */
    method Import(src: Atom, specs: seq<ImportSpec>)
      modifies this
      ensures unchanged(this)
    {
    }

    /** `export <declaration>`: the export record and the binding statement are
        recorded, and the export statement takes the declaration's place. */
    method ExportDecl(origIdent: Atom, declExpr: Expr, bindIdent: Atom) returns (item: ModuleItem)
      modifies this
      ensures var d := GetFromExportDecl(origIdent, declExpr, bindIdent);
        item == d.exportStmt && exps == old(exps) + [d.exportRef] && bindings == old(bindings) + [d.bindingStmt]
    {
      var d := GetFromExportDecl(origIdent, declExpr, bindIdent);
      exps := exps + [d.exportRef];
      bindings := bindings + [d.bindingStmt];
      item := d.exportStmt;
    }

    /** `export default class/function …`: replaced by the assignment of the class or
        function to the binding variable, which is recorded as the default export. */
    method ExportDefaultDecl(dd: DefaultDecl, bindIdent: Atom) returns (item: ModuleItem)
      modifies this
      ensures item == DefaultDeclAssign(dd, bindIdent)
      ensures exps == old(exps) + [DefaultExportRef(bindIdent)] && bindings == old(bindings)
    {
      exps := exps + [DefaultExportRef(bindIdent)];
      item := DefaultDeclAssign(dd, bindIdent);
    }

    /** `export default expr`: replaced by `bind = expr`, recorded as the default export. */
    method ExportDefaultExpr(expr: Expr, bindIdent: Atom) returns (r: Option<Expr>)
      modifies this
      ensures r == Some(AssignIdent(bindIdent, expr))
      ensures exps == old(exps) + [DefaultExportRef(bindIdent)] && bindings == old(bindings)
    {
      exps := exps + [DefaultExportRef(bindIdent)];
      r := Some(AssignIdent(bindIdent, expr));
    }

    /** `export { … }` and `export … from 'src'`: the export record is appended. */
    method ExportNamed(n: NamedExport, modIdent: Atom)
      requires n.src.Some? ==> |n.specs| > 0
      requires n.src.None? || !n.specs[0].ExportNamespaceSpec? ==> IdentOrigs(n.specs)
      modifies this
      ensures exps == old(exps) + [ExportRefOf(n, modIdent)] && bindings == old(bindings)
    {
      exps := exps + [ExportRefOf(n, modIdent)];
    }

    /** `export * from 'src'`: an unaliased re-export of everything is appended. */
    method ExportAll(src: Atom, modIdent: Atom)
      modifies this
      ensures exps == old(exps) + [ReExportAll(modIdent, src, None)] && bindings == old(bindings)
    {
      exps := exps + [ReExportAll(modIdent, src, None)];
    }

    /** Calls are never rewritten. */
    method CallExpr(call: Expr) returns (r: Option<Expr>)
      requires call.Call?
      ensures r == None
    {
      r := None;
    }
  }
}
