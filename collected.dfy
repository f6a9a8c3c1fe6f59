/**
 * What the module builder and the transformer receive from the collector through
 * `take_deps`, `take_exps` and `take_bindings`. The collector revision that
 * provides these is not part of this model, so its outputs are taken as already
 * converted to syntax: each dependency with the destructuring pattern of its
 * members, each re-export with the private identifier its module is bound to and
 * its export properties.
 */
module Collected {
  import opened Wrappers
  import opened SwcAst

  /** A dependency: its source and the pattern properties of its members. */
  datatype DepRecord = DepRecord(src: Atom, props: seq<PatProp>)

  /** A collected export: local exports with their declarators, properties and
      specifiers; a named re-export with its properties; or a re-export of everything
      with its single property. */
  datatype Exp =
    | LocalExp(decls: seq<VarDeclarator>, props: seq<Prop>, specs: seq<ExportSpec>)
    | ReExportNamedExp(src: Atom, modIdent: Atom, named: seq<Prop>)
    | ReExportAllExp(src: Atom, modIdent: Atom, prop: Prop)
  {
    predicate IsReExport() {
      !LocalExp?
    }

    /** The export properties it contributes. */
    function ExpProps(): seq<Prop> {
      match this
      case LocalExp(_, props, _) => props
      case ReExportNamedExp(_, _, named) => named
      case ReExportAllExp(_, _, prop) => [prop]
    }
  }

  /** A binding: the export variable and the value it is assigned. */
  datatype Binding = Binding(ident: Atom, value: Expr)

  /** `const pat = ctx.require('src');`. */
  function ConstRequire(ctx: Atom, src: Atom, pat: Pat): Stmt {
    DeclStmt(VarDecl(VarKindConst, [VarDeclarator(pat, Some(RequireCall(ctx, StrLit(src))))]))
  }

  /** `const { props } = ctx.require('src');`, a dependency's require. */
  function DepRequireStmt(ctx: Atom, dep: DepRecord): Stmt {
    ConstRequire(ctx, dep.src, PatObject(dep.props))
  }

  /** `to_import_namespace_stmt` and `to_import_all_stmt`: `import * as mod from 'src';`,
      a re-export's module import. */
  function ReExportImport(e: Exp): ModuleItem
    requires e.IsReExport()
  {
    ImportStar(e.modIdent, e.src)
  }

  /** `const mod = ctx.require('src');`, a re-export's module require. */
  function ReExportRequire(ctx: Atom, e: Exp): Stmt
    requires e.IsReExport()
  {
    ConstRequire(ctx, e.src, PatIdent(e.modIdent))
  }

  /** `ident = value, …;`: one assignment per binding, in order. */
  function BindingsSeqStmt(bindings: seq<Binding>): (s: Stmt)
    ensures s.ExprStmt? && s.expr.SeqExpr? && |s.expr.exprs| == |bindings|
    ensures forall i :: 0 <= i < |bindings| ==>
      s.expr.exprs[i].Assign? && s.expr.exprs[i].left == TargetIdent(bindings[i].ident) && s.expr.exprs[i].right == bindings[i].value
  {
    ExprStmt(SeqExpr(seq(|bindings|, i requires 0 <= i < |bindings| => AssignIdent(bindings[i].ident, bindings[i].value))))
  }

  /** The re-exports among the exports, in order. */
  function ReExports(exps: seq<Exp>): (r: seq<Exp>)
    ensures forall i :: 0 <= i < |r| ==> r[i].IsReExport()
  {
    if exps == [] then []
    else
      var last := exps[|exps| - 1];
      ReExports(exps[..|exps| - 1]) + (if last.IsReExport() then [last] else [])
  }

  /** The module imports the re-exports add, in order. */
  function ReExportImports(exps: seq<Exp>): (r: seq<ModuleItem>)
    ensures forall i :: 0 <= i < |r| ==> IsImport(r[i])
  {
    if exps == [] then []
    else
      var last := exps[|exps| - 1];
      ReExportImports(exps[..|exps| - 1]) + (if last.IsReExport() then [ReExportImport(last)] else [])
  }

  /** The module requires the re-exports add, in order. */
  function ReExportRequires(ctx: Atom, exps: seq<Exp>): seq<Stmt> {
    if exps == [] then []
    else
      var last := exps[|exps| - 1];
      ReExportRequires(ctx, exps[..|exps| - 1]) + (if last.IsReExport() then [ReExportRequire(ctx, last)] else [])
  }

  /** All export properties, in export order. */
  function AllProps(exps: seq<Exp>): seq<Prop> {
    if exps == [] then [] else AllProps(exps[..|exps| - 1]) + exps[|exps| - 1].ExpProps()
  }

  /** The declarators of the local exports, in order. */
  function LocalDecls(exps: seq<Exp>): seq<VarDeclarator> {
    if exps == [] then []
    else
      var last := exps[|exps| - 1];
      LocalDecls(exps[..|exps| - 1]) + (if last.LocalExp? then last.decls else [])
  }

  /** The specifiers of the local exports, in order. */
  function LocalSpecs(exps: seq<Exp>): seq<ExportSpec> {
    if exps == [] then []
    else
      var last := exps[|exps| - 1];
      LocalSpecs(exps[..|exps| - 1]) + (if last.LocalExp? then last.specs else [])
  }

  /** Appending an export extends each of the lists above by that export's part. */
  lemma ExpsSnoc(ctx: Atom, pre: seq<Exp>, e: Exp)
    ensures ReExportImports(pre + [e]) == ReExportImports(pre) + (if e.IsReExport() then [ReExportImport(e)] else [])
    ensures ReExportRequires(ctx, pre + [e]) == ReExportRequires(ctx, pre) + (if e.IsReExport() then [ReExportRequire(ctx, e)] else [])
    ensures AllProps(pre + [e]) == AllProps(pre) + e.ExpProps()
    ensures LocalDecls(pre + [e]) == LocalDecls(pre) + (if e.LocalExp? then e.decls else [])
    ensures LocalSpecs(pre + [e]) == LocalSpecs(pre) + (if e.LocalExp? then e.specs else [])
  {
    assert (pre + [e])[..|pre|] == pre;
  }

  /** Each re-export adds one import and one require, and the two bind the same module
      identifier from the same source. */
  lemma {:induction false} ReExportImportsAndRequires(ctx: Atom, exps: seq<Exp>)
    ensures |ReExportImports(exps)| == |ReExportRequires(ctx, exps)| == |ReExports(exps)|
    ensures forall i :: 0 <= i < |ReExports(exps)| ==>
      ReExportImports(exps)[i] == ImportStar(ReExports(exps)[i].modIdent, ReExports(exps)[i].src)
      && ReExportRequires(ctx, exps)[i] == ConstRequire(ctx, ReExports(exps)[i].src, PatIdent(ReExports(exps)[i].modIdent))
  {
    if exps != [] {
      ReExportImportsAndRequires(ctx, exps[..|exps| - 1]);
    }
  }

  /** Local exports add no import or require: an export list without re-exports adds
      none of either. */
  lemma {:induction false} LocalOnlyExports(ctx: Atom, exps: seq<Exp>)
    requires forall i :: 0 <= i < |exps| ==> exps[i].LocalExp?
    ensures ReExportImports(exps) == [] && ReExportRequires(ctx, exps) == [] && ReExports(exps) == []
  {
    if exps != [] {
      LocalOnlyExports(ctx, exps[..|exps| - 1]);
    }
  }
}
