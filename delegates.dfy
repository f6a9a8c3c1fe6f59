/**
 * What the three AST delegates (runtime, register, bundle) share: how a default
 * export becomes an assignment to a private binding variable plus an export
 * record that exports that variable as `default`.
 */
module Delegates {
  import opened Wrappers
  import opened SwcAst
  import opened SwcUtils
  import opened Phase
  import opened Models

  /** The export record of a default export: the binding variable under `default`. */
  function DefaultExportRef(bindIdent: Atom): ExportRef {
    Named([Binding(bindIdent, "default")])
  }

  /** `bind = <class or function>;`: the statement an `export default class …` or
      `export default function …` becomes; a TypeScript interface, which has no value,
      gives an invalid expression (and a diagnostic). */
  function DefaultDeclAssign(dd: DefaultDecl, bindIdent: Atom): (item: ModuleItem)
    ensures item.StmtItem? && item.stmt.ExprStmt? && item.stmt.expr.Assign?
    ensures item.stmt.expr.left == TargetIdent(bindIdent)
    ensures !dd.DefaultTsInterface? ==> item.stmt.expr.right == DefaultDeclExpr(dd)
  {
    StmtItem(ExprStmt(AssignIdent(bindIdent, GetExprFromDefaultDecl(dd).value)))
  }

  /** Recording a default export appends, to what `exports_to_ast` builds, the property
      `default: bind` (read by the exports call) and the declarator of `bind`; nothing
      else changes, so the variable the default assignment writes is declared and
      exported as `default`. */
  lemma DefaultExportWired(ctx: Atom, phase: ModulePhase, exps: seq<ExportRef>, bindIdent: Atom)
    ensures var st := ExportsFold(ctx, phase, exps);
      ExportsFold(ctx, phase, exps + [DefaultExportRef(bindIdent)])
      == st.(props := st.props + [KeyValue("default", Id(bindIdent))], decls := st.decls + [BareDeclarator(bindIdent)])
  {
    var all := exps + [DefaultExportRef(bindIdent)];
    assert all[..|all| - 1] == exps;
    var members := [Binding(bindIdent, "default")];
    assert members[..0] == [];
    assert MemberProps(members) == [KeyValue("default", Id(bindIdent))];
    assert MemberDecls(members) == [BareDeclarator(bindIdent)];
  }

  /** The bindings a delegate holds are statements. */
  predicate AllStmts(items: seq<ModuleItem>) {
    forall i :: 0 <= i < |items| ==> items[i].StmtItem?
  }
}
