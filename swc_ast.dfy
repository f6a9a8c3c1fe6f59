/**
 * The part of the ECMAScript syntax tree the transform reads and writes.
 * Identifiers are plain strings; an identifier reference records only whether
 * it resolves to no local binding (an "unresolved" global such as `exports`).
 * Statements and declarations whose insides the model does not represent (an
 * `if`, a loop, a block, the body of a function or class declaration:
 * `OtherStmt`, `FnDecl`, `ClassDecl`) are opaque. The transform's visitor does
 * descend into them; the model does not, so a `require` call nested in one lies
 * outside it.
 */
module SwcAst {
  import opened Wrappers

  type Atom = string

  /** `ModuleExportName`: an identifier or a string literal. */
  datatype ExportName = NameIdent(sym: Atom) | NameStr(value: Atom) {
    /** `atom()`: the name, whichever form it takes. */
    function Atom(): Atom {
      if NameIdent? then sym else value
    }
  }

  datatype Lit =
    | StrLit(value: Atom)
    | NumLit(n: int)
    | BoolLit(b: bool)
    | NullLit
    | OtherLit(tag: nat)

  datatype Ident = Ident(sym: Atom, unresolved: bool)

  datatype MemberProp =
    | PropIdent(sym: Atom)
    | PropComputed(expr: Expr)
    | PropPrivate(name: Atom)

  datatype Callee = CalleeExpr(expr: Expr) | CalleeImport | CalleeSuper

  datatype AssignOp = OpAssign | OpCompound(operator: Atom)

  datatype AssignTarget =
    | TargetIdent(sym: Atom)
    | TargetMember(obj: Expr, prop: MemberProp)
    | TargetPattern(tag: nat)

  /** An object literal's property; keys are written as names. */
  datatype Prop =
    | KeyValue(key: Atom, value: Expr)
    | Shorthand(key: Atom)
    | Spread(expr: Expr)

  datatype Expr =
    | IdentExpr(id: Ident)
    | LitExpr(lit: Lit)
    | Member(obj: Expr, prop: MemberProp)
    | Call(callee: Callee, args: seq<Expr>, hasTypeArgs: bool)
    | Assign(op: AssignOp, left: AssignTarget, right: Expr)
    | SeqExpr(exprs: seq<Expr>)
    | ObjectLit(props: seq<Prop>)
    /** A function of no parameters returning `body`. */
    | LazyFn(body: Expr)
    /** `function (params) { body }`. */
    | FnExpr(params: seq<Atom>, stmts: seq<Stmt>)
    /** A function or class declaration used as an expression. */
    | DeclExpr(decl: Decl)
    /** The class or function of `export default class … / function …` as an expression. */
    | DefaultDeclExpr(defaultDecl: DefaultDecl)
    /** `Expr::Invalid`, what a failed conversion leaves behind. */
    | InvalidExpr
    | OtherExpr(tag: nat)

  /** Binding patterns: an identifier, or an object pattern whose properties are
      `key: local` or the shorthand `key` (the generated code nests no deeper). */
  datatype Pat = PatIdent(sym: Atom) | PatObject(props: seq<PatProp>)
  datatype PatProp = KeyValuePat(key: Atom, local: Atom) | AssignPat(key: Atom)

  datatype VarKind = VarKindVar | VarKindLet | VarKindConst
  datatype VarDeclarator = VarDeclarator(name: Pat, init: Option<Expr>)

  datatype Decl =
    | FnDecl(ident: Atom)
    | ClassDecl(ident: Atom)
    | VarDecl(kind: VarKind, decls: seq<VarDeclarator>)
    | TsDecl(tag: nat)

  datatype Stmt =
    | EmptyStmt
    | ExprStmt(expr: Expr)
    | DeclStmt(decl: Decl)
    | OtherStmt(tag: nat)

  datatype DefaultDecl = DefaultClass(ident: Option<Atom>) | DefaultFn(ident: Option<Atom>) | DefaultTsInterface

  datatype ImportSpec =
    | ImportDefaultSpec(local: Atom)
    | ImportNamedSpec(local: Atom, imported: Option<ExportName>, isTypeOnly: bool)
    | ImportStarSpec(local: Atom)

  datatype ExportSpec =
    | ExportDefaultSpec(exportedIdent: Atom)
    | ExportNamedSpec(orig: ExportName, exported: Option<ExportName>, isTypeOnly: bool)
    | ExportNamespaceSpec(name: ExportName)

  /** `export { specs }` or, with a source, `export { specs } from 'src'`. */
  datatype NamedExport = NamedExport(specs: seq<ExportSpec>, src: Option<Atom>)

  datatype ModuleDecl =
    | Import(src: Atom, specs: seq<ImportSpec>)
    | ExportDeclaration(decl: Decl)
    | ExportNamed(named: NamedExport)
    | ExportDefaultDeclaration(defaultDecl: DefaultDecl)
    | ExportDefaultExpr(expr: Expr)
    | ExportAll(src: Atom)
    | OtherModuleDecl(tag: nat)

  datatype ModuleItem = StmtItem(stmt: Stmt) | DeclItem(moduleDecl: ModuleDecl)

  // Builders for the generated code.

  /** A reference to a generated or local identifier. */
  function Id(sym: Atom): Expr {
    IdentExpr(Ident(sym, false))
  }

  function MemberOf(obj: Expr, name: Atom): Expr {
    Member(obj, PropIdent(name))
  }

  function MethodCall(obj: Expr, name: Atom, args: seq<Expr>): Expr {
    Call(CalleeExpr(MemberOf(obj, name)), args, false)
  }

  /** `ctx.require(src)`. */
  function RequireCall(ctx: Atom, src: Lit): Expr {
    MethodCall(Id(ctx), "require", [LitExpr(src)])
  }

  /** `ctx.exports(() => ({ ...props }))`. */
  function ExportsCall(ctx: Atom, props: seq<Prop>): Expr {
    MethodCall(Id(ctx), "exports", [LazyFn(ObjectLit(props))])
  }

  /** `ctx.exports.ns(expr)`. */
  function NsExport(ctx: Atom, expr: Expr): Expr {
    MethodCall(MemberOf(Id(ctx), "exports"), "ns", [expr])
  }

  /** `var pat = ctx.require(src);`. */
  function DeclRequireDeps(ctx: Atom, src: Lit, pat: Pat): Stmt {
    DeclStmt(VarDecl(VarKindVar, [VarDeclarator(pat, Some(RequireCall(ctx, src)))]))
  }

  /** `import * as ident from 'src';`. */
  function ImportStar(ident: Atom, src: Atom): ModuleItem {
    DeclItem(Import(src, [ImportStarSpec(ident)]))
  }

  /** `ident = expr`. */
  function AssignIdent(ident: Atom, expr: Expr): Expr {
    Assign(OpAssign, TargetIdent(ident), expr)
  }

  /** A declarator `ident` with no initialiser. */
  function BareDeclarator(ident: Atom): VarDeclarator {
    VarDeclarator(PatIdent(ident), None)
  }

  /** `global.__modules.<operation>(id)`; the id is a string or a numeric literal. */
  function GlobalModulesCall(operation: Atom, id: Lit): Expr {
    MethodCall(MemberOf(Id("global"), "__modules"), operation, [LitExpr(id)])
  }

  /** A context declaration read back from a statement: its kind, the
      `global.__modules` operation it calls, the id it passes and the name it binds;
      `None` for a statement of any other shape. */
  function ContextDeclOf(s: Stmt): Option<(VarKind, Atom, Lit, Atom)> {
    if s.DeclStmt? && s.decl.VarDecl? && |s.decl.decls| == 1 && s.decl.decls[0].name.PatIdent? && s.decl.decls[0].init.Some? then
      var e := s.decl.decls[0].init.value;
      if e.Call? && !e.hasTypeArgs && e.callee.CalleeExpr? && e.callee.expr.Member?
         && e.callee.expr.obj == MemberOf(Id("global"), "__modules") && e.callee.expr.prop.PropIdent?
         && |e.args| == 1 && e.args[0].LitExpr?
      then Some((s.decl.kind, e.callee.expr.prop.sym, e.args[0].lit, s.decl.decls[0].name.sym))
      else None
    else None
  }

  /** `<kind> ctx = global.__modules.<operation>(id);`. */
  function ContextDecl(kind: VarKind, operation: Atom, id: Lit, ctx: Atom): (s: Stmt)
    ensures ContextDeclOf(s) == Some((kind, operation, id, ctx))
  {
    DeclStmt(VarDecl(kind, [VarDeclarator(PatIdent(ctx), Some(GlobalModulesCall(operation, id)))]))
  }

  /** `var ctx = global.__modules.register(id);`. */
  function RegisterStmt(id: Lit, ctx: Atom): Stmt {
    ContextDecl(VarKindVar, "register", id, ctx)
  }

  /** `var ctx = global.__modules.getContext(id);`. */
  function GetContextStmt(id: Lit, ctx: Atom): Stmt {
    ContextDecl(VarKindVar, "getContext", id, ctx)
  }

  /** `export { specs };`. */
  function NamedExports(specs: seq<ExportSpec>): ModuleItem {
    DeclItem(ExportNamed(NamedExport(specs, None)))
  }

  /** `var d1, d2, ...;`. */
  function VarDeclStmt(decls: seq<VarDeclarator>): Stmt {
    DeclStmt(VarDecl(VarKindVar, decls))
  }

  /** `import { type foo } from …`: a specifier that imports a type only. */
  predicate IsTypeOnlyImport(spec: ImportSpec) {
    spec.ImportNamedSpec? && spec.isTypeOnly
  }

  predicate IsImport(item: ModuleItem) {
    item.DeclItem? && item.moduleDecl.Import?
  }

  /** The (key, local) pair an object-literal property reads: `key: local` or the
      shorthand `key`. */
  function PropBinding(p: Prop): Option<(Atom, Atom)> {
    match p
    case KeyValue(key, value) => if value.IdentExpr? then Some((key, value.id.sym)) else None
    case Shorthand(key) => Some((key, key))
    case Spread(_) => None
  }

  /** The (key, local) pair an object-pattern property binds. */
  function PatBinding(p: PatProp): (Atom, Atom) {
    match p
    case KeyValuePat(key, local) => (key, local)
    case AssignPat(key) => (key, key)
  }

  /** `private_ident!(...)`: every call creates an identifier distinct from every
      other, whatever name it is printed with. The model draws them from a supply:
      the `k`-th identifier a pass creates is `idents(k)`. */
  type IdentSupply = nat -> Atom

  /** A supply that never hands out the same identifier twice. */
  ghost predicate Injective(idents: IdentSupply) {
    forall i: nat, j: nat :: i != j ==> idents(i) != idents(j)
  }
}
