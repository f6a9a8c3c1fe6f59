/**
 * The transform's helpers that classify syntax: remapping import sources to
 * module ids, recognising CommonJS export assignments, turning an import
 * declaration into a dependency record and a named export into an export record.
 */
module SwcUtils {
  import opened Wrappers
  import opened SwcAst

  /** A result together with whether an error diagnostic was emitted on the way. */
  datatype Diagnosed<T> = Diagnosed(value: T, reported: bool)

  /** `get_src_lit(lit, deps_id)`: a string source is replaced by its module id when
      the map has one; a literal of any other kind is reported and becomes `null`. */
  function GetSrcLit(lit: Lit, depsId: Option<map<string, string>>): (r: Diagnosed<Lit>)
    ensures r.reported <==> !lit.StrLit?
    ensures !lit.StrLit? ==> r.value == NullLit
    ensures lit.StrLit? && depsId.Some? && lit.value in depsId.value ==> r.value == StrLit(depsId.value[lit.value])
    ensures lit.StrLit? && (depsId.None? || lit.value !in depsId.value) ==> r.value == lit
  {
    match lit
    case StrLit(src) =>
      if depsId.Some? && src in depsId.value then Diagnosed(StrLit(depsId.value[src]), false)
      else Diagnosed(lit, false)
    case _ => Diagnosed(NullLit, true)
  }

  /** When no module id is itself a mapped source, remapping twice is remapping once. */
  lemma GetSrcLitSettles(lit: Lit, ids: map<string, string>)
    requires forall s :: s in ids ==> ids[s] !in ids
    ensures GetSrcLit(GetSrcLit(lit, Some(ids)).value, Some(ids)).value == GetSrcLit(lit, Some(ids)).value
  {
  }

  /** `get_expr_from_default_decl`: a default class or function becomes the same class
      or function as an expression; anything else (a TypeScript interface) is reported
      and becomes an invalid expression. */
  function GetExprFromDefaultDecl(decl: DefaultDecl): (r: Diagnosed<Expr>)
    ensures r.reported <==> decl.DefaultTsInterface?
    ensures r.reported ==> r.value == InvalidExpr
    ensures !r.reported ==> r.value == DefaultDeclExpr(decl)
  {
    if decl.DefaultTsInterface? then Diagnosed(InvalidExpr, true) else Diagnosed(DefaultDeclExpr(decl), false)
  }

  /** `is_cjs_exports_member`: the object is the unresolved global `exports`. */
  predicate IsCjsExportsMember(obj: Expr, prop: MemberProp) {
    obj == IdentExpr(Ident("exports", true))
  }

  /** `is_cjs_module_member`: `module.exports` with `module` the unresolved global. */
  predicate IsCjsModuleMember(obj: Expr, prop: MemberProp) {
    obj == IdentExpr(Ident("module", true)) && prop == PropIdent("exports")
  }

  /** `get_expr_from_member_prop`: `.name` as the string `'name'`, `[expr]` as `expr`.
      A private name panics. */
  function GetExprFromMemberProp(prop: MemberProp): (e: Expr)
    requires !prop.PropPrivate?
    ensures prop.PropIdent? ==> e == LitExpr(StrLit(prop.sym))
    ensures prop.PropComputed? ==> e == prop.expr
  {
    match prop
    case PropIdent(sym) => LitExpr(StrLit(sym))
    case PropComputed(expr) => expr
  }

  /** `ctx.module.exports`. */
  function CtxModuleExports(ctx: Atom): Expr {
    MemberOf(MemberOf(Id(ctx), "module"), "exports")
  }

  /** `get_new_assign_expr`: `ctx.module.exports[.name] = expr`; a string name becomes
      a dotted member, any other expression a computed one. */
  function GetNewAssignExpr(ctx: Atom, expr: Expr, exportName: Option<Expr>): Expr {
    var target :=
      match exportName
      case None => TargetMember(MemberOf(Id(ctx), "module"), PropIdent("exports"))
      case Some(LitExpr(StrLit(name))) => TargetMember(CtxModuleExports(ctx), PropIdent(name))
      case Some(nameExpr) => TargetMember(CtxModuleExports(ctx), PropComputed(nameExpr));
    Assign(OpAssign, target, expr)
  }

  /** The CommonJS export targets: `exports.X`, `module.exports` and `module.exports.X`,
      with `exports` and `module` unresolved. */
  predicate IsCjsExportTarget(left: AssignTarget) {
    left.TargetMember?
    && (IsCjsExportsMember(left.obj, left.prop)
        || IsCjsModuleMember(left.obj, left.prop)
        || (left.obj.Member? && IsCjsModuleMember(left.obj.obj, left.obj.prop)))
  }

  /** The targets for which the export name is read from a private name, which panics. */
  predicate ReadsPrivateName(left: AssignTarget) {
    left.TargetMember? && left.prop.PropPrivate?
    && (IsCjsExportsMember(left.obj, left.prop)
        || (!IsCjsModuleMember(left.obj, left.prop) && left.obj.Member? && IsCjsModuleMember(left.obj.obj, left.obj.prop)))
  }

  /** `to_binding_module_from_assign_expr`: a plain `=` to a CommonJS export target
      becomes the same assignment to the context's `module.exports`. */
  function ToBindingModuleFromAssignExpr(ctx: Atom, op: AssignOp, left: AssignTarget, right: Expr): (r: Option<Expr>)
    requires !ReadsPrivateName(left)
    ensures r.Some? <==> op == OpAssign && IsCjsExportTarget(left)
    ensures r.Some? ==> r.value.Assign? && r.value.op == OpAssign && r.value.right == right
  {
    if op != OpAssign then None
    else match left
      case TargetMember(obj, prop) =>
        if IsCjsExportsMember(obj, prop) then Some(GetNewAssignExpr(ctx, right, Some(GetExprFromMemberProp(prop))))
        else if IsCjsModuleMember(obj, prop) then Some(GetNewAssignExpr(ctx, right, None))
        else if obj.Member? && IsCjsModuleMember(obj.obj, obj.prop) then
          Some(GetNewAssignExpr(ctx, right, Some(GetExprFromMemberProp(prop))))
        else None
      case _ => None
  }

  /** The rewrites, target by target: `exports.foo`, `exports['foo']`,
      `module.exports.foo` and `module.exports['foo']` all become
      `ctx.module.exports.foo`; `module.exports` becomes `ctx.module.exports`; a
      computed key other than a string stays computed; a local `exports` is left alone. */
  lemma CjsAssignmentsRebind(ctx: Atom, name: Atom, key: Expr, right: Expr)
    requires !key.LitExpr? || !key.lit.StrLit?
    ensures var exportsRef := IdentExpr(Ident("exports", true));
      var moduleExports := MemberOf(IdentExpr(Ident("module", true)), "exports");
      var dotted := Some(Assign(OpAssign, TargetMember(CtxModuleExports(ctx), PropIdent(name)), right));
      && ToBindingModuleFromAssignExpr(ctx, OpAssign, TargetMember(exportsRef, PropIdent(name)), right) == dotted
      && ToBindingModuleFromAssignExpr(ctx, OpAssign, TargetMember(exportsRef, PropComputed(LitExpr(StrLit(name)))), right) == dotted
      && ToBindingModuleFromAssignExpr(ctx, OpAssign, TargetMember(moduleExports, PropIdent(name)), right) == dotted
      && ToBindingModuleFromAssignExpr(ctx, OpAssign, TargetMember(moduleExports, PropComputed(LitExpr(StrLit(name)))), right) == dotted
      && ToBindingModuleFromAssignExpr(ctx, OpAssign, TargetMember(IdentExpr(Ident("module", true)), PropIdent("exports")), right)
         == Some(Assign(OpAssign, TargetMember(MemberOf(Id(ctx), "module"), PropIdent("exports")), right))
      && ToBindingModuleFromAssignExpr(ctx, OpAssign, TargetMember(exportsRef, PropComputed(key)), right)
         == Some(Assign(OpAssign, TargetMember(CtxModuleExports(ctx), PropComputed(key)), right))
      && ToBindingModuleFromAssignExpr(ctx, OpAssign, TargetMember(IdentExpr(Ident("exports", false)), PropIdent(name)), right) == None
  {
  }

  // Dependencies from import declarations.

  datatype DepMember = DepMember(ident: Atom, name: Option<Atom>, isNs: bool)
  datatype Dep = Dep(src: Atom, members: seq<DepMember>)


  /** One specifier's member: a named import keeps its imported name (when written),
      a default import is the member named `default`, a namespace import an ns member. */
  function DepMemberOf(spec: ImportSpec): (m: Option<DepMember>)
    ensures m.None? <==> IsTypeOnlyImport(spec)
    ensures m.Some? ==> m.value.ident == spec.local
    // only a namespace import gives a namespace member, and it carries no name
    ensures m.Some? ==> (m.value.isNs <==> spec.ImportStarSpec?)
    ensures spec.ImportStarSpec? ==> m.value.name == None
    // a default import reads the member named `default`
    ensures spec.ImportDefaultSpec? ==> m.value.name == Some("default")
    // a named import reads its imported name, when one is written
    ensures m.Some? && spec.ImportNamedSpec? ==>
              m.value.name == (if spec.imported.Some? then Some(spec.imported.value.Atom()) else None)
  {
    match spec
    case ImportNamedSpec(local, imported, isTypeOnly) =>
      if isTypeOnly then None
      else Some(DepMember(local, if imported.Some? then Some(imported.value.Atom()) else None, false))
    case ImportDefaultSpec(local) => Some(DepMember(local, Some("default"), false))
    case ImportStarSpec(local) => Some(DepMember(local, None, true))
  }

  /** The `filter_map` over the specifiers. */
  function DepMembersOf(specs: seq<ImportSpec>): (ms: seq<DepMember>)
    ensures |ms| <= |specs|
    ensures ms == [] <==> forall i :: 0 <= i < |specs| ==> IsTypeOnlyImport(specs[i])
    ensures forall m :: m in ms ==> exists i :: 0 <= i < |specs| && DepMemberOf(specs[i]) == Some(m)
  {
    if specs == [] then []
    else
      var rest := DepMembersOf(specs[1..]);
      assert forall m :: m in rest ==> exists i :: 1 <= i < |specs| && DepMemberOf(specs[i]) == Some(m);
      match DepMemberOf(specs[0])
      case None => rest
      case Some(m) => [m] + rest
  }

  /** The specifiers that are not type-only, in order. */
  function KeptImports(specs: seq<ImportSpec>): seq<ImportSpec> {
    if specs == [] then []
    else if IsTypeOnlyImport(specs[0]) then KeptImports(specs[1..])
    else [specs[0]] + KeptImports(specs[1..])
  }

  /** Every specifier that is not type-only gives its member, in order: the `k`-th
      member is that of the `k`-th kept specifier. */
  lemma {:induction false} DepMembersKeepOrder(specs: seq<ImportSpec>)
    ensures |DepMembersOf(specs)| == |KeptImports(specs)|
    ensures forall k :: 0 <= k < |KeptImports(specs)| ==>
              DepMemberOf(KeptImports(specs)[k]) == Some(DepMembersOf(specs)[k])
  {
    if specs != [] {
      var tail := specs[1..];
      DepMembersKeepOrder(tail);
      var msTail, keptTail := DepMembersOf(tail), KeptImports(tail);
      var ms, kept := DepMembersOf(specs), KeptImports(specs);
      if IsTypeOnlyImport(specs[0]) {
        assert ms == msTail && kept == keptTail;
      } else {
        assert ms == [DepMemberOf(specs[0]).value] + msTail;
        assert kept == [specs[0]] + keptTail;
        forall k | 0 <= k < |kept|
          ensures DepMemberOf(kept[k]) == Some(ms[k])
        {
          if k > 0 {
            assert kept[k] == keptTail[k - 1] && ms[k] == msTail[k - 1];
          }
        }
      }
    }
  }

  /** `import_as_dep`: `None` iff no specifier survives (only type-only ones, or none). */
  function ImportAsDep(src: Atom, specs: seq<ImportSpec>): (r: Option<Dep>)
    ensures r.None? <==> forall i :: 0 <= i < |specs| ==> IsTypeOnlyImport(specs[i])
    ensures r.Some? ==> r.value.src == src && r.value.members == DepMembersOf(specs) && |r.value.members| > 0
  {
    var members := DepMembersOf(specs);
    if members == [] then None else Some(Dep(src, members))
  }

  // Export records from `export { ... }`.

  datatype ExpMember = ExpMember(ident: Atom, name: Atom, isNs: bool)
  datatype ExpBinding = ExpBinding(bindingIdent: Atom, expr: Expr)
  datatype Exp =
    | DefaultExp(members: seq<ExpMember>)
    | ReExportNamedExp(src: Atom, members: seq<ExpMember>)
    | ReExportAllExp(src: Atom)
  datatype ExpWithBindings = ExpWithBindings(exp: Exp, bindings: seq<ExpBinding>)

  /** The member one specifier contributes; `x` is the identifier
      `exp_binding_ident()` creates for it. */
  function ExpMemberOf(spec: ExportSpec, hasSrc: bool, x: Atom): Option<ExpMember> {
    match spec
    case ExportDefaultSpec(_) => Some(ExpMember(x, "default", false))
    case ExportNamedSpec(orig, exported, isTypeOnly) =>
      if isTypeOnly then None
      else
        var name := if exported.Some? then exported.value.Atom() else orig.Atom();
        Some(ExpMember(if hasSrc then orig.Atom() else x, name, false))
    case ExportNamespaceSpec(name) => Some(ExpMember(x, name.Atom(), true))
  }

  /** The binding one specifier pushes: a default specifier always, a named one only
      when there is no source, a namespace specifier never. */
  function ExpBindingOf(spec: ExportSpec, hasSrc: bool, x: Atom): Option<ExpBinding> {
    match spec
    case ExportDefaultSpec(exported) => Some(ExpBinding(x, Id(exported)))
    case ExportNamedSpec(orig, _, isTypeOnly) =>
      if isTypeOnly || hasSrc then None else Some(ExpBinding(x, Id(orig.Atom())))
    case ExportNamespaceSpec(_) => None
  }

  function OptionToSeq<T>(o: Option<T>): seq<T> {
    if o.Some? then [o.value] else []
  }

  /** The members, in specifier order; the `k`-th specifier's identifier is
      `idents(base + k)`. */
  function ExpMembersOf(specs: seq<ExportSpec>, hasSrc: bool, idents: IdentSupply, base: nat): seq<ExpMember> {
    if specs == [] then []
    else OptionToSeq(ExpMemberOf(specs[0], hasSrc, idents(base))) + ExpMembersOf(specs[1..], hasSrc, idents, base + 1)
  }

  /** The bindings, in specifier order. */
  function ExpBindingsOf(specs: seq<ExportSpec>, hasSrc: bool, idents: IdentSupply, base: nat): seq<ExpBinding> {
    if specs == [] then []
    else OptionToSeq(ExpBindingOf(specs[0], hasSrc, idents(base))) + ExpBindingsOf(specs[1..], hasSrc, idents, base + 1)
  }

  /** What `export_named_as_exp` returns: nothing when no specifier contributes a member,
      otherwise a local export or a named re-export (as the declaration has a source). */
  function ExportNamedSpec(n: NamedExport, idents: IdentSupply): Option<ExpWithBindings> {
    var members := ExpMembersOf(n.specs, n.src.Some?, idents, 0);
    if members == [] then None
    else
      var exp := if n.src.None? then DefaultExp(members) else ReExportNamedExp(n.src.value, members);
      Some(ExpWithBindings(exp, ExpBindingsOf(n.specs, n.src.Some?, idents, 0)))
  }

  lemma {:induction false} ExpMembersAppend(specs: seq<ExportSpec>, spec: ExportSpec, hasSrc: bool, idents: IdentSupply, base: nat)
    ensures ExpMembersOf(specs + [spec], hasSrc, idents, base)
            == ExpMembersOf(specs, hasSrc, idents, base) + OptionToSeq(ExpMemberOf(spec, hasSrc, idents(base + |specs|)))
  {
    if specs == [] {
      assert specs + [spec] == [spec];
    } else {
      var all := specs + [spec];
      var tail := specs[1..];
      assert all[0] == specs[0] && all[1..] == tail + [spec];
      assert base + 1 + |tail| == base + |specs|;
      ExpMembersAppend(tail, spec, hasSrc, idents, base + 1);
      var head := OptionToSeq(ExpMemberOf(specs[0], hasSrc, idents(base)));
      var last := OptionToSeq(ExpMemberOf(spec, hasSrc, idents(base + |specs|)));
      assert ExpMembersOf(all, hasSrc, idents, base) == head + (ExpMembersOf(tail, hasSrc, idents, base + 1) + last);
      assert head + (ExpMembersOf(tail, hasSrc, idents, base + 1) + last) == (head + ExpMembersOf(tail, hasSrc, idents, base + 1)) + last;
    }
  }

  lemma {:induction false} ExpBindingsAppend(specs: seq<ExportSpec>, spec: ExportSpec, hasSrc: bool, idents: IdentSupply, base: nat)
    ensures ExpBindingsOf(specs + [spec], hasSrc, idents, base)
            == ExpBindingsOf(specs, hasSrc, idents, base) + OptionToSeq(ExpBindingOf(spec, hasSrc, idents(base + |specs|)))
  {
    if specs == [] {
      assert specs + [spec] == [spec];
    } else {
      var all := specs + [spec];
      var tail := specs[1..];
      assert all[0] == specs[0] && all[1..] == tail + [spec];
      assert base + 1 + |tail| == base + |specs|;
      ExpBindingsAppend(tail, spec, hasSrc, idents, base + 1);
      var head := OptionToSeq(ExpBindingOf(specs[0], hasSrc, idents(base)));
      var last := OptionToSeq(ExpBindingOf(spec, hasSrc, idents(base + |specs|)));
      assert ExpBindingsOf(all, hasSrc, idents, base) == head + (ExpBindingsOf(tail, hasSrc, idents, base + 1) + last);
      assert head + (ExpBindingsOf(tail, hasSrc, idents, base + 1) + last) == (head + ExpBindingsOf(tail, hasSrc, idents, base + 1)) + last;
    }
  }

  predicate IsTypeOnlyExport(spec: ExportSpec) {
    spec.ExportNamedSpec? && spec.isTypeOnly
  }

  function NamespaceMembers(members: seq<ExpMember>): nat {
    if members == [] then 0 else (if members[0].isNs then 1 else 0) + NamespaceMembers(members[1..])
  }

  /** The member list is empty exactly when every specifier is type-only. */
  lemma {:induction false} ExpMembersEmpty(specs: seq<ExportSpec>, hasSrc: bool, idents: IdentSupply, base: nat)
    ensures ExpMembersOf(specs, hasSrc, idents, base) == [] <==> forall i :: 0 <= i < |specs| ==> IsTypeOnlyExport(specs[i])
  {
    if specs != [] {
      ExpMembersEmpty(specs[1..], hasSrc, idents, base + 1);
      if ExpMembersOf(specs, hasSrc, idents, base) == [] {
        forall i | 0 <= i < |specs| ensures IsTypeOnlyExport(specs[i]) {
          if i > 0 { assert specs[i] == specs[1..][i - 1]; }
        }
      }
    }
  }

  /** In a local export every member's identifier, and every binding's, is one the
      supply handed out for this declaration's specifiers. */
  lemma {:induction false} LocalIdentsFromSupply(specs: seq<ExportSpec>, idents: IdentSupply, base: nat)
    ensures forall m :: m in ExpMembersOf(specs, false, idents, base) ==>
              exists k :: base <= k < base + |specs| && m.ident == idents(k)
    ensures forall b :: b in ExpBindingsOf(specs, false, idents, base) ==>
              exists k :: base <= k < base + |specs| && b.bindingIdent == idents(k)
  {
    if specs != [] {
      LocalIdentsFromSupply(specs[1..], idents, base + 1);
    }
  }

  /** In a local export there are as many bindings as non-namespace members. */
  lemma {:induction false} LocalBindingCount(specs: seq<ExportSpec>, idents: IdentSupply, base: nat)
    ensures |ExpBindingsOf(specs, false, idents, base)| + NamespaceMembers(ExpMembersOf(specs, false, idents, base))
            == |ExpMembersOf(specs, false, idents, base)|
  {
    if specs != [] {
      LocalBindingCount(specs[1..], idents, base + 1);
      NamespaceMembersAppend(OptionToSeq(ExpMemberOf(specs[0], false, idents(base))), ExpMembersOf(specs[1..], false, idents, base + 1));
    }
  }

  /** In a local export every non-namespace member's identifier is bound. */
  lemma {:induction false} LocalMembersBound(specs: seq<ExportSpec>, idents: IdentSupply, base: nat)
    ensures forall m :: m in ExpMembersOf(specs, false, idents, base) && !m.isNs ==>
              exists b :: b in ExpBindingsOf(specs, false, idents, base) && b.bindingIdent == m.ident
  {
    if specs != [] {
      LocalMembersBound(specs[1..], idents, base + 1);
      var headB := OptionToSeq(ExpBindingOf(specs[0], false, idents(base)));
      var bs0 := ExpBindingsOf(specs[1..], false, idents, base + 1);
      assert ExpBindingsOf(specs, false, idents, base) == headB + bs0;
    }
  }

  predicate DistinctMemberIdents(ms: seq<ExpMember>) {
    forall i, j :: 0 <= i < j < |ms| ==> ms[i].ident != ms[j].ident
  }

  predicate DistinctBindingIdents(bs: seq<ExpBinding>) {
    forall i, j :: 0 <= i < j < |bs| ==> bs[i].bindingIdent != bs[j].bindingIdent
  }

  /** Identifiers drawn for different specifiers differ, so no two entries of a
      list built from `idents` share one. */
  lemma {:induction false} LocalIdentsDistinct(specs: seq<ExportSpec>, idents: IdentSupply, base: nat)
    requires Injective(idents)
    ensures DistinctBindingIdents(ExpBindingsOf(specs, false, idents, base))
    ensures DistinctMemberIdents(ExpMembersOf(specs, false, idents, base))
  {
    if specs != [] {
      var tail := specs[1..];
      LocalIdentsDistinct(tail, idents, base + 1);
      LocalIdentsFromSupply(tail, idents, base + 1);
      var head := OptionToSeq(ExpMemberOf(specs[0], false, idents(base)));
      var headB := OptionToSeq(ExpBindingOf(specs[0], false, idents(base)));
      var ms0 := ExpMembersOf(tail, false, idents, base + 1);
      var bs0 := ExpBindingsOf(tail, false, idents, base + 1);
      var ms := ExpMembersOf(specs, false, idents, base);
      var bs := ExpBindingsOf(specs, false, idents, base);
      assert ms == head + ms0 && bs == headB + bs0;
      assert forall m :: m in head ==> m.ident == idents(base);
      assert forall b :: b in headB ==> b.bindingIdent == idents(base);
      forall j | 0 <= j < |bs0| ensures bs0[j].bindingIdent != idents(base) {
        assert bs0[j] in bs0;
        var k :| base + 1 <= k < base + 1 + |tail| && bs0[j].bindingIdent == idents(k);
      }
      forall j | 0 <= j < |ms0| ensures ms0[j].ident != idents(base) {
        assert ms0[j] in ms0;
        var k :| base + 1 <= k < base + 1 + |tail| && ms0[j].ident == idents(k);
      }
      forall i, j | 0 <= i < j < |bs| ensures bs[i].bindingIdent != bs[j].bindingIdent {
        assert bs[j] == bs0[j - |headB|];
        if i >= |headB| {
          assert bs[i] == bs0[i - |headB|];
          assert 0 <= i - |headB| < j - |headB| < |bs0|;
        } else {
          assert bs[i] == headB[i] && bs[i] in headB;
        }
      }
      forall i, j | 0 <= i < j < |ms| ensures ms[i].ident != ms[j].ident {
        assert ms[j] == ms0[j - |head|];
        if i >= |head| {
          assert ms[i] == ms0[i - |head|];
          assert 0 <= i - |head| < j - |head| < |ms0|;
        } else {
          assert ms[i] == head[i] && ms[i] in head;
        }
      }
    }
  }

  /** In a local export (no source) each member but a namespace one reads a binding
      of its own: there are as many bindings as non-namespace members, every such
      member's identifier is bound, and no two bindings (nor two members) share an
      identifier. */
  lemma LocalExportBindsEachMember(specs: seq<ExportSpec>, idents: IdentSupply)
    requires Injective(idents)
    ensures var ms := ExpMembersOf(specs, false, idents, 0);
      var bs := ExpBindingsOf(specs, false, idents, 0);
      && |bs| + NamespaceMembers(ms) == |ms|
      && (forall m :: m in ms && !m.isNs ==> exists b :: b in bs && b.bindingIdent == m.ident)
      && DistinctBindingIdents(bs)
      && DistinctMemberIdents(ms)
  {
    LocalBindingCount(specs, idents, 0);
    LocalMembersBound(specs, idents, 0);
    LocalIdentsDistinct(specs, idents, 0);
  }

  lemma {:induction false} NamespaceMembersAppend(a: seq<ExpMember>, b: seq<ExpMember>)
    ensures NamespaceMembers(a + b) == NamespaceMembers(a) + NamespaceMembers(b)
  {
    if a != [] {
      assert (a + b)[1..] == a[1..] + b;
      NamespaceMembersAppend(a[1..], b);
    } else {
      assert a + b == b;
    }
  }

  /** In a re-export (with a source) only default specifiers bind anything, each to
      its own fresh identifier, and named members keep the name they have in the
      source module. */
  lemma {:induction false} ReExportBindsOnlyDefaults(specs: seq<ExportSpec>, idents: IdentSupply, base: nat)
    ensures forall b :: b in ExpBindingsOf(specs, true, idents, base) ==>
      exists i :: 0 <= i < |specs| && specs[i].ExportDefaultSpec? && b == ExpBinding(idents(base + i), Id(specs[i].exportedIdent))
    ensures forall i :: 0 <= i < |specs| && specs[i].ExportNamedSpec? && !specs[i].isTypeOnly ==>
      ExpMemberOf(specs[i], true, idents(base + i)).value.ident == specs[i].orig.Atom()
  {
    if specs != [] {
      var tail := specs[1..];
      ReExportBindsOnlyDefaults(tail, idents, base + 1);
      var headB := OptionToSeq(ExpBindingOf(specs[0], true, idents(base)));
      var bs0 := ExpBindingsOf(tail, true, idents, base + 1);
      assert ExpBindingsOf(specs, true, idents, base) == headB + bs0;
      forall b | b in headB + bs0
        ensures exists i :: 0 <= i < |specs| && specs[i].ExportDefaultSpec? && b == ExpBinding(idents(base + i), Id(specs[i].exportedIdent))
      {
        if b in headB {
          assert specs[0].ExportDefaultSpec? && b == ExpBinding(idents(base + 0), Id(specs[0].exportedIdent));
        } else {
          var j :| 0 <= j < |tail| && tail[j].ExportDefaultSpec? && b == ExpBinding(idents(base + 1 + j), Id(tail[j].exportedIdent));
          assert specs[j + 1] == tail[j] && base + (j + 1) == base + 1 + j;
        }
      }
    }
  }

  /** `export_named_as_exp`: `None` iff only type-only specifiers are listed; a local
      export when there is no source and a re-export of that source otherwise. */
  lemma ExportNamedShape(n: NamedExport, idents: IdentSupply)
    ensures ExportNamedSpec(n, idents).None? <==> forall i :: 0 <= i < |n.specs| ==> IsTypeOnlyExport(n.specs[i])
    ensures ExportNamedSpec(n, idents).Some? ==>
      (ExportNamedSpec(n, idents).value.exp.DefaultExp? <==> n.src.None?)
      && (n.src.Some? ==> ExportNamedSpec(n, idents).value.exp.src == n.src.value)
  {
    ExpMembersEmpty(n.specs, n.src.Some?, idents, 0);
  }

  /** `export_named_as_exp`: one pass over the specifiers, collecting the members and,
      on the side, the bindings they need; `idents(i)` is the identifier
      `exp_binding_ident()` creates for the `i`-th specifier. */
  method ExportNamedAsExp(n: NamedExport, idents: IdentSupply) returns (r: Option<ExpWithBindings>)
    ensures r == ExportNamedSpec(n, idents)
  {
    var hasSrc := n.src.Some?;
    var members: seq<ExpMember> := [];
    var bindings: seq<ExpBinding> := [];
    var i := 0;
    while i < |n.specs|
      invariant 0 <= i <= |n.specs|
      invariant members == ExpMembersOf(n.specs[..i], hasSrc, idents, 0)
      invariant bindings == ExpBindingsOf(n.specs[..i], hasSrc, idents, 0)
    {
      var spec := n.specs[i];
      var x := idents(i);
      match spec {
      case ExportDefaultSpec(exported) =>
        bindings := bindings + [ExpBinding(x, Id(exported))];
        members := members + [ExpMember(x, "default", false)];
      case ExportNamedSpec(orig, exported, isTypeOnly) =>
        if !isTypeOnly {
          var name := if exported.Some? then exported.value.Atom() else orig.Atom();
          if !hasSrc {
            bindings := bindings + [ExpBinding(x, Id(orig.Atom()))];
            members := members + [ExpMember(x, name, false)];
          } else {
            members := members + [ExpMember(orig.Atom(), name, false)];
          }
        }
      case ExportNamespaceSpec(name) =>
        members := members + [ExpMember(x, name.Atom(), true)];
      }
      assert n.specs[..i + 1] == n.specs[..i] + [spec];
      ExpMembersAppend(n.specs[..i], spec, hasSrc, idents, 0);
      ExpBindingsAppend(n.specs[..i], spec, hasSrc, idents, 0);
      i := i + 1;
    }
    assert n.specs[..i] == n.specs;
    if members == [] {
      return None;
    }
    var exp := if n.src.None? then DefaultExp(members) else ReExportNamedExp(n.src.value, members);
    r := Some(ExpWithBindings(exp, bindings));
  }
}
