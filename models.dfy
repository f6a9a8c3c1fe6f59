/**
 * The transform's intermediate records: what an import binds, what an export
 * exposes, and how lists of them are turned into the generated requires, the
 * exports call and the declarations of the binding variables.
 */
module Models {
  import opened Wrappers
  import opened SwcAst
  import opened Phase
  import opened OHashMaps

  /** What one import specifier binds: `import def`, `import { a as b }`, `import * as ns`. */
  datatype ImportMember =
    | DefaultMember(ident: Atom)
    | NamedMember(ident: Atom, alias: Option<Atom>)
    | NamespaceMember(ident: Atom)
  {
    /** The local variable the member is bound to. */
    function Local(): Atom {
      if NamedMember? && alias.Some? then alias.value else ident
    }

    /** The export of the source module it reads (a namespace reads them all). */
    function ImportedName(): Option<Atom> {
      match this
      case DefaultMember(_) => Some("default")
      case NamedMember(ident, _) => Some(ident)
      case NamespaceMember(_) => None
    }
  }

  /** The members imported from one source. */
  datatype ModuleRef = ModuleRef(members: seq<ImportMember>)

  /** An exported value: a local identifier (`Actual`) or a binding variable holding
      the value of an export declaration (`Binding`). */
  datatype ExportMember =
    | Actual(ident: Atom, name: Option<Atom>)
    | Binding(bindIdent: Atom, exportName: Atom)
  {
    /** The name it is exported under. */
    function ExportedName(): Atom {
      if Actual? then name.GetOr(ident) else exportName
    }
  }

  /** A local named export, a named re-export or a re-export of everything. The
      `modIdent` of a re-export is the private identifier its source module is bound
      to; the private identifiers a conversion creates are supplied by its caller. */
  datatype ExportRef =
    | Named(members: seq<ExportMember>)
    | NamedReExport(modIdent: Atom, src: Atom, members: seq<ExportMember>)
    | ReExportAll(modIdent: Atom, src: Atom, alias: Option<Atom>)

  /** The parts of the generated module that come before and after the body. */
  datatype ExportsAst = ExportsAst(preBody: seq<ModuleItem>, postBody: seq<ModuleItem>)

  /** What an export declaration is split into. */
  datatype ExportDeclItem = ExportDeclItem(exportRef: ExportRef, exportStmt: ModuleItem, bindingStmt: ModuleItem)

  // Conversions from specifiers.

  /** `From<&Import*Specifier> for ImportMember`: the member binds the specifier's
      local name; a named specifier reads its imported name when that is an
      identifier and its local name otherwise. */
  function ImportMemberOf(spec: ImportSpec): (m: ImportMember)
    ensures m.Local() == spec.local
    ensures spec.ImportDefaultSpec? <==> m.DefaultMember?
    ensures spec.ImportStarSpec? <==> m.NamespaceMember?
    ensures spec.ImportDefaultSpec? ==> m.ImportedName() == Some("default")
    ensures spec.ImportNamedSpec? && spec.imported.Some? && spec.imported.value.NameIdent?
      ==> m.ImportedName() == Some(spec.imported.value.sym)
    ensures spec.ImportNamedSpec? && (spec.imported.None? || spec.imported.value.NameStr?)
      ==> m.ImportedName() == Some(spec.local)
  {
    match spec
    case ImportDefaultSpec(local) => DefaultMember(local)
    case ImportNamedSpec(local, imported, _) =>
      if imported.Some? && imported.value.NameIdent? then NamedMember(imported.value.sym, Some(local))
      else NamedMember(local, None)
    case ImportStarSpec(local) => NamespaceMember(local)
  }

  /** The export specifiers a conversion to `ExportMember` accepts: a string original
      name is not supported and panics. */
  predicate IdentOrigs(specs: seq<ExportSpec>) {
    forall i :: 0 <= i < |specs| && specs[i].ExportNamedSpec? && !specs[i].isTypeOnly ==> specs[i].orig.NameIdent?
  }

  /** `From<&ExportNamedSpecifier> for ExportMember`: an actual member exported under
      the exported name when that is an identifier, else under its own name. */
  function ExportMemberOf(spec: ExportSpec): (m: ExportMember)
    requires spec.ExportNamedSpec? && spec.orig.NameIdent?
    ensures m.Actual? && m.ident == spec.orig.sym
    ensures spec.exported.Some? && spec.exported.value.NameIdent? ==> m.ExportedName() == spec.exported.value.sym
    ensures spec.exported.None? || spec.exported.value.NameStr? ==> m.ExportedName() == spec.orig.sym
  {
    Actual(spec.orig.sym, if spec.exported.Some? && spec.exported.value.NameIdent? then Some(spec.exported.value.sym) else None)
  }


  /** The members `to_import_members` keeps: every specifier but a type-only named one. */
  function ImportMembersOf(specs: seq<ImportSpec>): seq<ImportMember> {
    if specs == [] then []
    else
      var init := ImportMembersOf(specs[..|specs| - 1]);
      var last := specs[|specs| - 1];
      if IsTypeOnlyImport(last) then init else init + [ImportMemberOf(last)]
  }

  /** `helpers::to_import_members`. */
  method ToImportMembers(specs: seq<ImportSpec>) returns (members: seq<ImportMember>)
    ensures members == ImportMembersOf(specs)
  {
    members := [];
    var i := 0;
    while i < |specs|
      invariant 0 <= i <= |specs|
      invariant members == ImportMembersOf(specs[..i])
    {
      assert specs[..i + 1][..i] == specs[..i];
      match specs[i] {
        case ImportNamedSpec(_, _, false) => members := members + [ImportMemberOf(specs[i])];
        case ImportStarSpec(_) => members := members + [ImportMemberOf(specs[i])];
        case ImportDefaultSpec(_) => members := members + [ImportMemberOf(specs[i])];
        case _ =>
      }
      i := i + 1;
    }
    assert specs[..i] == specs;
  }

  /** The kept members are the specifiers' own, in order: one per specifier that is
      not type-only, each bound to that specifier's local name. */
  lemma ImportMembersKeepOrder(specs: seq<ImportSpec>)
    ensures |ImportMembersOf(specs)| + |set i | 0 <= i < |specs| && IsTypeOnlyImport(specs[i])| == |specs|
    ensures forall m :: m in ImportMembersOf(specs) <==> exists i :: 0 <= i < |specs| && !IsTypeOnlyImport(specs[i]) && m == ImportMemberOf(specs[i])
  {
    ImportMembersCount(specs);
    ImportMembersFromSpecs(specs);
  }

  lemma {:induction false} ImportMembersCount(specs: seq<ImportSpec>)
    ensures |ImportMembersOf(specs)| + |set i | 0 <= i < |specs| && IsTypeOnlyImport(specs[i])| == |specs|
  {
    if specs != [] {
      var n := |specs| - 1;
      var init := specs[..n];
      ImportMembersCount(init);
      var s := set i | 0 <= i < |specs| && IsTypeOnlyImport(specs[i]);
      var s0 := set i | 0 <= i < n && IsTypeOnlyImport(init[i]);
      assert forall i :: 0 <= i < n ==> init[i] == specs[i];
      assert s == s0 + (if IsTypeOnlyImport(specs[n]) then {n} else {});
      assert n !in s0;
    }
  }

  lemma {:induction false} ImportMembersFromSpecs(specs: seq<ImportSpec>)
    ensures forall m :: m in ImportMembersOf(specs) <==> exists i :: 0 <= i < |specs| && !IsTypeOnlyImport(specs[i]) && m == ImportMemberOf(specs[i])
  {
    if specs != [] {
      var n := |specs| - 1;
      var init := specs[..n];
      ImportMembersFromSpecs(init);
      forall m | m in ImportMembersOf(specs)
        ensures exists i :: 0 <= i < |specs| && !IsTypeOnlyImport(specs[i]) && m == ImportMemberOf(specs[i])
      {
        if m in ImportMembersOf(init) {
          var i :| 0 <= i < n && !IsTypeOnlyImport(init[i]) && m == ImportMemberOf(init[i]);
          assert specs[i] == init[i];
        }
      }
      forall i | 0 <= i < |specs| && !IsTypeOnlyImport(specs[i])
        ensures ImportMemberOf(specs[i]) in ImportMembersOf(specs)
      {
        if i < n {
          assert init[i] == specs[i];
        }
      }
    }
  }

  /** The members `to_export_members` keeps: the named specifiers that are not type-only. */
  function ExportMembersOf(specs: seq<ExportSpec>): seq<ExportMember>
    requires IdentOrigs(specs)
  {
    if specs == [] then []
    else
      var init := ExportMembersOf(specs[..|specs| - 1]);
      var last := specs[|specs| - 1];
      if last.ExportNamedSpec? && !last.isTypeOnly then init + [ExportMemberOf(last)] else init
  }

  /** `helpers::to_export_members`. */
  method ToExportMembers(specs: seq<ExportSpec>) returns (members: seq<ExportMember>)
    requires IdentOrigs(specs)
    ensures members == ExportMembersOf(specs)
  {
    members := [];
    var i := 0;
    while i < |specs|
      invariant 0 <= i <= |specs|
      invariant members == ExportMembersOf(specs[..i])
    {
      assert specs[..i + 1][..i] == specs[..i];
      match specs[i] {
        case ExportNamedSpec(_, _, false) => members := members + [ExportMemberOf(specs[i])];
        case _ =>
      }
      i := i + 1;
    }
    assert specs[..i] == specs;
  }

  /** Every kept export member is an actual member exported under its specifier's
      name; default and namespace specifiers contribute none. */
  lemma {:induction false} ExportMembersAreNamed(specs: seq<ExportSpec>)
    requires IdentOrigs(specs)
    ensures forall m :: m in ExportMembersOf(specs) <==>
      exists i :: 0 <= i < |specs| && specs[i].ExportNamedSpec? && !specs[i].isTypeOnly && m == ExportMemberOf(specs[i])
    ensures forall m :: m in ExportMembersOf(specs) ==> m.Actual?
  {
    if specs != [] {
      var n := |specs| - 1;
      var init := specs[..n];
      assert IdentOrigs(init) by {
        forall i | 0 <= i < |init| && init[i].ExportNamedSpec? && !init[i].isTypeOnly ensures init[i].orig.NameIdent? {
          assert init[i] == specs[i];
        }
      }
      ExportMembersAreNamed(init);
      forall m | m in ExportMembersOf(specs)
        ensures exists i :: 0 <= i < |specs| && specs[i].ExportNamedSpec? && !specs[i].isTypeOnly && m == ExportMemberOf(specs[i])
      {
        if m in ExportMembersOf(init) {
          var i :| 0 <= i < n && init[i].ExportNamedSpec? && !init[i].isTypeOnly && m == ExportMemberOf(init[i]);
          assert specs[i] == init[i];
        }
      }
      forall i | 0 <= i < |specs| && specs[i].ExportNamedSpec? && !specs[i].isTypeOnly
        ensures ExportMemberOf(specs[i]) in ExportMembersOf(specs)
      {
        if i < n {
          assert init[i] == specs[i];
        }
      }
    }
  }

  /** `From<&NamedExport> for ExportRef`. With a source, the first specifier must
      exist (it is unwrapped); a namespace one makes the whole declaration an aliased
      re-export of everything, otherwise the named specifiers are re-exported. */
  function ExportRefOf(n: NamedExport, modIdent: Atom): (r: ExportRef)
    requires n.src.Some? ==> |n.specs| > 0
    requires n.src.None? || !n.specs[0].ExportNamespaceSpec? ==> IdentOrigs(n.specs)
    ensures r.Named? <==> n.src.None?
    ensures r.ReExportAll? <==> n.src.Some? && n.specs[0].ExportNamespaceSpec?
    ensures r.ReExportAll? ==> r == ReExportAll(modIdent, n.src.value, Some(n.specs[0].name.Atom()))
    ensures r.NamedReExport? ==> r.modIdent == modIdent && r.src == n.src.value
    ensures !r.ReExportAll? ==> r.members == ExportMembersOf(n.specs)
  {
    match n.src
    case Some(src) =>
      if n.specs[0].ExportNamespaceSpec? then ReExportAll(modIdent, src, Some(n.specs[0].name.Atom()))
      else NamedReExport(modIdent, src, ExportMembersOf(n.specs))
    case None => Named(ExportMembersOf(n.specs))
  }

  // Properties and declarators of export members.

  /** `From<…ExportMember> for PropOrSpread`: the exported name mapped to the local. */
  function PropOf(m: ExportMember): (p: Prop)
    ensures PropBinding(p) == Some((m.ExportedName(), if m.Actual? then m.ident else m.bindIdent))
  {
    KeyValue(m.ExportedName(), Id(if m.Actual? then m.ident else m.bindIdent))
  }

  /** `into_bind_prop`: the exported name mapped to the member read from the re-exported
      module's binding. */
  function BindPropOf(m: ExportMember, modIdent: Atom): (p: Prop)
    ensures p.KeyValue? && p.key == m.ExportedName()
    ensures p.value.Member? && p.value.obj == Id(modIdent)
    ensures p.value.prop == PropIdent(if m.Actual? then m.ident else p.key)
  {
    KeyValue(m.ExportedName(), MemberOf(Id(modIdent), if m.Actual? then m.ident else m.exportName))
  }

  /** A binding member's key is the name it is exported under; an actual member
      reads the same name from a re-exported module as it reads from scope, and is
      keyed by its alias when it has one and by its own name otherwise. */
  lemma ExportPropsAgree(m: ExportMember, modIdent: Atom)
    ensures PropOf(m).key == BindPropOf(m, modIdent).key == m.ExportedName()
    ensures m.Actual? ==> PropOf(m).key == (if m.name.Some? then m.name.value else m.ident)
    ensures m.Actual? ==> PropOf(m).value == Id(m.ident) && BindPropOf(m, modIdent).value == MemberOf(Id(modIdent), m.ident)
    ensures m.Binding? ==> PropOf(m) == KeyValue(m.exportName, Id(m.bindIdent))
  {
  }

  /** The property an export specifier ends up as, once converted, is keyed by the
      exported name and reads the original identifier. */
  lemma SpecifierPropKey(spec: ExportSpec)
    requires spec.ExportNamedSpec? && spec.orig.NameIdent?
    ensures PropOf(ExportMemberOf(spec)).key ==
      (if spec.exported.Some? && spec.exported.value.NameIdent? then spec.exported.value.sym else spec.orig.sym)
    ensures PropOf(ExportMemberOf(spec)).value == Id(spec.orig.sym)
  {
  }

  // Export declarations.

  /** `helpers::get_from_export_decl`, given what `get_expr_from_decl` returns for the
      declaration (its identifier and its value as an expression) and the private
      binding identifier: `__x = value`, `export { __x as ident }` and a binding
      member under `ident`. */
  function GetFromExportDecl(origIdent: Atom, declExpr: Expr, bindIdent: Atom): (item: ExportDeclItem)
    ensures item.exportRef == Named([Binding(bindIdent, origIdent)])
    ensures item.bindingStmt == StmtItem(ExprStmt(AssignIdent(bindIdent, declExpr)))
  {
    ExportDeclItem(
      Named([Binding(bindIdent, origIdent)]),
      NamedExports([ExportNamedSpec(NameIdent(bindIdent), Some(NameIdent(origIdent)), false)]),
      StmtItem(ExprStmt(AssignIdent(bindIdent, declExpr))))
  }

  /** The export statement and the export record agree: both export the binding
      variable under the declaration's own name. */
  lemma ExportDeclAgrees(origIdent: Atom, declExpr: Expr, bindIdent: Atom)
    ensures var item := GetFromExportDecl(origIdent, declExpr, bindIdent);
      && item.exportStmt.DeclItem? && item.exportStmt.moduleDecl.ExportNamed?
      && item.exportStmt.moduleDecl.named.src.None?
      && |item.exportStmt.moduleDecl.named.specs| == 1
      && item.exportStmt.moduleDecl.named.specs[0].exported == Some(NameIdent(item.exportRef.members[0].ExportedName()))
      && item.exportStmt.moduleDecl.named.specs[0].orig == NameIdent(item.exportRef.members[0].bindIdent)
  {
  }

  // Requires of the dependencies.

  /** `var pat = ctx.require('src');`. */
  function RequireItem(ctx: Atom, src: Atom, pat: Pat): ModuleItem {
    StmtItem(DeclRequireDeps(ctx, StrLit(src), pat))
  }

  /** The destructuring property of a default or named member. */
  function DepPatProp(m: ImportMember): PatProp
    requires !m.NamespaceMember?
  {
    match m
    case DefaultMember(ident) => KeyValuePat("default", ident)
    case NamedMember(ident, Some(alias)) => KeyValuePat(ident, alias)
    case NamedMember(ident, None) => AssignPat(ident)
  }

  /** The destructuring properties, one per default or named member, in order. */
  function DepPatProps(members: seq<ImportMember>): seq<PatProp> {
    if members == [] then []
    else
      var init := DepPatProps(members[..|members| - 1]);
      var last := members[|members| - 1];
      if last.NamespaceMember? then init else init + [DepPatProp(last)]
  }

  /** The namespace requires, one per namespace member, in order. */
  function NsRequires(ctx: Atom, src: Atom, members: seq<ImportMember>): seq<ModuleItem> {
    if members == [] then []
    else
      var init := NsRequires(ctx, src, members[..|members| - 1]);
      var last := members[|members| - 1];
      if last.NamespaceMember? then init + [RequireItem(ctx, src, PatIdent(last.ident))] else init
  }

  /** What `to_require_dep_stmts` returns: the namespace requires, then one
      destructuring require when there is anything to destructure. */
  function RequireDepStmts(ctx: Atom, src: Atom, members: seq<ImportMember>): seq<ModuleItem> {
    var props := DepPatProps(members);
    NsRequires(ctx, src, members) + (if props != [] then [RequireItem(ctx, src, PatObject(props))] else [])
  }

  /** `helpers::to_require_dep_stmts`. */
  method ToRequireDepStmts(ctx: Atom, src: Atom, moduleRef: ModuleRef) returns (stmts: seq<ModuleItem>)
    ensures stmts == RequireDepStmts(ctx, src, moduleRef.members)
  {
    var members := moduleRef.members;
    stmts := [];
    var depProps: seq<PatProp> := [];
    var i := 0;
    while i < |members|
      invariant 0 <= i <= |members|
      invariant stmts == NsRequires(ctx, src, members[..i])
      invariant depProps == DepPatProps(members[..i])
    {
      assert members[..i + 1][..i] == members[..i];
      match members[i] {
        case DefaultMember(ident) => depProps := depProps + [KeyValuePat("default", ident)];
        case NamedMember(ident, Some(alias)) => depProps := depProps + [KeyValuePat(ident, alias)];
        case NamedMember(ident, None) => depProps := depProps + [AssignPat(ident)];
        case NamespaceMember(ident) => stmts := stmts + [RequireItem(ctx, src, PatIdent(ident))];
      }
      i := i + 1;
    }
    assert members[..i] == members;
    if |depProps| > 0 {
      stmts := stmts + [RequireItem(ctx, src, PatObject(depProps))];
    }
  }

  /** The local names a generated `var` binds. */
  function PatPropLocal(p: PatProp): Atom {
    if p.KeyValuePat? then p.local else p.key
  }

  function PropsLocals(props: seq<PatProp>): set<Atom> {
    if props == [] then {} else PropsLocals(props[..|props| - 1]) + {PatPropLocal(props[|props| - 1])}
  }

  function PatNames(pat: Pat): set<Atom> {
    match pat
    case PatIdent(sym) => {sym}
    case PatObject(props) => PropsLocals(props)
  }

  function DeclsNames(decls: seq<VarDeclarator>): set<Atom> {
    if decls == [] then {} else DeclsNames(decls[..|decls| - 1]) + PatNames(decls[|decls| - 1].name)
  }

  function ItemNames(item: ModuleItem): set<Atom> {
    if item.StmtItem? && item.stmt.DeclStmt? && item.stmt.decl.VarDecl? then DeclsNames(item.stmt.decl.decls) else {}
  }

  function BoundNames(items: seq<ModuleItem>): set<Atom> {
    if items == [] then {} else BoundNames(items[..|items| - 1]) + ItemNames(items[|items| - 1])
  }

  /** Whether an item is `var … = ctx.require('src')`. */
  ghost predicate IsRequireOf(item: ModuleItem, ctx: Atom, src: Atom) {
    exists pat :: item == RequireItem(ctx, src, pat)
  }

  /** Whether an item is `var ns = ctx.require('src')`. */
  ghost predicate IsNsRequireOf(item: ModuleItem, ctx: Atom, src: Atom) {
    exists sym :: item == RequireItem(ctx, src, PatIdent(sym))
  }

  function NamespaceCount(members: seq<ImportMember>): nat {
    if members == [] then 0
    else NamespaceCount(members[..|members| - 1]) + (if members[|members| - 1].NamespaceMember? then 1 else 0)
  }

  lemma RequireItemNames(ctx: Atom, src: Atom, pat: Pat)
    ensures IsRequireOf(RequireItem(ctx, src, pat), ctx, src)
    ensures ItemNames(RequireItem(ctx, src, pat)) == PatNames(pat)
  {
    var decls := [VarDeclarator(pat, Some(RequireCall(ctx, StrLit(src))))];
    assert RequireItem(ctx, src, pat).stmt.decl.decls == decls;
    assert decls[..0] == [];
    assert DeclsNames(decls) == DeclsNames([]) + PatNames(pat);
  }

  lemma BoundNamesAppend(items: seq<ModuleItem>, item: ModuleItem)
    ensures BoundNames(items + [item]) == BoundNames(items) + ItemNames(item)
  {
    assert (items + [item])[..|items|] == items;
  }

  lemma {:induction false} NsRequiresShape(ctx: Atom, src: Atom, members: seq<ImportMember>)
    ensures |NsRequires(ctx, src, members)| == NamespaceCount(members)
    ensures forall item :: item in NsRequires(ctx, src, members) ==> IsNsRequireOf(item, ctx, src)
    ensures BoundNames(NsRequires(ctx, src, members)) == set m | m in members && m.NamespaceMember? :: m.Local()
  {
    if members != [] {
      var init := members[..|members| - 1];
      var last := members[|members| - 1];
      assert members == init + [last];
      NsRequiresShape(ctx, src, init);
      if last.NamespaceMember? {
        var item := RequireItem(ctx, src, PatIdent(last.ident));
        RequireItemNames(ctx, src, PatIdent(last.ident));
        assert IsNsRequireOf(item, ctx, src);
        BoundNamesAppend(NsRequires(ctx, src, init), item);
      }
    }
  }

  lemma {:induction false} DepPatPropsShape(members: seq<ImportMember>)
    ensures DepPatProps(members) != [] <==> exists m :: m in members && !m.NamespaceMember?
    ensures PropsLocals(DepPatProps(members)) == set m | m in members && !m.NamespaceMember? :: m.Local()
  {
    if members != [] {
      var init := members[..|members| - 1];
      var last := members[|members| - 1];
      assert members == init + [last];
      DepPatPropsShape(init);
      NonNsLocalsSnoc(init, last);
      if !last.NamespaceMember? {
        var props0 := DepPatProps(init);
        var p := DepPatProp(last);
        assert PatPropLocal(p) == last.Local();
        assert (props0 + [p])[..|props0|] == props0;
      }
    }
  }

  lemma NonNsLocalsSnoc(init: seq<ImportMember>, last: ImportMember)
    ensures (set m | m in init + [last] && !m.NamespaceMember? :: m.Local())
         == (set m | m in init && !m.NamespaceMember? :: m.Local())
            + (if last.NamespaceMember? then {} else {last.Local()})
  {
  }

  /** `to_require_dep_stmts`: one require per namespace member, then, last, a single
      destructuring require iff some member is a default or named one. Every
      statement requires the member's source, and together they bind exactly the
      members' local names. */
  lemma RequireDepStmtsShape(ctx: Atom, src: Atom, members: seq<ImportMember>)
    ensures var stmts := RequireDepStmts(ctx, src, members);
      && |stmts| == NamespaceCount(members) + (if exists m :: m in members && !m.NamespaceMember? then 1 else 0)
      && ((exists m :: m in members && !m.NamespaceMember?) <==>
          |stmts| > 0 && stmts[|stmts| - 1] == RequireItem(ctx, src, PatObject(DepPatProps(members))))
      && (forall item :: item in stmts ==> IsRequireOf(item, ctx, src))
      && BoundNames(stmts) == set m | m in members :: m.Local()
  {
    NsRequiresShape(ctx, src, members);
    DepPatPropsShape(members);
    LocalsSplit(members);
    var ns := NsRequires(ctx, src, members);
    var props := DepPatProps(members);
    var stmts := RequireDepStmts(ctx, src, members);
    NsRequiresAreRequires(ctx, src, ns);
    if props != [] {
      var item := RequireItem(ctx, src, PatObject(props));
      assert stmts == ns + [item];
      RequireItemNames(ctx, src, PatObject(props));
      BoundNamesAppend(ns, item);
    } else {
      assert stmts == ns;
      if |ns| > 0 {
        assert ns[|ns| - 1] in ns;
      }
    }
  }

  /** The members' locals are the namespace locals and the other locals. */
  lemma LocalsSplit(members: seq<ImportMember>)
    ensures (set m | m in members :: m.Local())
      == (set m | m in members && m.NamespaceMember? :: m.Local()) + (set m | m in members && !m.NamespaceMember? :: m.Local())
  {
  }

  /** A namespace require is a require of the same source. */
  lemma NsRequiresAreRequires(ctx: Atom, src: Atom, ns: seq<ModuleItem>)
    requires forall item :: item in ns ==> IsNsRequireOf(item, ctx, src)
    ensures forall item :: item in ns ==> IsRequireOf(item, ctx, src)
  {
    forall item | item in ns ensures IsRequireOf(item, ctx, src) {
      var sym :| item == RequireItem(ctx, src, PatIdent(sym));
      RequireItemNames(ctx, src, PatIdent(sym));
    }
  }

  /** What `deps_to_ast` returns: the requires of each source, in iteration order. */
  function DepsAst(ctx: Atom, deps: seq<(Atom, ModuleRef)>): seq<ModuleItem> {
    if deps == [] then []
    else
      var last := deps[|deps| - 1];
      DepsAst(ctx, deps[..|deps| - 1]) + RequireDepStmts(ctx, last.0, last.1.members)
  }

  /** `helpers::deps_to_ast`. */
  method DepsToAst(ctx: Atom, deps: OHashMap<Atom, ModuleRef>) returns (items: seq<ModuleItem>)
    requires deps.Valid()
    ensures items == DepsAst(ctx, deps.Iter())
  {
    var entries := deps.Iter();
    items := [];
    var i := 0;
    while i < |entries|
      invariant 0 <= i <= |entries|
      invariant items == DepsAst(ctx, entries[..i])
    {
      assert entries[..i + 1][..i] == entries[..i];
      var stmts := ToRequireDepStmts(ctx, entries[i].0, entries[i].1);
      items := items + stmts;
      i := i + 1;
    }
    assert entries[..i] == entries;
  }

  /** Every statement `deps_to_ast` emits requires one of the map's sources. */
  lemma {:induction false} DepsAstRequiresSources(ctx: Atom, deps: seq<(Atom, ModuleRef)>)
    ensures forall item :: item in DepsAst(ctx, deps) ==> exists k :: 0 <= k < |deps| && IsRequireOf(item, ctx, deps[k].0)
  {
    if deps != [] {
      var n := |deps| - 1;
      DepsAstRequiresSources(ctx, deps[..n]);
      RequireDepStmtsShape(ctx, deps[n].0, deps[n].1.members);
      forall item | item in DepsAst(ctx, deps) ensures exists k :: 0 <= k < |deps| && IsRequireOf(item, ctx, deps[k].0) {
        if item in DepsAst(ctx, deps[..n]) {
          var k :| 0 <= k < n && IsRequireOf(item, ctx, deps[..n][k].0);
          assert deps[k] == deps[..n][k];
        }
      }
    }
  }

  /** On a dependency map: each statement requires a source that was inserted. */
  lemma DepsToAstRequiresInserted(ctx: Atom, deps: OHashMap<Atom, ModuleRef>)
    requires deps.Valid()
    ensures forall item :: item in DepsAst(ctx, deps.Iter()) ==> exists src :: src in deps.entries && IsRequireOf(item, ctx, src)
  {
    DepsAstRequiresSources(ctx, deps.Iter());
    forall item | item in DepsAst(ctx, deps.Iter()) ensures exists src :: src in deps.entries && IsRequireOf(item, ctx, src) {
      var k :| 0 <= k < |deps.Iter()| && IsRequireOf(item, ctx, deps.Iter()[k].0);
      assert deps.Iter()[k].0 == deps.keys[k];
      assert deps.keys[k] in deps.entries;
    }
  }

  // The exports.

  /** A module binding read back from an item: `import * as name from 'src'` or
      `var name = ctx.require('src')` give `(name, src)`; anything else gives `None`. */
  function ModuleBindingOf(ctx: Atom, item: ModuleItem): Option<(Atom, Atom)> {
    if IsImport(item) then
      if |item.moduleDecl.specs| == 1 && item.moduleDecl.specs[0].ImportStarSpec? then
        Some((item.moduleDecl.specs[0].local, item.moduleDecl.src))
      else None
    else if item.StmtItem? && item.stmt.DeclStmt? && item.stmt.decl.VarDecl? && |item.stmt.decl.decls| == 1 then
      var d := item.stmt.decl.decls[0];
      if d.name.PatIdent? && d.init.Some? && d.init.value.Call? && d.init.value.callee == CalleeExpr(MemberOf(Id(ctx), "require"))
         && |d.init.value.args| == 1 && d.init.value.args[0].LitExpr? && d.init.value.args[0].lit.StrLit?
      then Some((d.name.sym, d.init.value.args[0].lit.value))
      else None
    else None
  }

  /** The binding a re-export's module gets: an import-star in the bundle phase, a
      require in the runtime phase (`get_binding_ast`). */
  function BindingAst(ctx: Atom, phase: ModulePhase, modIdent: Atom, src: Atom): (r: ModuleItem)
    ensures ModuleBindingOf(ctx, r) == Some((modIdent, src))
    ensures IsImport(r) <==> phase.Bundle?
  {
    match phase
    case Bundle => ImportStar(modIdent, src)
    case Runtime => RequireItem(ctx, src, PatIdent(modIdent))
  }

  /** The accumulators of `exports_to_ast`. */
  datatype ExportsState = ExportsState(preBody: seq<ModuleItem>, props: seq<Prop>, decls: seq<VarDeclarator>)

  /** The props and declarators of a local named export's members. */
  function MemberProps(members: seq<ExportMember>): seq<Prop> {
    if members == [] then [] else MemberProps(members[..|members| - 1]) + [PropOf(members[|members| - 1])]
  }

  function MemberDecls(members: seq<ExportMember>): seq<VarDeclarator> {
    if members == [] then []
    else
      var last := members[|members| - 1];
      MemberDecls(members[..|members| - 1]) + (if last.Binding? then [BareDeclarator(last.bindIdent)] else [])
  }

  function BindProps(members: seq<ExportMember>, modIdent: Atom): seq<Prop> {
    if members == [] then [] else BindProps(members[..|members| - 1], modIdent) + [BindPropOf(members[|members| - 1], modIdent)]
  }

  /** One export reference's effect on the accumulators. An unaliased re-export of
      everything is inserted at the front of the props. */
  function ExportStep(ctx: Atom, phase: ModulePhase, st: ExportsState, r: ExportRef): ExportsState {
    match r
    case Named(members) => st.(props := st.props + MemberProps(members), decls := st.decls + MemberDecls(members))
    case NamedReExport(modIdent, src, members) =>
      st.(preBody := st.preBody + [BindingAst(ctx, phase, modIdent, src)], props := st.props + BindProps(members, modIdent))
    case ReExportAll(modIdent, src, alias) =>
      var nsCall := NsExport(ctx, Id(modIdent));
      st.(preBody := st.preBody + [BindingAst(ctx, phase, modIdent, src)],
          props := if alias.Some? then st.props + [KeyValue(alias.value, nsCall)] else [Spread(nsCall)] + st.props)
  }

  function ExportsFold(ctx: Atom, phase: ModulePhase, exports: seq<ExportRef>): ExportsState {
    if exports == [] then ExportsState([], [], [])
    else ExportStep(ctx, phase, ExportsFold(ctx, phase, exports[..|exports| - 1]), exports[|exports| - 1])
  }

  /** What `exports_to_ast` returns. */
  function ExportsAstOf(ctx: Atom, exports: seq<ExportRef>, phase: ModulePhase): ExportsAst {
    var st := ExportsFold(ctx, phase, exports);
    ExportsAst(st.preBody, [StmtItem(ExprStmt(ExportsCall(ctx, st.props))), StmtItem(VarDeclStmt(st.decls))])
  }

  /** The inner loop over a local named export's members. */
  method AppendNamedMembers(props: seq<Prop>, decls: seq<VarDeclarator>, members: seq<ExportMember>)
    returns (props': seq<Prop>, decls': seq<VarDeclarator>)
    ensures props' == props + MemberProps(members)
    ensures decls' == decls + MemberDecls(members)
  {
    props', decls' := props, decls;
    var i := 0;
    while i < |members|
      invariant 0 <= i <= |members|
      invariant props' == props + MemberProps(members[..i])
      invariant decls' == decls + MemberDecls(members[..i])
    {
      assert members[..i + 1][..i] == members[..i];
      match members[i] {
        case Actual(_, _) =>
          props' := props' + [PropOf(members[i])];
        case Binding(bindIdent, _) =>
          props' := props' + [PropOf(members[i])];
          decls' := decls' + [BareDeclarator(bindIdent)];
      }
      i := i + 1;
    }
    assert members[..i] == members;
  }

  /** `helpers::exports_to_ast`. */
  method ExportsToAst(ctx: Atom, exports: seq<ExportRef>, phase: ModulePhase) returns (ast: ExportsAst)
    ensures ast == ExportsAstOf(ctx, exports, phase)
  {
    var preBody: seq<ModuleItem> := [];
    var props: seq<Prop> := [];
    var decls: seq<VarDeclarator> := [];
    var i := 0;
    while i < |exports|
      invariant 0 <= i <= |exports|
      invariant ExportsState(preBody, props, decls) == ExportsFold(ctx, phase, exports[..i])
    {
      assert exports[..i + 1][..i] == exports[..i];
      match exports[i] {
        case Named(members) =>
          props, decls := AppendNamedMembers(props, decls, members);
        case NamedReExport(modIdent, src, members) =>
          preBody := preBody + [BindingAst(ctx, phase, modIdent, src)];
          props := props + BindProps(members, modIdent);
        case ReExportAll(modIdent, src, alias) =>
          var nsCall := NsExport(ctx, Id(modIdent));
          preBody := preBody + [BindingAst(ctx, phase, modIdent, src)];
          match alias {
            case Some(name) => props := props + [KeyValue(name, nsCall)];
            case None => props := [Spread(nsCall)] + props;
          }
      }
      i := i + 1;
    }
    assert exports[..i] == exports;
    ast := ExportsAst(preBody, [StmtItem(ExprStmt(ExportsCall(ctx, props))), StmtItem(VarDeclStmt(decls))]);
  }

  /** The re-exports among the references, in order. */
  function ReExports(exports: seq<ExportRef>): seq<ExportRef> {
    if exports == [] then []
    else ReExports(exports[..|exports| - 1]) + (if exports[|exports| - 1].Named? then [] else [exports[|exports| - 1]])
  }

  function BindingAsts(ctx: Atom, phase: ModulePhase, reExports: seq<ExportRef>): seq<ModuleItem>
    requires forall r :: r in reExports ==> !r.Named?
  {
    seq(|reExports|, i requires 0 <= i < |reExports| => BindingAst(ctx, phase, reExports[i].modIdent, reExports[i].src))
  }

  /** The spread a reference puts at the front of the props: only an unaliased
      re-export of everything has one. */
  function FrontProps(ctx: Atom, r: ExportRef): seq<Prop> {
    if r.ReExportAll? && r.alias.None? then [Spread(NsExport(ctx, Id(r.modIdent)))] else []
  }

  /** The props a reference appends. */
  function BackProps(ctx: Atom, r: ExportRef): seq<Prop> {
    match r
    case Named(members) => MemberProps(members)
    case NamedReExport(modIdent, _, members) => BindProps(members, modIdent)
    case ReExportAll(modIdent, _, alias) =>
      if alias.Some? then [KeyValue(alias.value, NsExport(ctx, Id(modIdent)))] else []
  }

  /** The spreads of the unaliased re-exports of everything, in reference order. */
  function UnaliasedSpreads(ctx: Atom, exports: seq<ExportRef>): seq<Prop> {
    if exports == [] then []
    else UnaliasedSpreads(ctx, exports[..|exports| - 1]) + FrontProps(ctx, exports[|exports| - 1])
  }

  /** Every other prop, in reference order. */
  function AppendedProps(ctx: Atom, exports: seq<ExportRef>): seq<Prop> {
    if exports == [] then []
    else AppendedProps(ctx, exports[..|exports| - 1]) + BackProps(ctx, exports[|exports| - 1])
  }

  lemma StepProps(ctx: Atom, phase: ModulePhase, st: ExportsState, r: ExportRef)
    ensures ExportStep(ctx, phase, st, r).props == FrontProps(ctx, r) + st.props + BackProps(ctx, r)
  {
  }

  function Reverse<T>(s: seq<T>): seq<T> {
    if s == [] then [] else Reverse(s[1..]) + [s[0]]
  }

  lemma Regroup<T>(a: seq<T>, b: seq<T>, c: seq<T>, d: seq<T>)
    ensures a + (b + c) + d == (a + b) + (c + d)
  {
  }

  lemma {:induction false} ReverseSnoc<T>(s: seq<T>, x: T)
    ensures Reverse(s + [x]) == [x] + Reverse(s)
  {
    if s == [] {
      assert s + [x] == [x];
    } else {
      assert (s + [x])[1..] == s[1..] + [x];
      ReverseSnoc(s[1..], x);
    }
  }

  function BindingCount(exports: seq<ExportRef>): nat {
    if exports == [] then 0
    else
      var last := exports[|exports| - 1];
      BindingCount(exports[..|exports| - 1]) + (if last.Named? then |set i | 0 <= i < |last.members| && last.members[i].Binding?| else 0)
  }

  lemma MemberDeclsCount(members: seq<ExportMember>)
    ensures |MemberDecls(members)| == |set i | 0 <= i < |members| && members[i].Binding?|
    ensures |MemberProps(members)| == |members|
  {
    BindingDeclsCount(members);
    MemberPropsCount(members);
  }

  lemma {:induction false} BindingDeclsCount(members: seq<ExportMember>)
    ensures |MemberDecls(members)| == |set i | 0 <= i < |members| && members[i].Binding?|
  {
    if members != [] {
      var n := |members| - 1;
      var init := members[..n];
      BindingDeclsCount(init);
      var s := set i | 0 <= i < |members| && members[i].Binding?;
      var s0 := set i | 0 <= i < n && init[i].Binding?;
      assert forall i :: 0 <= i < n ==> init[i] == members[i];
      assert s == s0 + (if members[n].Binding? then {n} else {});
      assert n !in s0;
    }
  }

  lemma {:induction false} MemberPropsCount(members: seq<ExportMember>)
    ensures |MemberProps(members)| == |members|
  {
    if members != [] {
      MemberPropsCount(members[..|members| - 1]);
    }
  }

  /** `exports_to_ast` builds one pre-body item per re-export, in order. */
  lemma {:induction false} PreBodyPerReExport(ctx: Atom, exports: seq<ExportRef>, phase: ModulePhase)
    ensures forall r :: r in ReExports(exports) ==> !r.Named?
    ensures ExportsFold(ctx, phase, exports).preBody == BindingAsts(ctx, phase, ReExports(exports))
  {
    if exports != [] {
      var n := |exports| - 1;
      PreBodyPerReExport(ctx, exports[..n], phase);
      if exports[n].Named? {
        assert ReExports(exports) == ReExports(exports[..n]) + [];
      }
    }
  }

  /** `exports_to_ast` puts the spreads of the unaliased re-exports of everything at
      the front of the props in reverse order, and every other prop after them in order. */
  lemma {:induction false} PropsSpreadsFirstReversed(ctx: Atom, exports: seq<ExportRef>, phase: ModulePhase)
    ensures ExportsFold(ctx, phase, exports).props == Reverse(UnaliasedSpreads(ctx, exports)) + AppendedProps(ctx, exports)
  {
    if exports != [] {
      var n := |exports| - 1;
      var init := exports[..n];
      var last := exports[n];
      PropsSpreadsFirstReversed(ctx, init, phase);
      var st0 := ExportsFold(ctx, phase, init);
      StepProps(ctx, phase, st0, last);
      var u0 := UnaliasedSpreads(ctx, init);
      var front := FrontProps(ctx, last);
      if front == [] {
        assert u0 + front == u0;
      } else {
        ReverseSnoc(u0, front[0]);
      }
      assert Reverse(u0 + front) == front + Reverse(u0);
      calc {
        ExportsFold(ctx, phase, exports).props;
        front + st0.props + BackProps(ctx, last);
        front + (Reverse(u0) + AppendedProps(ctx, init)) + BackProps(ctx, last);
        { Regroup(front, Reverse(u0), AppendedProps(ctx, init), BackProps(ctx, last)); }
        (front + Reverse(u0)) + (AppendedProps(ctx, init) + BackProps(ctx, last));
        Reverse(u0 + front) + (AppendedProps(ctx, init) + BackProps(ctx, last));
        { assert UnaliasedSpreads(ctx, exports) == u0 + front;
          assert AppendedProps(ctx, exports) == AppendedProps(ctx, init) + BackProps(ctx, last); }
        Reverse(UnaliasedSpreads(ctx, exports)) + AppendedProps(ctx, exports);
      }
    }
  }

  /** `exports_to_ast` declares one variable per binding member, and its post body is
      exactly the exports call followed by that declaration. */
  lemma {:induction false} DeclsPerBinding(ctx: Atom, exports: seq<ExportRef>, phase: ModulePhase)
    ensures |ExportsFold(ctx, phase, exports).decls| == BindingCount(exports)
    ensures ExportsAstOf(ctx, exports, phase).postBody ==
      [StmtItem(ExprStmt(ExportsCall(ctx, ExportsFold(ctx, phase, exports).props))),
       StmtItem(VarDeclStmt(ExportsFold(ctx, phase, exports).decls))]
  {
    if exports != [] {
      var n := |exports| - 1;
      DeclsPerBinding(ctx, exports[..n], phase);
      if exports[n].Named? {
        MemberDeclsCount(exports[n].members);
      }
    }
  }

  /** In the bundle phase every pre-body item is an import, in the runtime phase none is. */
  lemma PreBodyFollowsPhase(ctx: Atom, exports: seq<ExportRef>, phase: ModulePhase)
    ensures forall item :: item in ExportsAstOf(ctx, exports, phase).preBody ==> (IsImport(item) <==> phase == Bundle)
    ensures |ExportsAstOf(ctx, exports, phase).preBody| == |ReExports(exports)|
  {
    PreBodyPerReExport(ctx, exports, phase);
  }
}
