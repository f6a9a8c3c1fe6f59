# global-modules, modelled in Dafny

global-modules lets bundled JavaScript modules be replaced one at a time while
the page runs. It has three parts, and this project models the core of each.

1. **The runtime module registry.** This is the loader installed on the global
   object.
   - The first registry (`setup`, `define`, `update`, `require`) keeps a table
     from module id to module record. A factory runs once when it is defined
     and again on every update, each time with a fresh exports object.
   - The later `Map`-keyed registry has `register`, `getContext` and `clear`.
     Each module gets a context whose `require` applies CommonJS/ES-module
     interop, and whose `exports(...)` merges definitions into the module's
     *current* exports object through `copyProps`.
   - `copyProps` is the merge rule: it adds live getters for own source keys,
     skips one excluded key, and never overwrites. Exports objects are
     recognised by their prototype (`createExports` / `isExports`).
     `interopDefaultExport` gives a CommonJS export a `default`.
2. **The SWC transform plugin.** It rewrites an ES module into a registered
   module.
   - It classifies import and export specifiers into member records and
     remaps import sources to module ids.
   - It keeps dependencies in an insertion-ordered map (`OHashMap`).
   - It lays out the output body in a fixed, phase-dependent order. The
     module builder, the transformer and the runtime, register and bundle
     delegates each do this in their own way.
   - `ModulePhase` decodes from an integer.
3. **The hot-update client of the demo.** A `HotContext` collects `accept` and
   `dispose` callbacks until it is locked. The client dispatches server
   messages: `reload`, or `update`, which runs the dispose callbacks, evaluates
   the body, then runs the accept callbacks.

Modelling choices:
- **JavaScript objects** are a heap from references to objects. An object has
  own slots (`Data(v)` or a live getter `Live(source, key)`), inherited
  enumerable names, a prototype tag (plain or exports), and a flag for a
  function object, to which `typeof` answers `'function'`.
- **Objects updated in place** are Dafny classes: the registries, the hot
  context, the ordered map, the collector, the builder, the transformer and
  the delegates. Their methods are proved against specification functions of
  the old state.
- **The swc AST** becomes small datatypes (`swc_ast.dfy`). Identifiers are
  strings. Every `private_ident!` call creates an identifier distinct from all
  others, whatever name it prints as (`__x`, `__mod`, `__d`, ...). Where one
  pass creates several (the export records, the collector's export
  declarations), they are drawn from a supply `IdentSupply`, `idents(k)` being
  the `k`-th, and the proofs about distinctness assume the supply is
  injective. A single identifier (`__ctx`, `__d`, a binding or module
  identifier) is a parameter.

Files:
- `js_objects.dfy`: the shared JavaScript object model.
- Runtime registry: `copy_props.dfy`, `exports_tag.dfy`, `interop.dfy`,
  `core_registry.dfy`, `global_registry.dfy`, `global_module.dfy`.
- Hot-update client: `hot.dfy`.
- Shared plugin models: `swc_ast.dfy`, `phase.dfy`, `ohashmap.dfy`,
  `swc_utils.dfy`, `models.dfy`, `buckets.dfy`.
- Collector, builder and transformer: `module_collector.dfy`, `collected.dfy`,
  `module_builder.dfy`, `transformer.dfy`.
- Delegates: `delegates.dfy`, `runtime_delegate.dfy`,
  `register_delegate.dfy`, `bundle_delegate.dfy`.

## Model

| member | source | states |
|---|---|---|
| CopyProps.Copied | packages/runtime/src/utils.ts:8-19 | the destination's names afterwards are its old names plus the source's own names minus `except`; old slots are untouched; every new slot is a live getter on the source |
| CopyProps.CopyPropsInto | packages/runtime/src/utils.ts:3-22 | the `for … in` loop, in any visiting order, leaves the heap as `CopyPropsSpec` says (only the destination changes) and returns the destination itself |
| CopyProps.CopiedNameReadsSource | packages/runtime/src/utils.ts:14-17 | reading a copied name on the destination yields whatever the source holds under that name at read time |
| CopyProps.CopyPropsIdempotent | packages/runtime/src/utils.ts:12 | copying the same source a second time leaves the heap unchanged |
| CopyProps.CopyPropsKeepsAndSkips | packages/runtime/src/utils.ts:9-12 | existing destination names keep their slots; `except` and names the source only inherits are never added |
| ExportsTag.Sentinel | packages/runtime/src/exports.ts:4 | the sentinel is an empty plain object literal |
| ExportsTag.CreateExports | packages/runtime/src/exports.ts:6-8 | allocates a new, empty object whose prototype is the sentinel; no other object changes |
| ExportsTag.IsExports | packages/runtime/src/exports.ts:10-12 | throws exactly for `undefined`/`null`; otherwise true iff the value is an object whose prototype is the sentinel |
| ExportsTag.CreatedExportsAreRecognised | packages/runtime/src/exports.ts:6-12 | a created exports object is recognised and has no own names; two calls return distinct objects |
| ExportsTag.PlainObjectsAreNotExports | packages/runtime/src/exports.ts:3-12 | plain object literals, including the sentinel itself, are not recognised |
| Interop.AssignDefaultToSelf | packages/runtime/src/interop-default-export.ts:8 | `Object.assign(e, {default: e})` sets `default` to the object itself; it fails exactly when `default` is a getter-only slot |
| Interop.InteropDefaultExport | packages/runtime/src/interop-default-export.ts:3-13 | reading `.default` of `undefined`/`null` throws; a defined `default` returns the exports unchanged with no heap change; otherwise the `typeof … === 'object'` test decides: `null` and non-function objects get a self `default`, functions and primitives are wrapped |
| Interop.ObjectGetsSelfDefault | packages/runtime/src/interop-default-export.ts:7-8 | a non-function object without `default` is returned as the same object; only its `default` slot changes, and it now points at the object itself |
| Interop.FunctionIsWrapped | packages/runtime/src/interop-default-export.ts:7-9 | a function without `default` is not an `'object'` to `typeof`, so it is wrapped in a new `{default: fn}` and no existing object changes |
| Interop.PrimitiveIsWrapped | packages/runtime/src/interop-default-export.ts:9 | a primitive is wrapped in a new `{default: value}`; no existing object changes |
| Interop.ResultHasDefault | packages/runtime/src/interopDefaultExport.ts:3-11 | in every branch that does not throw, the result has a defined `default` |
| Interop.InteropIdempotent | packages/runtime/src/interopDefaultExport.ts:3-11 | applying the interop to its own result returns that result and changes nothing |
| CoreRegistry.ModuleRegistry.constructor | packages/runtime/src/index.ts:35-36 | the registry starts empty |
| CoreRegistry.ModuleRegistry.Entry | packages/runtime/src/index.ts:45 | `deps[index]` is present iff the module is registered and the index is in range, and is that entry |
| CoreRegistry.ModuleRegistry.Require | packages/runtime/src/index.ts:38-60 | an unknown module gives "module not found"; the dependency entry is dispatched by kind: a number gives that module's current exports, an object itself, a function its call's result; anything else, or a missing entry, gives "invalid dependency" |
| CoreRegistry.ModuleRegistry.Define | packages/runtime/src/index.ts:62-79 | stores the factory under `id`, replacing any earlier entry, with a fresh exports object distinct from every earlier one and the given deps, and runs it exactly once while not yet ready; a factory that throws makes `define` throw and leaves the module not ready, any other marks it ready; afterwards `deps[i]` is the given entry and every numeric dependency on `id`, from any module, resolves to the new exports object |
| CoreRegistry.ModuleRegistry.Update | packages/runtime/src/index.ts:81-96 | an unknown id fails with "module not found" and changes nothing; otherwise it replaces deps and exports with a fresh object and runs the factory once more, throwing when the factory throws; `ready`, `id` and every other record stay as they were; afterwards every numeric dependency on `id` resolves to the new exports object |
| CoreRegistry.GlobalContext.Setup | packages/runtime/src/index.ts:22-33 | fails when the name is already present and changes nothing; otherwise installs a new, empty registry under that name and leaves the other registries alone |
| GlobalRegistry.Interop | packages/runtime/src/create-global-registry.ts:59-61 | tagged exports are returned as they are with no allocation; anything else is wrapped in a new `{default: exports}` |
| GlobalRegistry.Namespace | packages/runtime/src/create-global-registry.ts:64-71 | a new tagged object whose names are the source's own names minus `default`, each a live getter; nothing else changes |
| GlobalRegistry.ExportsInto | packages/runtime/src/create-global-registry.ts:49-54 | throws exactly when the target is not an object and there is something to define; otherwise the target gains the defined names, keeps its old slots and its tag, and each name it did not have reads the value it was defined with |
| GlobalRegistry.ExportsNeverOverwrite | packages/runtime/src/create-global-registry.ts:22-26 | a second `exports(...)` call cannot change a name an earlier call defined |
| GlobalRegistry.ExportsKeepTag | packages/runtime/src/create-global-registry.ts:49-54 | merging definitions keeps an exports object recognisable |
| GlobalRegistry.NamespaceReadsSource | packages/runtime/src/create-global-registry.ts:27-30 | a namespace read reaches the source's current value |
| GlobalRegistry.Registry.constructor | packages/runtime/src/create-global-registry.ts:10 | the table starts empty |
| GlobalRegistry.Registry.Lookup | packages/runtime/src/create-global-registry.ts:35-43 | `__get` fails with "module not found" exactly for unknown ids |
| GlobalRegistry.Registry.Register | packages/runtime/src/create-global-registry.ts:89-98 | a new module with a fresh, empty, tagged exports object, stored under `id` in place of any earlier one; other modules unchanged |
| GlobalRegistry.Registry.GetContext | packages/runtime/src/create-global-registry.ts:100-106 | an unknown id fails and changes nothing; a known one gets a fresh, empty, tagged exports object, and the same context is returned |
| GlobalRegistry.Registry.Clear | packages/runtime/src/create-global-registry.ts:108-110 | afterwards the table is empty and every lookup fails |
| GlobalRegistry.Registry.Require | packages/runtime/src/create-global-registry.ts:56-62 | an unknown id gives "module not found"; otherwise the interop of the module's current exports |
| GlobalRegistry.Registry.Ns | packages/runtime/src/create-global-registry.ts:64-71 | the namespace object, built by the copy loop, is what `Namespace` specifies |
| GlobalRegistry.Registry.Exports | packages/runtime/src/create-global-registry.ts:73-80 | merges into the exports the module holds at call time, not those it held when the context was made |
| GlobalRegistry.Registry.SetModuleExports | packages/runtime/src/create-global-registry.ts:82-86 | assigning `context.module.exports` changes only that module's exports |
| GlobalModule.ExportsAsWritten | packages/runtime/src/create-global-module.ts:37-42 | `__exports` as written: it throws unless the utilities module exports `__copyProps`, and otherwise is the merge |
| GlobalModule.NamespaceAsWritten | packages/runtime/src/create-global-module.ts:44-51 | `__ns` as written: it throws unless the utilities module exports `__copyProps`, and otherwise is the namespace |
| GlobalModule.AsWrittenCopierIsMissing | packages/runtime/src/create-global-module.ts:41 | as written, every `exports(...)` and `exports.ns(...)` throws, even where the intended merge succeeds |
| GlobalModule.Registry.constructor | packages/runtime/src/create-global-module.ts:11 | the table starts empty |
| GlobalModule.Registry.Lookup | packages/runtime/src/create-global-module.ts:15-23 | fails with "module not found" exactly for unknown ids |
| GlobalModule.Registry.Register | packages/runtime/src/create-global-module.ts:69-78 | a new module with fresh, empty, tagged exports, stored under `id`; other modules unchanged |
| GlobalModule.Registry.GetContext | packages/runtime/src/create-global-module.ts:80-87 | an unknown id fails and changes nothing; a known one gets fresh empty exports, and the same context is returned |
| GlobalModule.Registry.Clear | packages/runtime/src/create-global-module.ts:89-91 | afterwards every lookup fails |
| GlobalModule.Registry.Require | packages/runtime/src/create-global-module.ts:29-35 | tagged exports as they are, others wrapped as `{default: exports}` |
| GlobalModule.Registry.Ns | packages/runtime/src/create-global-module.ts:44-51 | the corrected `__ns`: a tagged copy of the source without `default` |
| GlobalModule.Registry.Exports | packages/runtime/src/create-global-module.ts:53-58 | the corrected `exports(...)`: merges into the module's current exports |
| GlobalModule.Registry.SetModuleExports | packages/runtime/src/create-global-module.ts:62-66 | assigning `context.module.exports` changes only that module |
| Hot.HotContext.constructor | demo/src/bundler/runtime/hot-context.js:1-9 | the given id, unlocked, no callbacks (the same class is in `index.js`:10-18) |
| Hot.HotContext.Accept | demo/src/bundler/runtime/hot-context.js:11-14 | appends the callback only while unlocked; id, lock and dispose callbacks are unchanged |
| Hot.HotContext.Dispose | demo/src/bundler/runtime/hot-context.js:16-19 | appends the callback only while unlocked; id, lock and accept callbacks are unchanged |
| Hot.HotContext.Lock | demo/src/bundler/runtime/hot-context.js:21-23 | locked afterwards (idempotent); nothing else changes, and no method unlocks |
| Hot.NewHot | demo/src/bundler/runtime/hot-context.js:26 | every call returns a new, unlocked context with no callbacks |
| Hot.RunCallbacks | demo/src/bundler/runtime/index.js:99 | callbacks run in order, each with the same argument, until one throws; an undefined callback throws a `TypeError`, a throwing callback's own exception propagates; all run when none throws |
| Hot.RunCallbacksInOrder | demo/src/bundler/runtime/index.js:99 | event `i` of the run is the call of the `i`-th callback, and every call before the last returned normally |
| Hot.RunCallbacksPassIff | demo/src/bundler/runtime/index.js:99 | the run passes iff every callback is defined and none throws |
| Hot.RunCallbacksStop | demo/src/bundler/runtime/index.js:99 | a failing run either fails with a `TypeError` at the first undefined callback, which is not called, or fails with the callback's own exception right after the call of the first callback that throws |
| Hot.RunCallbackList | demo/src/bundler/runtime/index.js:99-101 | the `forEach` loop produces exactly the run `RunCallbacks` specifies |
| Hot.HandleModuleUpdate | demo/src/bundler/runtime/index.js:91-102 | produces exactly the run `UpdateRun` specifies |
| Hot.HandleMessage | demo/src/bundler/runtime/index.js:52-85 | produces exactly `MessageEvents`: reload, update (with an error logged on failure), or nothing |
| Hot.ReloadOnlyOnReloadMessage | demo/src/bundler/runtime/index.js:62-82 | the page reloads iff the message is `reload`; a failed update is only logged |
| Hot.UpdateOrder | demo/src/bundler/runtime/index.js:96-101 | a successful update calls dispose with no argument, then evaluates the body, then calls accept with `{body}` |
| Hot.NoDisposeMeansNoEvaluation | demo/src/bundler/runtime/index.js:92-99 | a context without `dispose` makes the update throw before the body is evaluated; the error is only logged |
| Phase.Discriminant | packages/swc-plugin/transform/src/phase.rs:2-5 | the discriminant is 0 or 1 |
| Phase.FromU32 | packages/swc-plugin/transform/src/phase.rs:7-15 | 0 decodes to `Bundle` and 1 to `Runtime`, both directions; any other value panics (precondition) |
| Phase.FromU32RoundTrip | packages/swc-plugin/transform/src/phase.rs:1-15 | decoding a discriminant gives the phase back, and encoding a valid value gives the value back |
| OHashMaps.IterListsEveryKey | packages/swc-plugin/transform/src/utils.rs:943-947 | when every listed key is held, `iter` lists each key once, in list order, with its current value |
| OHashMaps.InsertAllListsKeysOnce | packages/swc-plugin/transform/src/utils.rs:936-941 | after any insertions the key list has no duplicates and holds exactly the inserted keys |
| OHashMaps.InsertAllFirstInsertionOrder | packages/swc-plugin/transform/src/utils.rs:936-941 | one key is listed before another only if it was first inserted earlier |
| OHashMaps.InsertAllKeepsLatestValue | packages/swc-plugin/transform/src/utils.rs:940 | each key holds the value of its last insertion |
| OHashMaps.InsertAllStep | packages/swc-plugin/transform/src/utils.rs:936-941 | one more insertion changes the fold as `Insert` changes the map |
| OHashMaps.OHashMap.constructor | packages/swc-plugin/transform/src/utils.rs:950-957 | the default map is empty |
| OHashMaps.OHashMap.Get | packages/swc-plugin/transform/src/utils.rs:932-934 | `Some` iff the key was inserted, holding its value |
| OHashMaps.OHashMap.SetExisting | packages/swc-plugin/transform/src/utils.rs:932-934 | a write through `get_mut` changes the value, not the order |
| OHashMaps.OHashMap.Insert | packages/swc-plugin/transform/src/utils.rs:936-941 | the key is appended to the order on its first insertion only; the value is replaced |
| OHashMaps.OHashMap.Iter | packages/swc-plugin/transform/src/utils.rs:943-947 | every key once, in first-insertion order, with its latest value |
| SwcUtils.GetSrcLit | packages/swc-plugin/transform/src/utils.rs:449-468 | a string source maps to its id when the map has one and is kept otherwise; any other literal is reported and becomes `null` |
| SwcUtils.GetSrcLitSettles | packages/swc-plugin/transform/src/utils.rs:449-459 | remapping is idempotent when no id is itself a mapped source |
| SwcUtils.GetExprFromDefaultDecl | packages/swc-plugin/transform/src/utils.rs:410-425 | a default class or function becomes that expression; a TypeScript interface is reported and becomes an invalid expression |
| SwcUtils.GetExprFromMemberProp | packages/swc-plugin/transform/src/utils.rs:470-489 | `.name` becomes the string `'name'`; a computed key is kept |
| SwcUtils.ToBindingModuleFromAssignExpr | packages/swc-plugin/transform/src/utils.rs:253-307 | `Some` iff the operator is plain `=` and the target is an unresolved `exports.X`, `module.exports` or `module.exports.X`; the right side is kept |
| SwcUtils.CjsAssignmentsRebind | packages/swc-plugin/transform/src/utils.rs:164-251 | each CommonJS target form becomes the matching `ctx.module.exports[.X]`; a local `exports` is left alone |
| SwcUtils.DepMemberOf | packages/swc-plugin/transform/src/utils.rs:497-517 | none exactly for a type-only named specifier; otherwise a member bound to the specifier's local; a namespace member exactly for `* as x`, with no name; a default import reads `default`; a named import reads its imported name when one is written |
| SwcUtils.DepMembersOf | packages/swc-plugin/transform/src/utils.rs:494-518 | empty iff every specifier is type-only; each member comes from a specifier |
| SwcUtils.DepMembersKeepOrder | packages/swc-plugin/transform/src/utils.rs:494-518 | there is one member per specifier that is not type-only, and the `k`-th member is the one of the `k`-th such specifier |
| SwcUtils.ImportAsDep | packages/swc-plugin/transform/src/utils.rs:492-525 | `None` iff no specifier survives; otherwise the source with the surviving members |
| SwcUtils.ExpMembersEmpty | packages/swc-plugin/transform/src/utils.rs:634-716 | the member list is empty exactly when every specifier is type-only |
| SwcUtils.LocalExportBindsEachMember | packages/swc-plugin/transform/src/utils.rs:634-716 | without a source, given identifiers that are all distinct (each `private_ident!` is fresh): there are as many bindings as non-namespace members, every non-namespace member reads a binding, and no two bindings and no two members share an identifier |
| SwcUtils.LocalIdentsFromSupply | packages/swc-plugin/transform/src/utils.rs:634-716 | every identifier a local export's members and bindings use was created for one of its own specifiers |
| SwcUtils.LocalBindingCount | packages/swc-plugin/transform/src/utils.rs:634-716 | a local export has as many bindings as non-namespace members |
| SwcUtils.LocalMembersBound | packages/swc-plugin/transform/src/utils.rs:634-716 | in a local export every non-namespace member's identifier is bound |
| SwcUtils.LocalIdentsDistinct | packages/swc-plugin/transform/src/utils.rs:634-716 | with fresh identifiers, no two bindings and no two members of a local export share an identifier |
| SwcUtils.ReExportBindsOnlyDefaults | packages/swc-plugin/transform/src/utils.rs:634-716 | with a source, only default specifiers push bindings, each binding the identifier created for that specifier to the exported local; named members keep their original name |
| SwcUtils.ExportNamedShape | packages/swc-plugin/transform/src/utils.rs:634-716 | `None` iff only type-only specifiers are listed; a local export without a source, otherwise a re-export of that source |
| SwcUtils.ExportNamedAsExp | packages/swc-plugin/transform/src/utils.rs:634-716 | the loop over the specifiers computes exactly `ExportNamedSpec` |
| Models.ImportMemberOf | packages/swc-plugin/transform/src/model_helpers.rs:7-28 | a member binds the specifier's local; default to `Default` reading `default`, namespace to `Namespace`, a named identifier import keeps its imported name |
| Models.ExportMemberOf | packages/swc-plugin/transform/src/model_helpers.rs:31-45 | an `Actual` member of the original identifier, exported under the alias when it is an identifier, else under its own name; a string original panics (precondition) |
| Models.ToImportMembers | packages/swc-plugin/transform/src/models.rs:423-439 | the loop keeps exactly `ImportMembersOf` |
| Models.ImportMembersKeepOrder | packages/swc-plugin/transform/src/models.rs:423-439 | one member per non-type-only specifier, and each is that specifier's member |
| Models.ToExportMembers | packages/swc-plugin/transform/src/models.rs:442-456 | the loop keeps exactly `ExportMembersOf` |
| Models.ExportMembersAreNamed | packages/swc-plugin/transform/src/models.rs:442-456 | the members are exactly those of the non-type-only named specifiers, all `Actual` |
| Models.ExportRefOf | packages/swc-plugin/transform/src/models.rs:132-172 | no source gives `Named`; a source with a namespace first specifier gives `ReExportAll` with that alias; otherwise `NamedReExport`, with the converted members |
| Models.ExportPropsAgree | packages/swc-plugin/transform/src/models.rs:228-290 | a member's prop and bind-prop are keyed by its export name (alias, else identifier), reading the local or the module's member |
| Models.PropOf | packages/swc-plugin/transform/src/models.rs:240-283 | the property maps the exported name to the member's local: the identifier of an actual member, the binding variable of a binding member |
| Models.BindPropOf | packages/swc-plugin/transform/src/models.rs:228-277 | the property is keyed by the exported name and reads a property of the re-exported module: the actual member's own name, or the binding member's exported name |
| Models.BindingAst | packages/swc-plugin/transform/src/models.rs:358-366 | binds the re-export's module identifier to its source: an `import * as` exactly in the bundle phase, `var mod = ctx.require(src)` in the runtime phase |
| Models.SpecifierPropKey | packages/swc-plugin/transform/src/models.rs:240-245 | a converted specifier's prop is keyed by its export name and reads the original identifier |
| Models.GetFromExportDecl | packages/swc-plugin/transform/src/models.rs:383-420 | one binding export named after the declaration, and the statement assigning the declaration to the binding variable |
| Models.ExportDeclAgrees | packages/swc-plugin/transform/src/models.rs:399-416 | the export statement exports the binding variable under the declaration's name, as the export record does |
| Models.ToRequireDepStmts | packages/swc-plugin/transform/src/models.rs:466-525 | the loop computes exactly `RequireDepStmts` |
| Models.RequireItemNames | packages/swc-plugin/transform/src/models.rs:466-525 | a generated require statement requires its source and binds exactly its pattern's names |
| Models.NsRequiresShape | packages/swc-plugin/transform/src/models.rs:466-525 | one require per namespace member, binding exactly the namespace locals |
| Models.DepPatPropsShape | packages/swc-plugin/transform/src/models.rs:466-525 | the destructuring is non-empty iff some member is default or named, and binds exactly their locals |
| Models.RequireDepStmtsShape | packages/swc-plugin/transform/src/models.rs:466-525 | namespace requires, then one destructuring require last iff some default/named member exists; every statement requires the source, and together they bind every member's local |
| Models.DepsToAst | packages/swc-plugin/transform/src/models.rs:528-535 | the requires of each source, concatenated in the map's iteration order |
| Models.DepsAstRequiresSources | packages/swc-plugin/transform/src/models.rs:528-535 | every emitted statement requires one of the listed sources |
| Models.DepsToAstRequiresInserted | packages/swc-plugin/transform/src/models.rs:528-535 | every emitted statement requires a source inserted in the map |
| Models.AppendNamedMembers | packages/swc-plugin/transform/src/models.rs:548-557 | each member adds one prop; a binding member also adds one declarator |
| Models.ExportsToAst | packages/swc-plugin/transform/src/models.rs:538-601 | the loop over the export records computes exactly `ExportsAstOf` |
| Models.MemberDeclsCount | packages/swc-plugin/transform/src/models.rs:548-557 | one prop per member; one declarator per binding member |
| Models.PreBodyPerReExport | packages/swc-plugin/transform/src/models.rs:559-576 | exactly one pre-body binding per re-export, in order |
| Models.PropsSpreadsFirstReversed | packages/swc-plugin/transform/src/models.rs:572-582 | the unaliased re-export-all spreads come first in reverse order; all other props follow in order |
| Models.DeclsPerBinding | packages/swc-plugin/transform/src/models.rs:585-595 | one declarator per binding member; the post body is exactly the exports call and then the var declaration |
| Models.PreBodyFollowsPhase | packages/swc-plugin/transform/src/models.rs:315-366 | in the bundle phase every pre-body item is an import, in the runtime phase none is; one per re-export |
| ModuleCollection.ImportMemberFor | packages/swc-plugin/transform/src/module_collector.rs:270-293 | none iff type-only; the member binds the specifier's local; namespace iff star; a default reads `default` |
| ModuleCollection.ImportMembersBindLocals | packages/swc-plugin/transform/src/module_collector.rs:267-296 | each member comes from a non-type-only specifier, in order |
| ModuleCollection.ImportMemberAgrees | packages/swc-plugin/transform/src/module_collector.rs:267-296 | the collector's member and the `ImportMember` conversion bind the same local to the same imported name |
| ModuleCollection.StrArg | packages/swc-plugin/transform/src/module_collector.rs:417-419 | the first argument's string, when it is a string literal |
| ModuleCollection.RequireExpr | packages/swc-plugin/transform/src/module_collector.rs:255-265 | a call of the private require function with the source string |
| ModuleCollection.VisitExpr | packages/swc-plugin/transform/src/module_collector.rs:402-456 | a `require('src')`/`import('src', …)` is replaced by `req('src')` and recorded once, under `src`, as a require or dynamic-import reference; with a non-string argument the visit panics; every record is the call it was found at |
| ModuleCollection.VisitExprRecords | packages/swc-plugin/transform/src/module_collector.rs:402-456 | the records of a visit are exactly the reached `require`/`import()` calls with a string argument, in visiting order, and the visit panics exactly when a reached call has another argument |
| ModuleCollection.VisitStmtsRecords | packages/swc-plugin/transform/src/module_collector.rs:314-320 | the same for a statement list: one record per reached call, in statement order |
| ModuleCollection.CallsAppend | packages/swc-plugin/transform/src/module_collector.rs:314-320 | the records of two call lists in a row are the first's followed by the second's, and a panic in either is a panic of both |
| ModuleCollection.VisitRecordsEveryCall | packages/swc-plugin/transform/src/module_collector.rs:402-456 | no reached `require('src')`/`import('src')` is missed: its record is among the visit's |
| ModuleCollection.VisitStmts | packages/swc-plugin/transform/src/module_collector.rs:314-320 | each statement is rewritten on its own, in place; the records are the first statement's followed by the rest's, and the list panics iff one of its statements does |
| ModuleCollection.VisitExprs | packages/swc-plugin/transform/src/module_collector.rs:402-456 | each expression of a list is rewritten on its own, in place |
| ModuleCollection.VisitExprTwice | packages/swc-plugin/transform/src/module_collector.rs:424-447 | visiting the output again records and changes nothing |
| ModuleCollection.VisitStmtsTwice | packages/swc-plugin/transform/src/module_collector.rs:314-320 | visiting rewritten statements again records and changes nothing |
| ModuleCollection.ApplyCapturesRecords | packages/swc-plugin/transform/src/module_collector.rs:420-446 | recording adds exactly the recorded sources, each holding its call; other sources are unchanged |
| ModuleCollection.MergeImport | packages/swc-plugin/transform/src/module_collector.rs:326-337 | the source now holds an import whose members are the earlier import's members of that source, if any, followed by the new ones; other sources are unchanged |
| ModuleCollection.CollectItemsInPlace | packages/swc-plugin/transform/src/module_collector.rs:313-400 | the items keep their number and order; imports stay; each export declaration becomes, in its place, an assignment of its value to the identifier created for it |
| ModuleCollection.ImportsGroupBySource | packages/swc-plugin/transform/src/module_collector.rs:326-337 | a source is recorded iff some import names it, holding the members of all its imports in order |
| ModuleCollection.ToDepObj | packages/swc-plugin/transform/src/module_collector.rs:175-202 | a getter returning one property per imported member (key and local); a `require`/`import()` getter returns the original call |
| ModuleCollection.ToRequireDep | packages/swc-plugin/transform/src/module_collector.rs:211-253 | `Some` iff the entry is an import |
| ModuleCollection.RequireMatchesDepObj | packages/swc-plugin/transform/src/module_collector.rs:175-253 | the require destructures exactly the keys and locals of the dependency object, in order |
| ModuleCollection.DepProps | packages/swc-plugin/transform/src/module_collector.rs:143-163 | one dependency property per source, in order |
| ModuleCollection.RequireStmtsPerImport | packages/swc-plugin/transform/src/module_collector.rs:143-163 | one require per imported source only, in order |
| ModuleCollection.ModuleCollector.constructor | packages/swc-plugin/transform/src/module_collector.rs:299-308 | no sources collected yet |
| ModuleCollection.ModuleCollector.ToImportMembers | packages/swc-plugin/transform/src/module_collector.rs:267-296 | the loop computes exactly `ImportMembersOf` |
| ModuleCollection.ModuleCollector.Record | packages/swc-plugin/transform/src/module_collector.rs:420-446 | one `insert` per record, as `ApplyCaptures` says |
| ModuleCollection.ModuleCollector.VisitMutExpr | packages/swc-plugin/transform/src/module_collector.rs:402-456 | rewrites the expression as `VisitExpr` says; `mods` takes the records of the reached calls in visiting order, so every reached `require('src')`/`import('src')` leaves `src` in `mods` |
| ModuleCollection.ModuleCollector.VisitModuleItems | packages/swc-plugin/transform/src/module_collector.rs:313-400 | the loop computes exactly `CollectItems` |
| ModuleCollection.ModuleCollector.GetDepsAst | packages/swc-plugin/transform/src/module_collector.rs:139-166 | the deps object with one property per source, and one require per imported source |
| Buckets.BucketOf | packages/swc-plugin/transform/src/module_builder.rs:217-224 | imports go to imports, other module declarations to exports; empty statements are dropped iff they are not kept |
| Buckets.SelectMembers | packages/swc-plugin/transform/src/module_builder.rs:217-224 | an item is selected iff it is in the input and belongs to the bucket |
| Buckets.SelectPartition | packages/swc-plugin/transform/src/module_builder.rs:217-224 | every item lands in exactly one bucket (multiset equality) |
| Buckets.NothingDropped | packages/swc-plugin/transform/src/delegate/register_delegate.rs:42-48 | with empty statements kept, nothing is dropped |
| Buckets.SelectKinds | packages/swc-plugin/transform/src/module_builder.rs:217-224 | the statement bucket holds statements, the import bucket imports, the export bucket other declarations |
| Collected.BindingsSeqStmt | packages/swc-plugin/transform/src/module_builder.rs:161-178 | one sequence statement with one assignment per binding, in order |
| Collected.ReExports | packages/swc-plugin/transform/src/transformer.rs:122-148 | the re-exports among the exports, in order |
| Collected.ReExportImports | packages/swc-plugin/transform/src/transformer.rs:134-143 | every re-export import is an import declaration |
| Collected.ReExportImportsAndRequires | packages/swc-plugin/transform/src/module_builder.rs:120-152 | each re-export adds one import and one require, binding the same module identifier from the same source |
| Collected.LocalOnlyExports | packages/swc-plugin/transform/src/module_builder.rs:120-152 | local exports add no import and no require |
| ModuleBuilding.DepRequires | packages/swc-plugin/transform/src/module_builder.rs:88-117 | at most one require per dependency |
| ModuleBuilding.DepRequiresPerDep | packages/swc-plugin/transform/src/module_builder.rs:88-117 | each base dependency gets its destructuring require, and every require comes from a base dependency |
| ModuleBuilding.ExtraStmts | packages/swc-plugin/transform/src/module_builder.rs:187-206 | the binding statement first if any; the exports call iff there are props; the var declaration last iff there are declarators |
| ModuleBuilding.RegisterConst | packages/swc-plugin/transform/src/module_builder.rs:212-215 | a `const` declaration of the context identifier from `global.__modules.register` with the module id as a string |
| ModuleBuilding.RuntimeModuleIsScript | packages/swc-plugin/transform/src/module_builder.rs:234-243 | the runtime body starts with the context, holds statements only, and has `1 + requires + statements + extra` items |
| ModuleBuilding.ModuleKeepsItems | packages/swc-plugin/transform/src/module_builder.rs:244-268 | the body keeps every non-empty original item, puts every import before the context, and has the counted size |
| ModuleBuilding.ScriptKeepsStatements | packages/swc-plugin/transform/src/module_builder.rs:272-326 | the context, the requires, the script unchanged in one piece, then the extras; `size + 1` items |
| ModuleBuilding.ModuleBuilder.constructor | packages/swc-plugin/transform/src/module_builder.rs:68-78 | nothing collected yet |
| ModuleBuilding.ModuleBuilder.CollectDeps | packages/swc-plugin/transform/src/module_builder.rs:88-117 | appends `DepRequires`; nothing else changes |
| ModuleBuilding.ModuleBuilder.CollectExps | packages/swc-plugin/transform/src/module_builder.rs:120-152 | appends the re-export imports and requires, and the local props, declarators and specifiers in order |
| ModuleBuilding.ModuleBuilder.CollectExp | packages/swc-plugin/transform/src/module_builder.rs:121-150 | one export: a local one extends the declarators, props and specifiers; a re-export pushes one import and one require and adds its props; nothing else changes |
| ModuleBuilding.ModuleBuilder.CollectBindings | packages/swc-plugin/transform/src/module_builder.rs:161-178 | no bindings leaves the state alone; otherwise sets the one sequence statement |
| ModuleBuilding.ModuleBuilder.Collect | packages/swc-plugin/transform/src/module_builder.rs:81-85 | dependencies, then exports, then bindings |
| ModuleBuilding.ModuleBuilder.BuildModule | packages/swc-plugin/transform/src/module_builder.rs:181-269 | the partitioning loop produces exactly `BuildModuleOf` |
| ModuleBuilding.ModuleBuilder.BuildScript | packages/swc-plugin/transform/src/module_builder.rs:272-326 | produces exactly `BuildScriptOf` |
| Transformer.DepGetterExpr | packages/swc-plugin/transform/src/utils.rs:861-893 | a getter whose object reads back every destructured property, key and local, in order |
| Transformer.DepRequires | packages/swc-plugin/transform/src/transformer.rs:93-119 | one `const {…} = ctx.require(src)` per dependency, in order |
| Transformer.DepGetters | packages/swc-plugin/transform/src/transformer.rs:93-119 | one getter per dependency, keyed by its source, in order |
| Transformer.NonEmptyStmtsAreStmtBucket | packages/swc-plugin/transform/src/transformer.rs:150-157 | the kept statements are exactly the non-empty statement bucket |
| Transformer.DepsDeclStmt | packages/swc-plugin/transform/src/utils.rs:895-917 | a `const` object with one property per getter, in order |
| Transformer.ReExportGettersPerReExport | packages/swc-plugin/transform/src/transformer.rs:135-144 | one getter `() => mod` per re-export, in order |
| Transformer.TransformedLayout | packages/swc-plugin/transform/src/transformer.rs:159-201 | all imports (re-export imports first), then the deps object, then the define call, then the export declarations and the var declaration iff there are declarators; within the reserved capacity |
| Transformer.TransformedKeepsItems | packages/swc-plugin/transform/src/transformer.rs:150-157 | import and export declarations stay in the body; non-empty statements move into the define function |
| Transformer.GettersMatchRequires | packages/swc-plugin/transform/src/transformer.rs:93-147 | getters and requires align: dependencies first, then re-exports, each pair for the same source |
| Transformer.Module.constructor | packages/swc-plugin/transform/src/transformer.rs:70-76 | a module holding the given body |
| Transformer.GlobalModuleTransformer.constructor | packages/swc-plugin/transform/src/transformer.rs:38-52 | holds the given id, phase and identifiers |
| Transformer.GlobalModuleTransformer.DepParts | packages/swc-plugin/transform/src/transformer.rs:93-119 | the loop builds exactly the getters and requires of the dependencies |
| Transformer.GlobalModuleTransformer.ExpParts | packages/swc-plugin/transform/src/transformer.rs:122-148 | the loop adds re-export imports, getters and requires, and the local props, declarators and specifiers |
| Transformer.GlobalModuleTransformer.BodyParts | packages/swc-plugin/transform/src/transformer.rs:150-157 | imports after the re-export imports, other declarations to exports, non-empty statements after the requires |
| Transformer.GlobalModuleTransformer.BodyPart | packages/swc-plugin/transform/src/transformer.rs:150-157 | one item: an import joins the imports, another module declaration the exports, a non-empty statement the statements; an empty statement is dropped |
| Transformer.GlobalModuleTransformer.VisitMutModule | packages/swc-plugin/transform/src/transformer.rs:70-202 | replaces the body by exactly `TransformedBody` of the old body |
| Delegates.DefaultDeclAssign | packages/swc-plugin/transform/src/delegate/register_delegate.rs:77-89 | the assignment of the default class or function to the binding variable |
| Delegates.DefaultExportWired | packages/swc-plugin/transform/src/delegate/register_delegate.rs:91-101 | a recorded default export adds `default: bind` to the props and declares `bind` |
| RuntimeDelegation.DepsAstStmts | packages/swc-plugin/transform/src/models.rs:528-535 | dependency requires are statements |
| RuntimeDelegation.RuntimeExportsAstStmts | packages/swc-plugin/transform/src/models.rs:538-601 | in the runtime phase the pre body and post body are statements |
| RuntimeDelegation.RuntimeBodyIsScript | packages/swc-plugin/transform/src/delegate/runtime_delegate.rs:56-82 | no import or export declaration is left in the runtime body |
| RuntimeDelegation.RuntimeBodyKeepsStatements | packages/swc-plugin/transform/src/delegate/runtime_delegate.rs:60-81 | the original statements stay together and in order after the context, requires and bindings; the length is the counted total |
| RuntimeDelegation.RuntimeRequire | packages/swc-plugin/transform/src/delegate/runtime_delegate.rs:148-200 | `ctx.require` of the remapped source; a non-string literal becomes `null` |
| RuntimeDelegation.ContextStmt | packages/swc-plugin/transform/src/delegate/runtime_delegate.rs:51 | a `var` declaration of the context identifier from `global.__modules.getContext` with the numeric module id |
| RuntimeDelegation.RuntimeDelegate.constructor | packages/swc-plugin/transform/src/delegate/runtime_delegate.rs:36-46 | no deps, exports or bindings yet |
| RuntimeDelegation.RuntimeDelegate.MakeScriptBody | packages/swc-plugin/transform/src/delegate/runtime_delegate.rs:49-54 | one get-context statement before the unchanged script |
| RuntimeDelegation.RuntimeDelegate.MakeModuleBody | packages/swc-plugin/transform/src/delegate/runtime_delegate.rs:56-82 | produces exactly `RuntimeModuleBodyOf`; exports and bindings are emptied |
| RuntimeDelegation.RuntimeDelegate.Import | packages/swc-plugin/transform/src/delegate/runtime_delegate.rs:84-93 | an existing source's members are extended; a new source is inserted after the others |
| RuntimeDelegation.RuntimeDelegate.ExportDecl | packages/swc-plugin/transform/src/delegate/runtime_delegate.rs:95-101 | one export record and one binding are appended; the export statement is returned |
| RuntimeDelegation.RuntimeDelegate.ExportDefaultDecl | packages/swc-plugin/transform/src/delegate/runtime_delegate.rs:103-115 | records one `default` binding export and returns the assignment |
| RuntimeDelegation.RuntimeDelegate.ExportDefaultExpr | packages/swc-plugin/transform/src/delegate/runtime_delegate.rs:117-127 | always `Some(bind = expr)`, and one `default` binding export recorded |
| RuntimeDelegation.RuntimeDelegate.ExportNamed | packages/swc-plugin/transform/src/delegate/runtime_delegate.rs:129-132 | appends the converted export record |
| RuntimeDelegation.RuntimeDelegate.ExportAll | packages/swc-plugin/transform/src/delegate/runtime_delegate.rs:134-146 | appends an unaliased re-export of everything |
| RuntimeDelegation.RuntimeDelegate.CallExpr | packages/swc-plugin/transform/src/delegate/runtime_delegate.rs:148-200 | `Some` iff the call is `require(lit)` or `import(lit, …)`, and then the runtime require of that literal; a literal that is not a string is reported |
| RegisterDelegation.BucketsKeepItems | packages/swc-plugin/transform/src/delegate/register_delegate.rs:42-64 | the three buckets placed around other parts keep every original item, with the summed length |
| RegisterDelegation.RegisterBodyKeepsItems | packages/swc-plugin/transform/src/delegate/register_delegate.rs:34-65 | no original item is lost; the length is one plus the original, bindings and export parts |
| RegisterDelegation.RegisterBodyImportsFirst | packages/swc-plugin/transform/src/delegate/register_delegate.rs:55-64 | the register statement, then every import (the module's own and the re-export bindings) |
| RegisterDelegation.RegisterDelegate.constructor | packages/swc-plugin/transform/src/delegate/register_delegate.rs:23-31 | no exports or bindings yet |
| RegisterDelegation.RegisterDelegate.MakeBody | packages/swc-plugin/transform/src/delegate/register_delegate.rs:34-65 | the partitioning loop produces exactly `RegisterBodyOf`; exports and bindings are emptied |
| RegisterDelegation.RegisterDelegate.Import | packages/swc-plugin/transform/src/delegate/register_delegate.rs:67 | an import changes nothing in the delegate |
| RegisterDelegation.RegisterDelegate.ExportDecl | packages/swc-plugin/transform/src/delegate/register_delegate.rs:69-75 | one export record and one binding statement appended; the export statement is returned |
| RegisterDelegation.RegisterDelegate.ExportDefaultDecl | packages/swc-plugin/transform/src/delegate/register_delegate.rs:77-89 | records one `default` binding export |
| RegisterDelegation.RegisterDelegate.ExportDefaultExpr | packages/swc-plugin/transform/src/delegate/register_delegate.rs:91-101 | `Some(bind = expr)`, and one `default` binding export recorded |
| RegisterDelegation.RegisterDelegate.ExportNamed | packages/swc-plugin/transform/src/delegate/register_delegate.rs:103-106 | appends the converted export record |
| RegisterDelegation.RegisterDelegate.ExportAll | packages/swc-plugin/transform/src/delegate/register_delegate.rs:108-113 | appends a re-export of everything with no alias |
| RegisterDelegation.RegisterDelegate.CallExpr | packages/swc-plugin/transform/src/delegate/register_delegate.rs:115-117 | always `None` |
| BundleDelegation.BundleBodyKeepsItems | packages/swc-plugin/transform/src/delegate/bundle_delegate.rs:41-57 | the register statement, one import per re-export, then the original items unfiltered and in order; the length is the sum of the parts |
| BundleDelegation.RegisterCtx | packages/swc-plugin/transform/src/delegate/bundle_delegate.rs:36 | a `var` declaration of the context identifier from `global.__modules.register` with the numeric module id |
| BundleDelegation.BundleDelegate.constructor | packages/swc-plugin/transform/src/delegate/bundle_delegate.rs:23-31 | no exports or bindings yet |
| BundleDelegation.BundleDelegate.MakeScriptBody | packages/swc-plugin/transform/src/delegate/bundle_delegate.rs:34-39 | one register statement before the unchanged script |
| BundleDelegation.BundleDelegate.MakeModuleBody | packages/swc-plugin/transform/src/delegate/bundle_delegate.rs:41-57 | produces exactly `BundleModuleBodyOf`; exports and bindings are emptied |
| BundleDelegation.BundleDelegate.Import | packages/swc-plugin/transform/src/delegate/bundle_delegate.rs:59 | an import changes nothing in the delegate |
| BundleDelegation.BundleDelegate.ExportDecl | packages/swc-plugin/transform/src/delegate/bundle_delegate.rs:61-67 | one export record and the binding statement appended; the export statement is returned |
| BundleDelegation.BundleDelegate.ExportDefaultDecl | packages/swc-plugin/transform/src/delegate/bundle_delegate.rs:69-81 | records one `default` binding export |
| BundleDelegation.BundleDelegate.ExportDefaultExpr | packages/swc-plugin/transform/src/delegate/bundle_delegate.rs:83-93 | returns `bind = expr` and records one `default` binding export |
| BundleDelegation.BundleDelegate.ExportNamed | packages/swc-plugin/transform/src/delegate/bundle_delegate.rs:95-98 | appends the converted export record, with no path table |
| BundleDelegation.BundleDelegate.ExportAll | packages/swc-plugin/transform/src/delegate/bundle_delegate.rs:100-106 | appends a re-export of everything with neither id nor alias |
| BundleDelegation.BundleDelegate.CallExpr | packages/swc-plugin/transform/src/delegate/bundle_delegate.rs:108-110 | always `None` |

## Left out

- What a factory does when it runs is not modelled, beyond whether the call
  throws: the set of throwing factories is a parameter of `define` and
  `update`. Each invocation is recorded: the factory, its exports object, the
  bound id and whether the module was ready.
- `require` of a function dependency is modelled by the value the call returns.
  Side effects of that call are not modelled.
- The `Map`-keyed registries tag their exports objects with a local
  `ExportObject` constructor, and `exports.ts` tags them with a sentinel
  prototype. Both are one exports tag here, built by `ExportsTag.CreateExports`.
- `GlobalRegistry.Interop` and `GlobalModule.Registry.Require`: with
  one tag per heap, the model cannot hold an exports object made by another
  registry, or by `createExports` from `exports.ts`. In the source such an
  object fails the registry's own `instanceof` test and is wrapped in
  `{default: …}`. The model only covers objects tagged by the same registry
  and values without a tag.
- `setup`'s default global object (`new Function('return this')()`) is not
  modelled. The global context is a parameter.
- `CoreRegistry.GlobalContext.Setup` and `CoreRegistry.ModuleRegistry.Define`: default
  arguments are not modelled. Callers pass the name (the source defaults to
  `'__modules'`) and the dependency list (the source defaults to `[]`).
- The `for … in` visiting order in `copyProps` is left open, and the proof
  covers every order. Property attributes other than enumerable getters are
  not modelled.
- `JSON.parse`, the WebSocket connection, `console` output, `eval` and the
  React refresh runtime are not modelled. A message is already parsed. What
  `getContext` returns, which callbacks throw and which bodies fail to
  evaluate are parameters of the client.
- `CopyProps.CopiedNameReadsSource` and `GlobalRegistry.NamespaceReadsSource`:
  a getter chain is read with a fuel bound, so only chains no longer than the
  fuel are covered.
- `GlobalModule.Registry`: `exports(...)` and `exports.ns(...)` are modelled
  as they are evidently meant to work, through `copyProps`. See Findings.
- Swc traversal is not modelled: spans, syntax contexts, hygiene marks and the
  visitor plumbing. Private identifiers are parameters or come from an
  injective supply.
- The collector's visitor descends into every statement, but the model visits
  only top-level statements, variable declarators and expressions (function
  expressions included). Statements with bodies (`if`, loops, blocks) and the
  bodies of function and class declarations are opaque, so a `require` nested
  in one of them is not collected by the model.
- Diagnostics sent to the error handler become a `reported` flag.
- Panics become preconditions: `unimplemented!`, `panic!` and `unwrap`.
- `visit_mut_script` in `transformer.rs` always panics. It is not modelled.
- The transformer and the module builder read the collector through
  `take_deps`, `take_exps` and `take_bindings`, which the collector in this
  revision does not have. `collected.dfy` stands in for their results.
  - Dependencies are a source plus destructuring properties.
  - Exports are local, named re-export or re-export-all records.
  - Bindings are an identifier plus a value.
- These helpers are not in this revision and are modelled by their evident
  shape:
  - `to_import_namespace_stmt` (named re-exports) and `to_import_all_stmt`
    (re-exports of everything) are both `import * as mod from 'src'`.
  - `to_require_stmt` is `const mod = ctx.require('src')`.
  - `to_exp_props` is the record's props.
  - `into_exp_ast` is the local record's declarators, props and specifiers.
  - `into_obj_pat_prop` is a destructuring property.
- `ModuleBuilding.ModuleBuilder.CollectDeps`: `require_call` takes one
  argument in the builder's revision. The require is modelled as
  `ctx.require('src')`.
- `ModuleBuilding.RegisterConst`: the builder calls `register_call`, which is
  not in this revision. It is modelled as
  `const ctx = global.__modules.register('id')`.
- The delegates call some helpers that are not in this revision:
  - `get_expr_from_decl`: the declared identifier and its expression are
    parameters of `ExportDecl`.
  - `expr_from_export_default_decl` and
    `default_expr_from_default_export_decl`: modelled by `DefaultDeclAssign`.
  - `export_ref_from_named_export` and `to_export_ref`: modelled by
    `ExportRefOf`, with the path table ignored.
- `RuntimeDelegation.RuntimeDelegate.ExportAll`: `ReExportAllRef::new` is
  called with a numeric module id that `models.rs` has no field for. The id
  is not kept.
- `RuntimeDelegation.RuntimeDelegate`: the delegate's path table maps sources
  to `f64` ids, but `get_src_lit` takes a string map. It is modelled as a
  string map. Numeric ids of the delegates are integers.
- `BundleDelegation.BundleDelegate.ExportDecl`: the source appends a plural
  `binding_stmts` that `ExportDeclItem` does not have. The single binding
  statement is appended.
- The delegates' `assign_expr` and `member_expr` hooks are not modelled.
  They rewrite CommonJS assignments through
  `to_binding_module_from_assign_expr`, which `SwcUtils` models.
- `ModulePhase::Register`, used by `models.rs`, is not in `phase.rs`. It is
  read as `Bundle`, the phase in which re-exports are bound by imports.
- The register delegate's `make_body` and the bundle delegate's
  `export_default_expr` do not match the delegate trait. Both are modelled as
  written.
- The module collector's `exps` field is never read, so it is not modelled.
- The order of `AHashMap` iteration in `get_deps_ast` is a parameter (any
  order of the keys). `OHashMap` order is modelled exactly.

## Findings

| source | as written | input that shows it | evidently intended | confidence | as-written member | corrected member |
|---|---|---|---|---|---|---|
| packages/runtime/src/create-global-module.ts:41 | `__exports` and `__ns` call `utils.__copyProps`, but `utils.ts` exports the copier only as `copyProps` (utils.ts:24-28), so the call throws a `TypeError` | any `context.exports(() => ({ a: 1 }))` on a registered module, or any `context.exports.ns(e)` | merge through `copyProps`, as the `create-global-registry.ts` copy does | high, not executed | GlobalModule.AsWrittenCopierIsMissing | GlobalModule.Registry.Exports |
