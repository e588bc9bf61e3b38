# gossa SSA front end — a Dafny model of its setup and decision logic

gossa turns one parsed, type-checked Go function into an SSA function for a
backend compiler. This project models the part of it that decides rather than
emits:

- **Driver** (`BuildSSA`): it reads what the parser and the type checker
  produced. It finds the requested function's object and its first function
  declaration. A parse error, a type-check error, a missing symbol and a
  missing declaration return not-ok. An object that is not a function is
  reported but not returned on, so it can end in a panic (see Findings).
- **Variable collection** (`getParameters`, `isParam`, `getLocalDecls`,
  `getVars`): a receiver is rejected. Parameters come from the signature, in
  order. Locals are the function-scope entries whose Id is not a parameter's,
  in scope order. A parameter and a local with the same name abort the build.
  The result is the parameters followed by the locals.
- **Class switch** of `buildSSA`: a decision table over storage classes
  (a base class plus the PHEAP bit). The handled classes pass. Every other class
  reaches `Unimplementedf`.
- **Setup** of `buildSSA`, as an abstract construction state over opaque block
  and value ids:
  - a receiver returns not-ok before any block is scanned;
  - more than one result is only reported;
  - zero scanned blocks abort;
  - the entry is the first block and is seeded with InitMem, SP and SB, in that
    order;
  - the memory variable is bound to InitMem;
  - the frame pointer's address is an `Addr` off SP.
- **Label record and exporter policy** (`ssaLabel`, `ssaExport`):
  - `defined`/`used` test whether a node is present;
  - `Logf` writes only when logging is on;
  - `Fatalf` and `Unimplementedf` both end in the package `Fatalf` panic;
  - `Warnl` always panics;
  - `CanSSA` accepts every type.

A Go `panic` is the explicit `Panic(Abort)` outcome. A `return nil, false` is
`NotOk`. The messages printed on the way to a not-ok result, and the
"multiple return values" warning, are kept as a list of structured `Notice`s.
The remaining prints are not modelled: the package dump (builder.go:124-125),
the name-clash print before its panic (builder.go:261) and the final function
dump (builder.go:368). Modules: `Common` (ids, classes, outcomes), `SsaTypes`,
`Vars`, `Setup`, `Driver`.

What the code does, as modelled:

- Named results sit in the function's scope but not among its parameters.
  The code therefore makes them PAUTO locals.
- Address-taken parameters get no `Addr` at setup, because that code is
  commented out. Only the frame pointer gets one.
- Multiple results are only warned about.
- The declaration lookup takes the first function declaration with the
  requested name, receiver or not. A method `f` declared before the function
  `f` is therefore built with the function's signature and scope.
- A function with a receiver is returned on as not-ok before its blocks are
  scanned (builder.go:285-288). The driver cannot reach that branch: go/types
  does not put methods in the package scope, so the object it looks up never
  has a receiver. `Driver.ReceiverNotOk` states the branch for an object that
  does have one.
- The driver can still panic (see Findings).

## Model

| member | source | states |
|---|---|---|
| `Vars.ParamsOf` | builder.go:215-220 | one ssaParam per signature parameter; entry i wraps parameter i |
| `Vars.GetParameters` | builder.go:210-222 | a receiver panics with "methods unsupported" (iff); otherwise exactly one param per signature parameter, in signature order |
| `Vars.HasId` | builder.go:230-235 | the loop finds a match iff some parameter has the object's Id |
| `Vars.IsParam` | builder.go:228-236 | holds iff some signature parameter has the same Id as the object; a receiver panics |
| `Vars.GetLocalDecls` | builder.go:238-252 | panics iff there is a receiver and the scope is non-empty; otherwise every result is a Local of a scope entry that is not a parameter, and every such entry appears |
| `Vars.LocalDeclsOfOne` | builder.go:242-250 | one loop iteration: an entry is skipped iff it has a parameter's Id, and is appended once as a local otherwise |
| `Vars.LocalDeclsAreFilter` | builder.go:238-252 | without a receiver the result equals an independent filter of the scope: each non-parameter entry exactly once, in scope order, nothing else |
| `Vars.LocalDeclsKeepOrder` | builder.go:242-250 | the locals of a concatenated scope are the locals of each part, concatenated: scope order is kept |
| `Vars.FirstClash` | builder.go:258-265 | finds a name iff some parameter and some local share it; the name is that of the first parameter, in signature order, that some local's name matches |
| `Vars.GetVars` | builder.go:254-274 | receiver panics; otherwise aborts iff a parameter and a non-parameter scope entry share a name, with a shared name; else params followed by locals |
| `Vars.VarsCount` | builder.go:266-273 | the result has one entry per parameter plus one per scope entry that is not a parameter |
| `Vars.NoClashWhenIdsFollowNames` | builder.go:228-236 | if a parameter and a scope entry have the same Id exactly when they have the same name, getVars never panics with a name clash |
| `Vars.VarsClasses` | builder.go:172-204 | one PPARAM variable per signature parameter comes first, and every later variable is PAUTO |
| `Setup.ClassSwitch` | builder.go:331-352 | passes iff the class is PPARAM, PAUTO, PPARAMOUT, PFUNC, or PAUTO/PPARAM/PPARAMOUT with PHEAP; otherwise Unimplementedf with the class and ",heap" exactly when PHEAP is set |
| `Setup.SwitchAll` | builder.go:330-353 | the loop over the classes passes iff every class is handled; otherwise its outcome is the unimplemented panic of the first unhandled class, with that class as argument |
| `Setup.VarsNeverUnimplemented` | builder.go:329-353 | the variables getVars yields never reach the default case |
| `Setup.Construct` | builder.go:306-363 | zero blocks abort; otherwise it succeeds iff getVars does and passes getVars' panic on; a successful setup keeps the function name, its entry is the first block, its entry values are InitMem, SP, SB and the frame-pointer Addr off SP at positions 0-3, the mem var is bound to InitMem, and logging is on |
| `Setup.BuildFunc` | builder.go:285-363 | not-ok iff there is a receiver, then with only the "methods" notice; >1 result only adds a notice; succeeds iff no receiver, some block and no param/local name clash, keeping the function name; a clash panics with NameClash; only NoBlocks or a name clash can panic |
| `Setup.ReceiverIgnoresBlocks` | builder.go:285-288 | with a receiver the outcome does not depend on the scanned blocks |
| `Setup.ResultsOnlyWarn` | builder.go:289-291 | the number of results never changes the outcome |
| `SsaTypes.Defined` | ssatypes.go:23 | holds iff the label has a definition node |
| `SsaTypes.Used` | ssatypes.go:26 | holds iff the label has a use node |
| `SsaTypes.PresenceIgnoresTargets` | ssatypes.go:10-26 | defined/used do not depend on the targets or the reported flag |
| `SsaTypes.Logf` | ssatypes.go:68-73 | output grows by exactly one entry, the message, iff logging is on; otherwise it is unchanged |
| `SsaTypes.PackageFatalf` | ssatypes.go:75-80 | always a Fatal panic carrying the format and arguments |
| `SsaTypes.Fatalf` | ssatypes.go:83-85 | the same panic as the package Fatalf |
| `SsaTypes.Unimplementedf` | ssatypes.go:89-91 | the same panic as the package Fatalf |
| `SsaTypes.Warnl` | ssatypes.go:95-98 | panics whatever its line, format and arguments |
| `SsaTypes.CanSSA` | ssatypes.go:63-65 | true for every type |
| `SsaTypes.RunCallsSeverity` | ssatypes.go:67-98 | a run of exporter calls finishes iff every call is Logf; a finished run logs exactly the Logf messages iff logging is on; otherwise it ends in the first non-Logf call's panic |
| `SsaTypes.SilentWhenLogOff` | ssatypes.go:68-73 | with logging off, Logf calls produce no output at all |
| `Driver.FindDecl` | builder.go:136-144 | none iff no function declaration has the name; otherwise the first such declaration |
| `Driver.TypeErrorAlwaysNotOk` | builder.go:116-122 | the stored error text is empty at the comparison, so every type-check error gives not-ok |
| `Driver.BuildSSAAsWritten` | builder.go:94-151 | the driver as written dereferences nil exactly when the parser returned no file, or when the file parses and type-checks, the symbol is not a function, and a function declaration with its name exists |
| `Driver.BuildSSA` | builder.go:94-151 | parse, type-check, missing-symbol, non-function and missing-declaration failures each give not-ok with their notice; when every lookup succeeds the outcome is buildSSA of the first function declaration with the name; no nil dereference |
| `Driver.ReceiverNotOk` | builder.go:285-288 | a function with a receiver is never built |
| `Driver.AsWrittenAgrees` | builder.go:101-150 | away from its nil dereferences the code as written has the corrected outcome; at them the corrected driver returns not-ok |
| `Driver.UnreadableFilePanics` | builder.go:101-107 | an unreadable file panics as written and is not-ok corrected |
| `Driver.NonFunctionPanics` | builder.go:132-149 | a non-function object with a same-named method declaration panics as written and is not-ok corrected |
| `Driver.MethodDeclShadowsFunction` | builder.go:136-149 | a method declared before the same-named function is the declaration found, and its blocks are built with the function's signature |

## Left out

- Parsing, type checking and the importer are inputs: `Parsed` and `Checked`.
  This includes how go/types computes an object's Id and the order of
  `Scope.Names()`. The scope is given already in that order.
- The SSA backend (`ssa.NewConfig`, `NewFunc`, `Compile`, block and value
  internals) is a foreign library. Blocks and values are opaque ids. An entry
  value's id is its position in the entry block.
- `scanBlocks`, `processBlocks`, `startBlock`, `entryNewValue*` and the builder
  state's `Unimplementedf` are not part of this model:
  - the scanned blocks are an input;
  - `scanBlocks` and `startBlock` are taken to add no value to the entry block,
    so the entry's values are exactly the four the setup creates;
  - the setup ends where the block walk would start;
  - the state's `Unimplementedf` is taken to reach the exporter's.
- The declaration of `NodeClass` is not part of this model. PHEAP is modelled
  as a flag separate from the base class, and unnamed base classes are
  `OtherBase`.
- The per-class `Addr` materialisation of parameters and locals is commented
  out in the source, so it is not modelled.
- The commented-out phi rewrite is dead code.
- Label resolution (setting targets, definitions and uses) lives in code that
  is not part of this model. Only the record and its two predicates are
  modelled.
- The text of `fmt.Print*` output is not modelled. This covers the package
  `Fatalf` passing its argument slice unspread to `Printf`. Messages are
  `Notice`s or log `Entry`s.
- Go's `Fatalf` panics with an empty value. The model's `Fatal` abort carries
  the format and arguments so that aborts can be told apart.
- The type assertion `fnType.Type().(*types.Signature)` (builder.go:281-284)
  cannot fail for a function object, so `Function` carries its signature.
- The primitive type getters, `StringData`, `Auto`, `Debug_checknil` and
  `linenum` are thin lookups or stubs.
- Vars.GetVars: a name clash can only happen in the model because an object's
  Id is an input. go/types gives two objects of one package the same Id
  exactly when they have the same name, so in the program the panic cannot
  fire (`Vars.NoClashWhenIdsFollowNames`).
- Driver.BuildSSA: the package scope entry is not tied to the name it was
  looked up under, so `Function.name` may differ from the requested name.
- Vars.GetVars: its contract says the reported name is shared by a parameter
  and a local. It does not say it is the first such parameter in signature
  order, though `FirstClash` computes exactly that. The name only appears in
  printed output.
- Driver.BuildSSAAsWritten: its own contract states exactly when it
  dereferences nil. Its other outcomes are stated only relative to
  `Driver.BuildSSA`, by `Driver.AsWrittenAgrees`.

## Findings

| source | as written | input that shows it | evidently intended | confidence | as-written member | corrected member |
|---|---|---|---|---|---|---|
| builder.go:101-107 | `fset.File(fileAst.Pos())` runs before `err` is checked, and the parser returns a nil file when the source cannot be read | a path that cannot be read | report the parse error and return not-ok, as lines 104-107 do | high; not executed | `Driver.UnreadableFilePanics` | `Driver.BuildSSA` |
| builder.go:132-135 | a package object that is not a function is reported, but the lookup goes on; buildSSA then calls `Type()` on the nil function (line 281) | a package with `var f int` and a method `func (T) f()`, asked for `f` | return not-ok after the report, like the other lookup failures | high; not executed | `Driver.NonFunctionPanics` | `Driver.BuildSSA` |
