/** The driver BuildSSA: given what the parser and the type checker produced
    for a file, it finds the requested function's object and declaration and
    hands them to buildSSA. Parsing and type checking are inputs. */
module Driver {
  import opened Common
  import opened Vars
  import opened Setup

  /** A top-level declaration of the file. A function declaration carries
      whether it has a receiver and the blocks the block scan yields for its
      body. */
  datatype Decl = FuncDecl(name: string, hasRecv: bool, blocks: seq<BlockId>) | OtherDecl

  /** What the package scope maps a name to. */
  datatype PkgObject = FuncObject(fn: Function) | OtherObject

  /** The parser's output: the file's declarations, absent when the source
      could not be read, and the parse error, if any. */
  datatype Parsed = Parsed(file: Option<seq<Decl>>, err: Option<string>)

  /** The type checker's output: the package scope and the error, if any. */
  datatype Checked = Checked(scope: map<string, PkgObject>, err: Option<string>)

  predicate DeclaresFunc(d: Decl, fn: string) {
    d.FuncDecl? && d.name == fn
  }

  /** Declaration `i` is the first function declaration named `fn`. */
  ghost predicate FirstDeclAt(decls: seq<Decl>, fn: string, i: int) {
    && 0 <= i < |decls|
    && DeclaresFunc(decls[i], fn)
    && forall j :: 0 <= j < i ==> !DeclaresFunc(decls[j], fn)
  }

  /** The first function declaration named `fn`, receiver or not. */
  function FindDecl(decls: seq<Decl>, fn: string): (r: Option<Decl>)
    ensures r.None? <==> forall i :: 0 <= i < |decls| ==> !DeclaresFunc(decls[i], fn)
    ensures r.Some? ==> exists i :: FirstDeclAt(decls, fn, i) && decls[i] == r.value
  {
    if |decls| == 0 then None
    else if DeclaresFunc(decls[0], fn) then Some(decls[0])
    else
      assert forall i :: 1 <= i < |decls| ==> decls[i] == decls[1..][i - 1];
      var r := FindDecl(decls[1..], fn);
      assert r.Some? ==> exists i :: FirstDeclAt(decls, fn, i) && decls[i] == r.value by {
        if r.Some? {
          var i :| FirstDeclAt(decls[1..], fn, i) && decls[1..][i] == r.value;
          assert FirstDeclAt(decls, fn, i + 1);
        }
      }
      r
  }

  /** The text the driver stores for a type-check error it has seen. */
  function ErrorText(msg: string): string {
    "err: " + msg + "\n"
  }

  /** BuildSSA exactly as written. The file is dereferenced before the parse
      error is looked at, and an object that is not a function is reported
      without returning, so buildSSA then dereferences a nil function. */
  function BuildSSAAsWritten(p: Parsed, c: Checked, fn: string): (r: Run<State>)
    ensures p.file.None? ==> r.result == Panic(NilDereference)
    ensures r.result == Panic(NilDereference) <==>
      || p.file.None?
      || (&& p.err.None? && c.err.None? && fn in c.scope && !c.scope[fn].FuncObject?
          && FindDecl(p.file.value, fn).Some?)
  {
    if p.file.None? then Run(Panic(NilDereference), [])
    else if p.err.Some? then Run(NotOk, [ParseFailed])
    else
      var terrors := "";
      if c.err.Some? && terrors != ErrorText(c.err.value) then Run(NotOk, [TypeCheckFailed])
      else if fn !in c.scope then Run(NotOk, [LookupFailed])
      else
        var notes := if c.scope[fn].FuncObject? then [] else [NotAFunction];
        match FindDecl(p.file.value, fn)
        case None => Run(NotOk, notes + [DeclNotFound])
        case Some(d) =>
          if !c.scope[fn].FuncObject? then Run(Panic(NilDereference), notes)
          else BuildFunc(c.scope[fn].fn, d.blocks)
  }

  /** BuildSSA with both lookups returning not-ok as the surrounding code
      intends: an unreadable file is a parse failure, and an object that is not
      a function stops the lookup. */
  function BuildSSA(p: Parsed, c: Checked, fn: string): (r: Run<State>)
    ensures p.file.None? || p.err.Some? ==> r == Run(NotOk, [ParseFailed])
    ensures p.file.Some? && p.err.None? && c.err.Some? ==> r == Run(NotOk, [TypeCheckFailed])
    ensures p.file.Some? && p.err.None? && c.err.None? && fn !in c.scope ==> r == Run(NotOk, [LookupFailed])
    ensures fn in c.scope && !c.scope[fn].FuncObject? ==> r.result == NotOk
    ensures p.file.Some? && p.err.None? && c.err.None? && fn in c.scope && !c.scope[fn].FuncObject? ==>
      r == Run(NotOk, [NotAFunction])
    ensures p.file.Some? && FindDecl(p.file.value, fn).None? ==> r.result == NotOk
    ensures p.file.Some? && p.err.None? && c.err.None? && fn in c.scope && c.scope[fn].FuncObject? ==>
      match FindDecl(p.file.value, fn)
      case None => r == Run(NotOk, [DeclNotFound])
      case Some(d) => r == BuildFunc(c.scope[fn].fn, d.blocks)
    ensures !r.result.NotOk? ==>
      && p.file.Some? && p.err.None? && c.err.None? && fn in c.scope && c.scope[fn].FuncObject?
      && exists i :: FirstDeclAt(p.file.value, fn, i) && r == BuildFunc(c.scope[fn].fn, p.file.value[i].blocks)
    ensures r.result.Panic? ==> r.result.abort == NoBlocks || r.result.abort.NameClash?
  {
    if p.file.None? || p.err.Some? then Run(NotOk, [ParseFailed])
    else if c.err.Some? then Run(NotOk, [TypeCheckFailed])
    else if fn !in c.scope then Run(NotOk, [LookupFailed])
    else if !c.scope[fn].FuncObject? then Run(NotOk, [NotAFunction])
    else
      match FindDecl(p.file.value, fn)
      case None => Run(NotOk, [DeclNotFound])
      case Some(d) => BuildFunc(c.scope[fn].fn, d.blocks)
  }

  /** The stored error text is empty when the type check is looked at, so any
      type-check error ends in not-ok. */
  lemma TypeErrorAlwaysNotOk(p: Parsed, c: Checked, fn: string)
    requires p.file.Some? && p.err.None? && c.err.Some?
    ensures BuildSSAAsWritten(p, c, fn) == Run(NotOk, [TypeCheckFailed])
  {
  }

  /** A function with a receiver is not built: the result is not-ok. */
  lemma ReceiverNotOk(p: Parsed, c: Checked, fn: string)
    requires fn in c.scope && c.scope[fn].FuncObject? && c.scope[fn].fn.sig.recv.Some?
    ensures BuildSSA(p, c, fn).result == NotOk
    ensures BuildSSAAsWritten(p, c, fn).result != Panic(NilDereference) ==> BuildSSAAsWritten(p, c, fn).result == NotOk
  {
  }

  /** The corrected driver differs from the code as written exactly where
      the latter dereferences nil, and there it returns not-ok. */
  lemma AsWrittenAgrees(p: Parsed, c: Checked, fn: string)
    ensures BuildSSAAsWritten(p, c, fn).result != Panic(NilDereference) ==>
      BuildSSAAsWritten(p, c, fn).result == BuildSSA(p, c, fn).result
    ensures BuildSSAAsWritten(p, c, fn).result == Panic(NilDereference) ==>
      BuildSSA(p, c, fn).result == NotOk
  {
  }

  /** A file that cannot be read: the parser yields no file and an error. */
  const unreadable := Parsed(None, Some("open f.go: no such file or directory"))

  /** Reading the missing file panics as written, instead of the not-ok the
      parse-error branch gives. */
  lemma UnreadableFilePanics(c: Checked, fn: string)
    ensures BuildSSAAsWritten(unreadable, c, fn).result == Panic(NilDereference)
    ensures BuildSSA(unreadable, c, fn).result == NotOk
  {
  }

  /** A package with a variable `f` and a method `f` on some type: the scope
      maps `f` to the variable, and the first declaration named `f` is the
      method. */
  const methodFile := Parsed(Some([FuncDecl("f", true, [0])]), None)
  const varScope := Checked(map["f" := OtherObject], None)

  /** The lookup of `f` reports that it is not a function, goes on, and
      buildSSA dereferences the nil function; corrected, it is not-ok. */
  lemma NonFunctionPanics()
    ensures BuildSSAAsWritten(methodFile, varScope, "f") == Run(Panic(NilDereference), [NotAFunction])
    ensures BuildSSA(methodFile, varScope, "f") == Run(NotOk, [NotAFunction])
  {
  }

  /** A file that declares a method `f` before the function `f`: the package
      scope maps `f` to the function, which has no receiver. */
  const shadowedFile := Parsed(Some([FuncDecl("f", true, [0]), FuncDecl("f", false, [1])]), None)
  const plainF := Function("f", Signature(None, [], []), [])
  const funcScope := Checked(map["f" := FuncObject(plainF)], None)

  /** The declaration lookup does not look at receivers: the method comes
      first, so its body's blocks are built with the function's signature and
      scope, and the function's own body is never looked at. */
  lemma MethodDeclShadowsFunction()
    ensures FindDecl(shadowedFile.file.value, "f") == Some(FuncDecl("f", true, [0]))
    ensures BuildSSA(shadowedFile, funcScope, "f") == BuildFunc(plainF, [0])
    ensures BuildSSA(shadowedFile, funcScope, "f").result.Ok?
    ensures BuildSSA(shadowedFile, funcScope, "f").result.value.blocks == [0]
  {
  }
}
