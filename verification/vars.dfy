/** Variable collection for one function: the parameters come from the
    signature, the locals are the other entries of the function's scope, and
    the two lists must not share a name. */
module Vars {
  import opened Common

  /** A types.Object as the builder sees it: its name and its Id. */
  datatype Obj = Obj(name: string, id: string)

  /** A function signature: the receiver, if any, then the parameters and the
      results in declaration order. */
  datatype Signature = Signature(recv: Option<Obj>, params: seq<Obj>, results: seq<Obj>)

  /** A type-checked function (a *types.Func): its name, its signature, and the
      objects of its scope, in the order in which the scope lists its names. */
  datatype Function = Function(name: string, sig: Signature, scope: seq<Obj>)

  /** A variable of the function: an ssaParam or an ssaLocal. */
  datatype Var = Param(obj: Obj) | Local(obj: Obj)

  function Name(v: Var): string {
    v.obj.name
  }

  /** A parameter is PPARAM and a local is PAUTO. */
  function Class(v: Var): NodeClass {
    match v
    case Param(_) => PPARAM
    case Local(_) => PAUTO
  }

  /** `o` has the Id of one of the parameters. */
  ghost predicate IsParamObj(params: seq<Obj>, o: Obj) {
    exists i :: 0 <= i < |params| && params[i].id == o.id
  }

  /** `o` is a scope entry that is not a parameter, that is, a local. */
  ghost predicate IsLocalObj(sig: Signature, scope: seq<Obj>, o: Obj) {
    o in scope && !IsParamObj(sig.params, o)
  }

  /** Some parameter has the name of some local. */
  ghost predicate ParamLocalClash(sig: Signature, scope: seq<Obj>) {
    exists i, o :: 0 <= i < |sig.params| && IsLocalObj(sig, scope, o) && sig.params[i].name == o.name
  }

  /** One ssaParam per signature parameter, appended in order. */
  function ParamsOf(ps: seq<Obj>): (r: seq<Var>)
    ensures |r| == |ps|
    ensures forall i :: 0 <= i < |ps| ==> r[i] == Param(ps[i])
  {
    if |ps| == 0 then [] else ParamsOf(ps[..|ps| - 1]) + [Param(ps[|ps| - 1])]
  }

  /** getParameters: a receiver panics; otherwise one parameter per
      signature parameter, in signature order. */
  function GetParameters(sig: Signature): (r: Result<seq<Var>>)
    ensures sig.recv.Some? <==> r == Panic(MethodsUnsupported)
    ensures sig.recv.None? ==> r.Ok? && |r.value| == |sig.params|
    ensures sig.recv.None? ==> forall i :: 0 <= i < |sig.params| ==> r.value[i] == Param(sig.params[i])
  {
    if sig.recv.Some? then Panic(MethodsUnsupported) else Ok(ParamsOf(sig.params))
  }

  /** Whether some variable of `ps` has Id `id`; the loop returns at the
      first match. */
  function HasId(ps: seq<Var>, id: string): (r: bool)
    ensures r <==> exists i :: 0 <= i < |ps| && ps[i].obj.id == id
  {
    if |ps| == 0 then false
    else if ps[0].obj.id == id then true
    else
      assert forall i :: 1 <= i < |ps| ==> ps[i] == ps[1..][i - 1];
      HasId(ps[1..], id)
  }

  /** isParam: whether `o` has the Id of a parameter. It recomputes the
      parameters, so a receiver panics. */
  function IsParam(sig: Signature, o: Obj): (r: Result<bool>)
    ensures sig.recv.Some? ==> r == Panic(MethodsUnsupported)
    ensures sig.recv.None? ==> r.Ok? && (r.value <==> IsParamObj(sig.params, o))
  {
    var params :- GetParameters(sig);
    Ok(HasId(params, o.id))
  }

  /** getLocalDecls: the scope entries that are not parameters, in scope
      order. Each entry asks isParam, so a receiver panics as soon as the
      scope has an entry. */
  function GetLocalDecls(sig: Signature, scope: seq<Obj>): (r: Result<seq<Var>>)
    ensures r.Panic? <==> sig.recv.Some? && |scope| > 0
    ensures r.Panic? ==> r.abort == MethodsUnsupported
    ensures !r.NotOk?
    ensures r.Ok? ==> forall k :: 0 <= k < |r.value| ==>
      r.value[k].Local? && IsLocalObj(sig, scope, r.value[k].obj)
    ensures r.Ok? ==> forall o :: IsLocalObj(sig, scope, o) ==> Local(o) in r.value
    decreases |scope|
  {
    if |scope| == 0 then Ok([])
    else
      var locals :- GetLocalDecls(sig, scope[..|scope| - 1]);
      var o := scope[|scope| - 1];
      var isParam :- IsParam(sig, o);
      assert forall x :: x in scope <==> x in scope[..|scope| - 1] || x == o;
      if isParam then Ok(locals) else Ok(locals + [Local(o)])
  }

  /** The locals of a scope split in two are the locals of the first part
      followed by those of the second: getLocalDecls keeps scope order. */
  lemma {:induction false} LocalDeclsKeepOrder(sig: Signature, s1: seq<Obj>, s2: seq<Obj>)
    requires sig.recv.None?
    ensures GetLocalDecls(sig, s1 + s2) == Ok(GetLocalDecls(sig, s1).value + GetLocalDecls(sig, s2).value)
    decreases |s2|
  {
    if |s2| == 0 {
      assert s1 + s2 == s1;
      assert GetLocalDecls(sig, s2) == Ok([]);
      assert GetLocalDecls(sig, s1).value + [] == GetLocalDecls(sig, s1).value;
    } else {
      var s2' := s2[..|s2| - 1];
      var o := s2[|s2| - 1];
      assert (s1 + s2)[..|s1 + s2| - 1] == s1 + s2';
      assert (s1 + s2)[|s1 + s2| - 1] == o;
      LocalDeclsKeepOrder(sig, s1, s2');
      var isParam := IsParam(sig, o).value;
      var l1 := GetLocalDecls(sig, s1).value;
      var l2' := GetLocalDecls(sig, s2').value;
      assert GetLocalDecls(sig, s2) == Ok(if isParam then l2' else l2' + [Local(o)]);
      assert GetLocalDecls(sig, s1 + s2) == Ok(if isParam then l1 + l2' else (l1 + l2') + [Local(o)]);
      assert (l1 + l2') + [Local(o)] == l1 + (l2' + [Local(o)]);
    }
  }

  /** The scope entries that are not parameters, as locals, in scope order:
      a filter written independently of getLocalDecls' loop. */
  ghost function LocalsOf(params: seq<Obj>, scope: seq<Obj>): seq<Var> {
    if |scope| == 0 then []
    else (if IsParamObj(params, scope[0]) then [] else [Local(scope[0])]) + LocalsOf(params, scope[1..])
  }

  /** Without a receiver, getLocalDecls is exactly the filter: every
      non-parameter entry once, in scope order, and nothing else. */
  lemma {:induction false} LocalDeclsAreFilter(sig: Signature, scope: seq<Obj>)
    requires sig.recv.None?
    ensures GetLocalDecls(sig, scope) == Ok(LocalsOf(sig.params, scope))
    decreases |scope|
  {
    if |scope| > 0 {
      var o := scope[0];
      assert scope == [o] + scope[1..];
      LocalDeclsKeepOrder(sig, [o], scope[1..]);
      LocalDeclsAreFilter(sig, scope[1..]);
      LocalDeclsOfOne(sig, o);
    }
  }

  /** A one-entry scope yields its entry as a local unless it is a parameter. */
  lemma LocalDeclsOfOne(sig: Signature, o: Obj)
    requires sig.recv.None?
    ensures GetLocalDecls(sig, [o]) == Ok(if IsParamObj(sig.params, o) then [] else [Local(o)])
  {
    var s := [o];
    assert s[..|s| - 1] == [];
    var none: seq<Var> := [];
    assert GetLocalDecls(sig, s[..|s| - 1]) == Ok(none);
    assert IsParam(sig, o).value == IsParamObj(sig.params, o);
    assert s[|s| - 1] == o;
    assert GetLocalDecls(sig, s) == (if IsParam(sig, o).value then Ok(none) else Ok(none + [Local(o)]));
    assert none + [Local(o)] == [Local(o)];
  }

  /** Some local has the name of parameter `i`. */
  ghost predicate ClashesAt(params: seq<Var>, locals: seq<Var>, i: int)
    requires 0 <= i < |params|
  {
    exists j :: 0 <= j < |locals| && Name(locals[j]) == Name(params[i])
  }

  /** Parameter `i` is the first, in signature order, that some local's name
      matches. */
  ghost predicate FirstClashAt(params: seq<Var>, locals: seq<Var>, i: int) {
    && 0 <= i < |params|
    && ClashesAt(params, locals, i)
    && forall k :: 0 <= k < i ==> !ClashesAt(params, locals, k)
  }

  /** The first parameter name, in signature order, that some local also
      has: the nested loops of getVars stop at it. */
  function FirstClash(params: seq<Var>, locals: seq<Var>): (r: Option<string>)
    ensures r.None? <==> forall i, j :: 0 <= i < |params| && 0 <= j < |locals| ==> Name(params[i]) != Name(locals[j])
    ensures r.Some? ==> exists i, j :: 0 <= i < |params| && 0 <= j < |locals| && Name(params[i]) == r.value && Name(locals[j]) == r.value
    ensures r.Some? ==> exists i :: FirstClashAt(params, locals, i) && Name(params[i]) == r.value
  {
    if |params| == 0 then None
    else if exists j :: 0 <= j < |locals| && Name(locals[j]) == Name(params[0]) then
      assert FirstClashAt(params, locals, 0);
      Some(Name(params[0]))
    else
      assert forall i :: 1 <= i < |params| ==> params[i] == params[1..][i - 1];
      var r := FirstClash(params[1..], locals);
      assert r.Some? ==> exists i :: FirstClashAt(params, locals, i) && Name(params[i]) == r.value by {
        if r.Some? {
          var i :| FirstClashAt(params[1..], locals, i) && Name(params[1..][i]) == r.value;
          assert !ClashesAt(params, locals, 0);
          assert forall k :: 1 <= k < i + 1 ==> ClashesAt(params, locals, k) == ClashesAt(params[1..], locals, k - 1);
          assert FirstClashAt(params, locals, i + 1);
        }
      }
      r
  }

  /** getVars: a receiver panics; a parameter and a local with the same name
      panic; otherwise the parameters followed by the locals. */
  function GetVars(sig: Signature, scope: seq<Obj>): (r: Result<seq<Var>>)
    ensures sig.recv.Some? ==> r == Panic(MethodsUnsupported)
    ensures sig.recv.None? ==> (r.Ok? <==> !ParamLocalClash(sig, scope))
    ensures sig.recv.None? && r.Ok? ==> r.value == ParamsOf(sig.params) + GetLocalDecls(sig, scope).value
    ensures sig.recv.None? && !r.Ok? ==>
      && r.Panic? && r.abort.NameClash?
      && exists i, o :: 0 <= i < |sig.params| && IsLocalObj(sig, scope, o) &&
           sig.params[i].name == r.abort.name && o.name == r.abort.name
  {
    var params :- GetParameters(sig);
    var locals := GetLocalDecls(sig, scope).value;
    match FirstClash(params, locals)
    case Some(n) =>
      assert exists i, o :: 0 <= i < |sig.params| && IsLocalObj(sig, scope, o) && sig.params[i].name == n && o.name == n by {
        var i, j :| 0 <= i < |params| && 0 <= j < |locals| && Name(params[i]) == n && Name(locals[j]) == n;
        assert IsLocalObj(sig, scope, locals[j].obj);
      }
      Panic(NameClash(n))
    case None =>
      assert !ParamLocalClash(sig, scope) by {
        forall i, o | 0 <= i < |sig.params| && IsLocalObj(sig, scope, o)
          ensures sig.params[i].name != o.name
        {
          assert Local(o) in locals;
          var j :| 0 <= j < |locals| && locals[j] == Local(o);
          assert Name(params[i]) != Name(locals[j]);
        }
      }
      Ok(params + locals)
  }

  /** Every variable getVars yields is a parameter of class PPARAM at the
      position of a signature parameter, or a local of class PAUTO after them. */
  lemma VarsClasses(sig: Signature, scope: seq<Obj>)
    requires GetVars(sig, scope).Ok?
    ensures var vs := GetVars(sig, scope).value;
      forall k :: 0 <= k < |vs| ==> Class(vs[k]) == (if k < |sig.params| then PPARAM else PAUTO)
  {
  }

  /** getVars yields one variable per parameter and one per scope entry that
      is not a parameter. */
  lemma VarsCount(sig: Signature, scope: seq<Obj>)
    requires GetVars(sig, scope).Ok?
    ensures |GetVars(sig, scope).value| == |sig.params| + |LocalsOf(sig.params, scope)|
  {
    LocalDeclsAreFilter(sig, scope);
  }

  /** Two objects of one package have the same Id exactly when they have the
      same name. */
  ghost predicate IdsFollowNames(sig: Signature, scope: seq<Obj>) {
    forall i, o :: 0 <= i < |sig.params| && o in scope ==> (sig.params[i].id == o.id <==> sig.params[i].name == o.name)
  }

  /** When Ids follow names, a local never has a parameter's name: the
      name-clash panic of getVars cannot fire. */
  lemma NoClashWhenIdsFollowNames(sig: Signature, scope: seq<Obj>)
    requires sig.recv.None? && IdsFollowNames(sig, scope)
    ensures GetVars(sig, scope).Ok?
  {
  }

  /** Variable collection looks at the receiver and the parameters of the
      signature, never at its results. */
  lemma {:induction false} VarsIgnoreResults(sig: Signature, scope: seq<Obj>, results: seq<Obj>)
    ensures GetVars(sig.(results := results), scope) == GetVars(sig, scope)
  {
    LocalDeclsIgnoreResults(sig, scope, results);
  }

  lemma {:induction false} LocalDeclsIgnoreResults(sig: Signature, scope: seq<Obj>, results: seq<Obj>)
    ensures GetLocalDecls(sig.(results := results), scope) == GetLocalDecls(sig, scope)
    decreases |scope|
  {
    if |scope| > 0 {
      LocalDeclsIgnoreResults(sig, scope[..|scope| - 1], results);
    }
  }
}
