/** The ordered setup buildSSA performs before it walks the blocks: the
    early exits on the signature, the entry block, the three seed values of
    the entry block, the memory binding, the per-variable class switch, and
    the frame-pointer address. Blocks and values are opaque ids; the backend
    is not modelled. */
module Setup {
  import opened Common
  import opened SsaTypes
  import opened Vars

  /** The format the class switch reports an unhandled class with. */
  const UnimplementedFormat := "local variable with class %s%s unimplemented"

  /** The classes the switch of buildSSA has a case for. */
  ghost const HandledClasses: set<NodeClass> :=
    {PPARAM, WithHeap(PAUTO), WithHeap(PPARAM), WithHeap(PPARAMOUT), PAUTO, PPARAMOUT, PFUNC}

  /** The case of the class switch a class falls into; every case but the
      default does nothing at this point of construction. */
  function ClassSwitch(e: Export, c: NodeClass): (r: Result<()>)
    ensures r.Ok? <==> c in HandledClasses
    ensures !r.Ok? ==> r.Panic? && r.abort.Fatal? && r.abort.format == UnimplementedFormat
    ensures !r.Ok? ==> r.abort.args == [ClassArg(c), TextArg(if c.heap then ",heap" else "")]
  {
    if c == PPARAM then Ok(())
    else if c == WithHeap(PAUTO) then Ok(())
    else if c == WithHeap(PPARAM) || c == WithHeap(PPARAMOUT) then Ok(())
    else if c == PAUTO || c == PPARAMOUT then Ok(())
    else if c == PFUNC then Ok(())
    else
      var str := if c.heap then ",heap" else "";
      Panic(Unimplementedf(e, UnimplementedFormat, [ClassArg(c), TextArg(str)]))
  }

  /** The classes of the variables, in order: what the switch looks at. */
  function ClassesOf(vs: seq<Var>): (cs: seq<NodeClass>)
    ensures |cs| == |vs|
    ensures forall k :: 0 <= k < |vs| ==> cs[k] == Class(vs[k])
  {
    seq(|vs|, k requires 0 <= k < |vs| => Class(vs[k]))
  }

  /** Class `k` is the first the switch has no case for. */
  ghost predicate FirstUnhandledAt(cs: seq<NodeClass>, k: int) {
    && 0 <= k < |cs|
    && cs[k] !in HandledClasses
    && forall j :: 0 <= j < k ==> cs[j] in HandledClasses
  }

  /** Runs the class switch over the classes in order, stopping at the first
      unhandled one, whose Unimplementedf panic is the outcome. */
  function SwitchAll(e: Export, cs: seq<NodeClass>): (r: Result<()>)
    ensures r.Ok? <==> forall k :: 0 <= k < |cs| ==> cs[k] in HandledClasses
    ensures !r.Ok? ==> r.Panic? && r.abort.Fatal? && r.abort.format == UnimplementedFormat
    ensures !r.Ok? ==> exists k :: FirstUnhandledAt(cs, k) && r == ClassSwitch(e, cs[k])
  {
    if |cs| == 0 then Ok(())
    else
      var head := ClassSwitch(e, cs[0]);
      if !head.Ok? then
        assert FirstUnhandledAt(cs, 0);
        head
      else
        assert forall k :: 1 <= k < |cs| ==> cs[k] == cs[1..][k - 1];
        var r := SwitchAll(e, cs[1..]);
        assert !r.Ok? ==> exists k :: FirstUnhandledAt(cs, k) && r == ClassSwitch(e, cs[k]) by {
          if !r.Ok? {
            var k :| FirstUnhandledAt(cs[1..], k) && r == ClassSwitch(e, cs[1..][k]);
            assert FirstUnhandledAt(cs, k + 1);
          }
        }
        r
  }

  /** The variables of getVars never reach the default, Unimplementedf,
      case of the class switch. */
  lemma VarsNeverUnimplemented(e: Export, sig: Signature, scope: seq<Obj>)
    requires GetVars(sig, scope).Ok?
    ensures SwitchAll(e, ClassesOf(GetVars(sig, scope).value)).Ok?
  {
  }

  /** The Go types of the seed values. */
  datatype Type = TypeMem | TypeUintptr

  /** Keys of the variable-to-value maps: the memory variable, the synthetic
      frame-pointer parameter, and the function's own variables. */
  datatype VarKey = MemVar | FramePointer | SourceVar(v: Var)

  /** The auxiliary symbol of an address: an argument of the given type. */
  datatype Symbol = ArgSymbol(typ: Type, node: VarKey)

  datatype Op = OpInitMem | OpSP | OpSB | OpAddr(aux: Symbol)

  /** A value of the entry block; its id is its position in the block. */
  datatype Value = Value(op: Op, typ: Type, args: seq<ValueId>)

  /** The construction state as buildSSA leaves it for the block walk. */
  datatype State = State(
    exporter: Export,
    name: string,
    blocks: seq<BlockId>,
    entry: BlockId,
    current: BlockId,
    entryValues: seq<Value>,
    startmem: ValueId,
    sp: ValueId,
    sb: ValueId,
    labels: map<string, Label>,
    vars: map<VarKey, ValueId>,
    decladdrs: map<VarKey, ValueId>)

  /** Appends a value to the entry block and returns its id. */
  function NewEntryValue(st: State, v: Value): (State, ValueId) {
    (st.(entryValues := st.entryValues + [v]), |st.entryValues|)
  }

  /** What the setup promises the block walk: the entry is the first scanned
      block and is the current one; its first three values are InitMem, SP and
      SB, in that order; the memory variable is bound to the initial memory;
      the fourth and last value is the frame pointer's address, an Addr of an
      argument symbol off SP; no label is known yet; and logging is on. */
  ghost predicate Seeded(st: State, scanned: seq<BlockId>) {
    && |scanned| > 0
    && st.blocks == scanned
    && st.entry == scanned[0]
    && st.current == st.entry
    && |st.entryValues| == 4
    && st.startmem == 0 && st.sp == 1 && st.sb == 2
    && st.vars == map[MemVar := st.startmem]
    && st.decladdrs == map[FramePointer := 3]
    && st.entryValues[st.startmem] == Value(OpInitMem, TypeMem, [])
    && st.entryValues[st.sp] == Value(OpSP, TypeUintptr, [])
    && st.entryValues[st.sb] == Value(OpSB, TypeUintptr, [])
    && st.entryValues[st.decladdrs[FramePointer]] == Value(OpAddr(ArgSymbol(TypeUintptr, FramePointer)), TypeUintptr, [st.sp])
    && st.labels == map[]
    && st.exporter.log
  }

  /** The setup after the signature checks: it needs at least one scanned
      block, and panics where getVars or the class switch panic. */
  function Construct(fn: Function, scanned: seq<BlockId>): (r: Result<State>)
    ensures |scanned| == 0 ==> r == Panic(NoBlocks)
    ensures r.Ok? <==> |scanned| > 0 && GetVars(fn.sig, fn.scope).Ok?
    ensures |scanned| > 0 && GetVars(fn.sig, fn.scope).Panic? ==> r == Panic(GetVars(fn.sig, fn.scope).abort)
    ensures r.Ok? ==> Seeded(r.value, scanned) && r.value.name == fn.name
  {
    var e := Export(true);
    if |scanned| < 1 then Panic(NoBlocks)
    else
      var entry := scanned[0];
      var st0 := State(e, fn.name, scanned, entry, entry, [], 0, 0, 0, map[], map[], map[]);
      var (st1, startmem) := NewEntryValue(st0, Value(OpInitMem, TypeMem, []));
      var (st2, sp) := NewEntryValue(st1, Value(OpSP, TypeUintptr, []));
      var (st3, sb) := NewEntryValue(st2, Value(OpSB, TypeUintptr, []));
      var st4 := st3.(startmem := startmem, sp := sp, sb := sb, vars := map[MemVar := startmem]);
      var vs :- GetVars(fn.sig, fn.scope);
      VarsNeverUnimplemented(e, fn.sig, fn.scope);
      match SwitchAll(e, ClassesOf(vs))
      case NotOk => NotOk
      case Panic(a) => Panic(a)
      case Ok(_) =>
        var fpAddr := Value(OpAddr(ArgSymbol(TypeUintptr, FramePointer)), TypeUintptr, [st4.sp]);
        var (st5, fp) := NewEntryValue(st4, fpAddr);
        Ok(st5.(decladdrs := map[FramePointer := fp]))
  }

  /** buildSSA up to the block walk: a receiver returns not-ok before any
      block is scanned; more than one result is only reported. */
  function BuildFunc(fn: Function, scanned: seq<BlockId>): (r: Run<State>)
    ensures fn.sig.recv.Some? ==> r == Run(NotOk, [MethodsNotSupported])
    ensures fn.sig.recv.None? ==>
      r.notices == (if |fn.sig.results| > 1 then [MultipleReturnsNotSupported] else [])
    ensures fn.sig.recv.None? && |scanned| == 0 ==> r.result == Panic(NoBlocks)
    ensures r.result.NotOk? <==> fn.sig.recv.Some?
    ensures fn.sig.recv.None? && |scanned| > 0 && ParamLocalClash(fn.sig, fn.scope) ==>
      r.result.Panic? && r.result.abort.NameClash?
    ensures r.result.Ok? <==> fn.sig.recv.None? && |scanned| > 0 && !ParamLocalClash(fn.sig, fn.scope)
    ensures r.result.Ok? ==> Seeded(r.result.value, scanned) && r.result.value.name == fn.name
    ensures r.result.Panic? ==> r.result.abort == NoBlocks || r.result.abort.NameClash?
  {
    if fn.sig.recv.Some? then Run(NotOk, [MethodsNotSupported])
    else
      var warned := if |fn.sig.results| > 1 then [MultipleReturnsNotSupported] else [];
      Run(Construct(fn, scanned), warned)
  }

  /** A receiver stops construction before the scanned blocks are looked at. */
  lemma ReceiverIgnoresBlocks(fn: Function, b1: seq<BlockId>, b2: seq<BlockId>)
    requires fn.sig.recv.Some?
    ensures BuildFunc(fn, b1) == BuildFunc(fn, b2)
  {
  }

  /** The number of results changes only the notices, never the outcome. */
  lemma ResultsOnlyWarn(fn: Function, results: seq<Obj>, scanned: seq<BlockId>)
    ensures BuildFunc(fn.(sig := fn.sig.(results := results)), scanned).result == BuildFunc(fn, scanned).result
  {
    var fn' := fn.(sig := fn.sig.(results := results));
    VarsIgnoreResults(fn.sig, fn.scope, results);
    assert Construct(fn', scanned) == Construct(fn, scanned);
  }
}
