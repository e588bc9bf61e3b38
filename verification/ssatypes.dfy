/** The label record used while resolving jumps, and the compiler services
    (ssaExport) that the builder and the SSA backend call: logging, and the
    diagnostics that end a construction. */
module SsaTypes {
  import opened Common

  /** A label: the blocks a goto, break or continue naming it goes to, its
      definition node, one of its use nodes, and whether an error has already
      been reported for it. Absent pointers are None. */
  datatype Label = Label(
    target: Option<BlockId>,
    breakTarget: Option<BlockId>,
    continueTarget: Option<BlockId>,
    defNode: Option<NodeId>,
    useNode: Option<NodeId>,
    reported: bool)

  /** Whether the label has a definition (a labelled statement). */
  function Defined(l: Label): (r: bool)
    ensures r <==> l.defNode != None
  {
    match l.defNode
    case Some(_) => true
    case None => false
  }

  /** Whether the label has a use (a goto, break or continue naming it). */
  function Used(l: Label): (r: bool)
    ensures r <==> l.useNode != None
  {
    match l.useNode
    case Some(_) => true
    case None => false
  }

  /** Whether the label was defined, used, both or neither depends only on
      its definition and use nodes, never on its targets or reported flag. */
  lemma PresenceIgnoresTargets(l: Label, t: Option<BlockId>, b: Option<BlockId>, c: Option<BlockId>, rep: bool)
    ensures Defined(l.(target := t, breakTarget := b, continueTarget := c, reported := rep)) == Defined(l)
    ensures Used(l.(target := t, breakTarget := b, continueTarget := c, reported := rep)) == Used(l)
  {
  }

  /** The exporter's only state: whether logging is on. */
  datatype Export = Export(log: bool)

  /** One line of log output: a format string and its arguments. */
  datatype Entry = Entry(format: string, args: seq<Arg>)

  /** Logf appends its message to the output when logging is on, and does
      nothing otherwise. */
  function Logf(e: Export, out: seq<Entry>, format: string, args: seq<Arg>): (out': seq<Entry>)
    ensures out <= out'
    ensures |out'| == |out| + 1 <==> e.log
    ensures !e.log ==> out' == out
    ensures e.log ==> out'[|out|] == Entry(format, args)
  {
    if e.log then out + [Entry(format, args)] else out
  }

  /** The package-level Fatalf: it prints the message and always panics. */
  function PackageFatalf(format: string, args: seq<Arg>): (a: Abort)
    ensures a.Fatal? && a.format == format && a.args == args
  {
    Fatal(format, args)
  }

  /** The exporter's Fatalf delegates to the package Fatalf. */
  function Fatalf(e: Export, format: string, args: seq<Arg>): (a: Abort)
    ensures a == PackageFatalf(format, args)
  {
    PackageFatalf(format, args)
  }

  /** Unimplementedf delegates to the package Fatalf as well, so an
      unimplemented construct cannot be told from a fatal error. */
  function Unimplementedf(e: Export, format: string, args: seq<Arg>): (a: Abort)
    ensures a == Fatalf(e, format, args)
  {
    PackageFatalf(format, args)
  }

  /** Warnl panics whatever its line, format and arguments. */
  function Warnl(e: Export, line: int, format: string, args: seq<Arg>): (a: Abort)
    ensures a == WarnlPanic
  {
    WarnlPanic
  }

  /** CanSSA accepts every type. */
  function CanSSA<T>(e: Export, t: T): (r: bool)
    ensures r
  {
    true
  }

  /** A call the builder or the backend makes into the exporter. */
  datatype Call =
    | LogfCall(format: string, args: seq<Arg>)
    | FatalfCall(format: string, args: seq<Arg>)
    | UnimplementedfCall(format: string, args: seq<Arg>)
    | WarnlCall(line: int, format: string, args: seq<Arg>)

  /** The panic an aborting call ends in. */
  function AbortOf(e: Export, c: Call): Abort
    requires !c.LogfCall?
  {
    match c
    case FatalfCall(f, a) => Fatalf(e, f, a)
    case UnimplementedfCall(f, a) => Unimplementedf(e, f, a)
    case WarnlCall(l, f, a) => Warnl(e, l, f, a)
  }

  /** Performs the calls in order, accumulating log output, until one of
      them panics. */
  function RunCalls(e: Export, calls: seq<Call>, out: seq<Entry>): Result<seq<Entry>>
    decreases |calls|
  {
    if |calls| == 0 then Ok(out)
    else if calls[0].LogfCall? then RunCalls(e, calls[1..], Logf(e, out, calls[0].format, calls[0].args))
    else Panic(AbortOf(e, calls[0]))
  }

  /** The log entries of the Logf calls among `calls`, in order. */
  function LogEntries(calls: seq<Call>): (r: seq<Entry>)
    ensures |r| <= |calls|
  {
    if |calls| == 0 then []
    else if calls[0].LogfCall? then [Entry(calls[0].format, calls[0].args)] + LogEntries(calls[1..])
    else LogEntries(calls[1..])
  }

  /** Index of the first call that is not a Logf. */
  function FirstAbortingCall(calls: seq<Call>): (k: nat)
    requires exists i :: 0 <= i < |calls| && !calls[i].LogfCall?
    ensures k < |calls| && !calls[k].LogfCall?
    ensures forall j :: 0 <= j < k ==> calls[j].LogfCall?
  {
    if !calls[0].LogfCall? then 0
    else
      assert exists i :: 0 <= i < |calls[1..]| && !calls[1..][i].LogfCall? by {
        var i :| 0 <= i < |calls| && !calls[i].LogfCall?;
        assert calls[1..][i - 1] == calls[i];
      }
      1 + FirstAbortingCall(calls[1..])
  }

  /** Severity policy of the exporter: a run of calls finishes iff every call
      is a Logf; a finished run has output exactly the Logf messages when
      logging is on and nothing new when it is off; otherwise the run ends in
      the panic of the first call that is not a Logf. */
  lemma {:induction false} RunCallsSeverity(e: Export, calls: seq<Call>, out: seq<Entry>)
    ensures RunCalls(e, calls, out).Ok? <==> forall i :: 0 <= i < |calls| ==> calls[i].LogfCall?
    ensures RunCalls(e, calls, out).Ok? ==>
      RunCalls(e, calls, out).value == out + (if e.log then LogEntries(calls) else [])
    ensures !RunCalls(e, calls, out).Ok? ==>
      RunCalls(e, calls, out) == Panic(AbortOf(e, calls[FirstAbortingCall(calls)]))
    decreases |calls|
  {
    if |calls| == 0 {
    } else if calls[0].LogfCall? {
      var out1 := Logf(e, out, calls[0].format, calls[0].args);
      RunCallsSeverity(e, calls[1..], out1);
      assert forall i :: 1 <= i < |calls| ==> calls[i] == calls[1..][i - 1];
      if !RunCalls(e, calls, out).Ok? {
        assert FirstAbortingCall(calls) == 1 + FirstAbortingCall(calls[1..]);
      }
    } else {
    }
  }

  /** With logging off, a run of calls never produces output. */
  lemma SilentWhenLogOff(calls: seq<Call>, out: seq<Entry>)
    requires forall i :: 0 <= i < |calls| ==> calls[i].LogfCall?
    ensures RunCalls(Export(false), calls, out) == Ok(out)
  {
    RunCallsSeverity(Export(false), calls, out);
  }
}
