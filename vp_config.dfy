/** The rules by which NEST's VPManager accepts or refuses a new number of
    threads per process (`local_num_threads`) or of virtual processes
    (`total_num_virtual_procs`), written as values and functions. `Decide`
    is what VPManager::set_status does with one request; the class in
    module VPManager is proved to do exactly that. */
module VPConfig {
  import ErrorMessage

  datatype Option<T> = None | Some(value: T)

  /** Everything set_status and initialize read from outside the manager:
      the MPI process count, facts other kernel managers report, and the
      OMP_NUM_THREADS environment variable as its integer value (None when
      it is not set). */
  datatype KernelContext = KernelContext(
    numProcesses: nat,
    nodeCount: nat,
    delayExtremaSet: bool,
    hasBeenSimulated: bool,
    modelDefaultsModified: bool,
    structuralPlasticityEnabled: bool,
    ompNumThreadsVar: Option<nat>)

  /** The two entries of a status dictionary that set_status looks at;
      None where the dictionary does not have the entry. */
  datatype Request = Request(localNumThreads: Option<nat>, totalNumVirtualProcs: Option<nat>)

  /** The dictionary get_status fills in. */
  datatype Status = Status(localNumThreads: nat, totalNumVirtualProcs: nat)

  /** The conditions that forbid changing the number of threads. */
  datatype Condition =
    | NodesExist
    | DelayExtremaSet
    | NetworkSimulated
    | ModelDefaultsModified
    | StructuralPlasticityMultithreading
    | NoThreadSupport

  /** What set_status does with a request: nothing, ask the kernel to change
      to `threads` threads, throw BadProperty, or throw KernelException
      listing `errors`. */
  datatype Decision =
    | NoChange
    | Change(threads: nat)
    | RejectIncompatible
    | RejectBlocked(errors: seq<Condition>)

  /** get_OMP_NUM_THREADS: the variable's value, 0 when it is not set. */
  function OmpNumThreads(v: Option<nat>): (n: nat)
    ensures n > 0 ==> v == Some(n)
    ensures v == None ==> n == 0
  {
    if v.Some? then v.value else 0
  }

  /** get_num_virtual_processes: one virtual process per thread on every
      MPI process. */
  function NumVirtualProcesses(threads: nat, numProcesses: nat): (vps: nat)
    ensures numProcesses >= 1 ==> vps / numProcesses == threads && vps % numProcesses == 0
  {
    if numProcesses >= 1 then DivUnique(threads * numProcesses, numProcesses, threads, 0); threads * numProcesses
    else threads * numProcesses
  }

  /** The request as set_status reads it: the thread count and the VP count
      it then validates. A VP count given without a thread count determines
      the thread count; an absent entry keeps the current value. */
  function Derive(current: nat, numProcesses: nat, req: Request): (r: (nat, nat))
    requires numProcesses >= 1
    ensures req.localNumThreads.Some? ==> r.0 == req.localNumThreads.value
    ensures req.totalNumVirtualProcs.Some? ==> r.1 == req.totalNumVirtualProcs.value
    ensures req.totalNumVirtualProcs.None? ==> r.1 == current * numProcesses
    ensures req.localNumThreads.None? && req.totalNumVirtualProcs.None? ==> r.0 == current
    // a thread count derived from VPs is the most threads per process the VPs can fill
    ensures req.localNumThreads.None? && req.totalNumVirtualProcs.Some? ==>
      r.0 * numProcesses <= r.1 < (r.0 + 1) * numProcesses
  {
    var vps := if req.totalNumVirtualProcs.Some? then req.totalNumVirtualProcs.value
               else NumVirtualProcesses(current, numProcesses);
    var threads := if req.localNumThreads.Some? then req.localNumThreads.value
                   else if req.totalNumVirtualProcs.Some? then vps / numProcesses
                   else current;
    assert vps == (vps / numProcesses) * numProcesses + vps % numProcesses;
    assert (vps / numProcesses + 1) * numProcesses == (vps / numProcesses) * numProcesses + numProcesses;
    (threads, vps)
  }

  /** The BadProperty test: the VP count does not split evenly over the
      processes, or not into `threads` per process. */
  predicate Incompatible(vps: nat, numProcesses: nat, threads: nat)
    requires numProcesses >= 1
  {
    vps / numProcesses != threads || vps % numProcesses != 0
  }

  lemma MulAtLeast(x: int, n: int)
    requires x >= 1 && n >= 1
    ensures x * n >= n
  {
    assert x * n == (x - 1) * n + n;
  }

  /** Quotient and remainder are the only ones with a remainder in range. */
  lemma DivUnique(a: int, n: int, q: int, r: int)
    requires n >= 1 && a == q * n + r && 0 <= r < n
    ensures a / n == q && a % n == r
  {
    var q', r' := a / n, a % n;
    assert a == q' * n + r';
    assert (q - q') * n == r' - r;
    if q - q' >= 1 {
      MulAtLeast(q - q', n);
    } else if q' - q >= 1 {
      MulAtLeast(q' - q, n);
    }
  }

  /** The division test accepts a VP count exactly when it is the thread
      count times the process count. */
  lemma CompatibleIff(vps: nat, numProcesses: nat, threads: nat)
    requires numProcesses >= 1
    ensures !Incompatible(vps, numProcesses, threads) <==> vps == threads * numProcesses
  {
    if vps == threads * numProcesses {
      DivUnique(vps, numProcesses, threads, 0);
    } else {
      assert vps == (vps / numProcesses) * numProcesses + vps % numProcesses;
    }
  }

  /** Whether condition `c` holds when changing to `threads` threads. */
  predicate Holds(c: Condition, k: KernelContext, threads: nat, forceSingleThreading: bool)
  {
    match c
    case NodesExist => k.nodeCount > 0
    case DelayExtremaSet => k.delayExtremaSet
    case NetworkSimulated => k.hasBeenSimulated
    case ModelDefaultsModified => k.modelDefaultsModified
    case StructuralPlasticityMultithreading => k.structuralPlasticityEnabled && threads > 1
    case NoThreadSupport => forceSingleThreading && threads > 1
  }

  /** Some condition forbids the change, stated without the list. */
  predicate AnyBlocking(k: KernelContext, threads: nat, forceSingleThreading: bool)
  {
    || k.nodeCount > 0
    || k.delayExtremaSet
    || k.hasBeenSimulated
    || k.modelDefaultsModified
    || (k.structuralPlasticityEnabled && threads > 1)
    || (forceSingleThreading && threads > 1)
  }

  /** Position of each condition among the checks. */
  function Rank(c: Condition): nat
  {
    match c
    case NodesExist => 0
    case DelayExtremaSet => 1
    case NetworkSimulated => 2
    case ModelDefaultsModified => 3
    case StructuralPlasticityMultithreading => 4
    case NoThreadSupport => 5
  }

  /** Every condition, in the order set_status checks them. */
  const AllConditions: seq<Condition> :=
    [NodesExist, DelayExtremaSet, NetworkSimulated, ModelDefaultsModified,
     StructuralPlasticityMultithreading, NoThreadSupport]

  predicate Increasing(cs: seq<Condition>)
  {
    forall i, j :: 0 <= i < j < |cs| ==> Rank(cs[i]) < Rank(cs[j])
  }

  /** The conditions of `cs` that hold, in the order of `cs`. */
  function Blocking(cs: seq<Condition>, k: KernelContext, threads: nat, forceSingleThreading: bool): seq<Condition>
  {
    if cs == [] then []
    else
      var rest := Blocking(cs[1..], k, threads, forceSingleThreading);
      if Holds(cs[0], k, threads, forceSingleThreading) then [cs[0]] + rest else rest
  }

  /** The error list of set_status. */
  function ErrorConditions(k: KernelContext, threads: nat, forceSingleThreading: bool): seq<Condition>
  {
    Blocking(AllConditions, k, threads, forceSingleThreading)
  }

  /** What set_status does with `req` when the manager runs `current`
      threads. */
  function Decide(current: nat, forceSingleThreading: bool, k: KernelContext, req: Request): (d: Decision)
    requires k.numProcesses >= 1
    ensures req == Request(None, None) ==> d == NoChange
    ensures d == RejectIncompatible ==> req.totalNumVirtualProcs.Some?
    ensures d.RejectBlocked? ==>
      d.errors != [] && d.errors == ErrorConditions(k, Derive(current, k.numProcesses, req).0, forceSingleThreading)
    ensures d.Change? ==>
      d.threads == Derive(current, k.numProcesses, req).0 && ErrorConditions(k, d.threads, forceSingleThreading) == []
  {
    var (threads, vps) := Derive(current, k.numProcesses, req);
    if req.totalNumVirtualProcs.Some? && Incompatible(vps, k.numProcesses, threads) then
      RejectIncompatible
    else if threads == current && vps == NumVirtualProcesses(current, k.numProcesses) then
      NoChange
    else
      var errors := ErrorConditions(k, threads, forceSingleThreading);
      if errors != [] then RejectBlocked(errors) else Change(threads)
  }

  // ---------------------------------------------------------------------
  // The error list

  /** A condition is listed exactly when it is one of `cs` and holds. */
  lemma {:induction false} BlockingMembership(cs: seq<Condition>, k: KernelContext, threads: nat, forceSingleThreading: bool, c: Condition)
    ensures c in Blocking(cs, k, threads, forceSingleThreading) <==> c in cs && Holds(c, k, threads, forceSingleThreading)
  {
    if cs != [] {
      BlockingMembership(cs[1..], k, threads, forceSingleThreading, c);
      assert c in cs <==> c == cs[0] || c in cs[1..];
    }
  }

  /** Filtering keeps the order of the checks. */
  lemma {:induction false} BlockingIncreasing(cs: seq<Condition>, k: KernelContext, threads: nat, forceSingleThreading: bool)
    requires Increasing(cs)
    ensures Increasing(Blocking(cs, k, threads, forceSingleThreading))
  {
    if cs != [] {
      var rest := Blocking(cs[1..], k, threads, forceSingleThreading);
      BlockingIncreasing(cs[1..], k, threads, forceSingleThreading);
      forall j | 0 <= j < |rest|
        ensures Rank(cs[0]) < Rank(rest[j])
      {
        BlockingMembership(cs[1..], k, threads, forceSingleThreading, rest[j]);
        var m :| 0 <= m < |cs[1..]| && cs[1..][m] == rest[j];
        assert cs[1 + m] == rest[j];
      }
    }
  }

  /** The error list names each condition that holds, and only those, once
      each and in the order of the checks; it is empty exactly when no
      condition holds. */
  lemma ErrorConditionsExact(k: KernelContext, threads: nat, forceSingleThreading: bool)
    ensures forall c :: c in ErrorConditions(k, threads, forceSingleThreading) <==> Holds(c, k, threads, forceSingleThreading)
    ensures Increasing(ErrorConditions(k, threads, forceSingleThreading))
    ensures ErrorConditions(k, threads, forceSingleThreading) == [] <==> !AnyBlocking(k, threads, forceSingleThreading)
  {
    forall c
      ensures c in ErrorConditions(k, threads, forceSingleThreading) <==> Holds(c, k, threads, forceSingleThreading)
    {
      BlockingMembership(AllConditions, k, threads, forceSingleThreading, c);
      assert c in AllConditions by {
        match c
        case NodesExist => assert AllConditions[0] == c;
        case DelayExtremaSet => assert AllConditions[1] == c;
        case NetworkSimulated => assert AllConditions[2] == c;
        case ModelDefaultsModified => assert AllConditions[3] == c;
        case StructuralPlasticityMultithreading => assert AllConditions[4] == c;
        case NoThreadSupport => assert AllConditions[5] == c;
      }
    }
    BlockingIncreasing(AllConditions, k, threads, forceSingleThreading);
    var errors := ErrorConditions(k, threads, forceSingleThreading);
    if AnyBlocking(k, threads, forceSingleThreading) {
      var c :| Holds(c, k, threads, forceSingleThreading) by {
        if k.nodeCount > 0 { assert Holds(NodesExist, k, threads, forceSingleThreading); }
        else if k.delayExtremaSet { assert Holds(DelayExtremaSet, k, threads, forceSingleThreading); }
        else if k.hasBeenSimulated { assert Holds(NetworkSimulated, k, threads, forceSingleThreading); }
        else if k.modelDefaultsModified { assert Holds(ModelDefaultsModified, k, threads, forceSingleThreading); }
        else if k.structuralPlasticityEnabled && threads > 1 { assert Holds(StructuralPlasticityMultithreading, k, threads, forceSingleThreading); }
        else { assert Holds(NoThreadSupport, k, threads, forceSingleThreading); }
      }
      assert c in errors;
    }
    if errors != [] {
      assert Holds(errors[0], k, threads, forceSingleThreading);
    }
  }

  /** Testing condition `c` before the conditions `cs`: the list built so
      far, `done`, grows by `c` exactly when `c` holds. */
  lemma BlockingStep(done: seq<Condition>, c: Condition, cs: seq<Condition>, k: KernelContext, threads: nat, forceSingleThreading: bool)
    ensures done + Blocking([c] + cs, k, threads, forceSingleThreading) ==
      (done + (if Holds(c, k, threads, forceSingleThreading) then [c] else [])) + Blocking(cs, k, threads, forceSingleThreading)
  {
    assert ([c] + cs)[1..] == cs;
  }

  // ---------------------------------------------------------------------
  // The KernelException message

  const BadPropertyMessage: string :=
    "Requested total_num_virtual_procs is incompatible with the number of processes and threads."
    + "It must be an integer multiple of num_processes and equal to "
    + "local_num_threads * num_processes. Value unchanged."

  const MessageHeader: string := "Number of threads unchanged. Error conditions:"

  function ConditionText(c: Condition): string
  {
    match c
    case NodesExist => "Nodes exist"
    case DelayExtremaSet => "Delay extrema have been set"
    case NetworkSimulated => "Network has been simulated"
    case ModelDefaultsModified => "Model defaults were modified"
    case StructuralPlasticityMultithreading => "Structural plasticity " + "enabled: multithreading " + "cannot be enabled"
    case NoThreadSupport => "This installation of NEST " + "does not support " + "multiple threads"
  }

  function Texts(cs: seq<Condition>): seq<string>
  {
    seq(|cs|, i requires 0 <= i < |cs| => ConditionText(cs[i]))
  }

  /** The text of the KernelException thrown for `errors`. */
  function KernelMessage(errors: seq<Condition>): string
  {
    MessageHeader + ErrorMessage.Render(Texts(errors))
  }

  /** The message is the fixed header followed by one entry per listed
      condition, in the list's order, and so it tells the listed
      conditions apart: two lists with the same message are the same list. */
  lemma KernelMessageEntries(errors: seq<Condition>, others: seq<Condition>)
    ensures KernelMessage(errors)[..|MessageHeader|] == MessageHeader
    ensures ErrorMessage.Parse(KernelMessage(errors)[|MessageHeader|..]) == Texts(errors)
    ensures KernelMessage(errors) == KernelMessage(others) ==> errors == others
  {
    TextsReadBack(errors);
    TextsReadBack(others);
    var m := KernelMessage(errors);
    assert m[|MessageHeader|..] == ErrorMessage.Render(Texts(errors));
    if m == KernelMessage(others) {
      assert KernelMessage(others)[|MessageHeader|..] == ErrorMessage.Render(Texts(others));
      assert Texts(errors) == Texts(others);
      assert |errors| == |others|;
      forall i | 0 <= i < |errors| ensures errors[i] == others[i] {
        assert Texts(errors)[i] == Texts(others)[i];
        ConditionTextInjective(errors[i], others[i]);
      }
    }
  }

  lemma TextsReadBack(errors: seq<Condition>)
    ensures ErrorMessage.Parse(ErrorMessage.Render(Texts(errors))) == Texts(errors)
  {
    var ts := Texts(errors);
    forall i | 0 <= i < |ts| ensures ErrorMessage.DotFree(ts[i]) {
      ConditionTextDotFree(errors[i]);
    }
    ErrorMessage.ParseRender(ts);
  }

  lemma ConditionTextDotFree(c: Condition)
    ensures ErrorMessage.DotFree(ConditionText(c))
  {
    match c
    case NodesExist => assert ErrorMessage.DotFree("Nodes exist");
    case DelayExtremaSet => assert ErrorMessage.DotFree("Delay extrema have been set");
    case NetworkSimulated => assert ErrorMessage.DotFree("Network has been simulated");
    case ModelDefaultsModified => assert ErrorMessage.DotFree("Model defaults were modified");
    case StructuralPlasticityMultithreading =>
      assert ErrorMessage.DotFree("Structural plasticity ");
      assert ErrorMessage.DotFree("enabled: multithreading ");
      assert ErrorMessage.DotFree("cannot be enabled");
    case NoThreadSupport =>
      assert ErrorMessage.DotFree("This installation of NEST ");
      assert ErrorMessage.DotFree("does not support ");
      assert ErrorMessage.DotFree("multiple threads");
  }

  /** The length of each condition's text. The six lengths differ, which
      is what tells the texts apart in ConditionTextInjective. */
  function TextLength(c: Condition): nat
  {
    match c
    case NodesExist => 11
    case DelayExtremaSet => 27
    case NetworkSimulated => 26
    case ModelDefaultsModified => 28
    case StructuralPlasticityMultithreading => 63
    case NoThreadSupport => 59
  }

  lemma ConditionTextInjective(c: Condition, d: Condition)
    ensures ConditionText(c) == ConditionText(d) ==> c == d
  {
    ConditionTextLength(c);
    ConditionTextLength(d);
  }

  lemma ConditionTextLength(c: Condition)
    ensures |ConditionText(c)| == TextLength(c)
  {
    match c
    case NodesExist =>
    case DelayExtremaSet =>
    case NetworkSimulated =>
    case ModelDefaultsModified =>
    case StructuralPlasticityMultithreading =>
    case NoThreadSupport =>
  }

  // ---------------------------------------------------------------------
  // Properties of set_status

  /** A VP count given alone is refused exactly when it does not split
      evenly over the processes; when it leads to a change, the new thread
      count is the VP count divided by the process count. */
  lemma VirtualProcsOnly(current: nat, forceSingleThreading: bool, k: KernelContext, vps: nat)
    requires k.numProcesses >= 1
    ensures var d := Decide(current, forceSingleThreading, k, Request(None, Some(vps)));
      && (d == RejectIncompatible <==> vps % k.numProcesses != 0)
      && (d.Change? ==> d.threads == vps / k.numProcesses && vps == d.threads * k.numProcesses)
  {
    CompatibleIff(vps, k.numProcesses, vps / k.numProcesses);
  }

  /** BadProperty is thrown exactly when a VP count is given that is not
      the (requested or derived) thread count times the process count. */
  lemma RejectIncompatibleIff(current: nat, forceSingleThreading: bool, k: KernelContext, req: Request)
    requires k.numProcesses >= 1
    ensures Decide(current, forceSingleThreading, k, req) == RejectIncompatible <==>
      && req.totalNumVirtualProcs.Some?
      && (if req.localNumThreads.Some?
          then req.totalNumVirtualProcs.value != req.localNumThreads.value * k.numProcesses
          else req.totalNumVirtualProcs.value % k.numProcesses != 0)
  {
    var (threads, vps) := Derive(current, k.numProcesses, req);
    CompatibleIff(vps, k.numProcesses, threads);
  }

  /** set_status does nothing exactly when every entry of the request
      equals the current value; then it does nothing whatever the kernel's
      state and the build, even with nodes in the network or after a
      simulation. */
  lemma NoChangeIff(current: nat, forceSingleThreading: bool, k: KernelContext, req: Request)
    requires k.numProcesses >= 1
    ensures Decide(current, forceSingleThreading, k, req) == NoChange <==>
      && (req.localNumThreads.None? || req.localNumThreads.value == current)
      && (req.totalNumVirtualProcs.None? || req.totalNumVirtualProcs.value == current * k.numProcesses)
  {
    var (threads, vps) := Derive(current, k.numProcesses, req);
    CompatibleIff(vps, k.numProcesses, threads);
    CompatibleIff(vps, k.numProcesses, current);
  }

  /** A request that passes the BadProperty test and is not a no-op asks
      for a thread count different from the current one; it is refused with
      the full error list when some condition holds and accepted otherwise. */
  lemma ChangeOrBlocked(current: nat, forceSingleThreading: bool, k: KernelContext, req: Request)
    requires k.numProcesses >= 1
    requires Decide(current, forceSingleThreading, k, req) != NoChange
    requires Decide(current, forceSingleThreading, k, req) != RejectIncompatible
    ensures var threads := Derive(current, k.numProcesses, req).0;
      && threads != current
      && (AnyBlocking(k, threads, forceSingleThreading) ==>
            Decide(current, forceSingleThreading, k, req) == RejectBlocked(ErrorConditions(k, threads, forceSingleThreading)))
      && (!AnyBlocking(k, threads, forceSingleThreading) ==>
            Decide(current, forceSingleThreading, k, req) == Change(threads))
  {
    var (threads, vps) := Derive(current, k.numProcesses, req);
    CompatibleIff(vps, k.numProcesses, threads);
    ErrorConditionsExact(k, threads, forceSingleThreading);
  }

  /** The thread count handed to the kernel differs from the current one,
      agrees with every entry of the request, and is one that no condition
      blocks: in particular not more than one thread with structural
      plasticity on or in a build without thread support. */
  lemma ChangeIsValidated(current: nat, forceSingleThreading: bool, k: KernelContext, req: Request, n: nat)
    requires k.numProcesses >= 1
    requires Decide(current, forceSingleThreading, k, req) == Change(n)
    ensures n != current
    ensures req.localNumThreads.Some? ==> req.localNumThreads.value == n
    ensures req.totalNumVirtualProcs.Some? ==> req.totalNumVirtualProcs.value == n * k.numProcesses
    ensures ErrorConditions(k, n, forceSingleThreading) == []
    ensures !(k.structuralPlasticityEnabled && n > 1)
    ensures !(forceSingleThreading && n > 1)
  {
    ChangeOrBlocked(current, forceSingleThreading, k, req);
    var (threads, vps) := Derive(current, k.numProcesses, req);
    CompatibleIff(vps, k.numProcesses, threads);
    ErrorConditionsExact(k, n, forceSingleThreading);
  }

  /** Once the kernel runs the thread count a request asked for, the same
      request is a no-op. */
  lemma ChangeIdempotent(current: nat, forceSingleThreading: bool, k: KernelContext, req: Request, n: nat)
    requires k.numProcesses >= 1
    requires Decide(current, forceSingleThreading, k, req) == Change(n)
    ensures Decide(n, forceSingleThreading, k, req) == NoChange
  {
    ChangeIsValidated(current, forceSingleThreading, k, req, n);
    NoChangeIff(n, forceSingleThreading, k, req);
  }

  /** Feeding the dictionary get_status reports back into set_status
      changes nothing. */
  lemma StatusRoundTrip(current: nat, forceSingleThreading: bool, k: KernelContext)
    requires k.numProcesses >= 1
    ensures var s := Status(current, NumVirtualProcesses(current, k.numProcesses));
      Decide(current, forceSingleThreading, k, Request(Some(s.localNumThreads), Some(s.totalNumVirtualProcs))) == NoChange
  {
    NoChangeIff(current, forceSingleThreading, k,
                Request(Some(current), Some(NumVirtualProcesses(current, k.numProcesses))));
  }

  /** set_status itself sets no lower bound on the thread count: with no
      blocking condition, zero threads, asked for directly or as zero
      virtual processes, is handed on to the kernel. */
  lemma ZeroThreadsHandedOn(current: nat, forceSingleThreading: bool, k: KernelContext, req: Request)
    requires k.numProcesses >= 1 && current >= 1
    requires req == Request(Some(0), None) || req == Request(None, Some(0))
    requires !k.delayExtremaSet && !k.hasBeenSimulated && !k.modelDefaultsModified && k.nodeCount == 0
    ensures Decide(current, forceSingleThreading, k, req) == Change(0)
  {
    ErrorConditionsExact(k, 0, forceSingleThreading);
  }
}
