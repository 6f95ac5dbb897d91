/** NEST's VPManager: the kernel manager that owns the number of threads
    per MPI process. The class keeps the thread count and whether the build
    forbids threads; everything else it consults (the process count, the
    other managers' facts, OMP_NUM_THREADS) comes in as a KernelContext.
    The kernel's change_number_of_threads, which set_status calls on
    success, is recorded in `changeRequests` rather than carried out. */
module VPManager {
  import opened VPConfig
  import ErrorMessage

  /** What set_status ends with: a normal return, or one of its two
      exceptions with its message. */
  datatype StatusResult = Returned | BadProperty(msg: string) | KernelException(msg: string)

  /** The end of set_status that Decide predicts. */
  function ResultOf(d: Decision): StatusResult
  {
    match d
    case NoChange => Returned
    case Change(_) => Returned
    case RejectIncompatible => BadProperty(BadPropertyMessage)
    case RejectBlocked(errors) => KernelException(KernelMessage(errors))
  }

  /** The KernelException text: the header, then each error as a blank,
      its text and a full stop. */
  method ComposeErrorMessage(errors: seq<Condition>) returns (msg: string)
    ensures msg == KernelMessage(errors)
  {
    msg := MessageHeader;
    for i := 0 to |errors|
      invariant msg == MessageHeader + ErrorMessage.Render(Texts(errors[..i]))
    {
      assert Texts(errors[..i + 1]) == Texts(errors[..i]) + [ConditionText(errors[i])];
      ErrorMessage.RenderSnoc(Texts(errors[..i]), ConditionText(errors[i]));
      msg := msg + " " + ConditionText(errors[i]) + ".";
    }
    assert errors[..|errors|] == errors;
  }

  /** The error list of set_status, built by testing each condition in
      turn and appending those that hold. */
  method CollectErrors(k: KernelContext, threads: nat, forceSingleThreading: bool) returns (errors: seq<Condition>)
    ensures errors == ErrorConditions(k, threads, forceSingleThreading)
  {
    // the conditions still to test; `errors` followed by those of them
    // that hold is always the full list
    ghost var c5 := [NoThreadSupport];
    ghost var c4 := [StructuralPlasticityMultithreading] + c5;
    ghost var c3 := [ModelDefaultsModified] + c4;
    ghost var c2 := [NetworkSimulated] + c3;
    ghost var c1 := [DelayExtremaSet] + c2;
    assert AllConditions == [NodesExist] + c1;
    ghost var full := ErrorConditions(k, threads, forceSingleThreading);
    errors := [];
    assert full == errors + Blocking([NodesExist] + c1, k, threads, forceSingleThreading);
    BlockingStep(errors, NodesExist, c1, k, threads, forceSingleThreading);
    if k.nodeCount > 0 {
      errors := errors + [NodesExist];
    }
    assert errors + Blocking(c1, k, threads, forceSingleThreading) == full;
    BlockingStep(errors, DelayExtremaSet, c2, k, threads, forceSingleThreading);
    if k.delayExtremaSet {
      errors := errors + [DelayExtremaSet];
    }
    assert errors + Blocking(c2, k, threads, forceSingleThreading) == full;
    BlockingStep(errors, NetworkSimulated, c3, k, threads, forceSingleThreading);
    if k.hasBeenSimulated {
      errors := errors + [NetworkSimulated];
    }
    assert errors + Blocking(c3, k, threads, forceSingleThreading) == full;
    BlockingStep(errors, ModelDefaultsModified, c4, k, threads, forceSingleThreading);
    if k.modelDefaultsModified {
      errors := errors + [ModelDefaultsModified];
    }
    assert errors + Blocking(c4, k, threads, forceSingleThreading) == full;
    BlockingStep(errors, StructuralPlasticityMultithreading, c5, k, threads, forceSingleThreading);
    if k.structuralPlasticityEnabled && threads > 1 {
      errors := errors + [StructuralPlasticityMultithreading];
    }
    assert errors + Blocking(c5, k, threads, forceSingleThreading) == ErrorConditions(k, threads, forceSingleThreading);
    assert Blocking(c5, k, threads, forceSingleThreading) == if Holds(NoThreadSupport, k, threads, forceSingleThreading) then [NoThreadSupport] else [];
    if forceSingleThreading && threads > 1 {
      errors := errors + [NoThreadSupport];
    }
  }

  class VPManager {
    /** True when the build has no OpenMP: then only one thread is possible. */
    const forceSingleThreading: bool
    /** n_threads_, the number of threads per process. */
    var nThreads: nat
    /** Every thread count handed to the kernel's change_number_of_threads,
        oldest first. */
    var changeRequests: seq<nat>

    /** A build without thread support never asks the kernel for more than
        one thread. */
    ghost predicate Valid()
      reads this
    {
      forceSingleThreading ==> forall i :: 0 <= i < |changeRequests| ==> changeRequests[i] <= 1
    }

    constructor (openMP: bool)
      ensures Valid()
      ensures nThreads == 1
      ensures forceSingleThreading == !openMP
      ensures changeRequests == []
    {
      forceSingleThreading := !openMP;
      nThreads := 1;
      changeRequests := [];
    }

    /** initialize: does nothing unless the kernel is being reset, and then
        goes back to one thread. `ompNotice` tells whether the notice that
        OMP_NUM_THREADS is ignored would be logged. */
    method Initialize(resetKernel: bool, k: KernelContext) returns (ompNotice: bool)
      requires Valid()
      modifies this
      ensures Valid()
      ensures changeRequests == old(changeRequests)
      ensures nThreads == if resetKernel then 1 else old(nThreads)
      ensures ompNotice == (resetKernel && OmpNumThreads(k.ompNumThreadsVar) > 1)
    {
      if !resetKernel {
        return false;
      }
      ompNotice := OmpNumThreads(k.ompNumThreadsVar) > 1;
      SetNumThreads(1, k);
    }

    /** set_num_threads: its assertion forbids more than one thread while
        structural plasticity is on. */
    method SetNumThreads(n: nat, k: KernelContext)
      requires !(k.structuralPlasticityEnabled && n > 1)
      requires Valid()
      modifies this
      ensures Valid()
      ensures nThreads == n
      ensures changeRequests == old(changeRequests)
    {
      nThreads := n;
    }

    /** get_status: the thread count and the virtual-process count. */
    method GetStatus(k: KernelContext) returns (status: Status)
      ensures status.localNumThreads == nThreads
      ensures status.totalNumVirtualProcs == nThreads * k.numProcesses
    {
      status := Status(nThreads, NumVirtualProcesses(nThreads, k.numProcesses));
    }

    /** set_status: validates the request step by step and, when it changes
        the thread count and nothing forbids that, asks the kernel for the
        new count. It never changes nThreads itself; on an exception nothing
        is asked of the kernel. `ompNotice` tells whether the warning that
        OMP_NUM_THREADS is ignored would be logged. */
    method SetStatus(req: Request, k: KernelContext) returns (result: StatusResult, ompNotice: bool)
      requires k.numProcesses >= 1
      requires Valid()
      modifies this
      ensures Valid()
      ensures nThreads == old(nThreads)
      ensures var d := Decide(old(nThreads), forceSingleThreading, k, req);
        && result == ResultOf(d)
        && changeRequests == old(changeRequests) + (if d.Change? then [d.threads] else [])
        && ompNotice == (d.Change? && OmpNumThreads(k.ompNumThreadsVar) > 0
                         && OmpNumThreads(k.ompNumThreadsVar) != d.threads)
    {
      ghost var derived := Derive(nThreads, k.numProcesses, req);
      var numProcesses := k.numProcesses;
      var threads := nThreads;
      var vps := NumVirtualProcesses(nThreads, numProcesses);
      var threadsUpdated := req.localNumThreads.Some?;
      if threadsUpdated {
        threads := req.localNumThreads.value;
      }
      var vpsUpdated := req.totalNumVirtualProcs.Some?;
      if vpsUpdated {
        vps := req.totalNumVirtualProcs.value;
      }

      if vpsUpdated {
        if !threadsUpdated {
          threads := vps / numProcesses;
        }
        var threadsConflict := vps / numProcesses != threads;
        var processesConflict := vps % numProcesses != 0;
        if threadsConflict || processesConflict {
          return BadProperty(BadPropertyMessage), false;
        }
      }

      assert (threads, vps) == derived;
      // act only on values that differ from the current ones
      threadsUpdated := threads != nThreads;
      vpsUpdated := vps != NumVirtualProcesses(nThreads, numProcesses);
      result, ompNotice := Returned, false;

      if threadsUpdated || vpsUpdated {
        var errors := CollectErrors(k, threads, forceSingleThreading);
        if errors != [] {
          var msg := ComposeErrorMessage(errors);
          return KernelException(msg), false;
        }

        var omp := OmpNumThreads(k.ompNumThreadsVar);
        ompNotice := omp > 0 && omp != threads;
        ErrorConditionsExact(k, threads, forceSingleThreading);
        changeRequests := changeRequests + [threads];
      }
    }
  }
}

/** A client of the contracts: what a caller can conclude about a fresh
    manager from the specifications alone. */
module VPManagerClient {
  import opened VPConfig
  import opened VPManager

  method ThreadScenario()
  {
    var m := new VPManager(true);
    var busy := KernelContext(2, 10, false, true, false, false, None);

    // asking for the current values is accepted even with nodes present
    // and after a simulation
    StatusRoundTrip(1, m.forceSingleThreading, busy);
    var r, notice := m.SetStatus(Request(Some(1), Some(2)), busy);
    assert r == Returned && m.changeRequests == [];

    // a VP count that is not a multiple of the process count is refused
    RejectIncompatibleIff(1, m.forceSingleThreading, busy, Request(None, Some(5)));
    r, notice := m.SetStatus(Request(None, Some(5)), busy);
    assert r.BadProperty? && m.changeRequests == [] && m.nThreads == 1;

    // a real change is refused while nodes exist
    ChangeOrBlocked(1, m.forceSingleThreading, busy, Request(Some(4), None));
    r, notice := m.SetStatus(Request(Some(4), None), busy);
    assert r.KernelException? && m.changeRequests == [];

    // on a fresh kernel, eight VPs over two processes become four threads
    var idle := KernelContext(2, 0, false, false, false, false, Some(4));
    VirtualProcsOnly(1, m.forceSingleThreading, idle, 8);
    ChangeOrBlocked(1, m.forceSingleThreading, idle, Request(None, Some(8)));
    r, notice := m.SetStatus(Request(None, Some(8)), idle);
    assert r == Returned && m.changeRequests == [4] && !notice;
  }
}
