# NEST VPManager: threads and virtual processes

This project models `nest::VPManager` from the NEST simulator kernel
(`nestkernel/vp_manager.cpp`). VPManager is the kernel manager that owns
the number of threads per MPI process (`local_num_threads`). From that
count and the number of MPI processes it derives the number of virtual
processes (`total_num_virtual_procs`). Its `set_status` validates a
request to change either value:

- it derives a thread count from a VP count given alone;
- it throws `BadProperty` when the VP count is not the thread count times
  the process count;
- it does nothing when neither value differs from the current one;
- it throws `KernelException` listing every condition that forbids the
  change (nodes exist, delay extrema set, network simulated, model
  defaults modified, structural plasticity with more than one thread, a
  build without thread support with more than one thread);
- otherwise it asks the kernel to change the number of threads.

The model has three modules:

- `VPConfig` (`vp_config.dfy`): the request, the kernel facts and the
  decision as values. `Decide` says what `set_status` does with a request.
  `ErrorConditions` is the error list, defined as a filter over the
  conditions in the order they are checked. The lemmas state the
  properties of both.
- `ErrorMessage` (`error_message.dfy`): how the error list is written into
  the exception text, and a reader for it. Reading the text back returns
  the list it was built from.
- `VPManager` (`vp_manager.dfy`): the class `VPManager`. It has the source's
  state (`n_threads_` as `nThreads`, `force_singlethreading_` as
  `forceSingleThreading`) and its methods. `SetStatus` follows the source
  step by step and is proved to do what `Decide` says. A small client
  module, `VPManagerClient`, shows what callers can conclude from the
  contracts alone.

The rest of the kernel comes in as a `KernelContext` value:

- the MPI process count;
- the node count;
- the flags reported by the connection, simulation, model and
  structural-plasticity managers;
- `OMP_NUM_THREADS` as an optional number.

A successful `set_status` calls the kernel's `change_number_of_threads`.
The model records that call by appending the thread count to
`changeRequests`. `set_status` never writes `n_threads_` itself.

Stated assumptions:

- `get_num_virtual_processes()` is defined in `vp_manager_impl.h`, which is
  not part of this model. It is taken to be `n_threads_ * num_processes`,
  as the `BadProperty` message at `vp_manager.cpp:120-122` describes it
  (`VPConfig.NumVirtualProcesses`).
- The number of MPI processes is at least 1. `set_status` divides by it.

The exception texts are those of the source. The `BadProperty` text is kept
as the source's string concatenation spells it, with no blank between
"threads." and "It".

## Model

| member | source | states |
|---|---|---|
| `VPManager.VPManager.constructor` | nestkernel/vp_manager.cpp:40-48 | A new manager has one thread. It forces single-threading exactly when the build has no OpenMP. No kernel change has been requested yet. |
| `VPManager.VPManager.Initialize` | nestkernel/vp_manager.cpp:50-78 | Without a kernel reset, nothing changes. With a reset, the thread count becomes 1. The OMP_NUM_THREADS notice is due exactly when the variable is above 1. No kernel change is requested. |
| `VPManager.VPManager.SetNumThreads` | nestkernel/vp_manager.cpp:186-195 | Requires what the source asserts: not more than one thread while structural plasticity is on. Afterwards the thread count is `n` and nothing else changed. |
| `VPManager.VPManager.GetStatus` | nestkernel/vp_manager.cpp:179-184 | Reports the current thread count and thread count × process count. |
| `VPManager.VPManager.SetStatus` | nestkernel/vp_manager.cpp:99-177 | The result is exactly what `Decide` prescribes: normal return, BadProperty with its text, or KernelException with the message for the error list. set_status's own code leaves the thread count untouched; the kernel installs the new count when it runs the recorded `change_number_of_threads` (see `ChangeIdempotent`). The kernel is asked for a change once, with the decided count, only on `Change`, and never on an exception. The OMP warning is due only on a change to a count other than OMP_NUM_THREADS. Keeps the invariant that a build without thread support never asks for more than one thread. |
| `VPManager.CollectErrors` | nestkernel/vp_manager.cpp:132-156 | The list built by the six successive checks is the filter `ErrorConditions`. |
| `VPManager.ComposeErrorMessage` | nestkernel/vp_manager.cpp:158-165 | The text built entry by entry in the loop is the header followed by one " text." entry per listed condition (`KernelMessage`). |
| `VPConfig.OmpNumThreads` | nestkernel/vp_manager.cpp:85-97 | The value of OMP_NUM_THREADS, 0 when the variable is not set; a positive result is the variable's value. |
| `VPConfig.NumVirtualProcesses` | nestkernel/vp_manager.cpp:120-122 | The assumed `get_num_virtual_processes`: thread count × process count, which splits evenly into that many threads per process. |
| `VPConfig.Derive` | nestkernel/vp_manager.cpp:102-113 | The thread and VP counts set_status validates: given entries are taken as they are, absent ones keep the current values, and a VP count given alone yields the most threads per process it can fill (VP count / process count). |
| `VPConfig.Decide` | nestkernel/vp_manager.cpp:99-177 | NoChange, Change(threads), RejectIncompatible or RejectBlocked(error list), from the current count, the build, the kernel facts and the request. An empty request changes nothing; BadProperty only when a VP count is given; a refusal carries the non-empty error list for the derived count; a change goes to the derived count, for which the error list is empty. |
| `VPConfig.CompatibleIff` | nestkernel/vp_manager.cpp:115-117 | The quotient-and-remainder test passes exactly when the VP count equals thread count × process count. |
| `VPConfig.VirtualProcsOnly` | nestkernel/vp_manager.cpp:108-123 | With only a VP count given, the request is refused exactly when the count is not a multiple of the process count. Any change it causes is to VP count / process count threads. |
| `VPConfig.RejectIncompatibleIff` | nestkernel/vp_manager.cpp:105-123 | BadProperty is thrown exactly when a VP count is given that differs from the requested thread count × process count. With no thread count given, exactly when the VP count is not a multiple of the process count. |
| `VPConfig.NoChangeIff` | nestkernel/vp_manager.cpp:126-130 | The request is a no-op exactly when each given entry equals the current value. The condition does not mention the kernel facts or the build, so a no-op is accepted even with nodes present or after a simulation. |
| `VPConfig.ChangeOrBlocked` | nestkernel/vp_manager.cpp:126-166 | A compatible request that is not a no-op asks for a thread count different from the current one. If any condition holds, it is refused with the full error list. Otherwise it is accepted. |
| `VPConfig.ChangeIsValidated` | nestkernel/vp_manager.cpp:130-175 | The count passed to `change_number_of_threads` differs from the current one and agrees with every entry of the request. No blocking condition holds for it. It is not above 1 with structural plasticity on or without thread support, so it satisfies `set_num_threads`'s assertion. |
| `VPConfig.ChangeIdempotent` | nestkernel/vp_manager.cpp:126-130 | Once the requested count is in effect, the same request is a no-op. |
| `VPConfig.StatusRoundTrip` | nestkernel/vp_manager.cpp:180-184 | Passing get_status's dictionary back to set_status changes nothing. |
| `VPConfig.ZeroThreadsHandedOn` | nestkernel/vp_manager.cpp:102-175 | set_status sets no lower bound. With no blocking condition, zero threads (asked for directly or as zero VPs) is passed to the kernel. |
| `VPConfig.ErrorConditionsExact` | nestkernel/vp_manager.cpp:132-158 | The error list holds each condition that holds and only those. They are in the order of the checks, so each appears once. The list is empty exactly when no condition holds. |
| `VPConfig.BlockingMembership` | nestkernel/vp_manager.cpp:132-156 | A condition is in the filtered list exactly when it was tested and holds. |
| `VPConfig.BlockingIncreasing` | nestkernel/vp_manager.cpp:132-156 | Filtering keeps the order in which the conditions are tested. |
| `VPConfig.KernelMessageEntries` | nestkernel/vp_manager.cpp:158-165 | The exception text starts with the fixed header. The rest reads back as exactly the listed conditions' texts, in order. Different error lists give different texts. |
| `ErrorMessage.ParseRender` | nestkernel/vp_manager.cpp:161-164 | Entries written as " entry." read back to the same entries, provided none contains a full stop. |
| `ErrorMessage.RenderSnoc` | nestkernel/vp_manager.cpp:161-164 | Appending one entry appends " entry." to the text, which is what each loop step does. |

## Left out

- Logging. The two `LOG` calls (`vp_manager.cpp:74`, `172`) are modelled only as boolean results saying whether the message would be logged.
- OpenMP calls. `omp_set_dynamic` and `omp_set_num_threads` are foreign calls about concurrency, so they have no counterpart.
- What `kernel().change_number_of_threads` does is kernel code that is not part of this model. The model records the request in `changeRequests`.
- `get_OMP_NUM_THREADS` reads the environment with `getenv`/`atoi`. The model takes the variable's value as an `Option<nat>`, 0 when unset (`VPConfig.OmpNumThreads`). It does not model text parsing or negative values.
- Status dictionaries (`DictionaryDatum`, `updateValue<long>`, `def<long>`). The two entries are an `Option<nat>` pair (`VPConfig.Request`). The conversion of negative `long` values to `size_t` is not modelled, nor is the exception `updateValue<long>` throws when an entry is not an integer.
- MPI. The process count is the `numProcesses` field of `KernelContext`. That it is at least 1 is a precondition of the operations that divide by it (`Derive`, `Incompatible`, `Decide`, `SetStatus` and the lemmas about them).
- `finalize` has an empty body, so there is nothing to model.
