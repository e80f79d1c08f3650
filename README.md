# check_execution_policy — a Dafny model

`check_execution_policy` is a small macOS utility. It reports whether the
running process has "Developer Tool" authorization, and it carries three probes
for whether System Integrity Protection (SIP) Filesystem Protections are
enabled. Almost all of it is glue around foreign calls: `dlopen`, `dlsym` and
`dlclose`, Objective-C message sends, a child process, and `access(2)`. Behind
each call there is a small decision rule. This model makes each foreign outcome
an explicit input value and proves the rules.

Modules:

- `Prelude` holds Rust's `Option` and the machine integers `ISize` (64-bit
  `isize`) and `CInt` (32-bit `c_int`).
- `Dl` models the dynamic loader as a `DynamicLinker` object. Each `dlopen`,
  `dlsym` and `dlclose` appends itself to the object's `calls` log and returns
  the outcome it is given. So does each use of code a loaded image provides
  (`ImageUse`): calling a function resolved in it, or messaging a class it
  registered. `Replay` is a reference semantics for the loader's
  reference counting over such a log. It fails on a use or close of a handle
  that is not open, and otherwise gives the handles still open. A log is
  `Scoped` when replaying it from any state uses only open handles and leaves
  the same handles open. That means it closes everything it opens, exactly
  once, after its last use.
- `Text` holds `Contains`, the substring search of `str::contains`. It is
  proved equal to "occurs at some index".
- `ExecutionPolicyDynamic` (src/execution_policy_dynamic.rs) holds the
  `DeveloperToolStatus` newtype and its four constants, the derived ordering,
  the status function `StatusFrom`, and the class `ExecutionPolicyHandle` with
  `Open`, `CheckStatus` and `Drop`.
- `SipDetectFs` (src/sip_detect_fs.rs) holds the three SIP probes. The first
  is `FromSystemLib`, a method with the RAII guard class `LibSystemHandle`,
  proved against the function `SystemLibProbe` and the call log
  `SystemLibCalls`. The other two are the functions `FromCommand` and
  `FromFsOperation`.
- `CheckExecutionPolicy` (src/main.rs) holds `Label`, `Output` and the method
  `Run`. `Run` opens the framework, queries the status, prints one line and
  drops the handle.

What enters as input:

- what `dlopen`/`dlsym` return (`DlopenResult`, `DlsymResult`);
- what `dlclose` returns (a `CInt`, which the code ignores);
- what the Objective-C runtime answers (`DeveloperToolRuntime`: class found,
  instance created, raw `authorizationStatus`);
- what `csr_get_active_config` returns and stores through its out-pointer
  (`CsrCall`);
- what `csrutil status` produced (`CommandResult`, with stdout already decoded);
- what `access` returned, with the `ErrorKind` of the last OS error
  (`AccessOutcome`).

Notes on the code that shape the model:

- The status is an open newtype over `isize`, with four named constants. There
  is no `Unknown(raw)` variant: an unnamed raw value is kept as it is.
- `check_status` takes `&self` but does not read the handle's pointer. The
  class is found through the global Objective-C runtime, and it exists only
  while the framework is loaded. So the status it returns (`StatusFrom`) is a
  function of the runtime's answers alone. The handle method `CheckStatus`
  requires the handle not to be dropped, which is what the `&self` borrow
  guarantees, and logs the query as a use of the handle's image.
- There is no asynchronous access request: the code has only a comment about
  `requestDeveloperToolAccessWithCompletionHandler`.
- `main.rs` does not declare `mod sip_detect_fs`. The three SIP probes are
  therefore not reachable from the binary. They are modelled on their own, and
  `Run` does not call them.

## Model

| member | source | states |
|---|---|---|
| `ExecutionPolicyDynamic.NamedConstants` | src/execution_policy_dynamic.rs:91-100 | the four constants are exactly 0, 1, 2 and 3, pairwise distinct and ascending; a status is named exactly when its raw value is in 0..3 |
| `ExecutionPolicyDynamic.Transparent` | src/execution_policy_dynamic.rs:86-89 | wrapping an `isize` and reading `.0` back is the identity (both directions); two statuses are equal exactly when their raw values are |
| `ExecutionPolicyDynamic.Compare` | src/execution_policy_dynamic.rs:88 | the derived ordering: `Equal` iff the statuses are equal, `Less`/`Greater` iff the raw values are ordered that way |
| `ExecutionPolicyDynamic.CompareIsTotalOrder` | src/execution_policy_dynamic.rs:88 | the derived ordering is antisymmetric, transitive and reflexive |
| `ExecutionPolicyDynamic.StatusFrom` | src/execution_policy_dynamic.rs:45-68 | a missing `EPDeveloperTool` class gives `NotDetermined`; a nil `+new` gives `NotDetermined`; otherwise the result is the raw `authorizationStatus`, unchanged; any status other than `NotDetermined` implies that class and instance both exist |
| `ExecutionPolicyDynamic.StatusFromKeepsUnnamed` | src/execution_policy_dynamic.rs:63-66 | a raw status outside 0..3 is passed through as an unnamed status with the same integer |
| `ExecutionPolicyDynamic.ExecutionPolicyHandle.Open` | src/execution_policy_dynamic.rs:27-39 | calls `dlopen` once on the framework path; no handle exactly when `dlopen` returned null, otherwise a fresh, undropped handle holding exactly the returned pointer |
| `ExecutionPolicyDynamic.ExecutionPolicyHandle.CheckStatus` | src/execution_policy_dynamic.rs:45-68 | callable only on a handle not yet dropped; returns `StatusFrom` of the runtime's answers and logs exactly one use of the handle's image |
| `ExecutionPolicyDynamic.ExecutionPolicyHandle.Drop` | src/execution_policy_dynamic.rs:78-83 | runs once (requires not yet dropped), makes exactly one `dlclose` of its pointer, and its effect does not depend on what `dlclose` returns |
| `ExecutionPolicyDynamic.Lifecycle` | src/main.rs:13-24 | the loader calls of `main`: the `dlopen` of the framework path; when it returned null nothing else, so no status is queried; otherwise one status query on that handle and then one `dlclose` of it |
| `ExecutionPolicyDynamic.LifecycleScoped` | src/execution_policy_dynamic.rs:78-83 | open, query and drop are scoped: the query runs while the handle is open, every handle opened is closed exactly once, and nothing else is touched |
| `ExecutionPolicyDynamic.CyclesScoped` | src/execution_policy_dynamic.rs:78-83 | any number of successive open/query/drop cycles, whatever each `dlopen` returns, leaves no handle open |
| `Dl.DynamicLinker.Dlopen` | src/execution_policy_dynamic.rs:30 | a `dlopen` is logged with its path and returns the outcome given |
| `Dl.DynamicLinker.Dlsym` | src/sip_detect_fs.rs:35 | a `dlsym` is logged with its handle and symbol name and returns the outcome given |
| `Dl.DynamicLinker.Dlclose` | src/sip_detect_fs.rs:16 | a `dlclose` is logged with its handle and returns the outcome given |
| `Dl.DynamicLinker.Use` | src/sip_detect_fs.rs:47 | a use of code from a loaded image is logged with its handle and the name of what runs |
| `SipDetectFs.ConfigAfter` | src/sip_detect_fs.rs:46-47 | `sip_value` is 0 unless the callee stored a value through the pointer, and then it is that value |
| `SipDetectFs.SystemLibProbe` | src/sip_detect_fs.rs:22-56 | `None` exactly when libSystem fails to load, the symbol is missing or the call status is nonzero; otherwise `Some(true)` exactly when bit 1 (`CSR_ALLOW_UNRESTRICTED_FS`) of the configuration is clear |
| `SipDetectFs.OnlyBit1Matters` | src/sip_detect_fs.rs:54-56 | two configurations that agree on bit 1 give the same answer, so every other bit is irrelevant |
| `SipDetectFs.SystemLibCalls` | src/sip_detect_fs.rs:22-56 | the loader calls start with the `dlopen` of libSystem; on a null handle nothing follows; otherwise one `dlsym` of `csr_get_active_config` on that handle, then the call of the resolved function only when the symbol was found, then one `dlclose` of the handle |
| `SipDetectFs.SystemLibCallsScoped` | src/sip_detect_fs.rs:12-20 | the libSystem handle is used only while open, so the symbol lookup and the call both come before the close, and it is closed exactly once on every path past the wrap |
| `SipDetectFs.LibSystemHandle.CallActiveConfig` | src/sip_detect_fs.rs:46-47 | callable only while the guard is not dropped; returns the call's status and what it stored, and logs one use of the handle's image |
| `SipDetectFs.LibSystemHandle.Drop` | src/sip_detect_fs.rs:14-20 | the guard runs once, makes one `dlclose` of its pointer, and ignores the result |
| `SipDetectFs.FromSystemLib` | src/sip_detect_fs.rs:11-57 | the method returns `SystemLibProbe` of its inputs, and the loader log grows by exactly `SystemLibCalls`: the guard is dropped on the symbol-missing, call-error and success exits |
| `SipDetectFs.FromCommand` | src/sip_detect_fs.rs:62-90 | `None` when the spawn fails or the exit is unsuccessful; `Some(true)` iff a successful run reports either "enabled" phrasing; `Some(false)` iff it reports a "disabled" phrasing and no "enabled" one; `None` iff none of the four phrases appears (or the run failed) |
| `SipDetectFs.FailedRunIgnoresOutput` | src/sip_detect_fs.rs:71-74 | an unsuccessful run gives `None` whatever its stdout |
| `SipDetectFs.EnabledAnywhere` | src/sip_detect_fs.rs:78-81 | either "enabled" phrase anywhere in the output, with any text around it, gives `Some(true)` |
| `SipDetectFs.DisabledAnywhere` | src/sip_detect_fs.rs:82-85 | either "disabled" phrase anywhere in an output without an "enabled" phrase gives `Some(false)` |
| `SipDetectFs.OverallEnabledBeatsFsDisabled` | src/sip_detect_fs.rs:78-85 | since the "enabled" test runs first, "System Integrity Protection status: enabled" wins over a later "Filesystem Protections: disabled" |
| `SipDetectFs.FromFsOperation` | src/sip_detect_fs.rs:93-107 | success gives `Some(false)`; `Some(true)` iff the access failed with `PermissionDenied`; `Some(false)` iff success or `ReadOnlyFilesystem`; `None` iff it failed with any other error kind |
| `SipDetectFs.SuccessIgnoresLastError` | src/sip_detect_fs.rs:94-97 | on success the last OS error is never consulted |
| `Text.Contains` | src/sip_detect_fs.rs:78 | substring search; a string is only found in a text at least as long |
| `Text.ContainsIffOccurs` | src/sip_detect_fs.rs:78-83 | the recursive search finds `p` in `s` exactly when `p` occurs at some index of `s` (both directions) |
| `Text.ContainsInContext` | src/sip_detect_fs.rs:78-83 | a phrase is found whatever text stands before and after it |
| `CheckExecutionPolicy.Label` | src/main.rs:15-21 | raw 0, 1, 2, 3 print "not determined", "restricted", "denied", "authorized" (each iff); every other value prints "unknown" (iff), so the mapping is total; no label is the unavailability message or holds a newline |
| `CheckExecutionPolicy.Output` | src/main.rs:13-24 | exactly one line without a newline is printed; it is "ExecutionPolicy framework not available" iff `dlopen` returned null, and otherwise the label of the status |
| `CheckExecutionPolicy.UnavailableIgnoresRuntime` | src/main.rs:22-23 | without the framework no status is queried: the runtime's answers do not change the output |
| `CheckExecutionPolicy.AuthorizedOnlyWhenGranted` | src/main.rs:13-19 | "authorized" is printed iff the framework loaded, class and instance exist and the raw status is 3 |
| `CheckExecutionPolicy.NotDeterminedCoversMissingClass` | src/main.rs:13-16 | "not determined" is printed iff the framework loaded and the class is missing, the instance is nil, or the raw status is 0 |
| `CheckExecutionPolicy.Run` | src/main.rs:10-25 | prints exactly `Output` of its inputs; the loader log grows by exactly `Lifecycle`, with the status queried through the handle before it is dropped; when `dlopen` returned null the only call is that `dlopen` |

## Left out

- The foreign calls themselves (`dlopen`, `dlsym`, `dlclose`, `dlerror`,
  `access`, `Error::last_os_error`, `AnyClass::get`, `msg_send!`, `Retained`,
  `autoreleasepool`). Their OS behaviour cannot be verified, so only their
  outcomes enter, as inputs.
- The `transmute` of the `dlsym` result to `extern "C" fn(*mut u32) -> c_int`
  (src/sip_detect_fs.rs:42-44). The assumed signature cannot be checked here.
  The model treats the call as returning a status and maybe storing a `u32`.
- Spawning `csrutil status` (the fixed command `csrutil` with argument
  `status`). This is external I/O; only its outcome enters.
- `String::from_utf8(...).unwrap()` (src/sip_detect_fs.rs:76). Stdout enters
  already decoded, so the panic on output that is not UTF-8 is not modelled.
- Logging (`tracing::*`, `tracing_subscriber::fmt::init()`) and the `println!`
  side effect. `main` is modelled as returning the printed lines.
- The asynchronous access request and its one-shot completion handoff. The
  source does not implement it (only a comment at
  src/execution_policy_dynamic.rs:70-72), and there is no concurrency anywhere.
- Idempotence of the probes. Each is a function of its foreign outcomes, so two
  calls on unchanged outcomes agree trivially; nothing more is stated.
- Unicode: `Contains` compares characters, which gives the same result as
  Rust's byte-wise substring search on valid UTF-8.
