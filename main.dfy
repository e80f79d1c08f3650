/** The command-line entry point: open the ExecutionPolicy framework, query
    the Developer Tool status once, print one line describing it, and close
    the framework again. */
module CheckExecutionPolicy {
  import opened Prelude
  import opened Dl
  import opened ExecutionPolicyDynamic

  const NotAvailable := "ExecutionPolicy framework not available"

  /** The line printed for a status: one of four names, or "unknown" for
      every other raw value. */
  function Label(s: DeveloperToolStatus): (line: string)
    ensures line == "not determined" <==> s.raw == 0
    ensures line == "restricted" <==> s.raw == 1
    ensures line == "denied" <==> s.raw == 2
    ensures line == "authorized" <==> s.raw == 3
    ensures line == "unknown" <==> !IsNamed(s)
    ensures line != NotAvailable && '\n' !in line
  {
    if s == NotDetermined then "not determined"
    else if s == Restricted then "restricted"
    else if s == Denied then "denied"
    else if s == Authorized then "authorized"
    else "unknown"
  }

  /** The lines `main` prints, given what `dlopen` and the Objective-C
      runtime answer: always exactly one line, which says the framework is
      missing exactly when `dlopen` returned null. */
  function Output(loaded: DlopenResult, runtime: DeveloperToolRuntime): (lines: seq<string>)
    ensures |lines| == 1 && '\n' !in lines[0]
    ensures lines[0] == NotAvailable <==> loaded.Null?
    ensures loaded.Loaded? ==> lines[0] == Label(StatusFrom(runtime))
  {
    match loaded
    case Loaded(_) => [Label(StatusFrom(runtime))]
    case Null => [NotAvailable]
  }

  /** Without the framework no status is queried: the runtime's answers make
      no difference to the output. */
  lemma UnavailableIgnoresRuntime(r1: DeveloperToolRuntime, r2: DeveloperToolRuntime)
    ensures Output(Null, r1) == Output(Null, r2) == [NotAvailable]
  {
  }

  /** "authorized" is printed exactly when the framework loaded, the class
      and an instance exist, and the raw status is 3. */
  lemma AuthorizedOnlyWhenGranted(loaded: DlopenResult, runtime: DeveloperToolRuntime)
    ensures Output(loaded, runtime) == ["authorized"] <==>
            loaded.Loaded? && runtime.classFound && runtime.instanceCreated && runtime.authorizationStatus == 3
  {
  }

  /** "not determined" is printed for a raw status of 0 and also whenever the
      class or its instance is missing: the three cases read the same. */
  lemma NotDeterminedCoversMissingClass(loaded: DlopenResult, runtime: DeveloperToolRuntime)
    ensures Output(loaded, runtime) == ["not determined"] <==>
            loaded.Loaded? &&
            (!runtime.classFound || !runtime.instanceCreated || runtime.authorizationStatus == 0)
  {
  }

  /** `main`: the handle from `open` lives for the `if let` block, where the
      status is queried through it and its label printed, and is dropped at
      its end. Without the framework, only the `dlopen` happens. */
  method Run(linker: DynamicLinker, loaded: DlopenResult, runtime: DeveloperToolRuntime, closeOutcome: CInt)
    returns (printed: seq<string>)
    modifies linker
    ensures printed == Output(loaded, runtime)
    ensures linker.calls == old(linker.calls) + Lifecycle(loaded)
    ensures loaded.Null? ==> linker.calls == old(linker.calls) + [DlopenCall(FrameworkPath, loaded)]
  {
    var handle := ExecutionPolicyHandle.Open(linker, loaded);
    if handle.Some? {
      var status := handle.value.CheckStatus(linker, runtime);
      printed := [Label(status)];
      handle.value.Drop(linker, closeOutcome);
    } else {
      printed := [NotAvailable];
    }
  }
}
