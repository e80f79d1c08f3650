/** The dynamically loaded ExecutionPolicy framework: the Developer Tool
    status newtype, the handle that keeps the framework loaded, and the
    status query `[[EPDeveloperTool new] authorizationStatus]`. */
module ExecutionPolicyDynamic {
  import opened Prelude
  import opened Dl

  /** Where the framework image is loaded from. */
  const FrameworkPath := "/System/Library/Frameworks/ExecutionPolicy.framework/ExecutionPolicy"

  /** The Objective-C class the framework registers and `check_status` messages. */
  const DeveloperToolClass := "EPDeveloperTool"

  /** The Developer Tool status of the process: a transparent wrapper around
      the raw `isize` the framework reports. Every raw value is representable;
      four of them have names. */
  datatype DeveloperToolStatus = DeveloperToolStatus(raw: ISize)

  const NotDetermined := DeveloperToolStatus(0)
  const Restricted := DeveloperToolStatus(1)
  const Denied := DeveloperToolStatus(2)
  const Authorized := DeveloperToolStatus(3)

  /** The status is one of the four named constants. */
  predicate IsNamed(s: DeveloperToolStatus)
  {
    s == NotDetermined || s == Restricted || s == Denied || s == Authorized
  }

  /** The derived ordering: `PartialOrd`/`Ord` on a one-field tuple struct
      compare that field. */
  datatype Ordering = Less | Equal | Greater

  function Compare(a: DeveloperToolStatus, b: DeveloperToolStatus): (o: Ordering)
    ensures o == Equal <==> a == b
    ensures o == Less <==> a.raw < b.raw
    ensures o == Greater <==> b.raw < a.raw
  {
    if a.raw < b.raw then Less else if a.raw == b.raw then Equal else Greater
  }

  /** The named constants are exactly the raw values 0 to 3, pairwise
      distinct, and ordered as those integers. */
  lemma NamedConstants()
    ensures NotDetermined.raw == 0 && Restricted.raw == 1 && Denied.raw == 2 && Authorized.raw == 3
    ensures NotDetermined != Restricted && NotDetermined != Denied && NotDetermined != Authorized
    ensures Restricted != Denied && Restricted != Authorized && Denied != Authorized
    ensures Compare(NotDetermined, Restricted) == Less
    ensures Compare(Restricted, Denied) == Less
    ensures Compare(Denied, Authorized) == Less
    ensures forall s :: IsNamed(s) <==> 0 <= s.raw <= 3
  {
  }

  /** The wrapper is transparent: wrapping and reading back is the identity in
      both directions, and equality is that of the raw integers. */
  lemma Transparent(x: ISize, a: DeveloperToolStatus, b: DeveloperToolStatus)
    ensures DeveloperToolStatus(x).raw == x
    ensures DeveloperToolStatus(a.raw) == a
    ensures a == b <==> a.raw == b.raw
  {
  }

  /** The derived ordering is a total order. */
  lemma CompareIsTotalOrder(a: DeveloperToolStatus, b: DeveloperToolStatus, c: DeveloperToolStatus)
    ensures Compare(a, b) == Less <==> Compare(b, a) == Greater
    ensures Compare(a, b) == Less && Compare(b, c) == Less ==> Compare(a, c) == Less
    ensures Compare(a, a) == Equal
  {
  }

  /** What the Objective-C runtime answers during one status query: whether
      the class `EPDeveloperTool` is registered, whether `+new` returns an
      instance (rather than nil), and the `NSInteger` that
      `-authorizationStatus` returns on that instance. */
  datatype DeveloperToolRuntime = DeveloperToolRuntime(
    classFound: bool,
    instanceCreated: bool,
    authorizationStatus: ISize)

  /** The status `check_status` returns: the class is looked up, an instance
      created, and its raw status wrapped unchanged; a missing class or a nil
      instance is reported as `NotDetermined`. */
  function StatusFrom(runtime: DeveloperToolRuntime): (s: DeveloperToolStatus)
    ensures !runtime.classFound ==> s == NotDetermined
    ensures runtime.classFound && !runtime.instanceCreated ==> s == NotDetermined
    ensures runtime.classFound && runtime.instanceCreated ==> s.raw == runtime.authorizationStatus
    ensures s != NotDetermined ==> runtime.classFound && runtime.instanceCreated
  {
    if !runtime.classFound then
      NotDetermined
    else if !runtime.instanceCreated then
      NotDetermined
    else
      DeveloperToolStatus(runtime.authorizationStatus)
  }

  /** Raw values outside 0 to 3 are passed through, not clamped or mapped. */
  lemma StatusFromKeepsUnnamed(runtime: DeveloperToolRuntime)
    requires runtime.classFound && runtime.instanceCreated
    requires !(0 <= runtime.authorizationStatus <= 3)
    ensures !IsNamed(StatusFrom(runtime))
    ensures StatusFrom(runtime).raw == runtime.authorizationStatus
  {
  }

  /** The loader calls of one handle's life in `main`: the `dlopen`, then, if
      it succeeded, one status query against the image it returned and
      exactly one `dlclose` of that handle; without the framework, nothing
      is queried. */
  function Lifecycle(outcome: DlopenResult): (calls: seq<DlCall>)
    ensures |calls| >= 1 && calls[0] == DlopenCall(FrameworkPath, outcome)
    ensures outcome.Null? ==> calls == [DlopenCall(FrameworkPath, outcome)]
    ensures outcome.Loaded? ==>
              calls[1..] == [ImageUse(outcome.handle, DeveloperToolClass), DlcloseCall(outcome.handle)]
  {
    [DlopenCall(FrameworkPath, outcome)] +
    if outcome.Loaded? then [ImageUse(outcome.handle, DeveloperToolClass), DlcloseCall(outcome.handle)] else []
  }

  /** A handle's life leaks nothing and closes only what it opened. */
  lemma LifecycleScoped(outcome: DlopenResult)
    ensures Scoped(Lifecycle(outcome))
  {
    forall live ensures Replay(Lifecycle(outcome), live) == Some(live) {
      var calls := Lifecycle(outcome);
      if outcome.Loaded? {
        var h := outcome.handle;
        var rest := calls[1..];
        assert Replay(calls, live) == Replay(rest, live + multiset{h});
        assert Replay(rest, live + multiset{h}) == Replay(rest[1..], live + multiset{h});
        var close := rest[1..];
        assert close == [DlcloseCall(h)] && close[1..] == [];
        assert Replay(close, live + multiset{h}) == Replay([], live + multiset{h} - multiset{h});
        assert (live + multiset{h}) - multiset{h} == live;
      } else {
        assert calls[1..] == [];
      }
    }
  }

  /** The loader calls of any number of successive open/query/drop cycles. */
  function Cycles(outcomes: seq<DlopenResult>): seq<DlCall>
  {
    if outcomes == [] then [] else Lifecycle(outcomes[0]) + Cycles(outcomes[1..])
  }

  /** Repeated open/query/drop cycles leave no handle open, whatever each
      `dlopen` returned. */
  lemma {:induction false} CyclesScoped(outcomes: seq<DlopenResult>)
    ensures Scoped(Cycles(outcomes))
  {
    if outcomes == [] {
      assert forall live :: Replay([], live) == Some(live);
    } else {
      LifecycleScoped(outcomes[0]);
      CyclesScoped(outcomes[1..]);
      ScopedAppend(Lifecycle(outcomes[0]), Cycles(outcomes[1..]));
    }
  }

  /** A handle to the loaded framework. `dropped` records that `Drop::drop`
      has run; Rust's ownership lets it run at most once. */
  class ExecutionPolicyHandle {
    const ptr: Address
    ghost var dropped: bool

    constructor (ptr: Address)
      ensures this.ptr == ptr && !dropped
    {
      this.ptr := ptr;
      dropped := false;
    }

    /** `open`: load the framework; no handle when `dlopen` returns null,
        otherwise a handle holding exactly the pointer it returned. */
    static method Open(linker: DynamicLinker, outcome: DlopenResult) returns (h: Option<ExecutionPolicyHandle>)
      modifies linker
      ensures linker.calls == old(linker.calls) + [DlopenCall(FrameworkPath, outcome)]
      ensures h.None? <==> outcome.Null?
      ensures h.Some? ==> fresh(h.value) && h.value.ptr == outcome.handle && !h.value.dropped
    {
      var handle := linker.Dlopen(FrameworkPath, outcome);
      if handle.Null? {
        return None;
      }
      var self := new ExecutionPolicyHandle(handle.handle);
      h := Some(self);
    }

    /** `check_status(&self)`: query the Developer Tool status through the
        classes the loaded framework registered. The borrow of `self` means
        the handle has not been dropped, so the query runs against a live
        image. */
    method CheckStatus(linker: DynamicLinker, runtime: DeveloperToolRuntime) returns (s: DeveloperToolStatus)
      requires !dropped
      modifies linker
      ensures s == StatusFrom(runtime)
      ensures linker.calls == old(linker.calls) + [ImageUse(ptr, DeveloperToolClass)]
    {
      linker.Use(ptr, DeveloperToolClass);
      if !runtime.classFound {
        return NotDetermined;
      }
      if !runtime.instanceCreated {
        return NotDetermined;
      }
      s := DeveloperToolStatus(runtime.authorizationStatus);
    }

    /** `Drop::drop`: close the handle exactly once. What `dlclose` returns
        is discarded, so nothing here depends on `closeOutcome`. */
    method Drop(linker: DynamicLinker, closeOutcome: CInt)
      requires !dropped
      modifies this, linker
      ensures dropped
      ensures linker.calls == old(linker.calls) + [DlcloseCall(ptr)]
    {
      var _ := linker.Dlclose(ptr, closeOutcome);
      dropped := true;
    }
  }
}
