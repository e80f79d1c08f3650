/** Three independent probes for whether SIP Filesystem Protections are
    enabled. Each answers `Some(true)` (protected), `Some(false)`
    (unprotected) or `None` (could not tell). */
module SipDetectFs {
  import opened Prelude
  import opened Dl
  import opened Text

  // ---------------------------------------------------------------------
  // Private-symbol probe: `csr_get_active_config` from libSystem
  // ---------------------------------------------------------------------

  const LibSystemPath := "/usr/lib/libSystem.dylib"
  const CsrGetActiveConfig := "csr_get_active_config"

  /** `CSR_ALLOW_UNRESTRICTED_FS`, bit 1 of the active configuration. */
  const CsrAllowUnrestrictedFs: bv32 := 1 << 1

  /** What one call of `csr_get_active_config(&mut sip_value)` did: the status
      it returned, and the value it stored through the pointer, if it stored
      one. */
  datatype CsrCall = CsrCall(status: CInt, stored: Option<bv32>)

  /** The value of `sip_value` after the call: it starts at 0 and holds
      whatever the callee stored. */
  function ConfigAfter(call: CsrCall): (v: bv32)
    ensures call.stored.None? ==> v == 0
    ensures call.stored.Some? ==> v == call.stored.value
  {
    call.stored.GetOr(0)
  }

  /** The configuration leaves filesystem protection on. */
  predicate FsProtected(config: bv32)
  {
    config & CsrAllowUnrestrictedFs == 0
  }

  /** What `from_system_lib` returns, given the loader's and the private
      function's outcomes. */
  function SystemLibProbe(loaded: DlopenResult, symbol: DlsymResult, call: CsrCall): (r: Option<bool>)
    ensures r.None? <==> loaded.Null? || symbol.SymbolNull? || call.status != 0
    ensures r == Some(true) <==> loaded.Loaded? && symbol.Symbol? && call.status == 0 && FsProtected(ConfigAfter(call))
    ensures r == Some(false) <==> loaded.Loaded? && symbol.Symbol? && call.status == 0 && !FsProtected(ConfigAfter(call))
  {
    if loaded.Null? then None
    else if symbol.SymbolNull? then None
    else if call.status != 0 then None
    else Some(FsProtected(ConfigAfter(call)))
  }

  /** Whether filesystem protection is on is read from bit 1 alone: two
      configurations that agree on bit 1 give the same answer. */
  lemma OnlyBit1Matters(loaded: DlopenResult, symbol: DlsymResult, status: CInt, v: bv32, w: bv32)
    requires v & CsrAllowUnrestrictedFs == w & CsrAllowUnrestrictedFs
    ensures SystemLibProbe(loaded, symbol, CsrCall(status, Some(v))) ==
            SystemLibProbe(loaded, symbol, CsrCall(status, Some(w)))
  {
  }

  /** The loader calls `from_system_lib` makes: the `dlopen`; if it
      succeeded, the `dlsym` on that handle, the call of the resolved
      function when the symbol was found, and then a single `dlclose` of the
      handle, on every later exit. */
  function SystemLibCalls(loaded: DlopenResult, symbol: DlsymResult): (calls: seq<DlCall>)
    ensures |calls| >= 1 && calls[0] == DlopenCall(LibSystemPath, loaded)
    ensures loaded.Null? ==> |calls| == 1
    ensures loaded.Loaded? && symbol.SymbolNull? ==>
              calls[1..] == [DlsymCall(loaded.handle, CsrGetActiveConfig, symbol), DlcloseCall(loaded.handle)]
    ensures loaded.Loaded? && symbol.Symbol? ==>
              calls[1..] == [DlsymCall(loaded.handle, CsrGetActiveConfig, symbol),
                             ImageUse(loaded.handle, CsrGetActiveConfig), DlcloseCall(loaded.handle)]
  {
    [DlopenCall(LibSystemPath, loaded)] +
    if loaded.Null? then []
    else
      [DlsymCall(loaded.handle, CsrGetActiveConfig, symbol)] +
      (if symbol.Symbol? then [ImageUse(loaded.handle, CsrGetActiveConfig)] else []) +
      [DlcloseCall(loaded.handle)]
  }

  /** The libSystem handle is used only while open and closed exactly once:
      the probe leaks nothing. */
  lemma SystemLibCallsScoped(loaded: DlopenResult, symbol: DlsymResult)
    ensures Scoped(SystemLibCalls(loaded, symbol))
  {
    forall live ensures Replay(SystemLibCalls(loaded, symbol), live) == Some(live) {
      var calls := SystemLibCalls(loaded, symbol);
      if loaded.Loaded? {
        var h := loaded.handle;
        var withH := live + multiset{h};
        var rest := calls[1..];
        assert Replay(calls, live) == Replay(rest, withH);
        assert Replay(rest, withH) == Replay(rest[1..], withH);
        var close := if symbol.Symbol? then rest[2..] else rest[1..];
        if symbol.Symbol? {
          assert Replay(rest[1..], withH) == Replay(rest[1..][1..], withH);
          assert rest[1..][1..] == close;
        }
        assert close == [DlcloseCall(h)] && close[1..] == [];
        assert Replay(close, withH) == Replay([], withH - multiset{h});
        assert withH - multiset{h} == live;
      } else {
        assert calls[1..] == [];
      }
    }
  }

  /** The RAII guard `LibSystemHandle`: closes the handle when dropped. */
  class LibSystemHandle {
    const ptr: Address
    ghost var dropped: bool

    constructor (ptr: Address)
      ensures this.ptr == ptr && !dropped
    {
      this.ptr := ptr;
      dropped := false;
    }

    /** Call `csr_get_active_config(&mut sip_value)` through the symbol
        resolved in this handle's image, which must still be open. Returns
        the status and what the callee stored through the pointer. */
    method CallActiveConfig(linker: DynamicLinker, call: CsrCall) returns (status: CInt, stored: Option<bv32>)
      requires !dropped
      modifies linker
      ensures status == call.status && stored == call.stored
      ensures linker.calls == old(linker.calls) + [ImageUse(ptr, CsrGetActiveConfig)]
    {
      linker.Use(ptr, CsrGetActiveConfig);
      status, stored := call.status, call.stored;
    }

    /** `Drop::drop`: one `dlclose`, whose result is discarded. */
    method Drop(linker: DynamicLinker, closeOutcome: CInt)
      requires !dropped
      modifies this, linker
      ensures dropped
      ensures linker.calls == old(linker.calls) + [DlcloseCall(ptr)]
    {
      var _ := linker.Dlclose(ptr, closeOutcome);
      dropped := true;
    }
  }

  /** `from_system_lib`: load libSystem, resolve the private symbol, call it
      and test bit 1 of the configuration. Once the handle is wrapped in its
      guard, the guard is dropped on each of the three exits. */
  method FromSystemLib(linker: DynamicLinker, loaded: DlopenResult, symbol: DlsymResult, call: CsrCall, closeOutcome: CInt)
    returns (r: Option<bool>)
    modifies linker
    ensures r == SystemLibProbe(loaded, symbol, call)
    ensures linker.calls == old(linker.calls) + SystemLibCalls(loaded, symbol)
  {
    var handle := linker.Dlopen(LibSystemPath, loaded);
    if handle.Null? {
      return None;
    }
    var guard := new LibSystemHandle(handle.handle);

    var sym := linker.Dlsym(guard.ptr, CsrGetActiveConfig, symbol);
    if sym.SymbolNull? {
      guard.Drop(linker, closeOutcome);
      return None;
    }

    var sipValue: bv32 := 0;
    var err, stored := guard.CallActiveConfig(linker, call);
    if stored.Some? {
      sipValue := stored.value;
    }

    if err != 0 {
      guard.Drop(linker, closeOutcome);
      return None;
    }

    r := Some(sipValue & CsrAllowUnrestrictedFs == 0);
    guard.Drop(linker, closeOutcome);
  }

  // ---------------------------------------------------------------------
  // External-command probe: `csrutil status`
  // ---------------------------------------------------------------------

  const FsEnabled := "Filesystem Protections: enabled"
  const SipEnabled := "System Integrity Protection status: enabled"
  const FsDisabled := "Filesystem Protections: disabled"
  const SipDisabled := "System Integrity Protection status: disabled"

  /** What running `csrutil status` produced: it could not be spawned, or it
      ran to an exit status (`None` when a signal ended it) with its standard
      output, already decoded as text. */
  datatype CommandResult = SpawnError | Exited(code: Option<int>, stdout: string)

  /** `ExitStatus::success`: the process exited normally with status 0. */
  predicate Succeeded(res: CommandResult)
  {
    res.Exited? && res.code == Some(0)
  }

  /** The output states that protection is enabled, in either phrasing. */
  predicate SaysEnabled(out: string)
  {
    Contains(out, FsEnabled) || Contains(out, SipEnabled)
  }

  /** The output states that protection is disabled, in either phrasing. */
  predicate SaysDisabled(out: string)
  {
    Contains(out, FsDisabled) || Contains(out, SipDisabled)
  }

  /** `from_command`: a failed spawn or an unsuccessful exit tells nothing;
      otherwise an "enabled" phrasing wins over a "disabled" one, and output
      with neither tells nothing. */
  function FromCommand(res: CommandResult): (r: Option<bool>)
    ensures !Succeeded(res) ==> r == None
    ensures r == Some(true) <==> Succeeded(res) && SaysEnabled(res.stdout)
    ensures r == Some(false) <==> Succeeded(res) && !SaysEnabled(res.stdout) && SaysDisabled(res.stdout)
    ensures r == None <==> !Succeeded(res) || (!SaysEnabled(res.stdout) && !SaysDisabled(res.stdout))
  {
    match res
    case SpawnError => None
    case Exited(code, out) =>
      if code != Some(0) then None
      else if SaysEnabled(out) then Some(true)
      else if SaysDisabled(out) then Some(false)
      else None
  }

  /** An unsuccessful run tells nothing, whatever it printed. */
  lemma FailedRunIgnoresOutput(code: Option<int>, out1: string, out2: string)
    requires code != Some(0)
    ensures FromCommand(Exited(code, out1)) == FromCommand(Exited(code, out2)) == None
  {
  }

  /** An "enabled" phrase anywhere in the output reads as protected, whatever
      else the output says. */
  lemma EnabledAnywhere(pre: string, phrase: string, post: string)
    requires phrase == FsEnabled || phrase == SipEnabled
    ensures FromCommand(Exited(Some(0), pre + phrase + post)) == Some(true)
  {
    ContainsInContext(pre, phrase, post);
  }

  /** A "disabled" phrase anywhere in output without an "enabled" phrase
      reads as unprotected. */
  lemma DisabledAnywhere(pre: string, phrase: string, post: string)
    requires phrase == FsDisabled || phrase == SipDisabled
    requires !SaysEnabled(pre + phrase + post)
    ensures FromCommand(Exited(Some(0), pre + phrase + post)) == Some(false)
  {
    ContainsInContext(pre, phrase, post);
  }

  /** Because the "enabled" test runs first, an overall
      "System Integrity Protection status: enabled" line wins even over a
      "Filesystem Protections: disabled" line later in the same output. */
  lemma OverallEnabledBeatsFsDisabled(pre: string, mid: string, post: string)
    ensures FromCommand(Exited(Some(0), pre + SipEnabled + mid + FsDisabled + post)) == Some(true)
  {
    assert pre + SipEnabled + mid + FsDisabled + post == pre + SipEnabled + (mid + FsDisabled + post);
    ContainsInContext(pre, SipEnabled, mid + FsDisabled + post);
  }

  // ---------------------------------------------------------------------
  // Filesystem probe: `access("/System", W_OK)`
  // ---------------------------------------------------------------------

  const ProbedDirectory := "/System"

  /** The `ErrorKind` of `Error::last_os_error()`: the two kinds the probe
      tells apart, and every other kind, told apart only by an opaque tag
      (not an OS error code: the codes behind the first two kinds never
      reach `OtherKind`). */
  datatype ErrorKind = PermissionDenied | ReadOnlyFilesystem | OtherKind(tag: nat)

  /** What `access(2)` did: its return value, and the kind of the last OS
      error (read only when the return value is nonzero). */
  datatype AccessOutcome = AccessOutcome(ret: CInt, lastError: ErrorKind)

  /** `from_fs_operation`: write access means unprotected; a permission error
      means protected; a read-only filesystem counts as unprotected; any
      other error tells nothing. */
  function FromFsOperation(access: AccessOutcome): (r: Option<bool>)
    ensures access.ret == 0 ==> r == Some(false)
    ensures r == Some(true) <==> access.ret != 0 && access.lastError == PermissionDenied
    ensures r == Some(false) <==> access.ret == 0 || access.lastError == ReadOnlyFilesystem
    ensures r == None <==> access.ret != 0 && access.lastError.OtherKind?
  {
    if access.ret == 0 then
      Some(false)
    else if access.lastError == PermissionDenied then
      Some(true)
    else if access.lastError == ReadOnlyFilesystem then
      Some(false)
    else
      None
  }

  /** On success, the last OS error is never consulted. */
  lemma SuccessIgnoresLastError(e1: ErrorKind, e2: ErrorKind)
    ensures FromFsOperation(AccessOutcome(0, e1)) == FromFsOperation(AccessOutcome(0, e2))
  {
  }
}
