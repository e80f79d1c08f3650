/** The dynamic loader (`dlopen`, `dlsym`, `dlclose` from libc) as seen by
    the program: what each call returns is an input, and every call is
    recorded, in order, in the log of a `DynamicLinker`. */
module Dl {
  import opened Prelude

  /** An opaque (non-null) loader handle or symbol address. */
  type Address = nat

  /** What `dlopen` returned: a null pointer or a handle. */
  datatype DlopenResult = Null | Loaded(handle: Address)

  /** What `dlsym` returned: a null pointer or the symbol's address. */
  datatype DlsymResult = SymbolNull | Symbol(address: Address)

  /** One call into the loader, with the outcome it had. */
  datatype DlCall =
    | DlopenCall(path: string, loaded: DlopenResult)
    | DlsymCall(handle: Address, name: string, resolved: DlsymResult)
    | DlcloseCall(handle: Address)
      /** Code the loaded image provides runs: a function resolved in it is
          called, or a class it registered is messaged. */
    | ImageUse(handle: Address, name: string)

  /** The loader's reference-counting discipline, replayed over a call log:
      `live` holds one copy of a handle per `dlopen` that returned it and has
      not yet been matched by a `dlclose`. The result is `None` as soon as a
      call resolves a symbol in, runs code of, or closes a handle that is not
      live (a use after close, or a double close); otherwise it is the handles
      still live after the whole log. */
  function Replay(calls: seq<DlCall>, live: multiset<Address>): (r: Option<multiset<Address>>)
    decreases |calls|
  {
    if calls == [] then Some(live)
    else
      match calls[0]
      case DlopenCall(_, Null) => Replay(calls[1..], live)
      case DlopenCall(_, Loaded(h)) => Replay(calls[1..], live + multiset{h})
      case DlsymCall(h, _, _) => if h in live then Replay(calls[1..], live) else None
      case ImageUse(h, _) => if h in live then Replay(calls[1..], live) else None
      case DlcloseCall(h) => if h in live then Replay(calls[1..], live - multiset{h}) else None
  }

  /** A log is scoped when, started from any set of live handles, it uses only
      live handles and leaves exactly the same handles live: every handle it
      opens it closes exactly once, after its last use. */
  ghost predicate Scoped(calls: seq<DlCall>)
  {
    forall live :: Replay(calls, live) == Some(live)
  }

  /** Replaying two logs one after the other is replaying their concatenation. */
  lemma {:induction false} ReplayAppend(a: seq<DlCall>, b: seq<DlCall>, live: multiset<Address>)
    ensures Replay(a + b, live) ==
            match Replay(a, live)
            case None => None
            case Some(after) => Replay(b, after)
    decreases |a|
  {
    if a == [] {
      assert a + b == b;
    } else {
      assert (a + b)[0] == a[0];
      assert (a + b)[1..] == a[1..] + b;
      match a[0]
      case DlopenCall(_, Null) => ReplayAppend(a[1..], b, live);
      case DlopenCall(_, Loaded(h)) => ReplayAppend(a[1..], b, live + multiset{h});
      case DlsymCall(h, _, _) =>
        if h in live { ReplayAppend(a[1..], b, live); }
      case ImageUse(h, _) =>
        if h in live { ReplayAppend(a[1..], b, live); }
      case DlcloseCall(h) =>
        if h in live { ReplayAppend(a[1..], b, live - multiset{h}); }
    }
  }

  /** Scoped logs compose: one scoped log after another is scoped. */
  lemma ScopedAppend(a: seq<DlCall>, b: seq<DlCall>)
    requires Scoped(a) && Scoped(b)
    ensures Scoped(a + b)
  {
    forall live ensures Replay(a + b, live) == Some(live) {
      ReplayAppend(a, b, live);
    }
  }

  /** The loader as an object: every call appends itself to `calls` and
      returns the outcome it is given. */
  class DynamicLinker {
    var calls: seq<DlCall>

    constructor ()
      ensures calls == []
    {
      calls := [];
    }

    /** `dlopen(path, RTLD_LAZY | RTLD_LOCAL)`. */
    method Dlopen(path: string, outcome: DlopenResult) returns (r: DlopenResult)
      modifies this
      ensures r == outcome
      ensures calls == old(calls) + [DlopenCall(path, outcome)]
    {
      r := outcome;
      calls := calls + [DlopenCall(path, outcome)];
    }

    /** `dlsym(handle, name)`. */
    method Dlsym(handle: Address, name: string, outcome: DlsymResult) returns (r: DlsymResult)
      modifies this
      ensures r == outcome
      ensures calls == old(calls) + [DlsymCall(handle, name, outcome)]
    {
      r := outcome;
      calls := calls + [DlsymCall(handle, name, outcome)];
    }

    /** Run code of the image behind `handle`: call a function resolved in
        it, or message a class it registered. */
    method Use(handle: Address, name: string)
      modifies this
      ensures calls == old(calls) + [ImageUse(handle, name)]
    {
      calls := calls + [ImageUse(handle, name)];
    }

    /** `dlclose(handle)`. */
    method Dlclose(handle: Address, outcome: CInt) returns (r: CInt)
      modifies this
      ensures r == outcome
      ensures calls == old(calls) + [DlcloseCall(handle)]
    {
      r := outcome;
      calls := calls + [DlcloseCall(handle)];
    }
  }
}
