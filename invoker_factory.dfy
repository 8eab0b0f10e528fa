/**
 * The invocation compiler and its process-wide cache (HandlerInvokerFactory):
 * the string key of a (handler, command, result, mode) combination, the
 * thunk built for it, and the get-or-add cache that builds each thunk once.
 */
module InvokerFactory {
  import opened Wrappers
  import opened HandlerTypes

  /**
   * The arguments of one GetInvoker call: the delegate type the caller casts
   * the thunk to, and the full names and mode that make up the key.
   */
  datatype InvokerRequest = InvokerRequest(
    delegate: DelegateType,
    handlerType: string,
    commandType: string,
    resultType: Option<string>,
    isAsync: bool)

  /** A thunk's parameters: the handler and command as objects, and for async thunks the token. */
  datatype Param = HandlerParam | CommandParam | TokenParam

  /**
   * A compiled invocation thunk: the delegate type it was compiled as, the
   * types it narrows its arguments to, the method it calls and its parameters.
   */
  datatype Thunk = Thunk(
    delegate: DelegateType,
    handlerType: string,
    commandType: string,
    resultType: Option<string>,
    member: Method,
    params: seq<Param>)

  // ---------------------------------------------------------------------
  // The cache key
  // ---------------------------------------------------------------------

  /** A missing result type is rendered as the empty string. */
  function ResultText(resultType: Option<string>): string {
    match resultType
    case None => ""
    case Some(name) => name
  }

  /** How a boolean is rendered inside an interpolated string. */
  function BoolText(b: bool): string {
    if b then "True" else "False"
  }

  /** `handler|command|result|isAsync`, the key of the cache. */
  function CacheKey(handlerType: string, commandType: string, resultType: Option<string>, isAsync: bool): string {
    handlerType + "|" + commandType + "|" + ResultText(resultType) + "|" + BoolText(isAsync)
  }

  function RequestKey(req: InvokerRequest): string {
    CacheKey(req.handlerType, req.commandType, req.resultType, req.isAsync)
  }

  /** Splits a string at every `|`; the inverse of joining with `|`. */
  function SplitOnBar(s: string): (parts: seq<string>)
    ensures |parts| >= 1
    decreases |s|
  {
    if |s| == 0 then [""]
    else
      var rest := SplitOnBar(s[1..]);
      if s[0] == '|' then [""] + rest
      else [[s[0]] + rest[0]] + rest[1..]
  }

  lemma {:induction false} SplitPlain(s: string)
    requires '|' !in s
    ensures SplitOnBar(s) == [s]
    decreases |s|
  {
    if |s| > 0 {
      SplitPlain(s[1..]);
      assert [s[0]] + s[1..] == s;
    }
  }

  lemma {:induction false} SplitJoin(x: string, rest: string)
    requires '|' !in x
    ensures SplitOnBar(x + "|" + rest) == [x] + SplitOnBar(rest)
    decreases |x|
  {
    var s := x + "|" + rest;
    if |x| == 0 {
      assert s[1..] == rest;
    } else {
      assert s[1..] == x[1..] + "|" + rest;
      SplitJoin(x[1..], rest);
      assert [x[0]] + x[1..] == x;
    }
  }

  /** Splitting a key at `|` gives back its four components. */
  lemma KeySplits(handlerType: string, commandType: string, resultType: Option<string>, isAsync: bool)
    requires '|' !in handlerType && '|' !in commandType && '|' !in ResultText(resultType)
    ensures SplitOnBar(CacheKey(handlerType, commandType, resultType, isAsync))
         == [handlerType, commandType, ResultText(resultType), BoolText(isAsync)]
  {
    var r, b := ResultText(resultType), BoolText(isAsync);
    JoinAssociates(handlerType, commandType, r, b);
    SplitJoin(handlerType, commandType + "|" + (r + "|" + b));
    SplitJoin(commandType, r + "|" + b);
    SplitJoin(r, b);
    BoolTextPlain(isAsync);
  }

  lemma JoinAssociates(a: string, b: string, c: string, d: string)
    ensures a + "|" + b + "|" + c + "|" + d == a + "|" + (b + "|" + (c + "|" + d))
  {
  }

  /** A rendered boolean holds no `|`, so splitting it gives it back whole. */
  lemma BoolTextPlain(b: bool)
    ensures SplitOnBar(BoolText(b)) == [BoolText(b)]
  {
    assert '|' !in "True" && '|' !in "False";
    SplitPlain(BoolText(b));
  }

  /**
   * Key injectivity: over key-safe names, two keys are equal exactly when
   * their handler, command, result and mode components are.
   */
  lemma KeyInjective(h1: string, c1: string, r1: Option<string>, a1: bool,
                     h2: string, c2: string, r2: Option<string>, a2: bool)
    requires KeySafe(h1) && KeySafe(c1) && (r1.Some? ==> KeySafe(r1.value))
    requires KeySafe(h2) && KeySafe(c2) && (r2.Some? ==> KeySafe(r2.value))
    ensures CacheKey(h1, c1, r1, a1) == CacheKey(h2, c2, r2, a2)
        <==> (h1, c1, r1, a1) == (h2, c2, r2, a2)
  {
    if CacheKey(h1, c1, r1, a1) == CacheKey(h2, c2, r2, a2) {
      KeySplits(h1, c1, r1, a1);
      KeySplits(h2, c2, r2, a2);
      assert ResultText(r1) == ResultText(r2) && BoolText(a1) == BoolText(a2);
      assert "True"[0] != "False"[0];
    }
  }

  /**
   * The key leaves the delegate type out, so two requests that differ only
   * there share an entry. Among consistent requests, whose delegate type is
   * fixed by result type and mode, equal keys mean equal requests.
   */
  lemma RequestKeyInjective(r1: InvokerRequest, r2: InvokerRequest)
    requires Consistent(r1) && Consistent(r2)
    ensures RequestKey(r1) == RequestKey(r2) <==> r1 == r2
  {
    KeyInjective(r1.handlerType, r1.commandType, r1.resultType, r1.isAsync,
                 r2.handlerType, r2.commandType, r2.resultType, r2.isAsync);
  }

  // ---------------------------------------------------------------------
  // Building and calling a thunk
  // ---------------------------------------------------------------------

  /**
   * The thunk compiled for a request. It depends on the request alone and
   * takes no handler instance, so building it cannot call a handler.
   */
  function BuildThunk(req: InvokerRequest): (t: Thunk)
    ensures t.member == (if req.isAsync then HandleAsync else Handle)
    ensures |t.params| == (if req.isAsync then 3 else 2)
    ensures t.params[..2] == [HandlerParam, CommandParam]
    ensures req.isAsync ==> t.params[2] == TokenParam
    ensures Origin(t) == req
  {
    Thunk(req.delegate, req.handlerType, req.commandType, req.resultType,
          if req.isAsync then HandleAsync else Handle,
          if req.isAsync then [HandlerParam, CommandParam, TokenParam] else [HandlerParam, CommandParam])
  }

  /** The request a thunk answers. */
  function Origin(t: Thunk): InvokerRequest {
    InvokerRequest(t.delegate, t.handlerType, t.commandType, t.resultType, t.member == HandleAsync)
  }

  /**
   * Calling a thunk on a handler, a command and (for a three-parameter thunk)
   * a token: one call of the thunk's method on that handler.
   */
  function Apply(t: Thunk, handler: TypeName, command: Command, ct: Option<CancellationToken>): Call
    requires ct.Some? <==> |t.params| == 3
  {
    Call(handler, t.member, command, ct)
  }

  /** The cast `(TDelegate)`: it fails when the thunk was compiled as another delegate type. */
  function CastTo(t: Thunk, delegate: DelegateType): Option<Thunk> {
    if t.delegate == delegate then Some(t) else None
  }

  /**
   * The thunk built for a request calls `HandleAsync` and passes on exactly
   * the caller's token when the request is asynchronous, and calls `Handle`
   * with no token otherwise; the handler and the command are the caller's.
   */
  lemma ThunkCall(req: InvokerRequest, handler: TypeName, command: Command, ct: CancellationToken)
    ensures var call := Apply(BuildThunk(req), handler, command, if req.isAsync then Some(ct) else None);
            && call.handler == handler && call.command == command
            && (req.isAsync ==> call.member == HandleAsync && call.ct == Some(ct))
            && (!req.isAsync ==> call.member == Handle && call.ct.None?)
  {
  }

  /**
   * The key leaves the delegate type out, yet casting a cached thunk never
   * goes wrong for a consistent request: two consistent requests that share
   * a key are the same request, so the cast yields the very thunk the
   * second request would have built.
   */
  lemma CastAfterSharedKey(r1: InvokerRequest, r2: InvokerRequest)
    requires Consistent(r1) && Consistent(r2)
    requires RequestKey(r1) == RequestKey(r2)
    ensures CastTo(BuildThunk(r1), r2.delegate) == Some(BuildThunk(r2))
  {
    RequestKeyInjective(r1, r2);
  }

  /** A thunk cast to any delegate type other than the one it was built as yields nothing. */
  lemma CastToOtherDelegate(req: InvokerRequest, delegate: DelegateType)
    requires delegate != req.delegate
    ensures CastTo(BuildThunk(req), delegate).None?
  {
  }

  /**
   * A request as the invoker's helpers make it: key-safe names, and the
   * delegate type that goes with its result type and mode.
   */
  predicate Consistent(req: InvokerRequest) {
    && KeySafe(req.handlerType)
    && KeySafe(req.commandType)
    && (req.resultType.Some? ==> KeySafe(req.resultType.value))
    && req.delegate == DelegateFor(req.resultType, req.isAsync)
  }

  // ---------------------------------------------------------------------
  // The cache
  // ---------------------------------------------------------------------

  /**
   * The process-wide get-or-add cache from key to thunk. `built` is the
   * ghost log of the keys whose builder ran, in order.
   */
  class InvokerCache {
    var entries: map<string, Thunk>
    ghost var built: seq<string>

    /**
     * Every entry is the thunk built for a request with that key, the keys
     * present are exactly those built, and no key was built twice.
     */
    ghost predicate Valid()
      reads this
    {
      && (forall k :: k in entries <==> k in built)
      && (forall i, j :: 0 <= i < j < |built| ==> built[i] != built[j])
      && (forall k :: k in entries ==>
            RequestKey(Origin(entries[k])) == k && entries[k] == BuildThunk(Origin(entries[k])))
    }

    /** Every entry was built for a consistent request. */
    ghost predicate AllConsistent()
      reads this
    {
      forall k :: k in entries ==> Consistent(Origin(entries[k]))
    }

    constructor ()
      ensures Valid() && AllConsistent()
      ensures entries == map[] && built == []
    {
      entries := map[];
      built := [];
    }

    /**
     * GetInvoker: if the key is present, return the stored thunk and build
     * nothing; otherwise build, store and return the thunk. Either way the
     * result is cast to the requested delegate type. Existing entries are
     * never replaced or removed.
     */
    method GetInvoker(req: InvokerRequest) returns (r: Option<Thunk>)
      requires Valid()
      modifies this
      ensures Valid()
      ensures RequestKey(req) in old(entries) ==> entries == old(entries) && built == old(built)
      ensures RequestKey(req) !in old(entries) ==>
                entries == old(entries)[RequestKey(req) := BuildThunk(req)]
                && built == old(built) + [RequestKey(req)]
      ensures r == CastTo(entries[RequestKey(req)], req.delegate)
      ensures old(AllConsistent()) && Consistent(req) ==> AllConsistent() && r == Some(BuildThunk(req))
    {
      var key := RequestKey(req);
      if key !in entries {
        var thunk := BuildThunk(req);
        entries := entries[key := thunk];
        built := built + [key];
      } else if AllConsistent() && Consistent(req) {
        RequestKeyInjective(Origin(entries[key]), req);
      }
      r := CastTo(entries[key], req.delegate);
    }

    /**
     * Two GetInvoker calls with the same request in a row: the second
     * returns the same thunk and builds nothing, so the key is built at
     * most once.
     */
    method GetInvokerTwice(req: InvokerRequest) returns (first: Option<Thunk>, second: Option<Thunk>)
      requires Valid()
      modifies this
      ensures Valid()
      ensures first == second
      ensures built == old(built) || built == old(built) + [RequestKey(req)]
      ensures old(entries).Keys <= entries.Keys
    {
      first := GetInvoker(req);
      ghost var between := built;
      second := GetInvoker(req);
      assert built == between;
    }
  }
}
