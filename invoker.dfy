/**
 * The dispatch facade (Invoker): four entry points, synchronous or
 * asynchronous and with or without a result, each trying its native
 * handler shape first and otherwise calling the entry point of the other
 * mode for the same arity.
 *
 * The provider is a map from closed handler interface to the implementation
 * type of the instance it resolves; handler bodies are a behaviour function
 * from a call to the value it produces. A task is modelled by the value it
 * completes with. `Invoke` and `InvokeAsync` call each other with no base case
 * when neither mode is registered; `fuel` bounds the depth of that recursion,
 * and `None` means "has not returned within `fuel` nested entry-point calls".
 */
module Dispatch {
  import opened Wrappers
  import opened HandlerTypes
  import opened InvokerFactory

  /** The provider's registrations: `GetService(service)` yields an instance of `provider[service]`. */
  type Provider = map<ServiceType, TypeName>

  /** What an invoker sees: the provider and what each handler call produces. */
  datatype Env = Env(provider: Provider, behaviour: Call -> Value)

  /** Something the invoker does, in order: a provider lookup, a GetInvoker request, a handler call. */
  datatype Event = Lookup(service: ServiceType) | Request(req: InvokerRequest) | Invoked(call: Call)

  /** The task an async entry point returns: the handler's own task, or one the invoker made already completed. */
  datatype Task = HandlerTask(result: Value) | CompletedTask(result: Value)

  /** What a Try helper reports: the handler's result and the events, or that no handler was found. */
  datatype Attempt = Found(result: Value, events: seq<Event>) | Absent(events: seq<Event>)

  /** A returning dispatch: its value and the events it caused. */
  datatype Run<T> = Run(value: T, events: seq<Event>)

  /** The default token the blocking sync-to-async fallback passes. */
  const DefaultToken: CancellationToken := NoneToken

  predicate Registered(env: Env, shape: Shape, command: Command, result: Option<TypeName>)
    requires shape.HasResult() == result.Some?
  {
    HandlerService(shape, command.runtimeType, result) in env.provider
  }

  /** The GetInvoker request a helper of the given shape makes. */
  function RequestFor(shape: Shape, command: Command, result: Option<TypeName>): (req: InvokerRequest)
    requires shape.HasResult() == result.Some?
  {
    InvokerRequest(
      DelegateFor(result, shape.IsAsync()),
      FullName(HandlerService(shape, command.runtimeType, result)),
      command.runtimeType,
      result,
      shape.IsAsync())
  }

  /**
   * The body shared by the four Try helpers: look up the handler of the
   * shape; if absent report that; else get the thunk for the shape and call
   * it once. The thunk is the one a cache of consistent entries hands back
   * (InvokerCache.GetInvoker).
   */
  function TryInvoke(env: Env, shape: Shape, command: Command, result: Option<TypeName>, ct: Option<CancellationToken>): Attempt
    requires shape.HasResult() == result.Some?
    requires shape.IsAsync() == ct.Some?
  {
    var service := HandlerService(shape, command.runtimeType, result);
    if service !in env.provider then
      Absent([Lookup(service)])
    else
      var req := RequestFor(shape, command, result);
      var call := Apply(BuildThunk(req), env.provider[service], command, ct);
      Found(env.behaviour(call), [Lookup(service), Request(req), Invoked(call)])
  }

  /** TryInvokeSync, without or with a result type. */
  function TryInvokeSync(env: Env, command: Command, result: Option<TypeName>): Attempt {
    TryInvoke(env, ShapeOf(false, result.Some?), command, result, None)
  }

  /** TryInvokeAsync, without or with a result type; the token goes to the thunk. */
  function TryInvokeAsync(env: Env, command: Command, result: Option<TypeName>, ct: CancellationToken): Attempt {
    TryInvoke(env, ShapeOf(true, result.Some?), command, result, Some(ct))
  }

  // ---------------------------------------------------------------------
  // The four entry points
  // ---------------------------------------------------------------------

  /** Invoke(ICommand): the sync void handler, else InvokeAsync with the default token and a blocking wait. */
  function Invoke(env: Env, command: Command, fuel: nat): Option<Run<()>>
    decreases fuel
  {
    if fuel == 0 then None
    else
      match TryInvokeSync(env, command, None)
      case Found(_, events) => Some(Run((), events))
      case Absent(events) =>
        match InvokeAsync(env, command, DefaultToken, fuel - 1)
        case None => None
        case Some(run) => Some(Run((), events + run.events))
  }

  /** InvokeAsync(ICommand): the async void handler's task, else Invoke and an already completed task. */
  function InvokeAsync(env: Env, command: Command, ct: CancellationToken, fuel: nat): Option<Run<Task>>
    decreases fuel
  {
    if fuel == 0 then None
    else
      match TryInvokeAsync(env, command, None, ct)
      case Found(v, events) => Some(Run(HandlerTask(v), events))
      case Absent(events) =>
        match Invoke(env, command, fuel - 1)
        case None => None
        case Some(run) => Some(Run(CompletedTask(Unit), events + run.events))
  }

  /** Invoke<TResult>: the sync result handler's value, else the awaited result of InvokeAsync<TResult>. */
  function InvokeWithResult(env: Env, command: Command, resultType: TypeName, fuel: nat): Option<Run<Value>>
    decreases fuel
  {
    if fuel == 0 then None
    else
      match TryInvokeSync(env, command, Some(resultType))
      case Found(v, events) => Some(Run(v, events))
      case Absent(events) =>
        match InvokeAsyncWithResult(env, command, resultType, DefaultToken, fuel - 1)
        case None => None
        case Some(run) => Some(Run(run.value.result, events + run.events))
  }

  /** InvokeAsync<TResult>: the async result handler's task, else `Task.FromResult(Invoke<TResult>(command))`. */
  function InvokeAsyncWithResult(env: Env, command: Command, resultType: TypeName, ct: CancellationToken, fuel: nat): Option<Run<Task>>
    decreases fuel
  {
    if fuel == 0 then None
    else
      match TryInvokeAsync(env, command, Some(resultType), ct)
      case Found(v, events) => Some(Run(HandlerTask(v), events))
      case Absent(events) =>
        match InvokeWithResult(env, command, resultType, fuel - 1)
        case None => None
        case Some(run) => Some(Run(CompletedTask(run.value), events + run.events))
  }

  // ---------------------------------------------------------------------
  // The Try helpers
  // ---------------------------------------------------------------------

  /**
   * What a helper that finds its handler does: one lookup of its own shape,
   * one GetInvoker request with that shape's key components, one call of
   * the resolved handler (with the token only for an async shape).
   */
  function NativeEvents(env: Env, shape: Shape, command: Command, result: Option<TypeName>, ct: Option<CancellationToken>): seq<Event>
    requires shape.HasResult() == result.Some?
    requires Registered(env, shape, command, result)
  {
    var service := HandlerService(shape, command.runtimeType, result);
    [Lookup(service), Request(RequestFor(shape, command, result)),
     Invoked(Call(env.provider[service], if shape.IsAsync() then HandleAsync else Handle, command, ct))]
  }

  /** The value the handler call of NativeEvents produces. */
  function NativeResult(env: Env, shape: Shape, command: Command, result: Option<TypeName>, ct: Option<CancellationToken>): Value
    requires shape.HasResult() == result.Some?
    requires Registered(env, shape, command, result)
  {
    var service := HandlerService(shape, command.runtimeType, result);
    env.behaviour(Call(env.provider[service], if shape.IsAsync() then HandleAsync else Handle, command, ct))
  }

  /**
   * A Try helper finds a handler exactly when its shape is registered. When
   * it finds none it has made one lookup and invoked nothing; when it finds
   * one it has done NativeEvents and reports that call's result.
   */
  lemma TryInvokeOutcome(env: Env, shape: Shape, command: Command, result: Option<TypeName>, ct: Option<CancellationToken>)
    requires shape.HasResult() == result.Some?
    requires shape.IsAsync() == ct.Some?
    ensures var a := TryInvoke(env, shape, command, result, ct);
      && (a.Found? <==> Registered(env, shape, command, result))
      && (a.Absent? ==> a.events == [Lookup(HandlerService(shape, command.runtimeType, result))])
      && (a.Found? ==> a.events == NativeEvents(env, shape, command, result, ct)
                       && a.result == NativeResult(env, shape, command, result, ct))
  {
  }

  /**
   * The GetInvoker request of each helper carries its own shape's key
   * components (no result type for void shapes, the requested one
   * otherwise; the helper's mode) and the delegate type that goes with
   * them; over key-safe type names it is a consistent request, for which
   * the cache returns exactly BuildThunk(req).
   */
  lemma RequestMatchesShape(shape: Shape, command: Command, result: Option<TypeName>)
    requires shape.HasResult() == result.Some?
    requires KeySafe(command.runtimeType) && (result.Some? ==> KeySafe(result.value))
    ensures var req := RequestFor(shape, command, result);
      && req.resultType == result
      && req.isAsync == shape.IsAsync()
      && req.commandType == command.runtimeType
      && req.handlerType == FullName(HandlerService(shape, command.runtimeType, result))
      && Consistent(req)
  {
    HandlerServiceNameKeySafe(shape, command.runtimeType, result);
  }

  // ---------------------------------------------------------------------
  // No base case
  // ---------------------------------------------------------------------

  /**
   * With neither void handler registered, Invoke and InvokeAsync call each
   * other without end: no amount of fuel makes either return.
   */
  lemma {:induction false} VoidWithoutHandlerNeverReturns(env: Env, command: Command, ct: CancellationToken, fuel: nat)
    requires !Registered(env, SyncVoid, command, None)
    requires !Registered(env, AsyncVoid, command, None)
    ensures Invoke(env, command, fuel) == None
    ensures InvokeAsync(env, command, ct, fuel) == None
    decreases fuel
  {
    if fuel > 0 {
      VoidWithoutHandlerNeverReturns(env, command, DefaultToken, fuel - 1);
    }
  }

  /** The same for the two result entry points and a given result type. */
  lemma {:induction false} ResultWithoutHandlerNeverReturns(env: Env, command: Command, resultType: TypeName, ct: CancellationToken, fuel: nat)
    requires !Registered(env, SyncResult, command, Some(resultType))
    requires !Registered(env, AsyncResult, command, Some(resultType))
    ensures InvokeWithResult(env, command, resultType, fuel) == None
    ensures InvokeAsyncWithResult(env, command, resultType, ct, fuel) == None
    decreases fuel
  {
    if fuel > 0 {
      ResultWithoutHandlerNeverReturns(env, command, resultType, DefaultToken, fuel - 1);
    }
  }

  // ---------------------------------------------------------------------
  // The whole dispatch, for every fuel
  // ---------------------------------------------------------------------

  /**
   * Void dispatch in closed form. Invoke: the sync handler if registered
   * (one lookup, one call); else, given one more nested call, the async
   * handler with the default token after a failed sync lookup; else it does
   * not return. InvokeAsync: symmetric, returning the handler's own task
   * natively and a completed task after running the sync handler, whose
   * call carries no token. Only void shapes of the command's runtime type
   * are ever looked up, and every returning run calls exactly one handler.
   */
  lemma VoidDispatch(env: Env, command: Command, ct: CancellationToken, fuel: nat)
    ensures var syncS := HandlerService(SyncVoid, command.runtimeType, None);
      var asyncS := HandlerService(AsyncVoid, command.runtimeType, None);
      Invoke(env, command, fuel) ==
        if fuel == 0 then None
        else if Registered(env, SyncVoid, command, None) then
          Some(Run((), NativeEvents(env, SyncVoid, command, None, None)))
        else if fuel >= 2 && Registered(env, AsyncVoid, command, None) then
          Some(Run((), [Lookup(syncS)] + NativeEvents(env, AsyncVoid, command, None, Some(DefaultToken))))
        else None
    ensures var syncS := HandlerService(SyncVoid, command.runtimeType, None);
      var asyncS := HandlerService(AsyncVoid, command.runtimeType, None);
      InvokeAsync(env, command, ct, fuel) ==
        if fuel == 0 then None
        else if Registered(env, AsyncVoid, command, None) then
          Some(Run(HandlerTask(NativeResult(env, AsyncVoid, command, None, Some(ct))),
                   NativeEvents(env, AsyncVoid, command, None, Some(ct))))
        else if fuel >= 2 && Registered(env, SyncVoid, command, None) then
          Some(Run(CompletedTask(Unit), [Lookup(asyncS)] + NativeEvents(env, SyncVoid, command, None, None)))
        else None
  {
    var sync := Registered(env, SyncVoid, command, None);
    var async := Registered(env, AsyncVoid, command, None);
    TryInvokeOutcome(env, SyncVoid, command, None, None);
    TryInvokeOutcome(env, AsyncVoid, command, None, Some(ct));
    TryInvokeOutcome(env, AsyncVoid, command, None, Some(DefaultToken));
    if !sync && !async {
      VoidWithoutHandlerNeverReturns(env, command, ct, fuel);
    } else if fuel >= 2 {
      if !sync {
        assert InvokeAsync(env, command, DefaultToken, fuel - 1)
            == Some(Run(HandlerTask(NativeResult(env, AsyncVoid, command, None, Some(DefaultToken))),
                        NativeEvents(env, AsyncVoid, command, None, Some(DefaultToken))));
      }
      if !async {
        assert Invoke(env, command, fuel - 1) == Some(Run((), NativeEvents(env, SyncVoid, command, None, None)));
      }
    } else if fuel == 1 {
      assert Invoke(env, command, 0) == None;
      assert InvokeAsync(env, command, DefaultToken, 0) == None;
    }
  }

  /**
   * Result dispatch in closed form, for the requested result type only: as
   * for void, with Invoke<TResult> returning the handler's result (awaited
   * on the fallback) and InvokeAsync<TResult> returning the handler's task
   * natively and `Task.FromResult` of the sync handler's result on the
   * fallback.
   */
  lemma ResultDispatch(env: Env, command: Command, resultType: TypeName, ct: CancellationToken, fuel: nat)
    ensures var r := Some(resultType);
      var syncS := HandlerService(SyncResult, command.runtimeType, r);
      InvokeWithResult(env, command, resultType, fuel) ==
        if fuel == 0 then None
        else if Registered(env, SyncResult, command, r) then
          Some(Run(NativeResult(env, SyncResult, command, r, None), NativeEvents(env, SyncResult, command, r, None)))
        else if fuel >= 2 && Registered(env, AsyncResult, command, r) then
          Some(Run(NativeResult(env, AsyncResult, command, r, Some(DefaultToken)),
                   [Lookup(syncS)] + NativeEvents(env, AsyncResult, command, r, Some(DefaultToken))))
        else None
    ensures var r := Some(resultType);
      var asyncS := HandlerService(AsyncResult, command.runtimeType, r);
      InvokeAsyncWithResult(env, command, resultType, ct, fuel) ==
        if fuel == 0 then None
        else if Registered(env, AsyncResult, command, r) then
          Some(Run(HandlerTask(NativeResult(env, AsyncResult, command, r, Some(ct))),
                   NativeEvents(env, AsyncResult, command, r, Some(ct))))
        else if fuel >= 2 && Registered(env, SyncResult, command, r) then
          Some(Run(CompletedTask(NativeResult(env, SyncResult, command, r, None)),
                   [Lookup(asyncS)] + NativeEvents(env, SyncResult, command, r, None)))
        else None
  {
    var r := Some(resultType);
    var sync := Registered(env, SyncResult, command, r);
    var async := Registered(env, AsyncResult, command, r);
    TryInvokeOutcome(env, SyncResult, command, r, None);
    TryInvokeOutcome(env, AsyncResult, command, r, Some(ct));
    TryInvokeOutcome(env, AsyncResult, command, r, Some(DefaultToken));
    if !sync && !async {
      ResultWithoutHandlerNeverReturns(env, command, resultType, ct, fuel);
    } else if fuel >= 2 {
      if !sync {
        assert InvokeAsyncWithResult(env, command, resultType, DefaultToken, fuel - 1)
            == Some(Run(HandlerTask(NativeResult(env, AsyncResult, command, r, Some(DefaultToken))),
                        NativeEvents(env, AsyncResult, command, r, Some(DefaultToken))));
      }
      if !async {
        assert InvokeWithResult(env, command, resultType, fuel - 1)
            == Some(Run(NativeResult(env, SyncResult, command, r, None), NativeEvents(env, SyncResult, command, r, None)));
      }
    } else if fuel == 1 {
      assert InvokeWithResult(env, command, resultType, 0) == None;
      assert InvokeAsyncWithResult(env, command, resultType, DefaultToken, 0) == None;
    }
  }

  // ---------------------------------------------------------------------
  // Native first
  // ---------------------------------------------------------------------

  /**
   * Native first: with the native handler registered, each void entry
   * point makes one lookup, one request and one call of that handler, never
   * looks up the other mode, and returns the handler's task unchanged, the
   * caller's token reaching the async handler as given.
   */
  lemma VoidNativeFirst(env: Env, command: Command, ct: CancellationToken, fuel: nat)
    requires fuel >= 1
    ensures Registered(env, SyncVoid, command, None) ==>
      var service := HandlerService(SyncVoid, command.runtimeType, None);
      Invoke(env, command, fuel) == Some(Run((),
        [Lookup(service), Request(RequestFor(SyncVoid, command, None)),
         Invoked(Call(env.provider[service], Handle, command, None))]))
    ensures Registered(env, AsyncVoid, command, None) ==>
      var service := HandlerService(AsyncVoid, command.runtimeType, None);
      var call := Call(env.provider[service], HandleAsync, command, Some(ct));
      InvokeAsync(env, command, ct, fuel) == Some(Run(HandlerTask(env.behaviour(call)),
        [Lookup(service), Request(RequestFor(AsyncVoid, command, None)), Invoked(call)]))
  {
    VoidDispatch(env, command, ct, fuel);
  }

  /** Native first for the result entry points: the handler's result, or its task, is returned unchanged. */
  lemma ResultNativeFirst(env: Env, command: Command, resultType: TypeName, ct: CancellationToken, fuel: nat)
    requires fuel >= 1
    ensures Registered(env, SyncResult, command, Some(resultType)) ==>
      var service := HandlerService(SyncResult, command.runtimeType, Some(resultType));
      var call := Call(env.provider[service], Handle, command, None);
      InvokeWithResult(env, command, resultType, fuel) == Some(Run(env.behaviour(call),
        [Lookup(service), Request(RequestFor(SyncResult, command, Some(resultType))), Invoked(call)]))
    ensures Registered(env, AsyncResult, command, Some(resultType)) ==>
      var service := HandlerService(AsyncResult, command.runtimeType, Some(resultType));
      var call := Call(env.provider[service], HandleAsync, command, Some(ct));
      InvokeAsyncWithResult(env, command, resultType, ct, fuel) == Some(Run(HandlerTask(env.behaviour(call)),
        [Lookup(service), Request(RequestFor(AsyncResult, command, Some(resultType))), Invoked(call)]))
  {
    ResultDispatch(env, command, resultType, ct, fuel);
  }

  // ---------------------------------------------------------------------
  // Fallback
  // ---------------------------------------------------------------------

  /**
   * Sync-to-async fallback, void: with only the async void handler
   * registered, Invoke looks up the sync shape, then the async one, and
   * calls the async handler once, with the default token.
   */
  lemma VoidSyncFallsBackToAsync(env: Env, command: Command, fuel: nat)
    requires fuel >= 2
    requires !Registered(env, SyncVoid, command, None)
    requires Registered(env, AsyncVoid, command, None)
    ensures var service := HandlerService(AsyncVoid, command.runtimeType, None);
      Invoke(env, command, fuel) == Some(Run((),
        [Lookup(HandlerService(SyncVoid, command.runtimeType, None)),
         Lookup(service), Request(RequestFor(AsyncVoid, command, None)),
         Invoked(Call(env.provider[service], HandleAsync, command, Some(DefaultToken)))]))
  {
    VoidDispatch(env, command, DefaultToken, fuel);
    var events := NativeEvents(env, AsyncVoid, command, None, Some(DefaultToken));
    var first := Lookup(HandlerService(SyncVoid, command.runtimeType, None));
    assert [first] + events == [first, events[0], events[1], events[2]];
  }

  /**
   * Async-to-sync fallback, void: with only the sync void handler
   * registered, InvokeAsync runs it to completion without the caller's
   * token and returns an already completed task.
   */
  lemma VoidAsyncFallsBackToSync(env: Env, command: Command, ct: CancellationToken, fuel: nat)
    requires fuel >= 2
    requires !Registered(env, AsyncVoid, command, None)
    requires Registered(env, SyncVoid, command, None)
    ensures var service := HandlerService(SyncVoid, command.runtimeType, None);
      InvokeAsync(env, command, ct, fuel) == Some(Run(CompletedTask(Unit),
        [Lookup(HandlerService(AsyncVoid, command.runtimeType, None)),
         Lookup(service), Request(RequestFor(SyncVoid, command, None)),
         Invoked(Call(env.provider[service], Handle, command, None))]))
  {
    VoidDispatch(env, command, ct, fuel);
    var events := NativeEvents(env, SyncVoid, command, None, None);
    var first := Lookup(HandlerService(AsyncVoid, command.runtimeType, None));
    assert [first] + events == [first, events[0], events[1], events[2]];
  }

  /**
   * Sync-to-async fallback, with result: Invoke<TResult> returns the async
   * handler's result, obtained with the default token.
   */
  lemma ResultSyncFallsBackToAsync(env: Env, command: Command, resultType: TypeName, fuel: nat)
    requires fuel >= 2
    requires !Registered(env, SyncResult, command, Some(resultType))
    requires Registered(env, AsyncResult, command, Some(resultType))
    ensures var service := HandlerService(AsyncResult, command.runtimeType, Some(resultType));
      var call := Call(env.provider[service], HandleAsync, command, Some(DefaultToken));
      InvokeWithResult(env, command, resultType, fuel) == Some(Run(env.behaviour(call),
        [Lookup(HandlerService(SyncResult, command.runtimeType, Some(resultType))),
         Lookup(service), Request(RequestFor(AsyncResult, command, Some(resultType))), Invoked(call)]))
  {
    ResultDispatch(env, command, resultType, DefaultToken, fuel);
    var events := NativeEvents(env, AsyncResult, command, Some(resultType), Some(DefaultToken));
    var first := Lookup(HandlerService(SyncResult, command.runtimeType, Some(resultType)));
    assert [first] + events == [first, events[0], events[1], events[2]];
  }

  /**
   * Async-to-sync fallback, with result: InvokeAsync<TResult> runs the sync
   * handler without the caller's token and returns `Task.FromResult` of its
   * result.
   */
  lemma ResultAsyncFallsBackToSync(env: Env, command: Command, resultType: TypeName, ct: CancellationToken, fuel: nat)
    requires fuel >= 2
    requires !Registered(env, AsyncResult, command, Some(resultType))
    requires Registered(env, SyncResult, command, Some(resultType))
    ensures var service := HandlerService(SyncResult, command.runtimeType, Some(resultType));
      var call := Call(env.provider[service], Handle, command, None);
      InvokeAsyncWithResult(env, command, resultType, ct, fuel) == Some(Run(CompletedTask(env.behaviour(call)),
        [Lookup(HandlerService(AsyncResult, command.runtimeType, Some(resultType))),
         Lookup(service), Request(RequestFor(SyncResult, command, Some(resultType))), Invoked(call)]))
  {
    ResultDispatch(env, command, resultType, ct, fuel);
    var events := NativeEvents(env, SyncResult, command, Some(resultType), None);
    var first := Lookup(HandlerService(AsyncResult, command.runtimeType, Some(resultType)));
    assert [first] + events == [first, events[0], events[1], events[2]];
  }

  // ---------------------------------------------------------------------
  // Termination, arity and tokens
  // ---------------------------------------------------------------------

  /**
   * If either void mode is registered, both void entry points return within
   * two nested calls, after one or two lookups and with exactly one handler
   * call, their last event; more fuel changes nothing.
   */
  lemma VoidReturnsWithinTwoLookups(env: Env, command: Command, ct: CancellationToken, fuel: nat)
    requires fuel >= 2
    requires Registered(env, SyncVoid, command, None) || Registered(env, AsyncVoid, command, None)
    ensures Invoke(env, command, fuel) == Invoke(env, command, 2)
    ensures InvokeAsync(env, command, ct, fuel) == InvokeAsync(env, command, ct, 2)
    ensures OneCallAtMostTwoLookups(Invoke(env, command, fuel))
    ensures OneCallAtMostTwoLookups(InvokeAsync(env, command, ct, fuel))
  {
    VoidDispatch(env, command, ct, fuel);
    VoidDispatch(env, command, ct, 2);
  }

  /** The same for the result entry points and a registered result type. */
  lemma ResultReturnsWithinTwoLookups(env: Env, command: Command, resultType: TypeName, ct: CancellationToken, fuel: nat)
    requires fuel >= 2
    requires Registered(env, SyncResult, command, Some(resultType)) || Registered(env, AsyncResult, command, Some(resultType))
    ensures InvokeWithResult(env, command, resultType, fuel) == InvokeWithResult(env, command, resultType, 2)
    ensures InvokeAsyncWithResult(env, command, resultType, ct, fuel) == InvokeAsyncWithResult(env, command, resultType, ct, 2)
    ensures OneCallAtMostTwoLookups(InvokeWithResult(env, command, resultType, fuel))
    ensures OneCallAtMostTwoLookups(InvokeAsyncWithResult(env, command, resultType, ct, fuel))
  {
    ResultDispatch(env, command, resultType, ct, fuel);
    ResultDispatch(env, command, resultType, ct, 2);
  }

  /**
   * A run that returned: a handler call is its last event and its only one,
   * and it made one or two lookups, all before that call.
   */
  predicate OneCallAtMostTwoLookups<T>(run: Option<Run<T>>) {
    && run.Some?
    && var events := run.value.events;
    && (|events| == 3 || |events| == 4)
    && events[|events| - 1].Invoked?
    && events[|events| - 2].Request?
    && (forall i :: 0 <= i < |events| - 2 ==> events[i].Lookup?)
  }

  /**
   * Arity is never bridged: every lookup a returning void entry point
   * makes is of a void shape for the command's runtime type.
   */
  lemma VoidNeverBridgesArity(env: Env, command: Command, ct: CancellationToken, fuel: nat)
    ensures Invoke(env, command, fuel).Some? ==>
      LooksUpOnly(Invoke(env, command, fuel).value.events, command.runtimeType, None)
    ensures InvokeAsync(env, command, ct, fuel).Some? ==>
      LooksUpOnly(InvokeAsync(env, command, ct, fuel).value.events, command.runtimeType, None)
  {
    VoidDispatch(env, command, ct, fuel);
    if Registered(env, SyncVoid, command, None) {
      NativeLooksUpOnly(env, SyncVoid, command, None, None);
    }
    if Registered(env, AsyncVoid, command, None) {
      NativeLooksUpOnly(env, AsyncVoid, command, None, Some(ct));
      NativeLooksUpOnly(env, AsyncVoid, command, None, Some(DefaultToken));
    }
  }

  /**
   * Every lookup a returning result entry point makes is of a result shape
   * for the command's runtime type and the requested result type.
   */
  lemma ResultNeverBridgesArity(env: Env, command: Command, resultType: TypeName, ct: CancellationToken, fuel: nat)
    ensures InvokeWithResult(env, command, resultType, fuel).Some? ==>
      LooksUpOnly(InvokeWithResult(env, command, resultType, fuel).value.events, command.runtimeType, Some(resultType))
    ensures InvokeAsyncWithResult(env, command, resultType, ct, fuel).Some? ==>
      LooksUpOnly(InvokeAsyncWithResult(env, command, resultType, ct, fuel).value.events, command.runtimeType, Some(resultType))
  {
    var r := Some(resultType);
    ResultDispatch(env, command, resultType, ct, fuel);
    if Registered(env, SyncResult, command, r) {
      NativeLooksUpOnly(env, SyncResult, command, r, None);
    }
    if Registered(env, AsyncResult, command, r) {
      NativeLooksUpOnly(env, AsyncResult, command, r, Some(ct));
      NativeLooksUpOnly(env, AsyncResult, command, r, Some(DefaultToken));
    }
  }

  /**
   * A helper's events, alone or after the other mode's failed lookup, only
   * look up shapes of the helper's own arity.
   */
  lemma NativeLooksUpOnly(env: Env, shape: Shape, command: Command, result: Option<TypeName>, ct: Option<CancellationToken>)
    requires shape.HasResult() == result.Some?
    requires Registered(env, shape, command, result)
    ensures LooksUpOnly(NativeEvents(env, shape, command, result, ct), command.runtimeType, result)
    ensures forall other: Shape :: other.HasResult() == result.Some? ==>
      LooksUpOnly([Lookup(HandlerService(other, command.runtimeType, result))] + NativeEvents(env, shape, command, result, ct),
                  command.runtimeType, result)
  {
    var events := NativeEvents(env, shape, command, result, ct);
    assert events[1].Request? && events[2].Invoked?;
    forall other: Shape | other.HasResult() == result.Some?
      ensures LooksUpOnly([Lookup(HandlerService(other, command.runtimeType, result))] + events, command.runtimeType, result)
    {
      var all := [Lookup(HandlerService(other, command.runtimeType, result))] + events;
      assert all == [all[0], events[0], events[1], events[2]];
    }
  }

  /** Every lookup is of a handler interface over exactly these type arguments, of the matching arity. */
  predicate LooksUpOnly(events: seq<Event>, command: TypeName, result: Option<TypeName>) {
    forall i :: 0 <= i < |events| && events[i].Lookup? ==>
      && IsHandlerInterface(events[i].service)
      && events[i].service.def.shape.HasResult() == result.Some?
      && events[i].service.args == (if result.Some? then [command, result.value] else [command])
  }

  /**
   * Cancellation, void: the one handler call of a returning InvokeAsync
   * receives the caller's token when the async handler is registered, and
   * no token (the sync handler's call) otherwise; a returning Invoke calls
   * the sync handler without a token, or the async one with the default
   * token.
   */
  lemma VoidTokenFlow(env: Env, command: Command, ct: CancellationToken, fuel: nat)
    ensures InvokeAsync(env, command, ct, fuel).Some? ==>
      LastCallToken(InvokeAsync(env, command, ct, fuel).value.events)
        == if Registered(env, AsyncVoid, command, None) then Some(ct) else None
    ensures Invoke(env, command, fuel).Some? ==>
      LastCallToken(Invoke(env, command, fuel).value.events)
        == if Registered(env, SyncVoid, command, None) then None else Some(DefaultToken)
  {
    VoidDispatch(env, command, ct, fuel);
  }

  /** Cancellation, with result: the same token flow for the result entry points. */
  lemma ResultTokenFlow(env: Env, command: Command, resultType: TypeName, ct: CancellationToken, fuel: nat)
    ensures InvokeAsyncWithResult(env, command, resultType, ct, fuel).Some? ==>
      LastCallToken(InvokeAsyncWithResult(env, command, resultType, ct, fuel).value.events)
        == if Registered(env, AsyncResult, command, Some(resultType)) then Some(ct) else None
    ensures InvokeWithResult(env, command, resultType, fuel).Some? ==>
      LastCallToken(InvokeWithResult(env, command, resultType, fuel).value.events)
        == if Registered(env, SyncResult, command, Some(resultType)) then None else Some(DefaultToken)
  {
    ResultDispatch(env, command, resultType, ct, fuel);
  }

  /** The token of the last event, when that is a handler call. */
  function LastCallToken(events: seq<Event>): Option<CancellationToken> {
    if events != [] && events[|events| - 1].Invoked? then events[|events| - 1].call.ct else None
  }
}
