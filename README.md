# DioRed.CoIn dispatch engine, modelled in Dafny

DioRed.CoIn is an in-process command dispatcher. The application registers
its handlers with `AddCoIn`, which scans assemblies for implementations of
the four handler interfaces. Those interfaces are `ICommandHandler<C>`,
`ICommandHandler<C, R>`, `IAsyncCommandHandler<C>` and
`IAsyncCommandHandler<C, R>`.

Commands are dispatched through `IInvoker`, which has four entry points:
`Invoke`, `Invoke<TResult>`, `InvokeAsync` and `InvokeAsync<TResult>`. Each
entry point first asks the service provider for the handler of its own
mode and arity. If there is none, it calls the entry point of the other
mode for the same arity:
- the sync entry point blocks on the async one;
- the async entry point runs the sync one and wraps its outcome in a
  completed task.

A handler is called through a thunk compiled once per
`handler|command|result|isAsync` key. The thunks are kept in a process-wide
cache.

The project is organised as follows:

- `handler_types.dfy` (`HandlerTypes`): the vocabulary.
  - The four handler shapes.
  - Closed generic service types and their full names.
  - The four delegate types.
  - Commands, values, cancellation tokens and handler calls.
- `invoker_factory.dfy` (`InvokerFactory`): the invocation compiler and its cache.
  - The cache key and a proof that it is injective.
  - The thunk built for a request, and the cast to the requested delegate type.
  - The `InvokerCache` class: a `map` from key to thunk, updated by
    get-or-add. A ghost log records which keys were built.
- `invoker.dfy` (`Dispatch`): the four entry points and their Try helpers.
  - They are pure functions over the provider (a map from closed handler
    interface to implementation type) and the handlers' behaviour.
  - The two entry points of an arity call each other with no base case.
    A `fuel` argument bounds that recursion.
  - Every run records its provider lookups, its cache requests and its
    handler calls, in order.
- `registration.dfy` (`Registration`): `AddCoIn`, a method with the two
  nested scanning loops over a `ServiceCollection` object. Its result is
  specified by recursive functions, and lemmas connect those registrations
  to the provider the invoker sees.
- `sample_app.dfy` (`SampleApp`): the sample program.
  - Its assembly and the registrations the scan makes for it.
  - Its three handlers.
  - The values of its six dispatches.
- `wrappers.dfy`: the `Option` type.

### No handler: no error, no end

There is no handler-not-found error. For a command with no handler of
either mode:
- `Invoke` and `InvokeAsync` call each other without end (Invoker.cs lines
  21 and 41);
- so do `Invoke<TResult>` and `InvokeAsync<TResult>` (lines 31 and 52).

`VoidWithoutHandlerNeverReturns` and
`ResultWithoutHandlerNeverReturns` prove that no amount of fuel makes these
dispatches return.

## Model

| member | source | states |
|---|---|---|
| HandlerTypes.ShapeOf | src/DioRed.CoIn/Invoker.cs:58-151 | The shape picked for a mode and an arity has exactly that mode and that arity. |
| HandlerTypes.HandlerService | src/DioRed.CoIn/Invoker.cs:58-151 | The closed handler interface each helper makes with `MakeGenericType` (lines 61, 84, 108 and 132) is a handler interface of the requested shape, one of those ICommandHandler.cs and IAsyncCommandHandler.cs declare. Its type arguments are the command's runtime type, followed by the result type when there is one. |
| HandlerTypes.HandlerServiceNameKeySafe | src/DioRed.CoIn/HandlerInvokerFactory.cs:20 | Over non-empty, `\|`-free type names, a handler interface's full name is also non-empty and `\|`-free. |
| HandlerTypes.DelegateFor | src/DioRed.CoIn/HandlerDelegates.cs:3-7 | The delegate type is async exactly for async mode and generic exactly when there is a result type. A generic delegate carries that result type. |
| InvokerFactory.KeySplits | src/DioRed.CoIn/HandlerInvokerFactory.cs:20 | Splitting a key at `\|` gives back the handler name, command name, result name (empty when absent) and `True`/`False`. |
| InvokerFactory.KeyInjective | src/DioRed.CoIn/HandlerInvokerFactory.cs:20 | Over key-safe names, two keys are equal if and only if their handler, command, result and mode are all equal. |
| InvokerFactory.RequestKeyInjective | src/DioRed.CoIn/HandlerInvokerFactory.cs:18-22 | The key omits the delegate type. For consistent requests, equal keys hold if and only if the requests are equal, delegate type included. |
| InvokerFactory.BuildThunk | src/DioRed.CoIn/HandlerInvokerFactory.cs:24-50 | The thunk calls `HandleAsync` exactly in async mode and `Handle` otherwise. Its parameters are handler and command, followed in async mode, and only then, by the token. The request can be read back from the thunk. |
| InvokerFactory.ThunkCall | src/DioRed.CoIn/HandlerInvokerFactory.cs:31-49 | For every request, calling the thunk built for it is one call on the caller's handler and command: of `HandleAsync` with exactly the caller's token when the request is async, and of `Handle` with no token otherwise. |
| InvokerFactory.CastAfterSharedKey | src/DioRed.CoIn/HandlerInvokerFactory.cs:18-22 | The key leaves out `TDelegate`, yet the cast of a cached thunk never fails for consistent requests: when two consistent requests share a key, casting the thunk built for the first to the second's delegate type yields exactly the thunk built for the second. |
| InvokerFactory.CastToOtherDelegate | src/DioRed.CoIn/HandlerInvokerFactory.cs:22 | Casting the thunk built for a request to any other delegate type than the request's own yields nothing. |
| InvokerFactory.InvokerCache.constructor | src/DioRed.CoIn/HandlerInvokerFactory.cs:9 | The cache starts empty, and its invariant holds. |
| InvokerFactory.InvokerCache.GetInvoker | src/DioRed.CoIn/HandlerInvokerFactory.cs:11-52 | Get-or-add. A present key leaves entries and build log unchanged. An absent key adds exactly `BuildThunk(req)` and logs one build. The result is the cast of the stored thunk. Existing entries are never replaced. For a consistent request in a cache of consistent entries, the result is exactly `BuildThunk(req)`. The invariant is kept: one build per key, each entry built for its own key. |
| InvokerFactory.InvokerCache.GetInvokerTwice | src/DioRed.CoIn/HandlerInvokerFactory.cs:22 | Two requests in a row with the same arguments return the same thunk. Together they build at most once. |
| Dispatch.TryInvokeOutcome | src/DioRed.CoIn/Invoker.cs:58-151 | A Try helper finds a handler if and only if its own shape is registered. When it finds none, it has made one lookup and no call. When it finds one, it has made one lookup, one cache request and one handler call, and it reports that call's result. |
| Dispatch.RequestMatchesShape | src/DioRed.CoIn/Invoker.cs:69-146 | Each helper's cache request carries its own shape's handler interface, command type and result type (none for void shapes), its mode and the matching delegate type. Over key-safe names the request is consistent, so the cache returns exactly the thunk built for it. |
| Dispatch.VoidDispatch | src/DioRed.CoIn/Invoker.cs:14-43 | Closed form of `Invoke` and `InvokeAsync` for every fuel. Each tries the native void handler first. Failing that, it tries the other mode one nested call deeper: `Invoke` passes the default token, and `InvokeAsync` returns a completed task. With neither mode registered, neither returns. |
| Dispatch.ResultDispatch | src/DioRed.CoIn/Invoker.cs:24-54 | The same closed form for `Invoke<TResult>` and `InvokeAsync<TResult>`. The fallback of `Invoke<TResult>` returns the async handler's result. The fallback of `InvokeAsync<TResult>` returns `Task.FromResult` of the sync handler's result. |
| Dispatch.VoidNativeFirst | src/DioRed.CoIn/Invoker.cs:14-39 | With its native void handler registered, an entry point makes exactly one lookup, one request and one call of that handler. `InvokeAsync` returns the handler's own task, and the handler receives the caller's token. |
| Dispatch.ResultNativeFirst | src/DioRed.CoIn/Invoker.cs:24-50 | With its native result handler registered, an entry point returns that handler's result, or its task, unchanged, after one lookup, one request and one call. |
| Dispatch.VoidSyncFallsBackToAsync | src/DioRed.CoIn/Invoker.cs:21 | With only the async void handler registered, `Invoke` looks up the sync shape, then the async one, and calls the async handler once with the default token. |
| Dispatch.VoidAsyncFallsBackToSync | src/DioRed.CoIn/Invoker.cs:41-42 | With only the sync void handler registered, `InvokeAsync` calls the sync handler once, without the caller's token, and returns a completed task. |
| Dispatch.ResultSyncFallsBackToAsync | src/DioRed.CoIn/Invoker.cs:31 | With only the async result handler registered, `Invoke<TResult>` returns that handler's result, obtained with the default token, after the failed sync lookup. |
| Dispatch.ResultAsyncFallsBackToSync | src/DioRed.CoIn/Invoker.cs:52-53 | With only the sync result handler registered, `InvokeAsync<TResult>` returns a completed task holding the sync handler's result. The handler does not receive the caller's token. |
| Dispatch.VoidWithoutHandlerNeverReturns | src/DioRed.CoIn/Invoker.cs:14-43 | With neither void handler registered, `Invoke` and `InvokeAsync` return for no fuel at all: the mutual recursion has no base case. |
| Dispatch.ResultWithoutHandlerNeverReturns | src/DioRed.CoIn/Invoker.cs:24-54 | With neither result handler registered for the requested result type, `Invoke<TResult>` and `InvokeAsync<TResult>` never return. |
| Dispatch.VoidReturnsWithinTwoLookups | src/DioRed.CoIn/Invoker.cs:14-43 | If either void mode is registered, both void entry points return within two nested calls, and more fuel changes nothing. Each run has one or two lookups, then one request, then exactly one handler call as its last event. |
| Dispatch.ResultReturnsWithinTwoLookups | src/DioRed.CoIn/Invoker.cs:24-54 | The same bound for the result entry points, for a registered result type. |
| Dispatch.VoidNeverBridgesArity | src/DioRed.CoIn/Invoker.cs:58-127 | Every lookup of a returning void entry point is a void handler interface over exactly the command's runtime type. |
| Dispatch.ResultNeverBridgesArity | src/DioRed.CoIn/Invoker.cs:81-151 | Every lookup of a returning result entry point is a result handler interface over exactly the command's runtime type and the requested result type. |
| Dispatch.VoidTokenFlow | src/DioRed.CoIn/Invoker.cs:14-43 | In a returning `InvokeAsync`, the one handler call receives the caller's token when the async void handler is registered, and no token otherwise. In a returning `Invoke`, the call receives no token when the sync void handler is registered, and the default token otherwise. |
| Dispatch.ResultTokenFlow | src/DioRed.CoIn/Invoker.cs:24-54 | The same token flow for `InvokeAsync<TResult>` and `Invoke<TResult>`. |
| Registration.ServiceCollection.constructor | src/DioRed.CoIn/ServiceCollectionExtensions.cs:10 | A new service collection has no registrations. |
| Registration.ServiceCollection.Add | src/DioRed.CoIn/ServiceCollectionExtensions.cs:33 | Adding a registration appends it and changes nothing else. |
| Registration.AddCoIn | src/DioRed.CoIn/ServiceCollectionExtensions.cs:9-39 | Returns the same collection. The new registrations are the invoker singleton, followed by one transient registration per handler interface, in type and then interface order. The scan covers the given assemblies, or the entry assembly when none or null are given. |
| Registration.InterfaceRegistrationsIff | src/DioRed.CoIn/ServiceCollectionExtensions.cs:23-35 | A type's scan registers `(iface, type, Transient)` if and only if `iface` is one of its interfaces and is a handler interface. Non-generic and other generic interfaces give nothing. |
| Registration.OneRegistrationPerHandlerInterface | src/DioRed.CoIn/ServiceCollectionExtensions.cs:23-35 | A type gets exactly one registration per handler interface it implements, in the order of its interfaces. |
| Registration.HandlerRegistrationsIff | src/DioRed.CoIn/ServiceCollectionExtensions.cs:21-36 | The scan registers a descriptor if and only if it is transient, its service is a handler interface, and some scanned type of that name implements that service. |
| Registration.OnlyInvokerAndHandlers | src/DioRed.CoIn/ServiceCollectionExtensions.cs:14-35 | The first new registration is the invoker singleton. Every other one is a transient handler-interface registration. |
| Registration.TypesOfAppend | src/DioRed.CoIn/ServiceCollectionExtensions.cs:21 | The types of two runs of assemblies are the first run's types followed by the second's. |
| Registration.HandlerRegistrationsAppend | src/DioRed.CoIn/ServiceCollectionExtensions.cs:21-36 | Scanning two runs of types registers what the first run yields, followed by what the second yields. |
| Registration.ScanAppend | src/DioRed.CoIn/ServiceCollectionExtensions.cs:21-36 | Scanning a list of assemblies registers what scanning its first part alone would, followed by what scanning the rest alone would. |
| Registration.RegisteredAfterScan | src/DioRed.CoIn/ServiceCollectionExtensions.cs:21-36 | With a provider built from what AddCoIn registers, the invoker finds a handler of a shape for a command if and only if some scanned type implements that closed handler interface. The handler it gets is an instance of such a type. |
| SampleApp.SampleRegistrationsAre | src/DioRed.CoIn.SampleApp/Program.cs:35-58 | Scanning the sample assembly registers the invoker, then `PrintToConsoleHandler`, `AddNumbersHandler` and `GetUserHandler` for their one handler interface each. The records' other interfaces register nothing. |
| SampleApp.SampleProviderFromScan | src/DioRed.CoIn.SampleApp/Program.cs:8-12 | The sample provider resolves exactly the services the scan registers, each to its registered implementation. |
| SampleApp.AddNumbersYieldsFive | src/DioRed.CoIn.SampleApp/Program.cs:44-47 | `Invoke(new AddNumbers(2, 3))` (line 17) yields 5. `InvokeAsync(new AddNumbers(2, 3))` (line 26) yields a completed task holding 5, through the async-to-sync fallback. |
| SampleApp.GetUserYieldsUser42 | src/DioRed.CoIn.SampleApp/Program.cs:51-57 | With the default token the sample passes, `InvokeAsync(new GetUser(42))` (line 29) returns the handler's task holding "User 42". `Invoke(new GetUser(42))` (line 20) yields "User 42" through the blocking fallback. |
| SampleApp.PrintToConsoleCallsHandlerOnce | src/DioRed.CoIn.SampleApp/Program.cs:38-42 | Both `Invoke` and `InvokeAsync` of `PrintToConsole(message)` (lines 15 and 24) call `PrintToConsoleHandler.Handle` exactly once, without a token, with the exact lookups shown. `InvokeAsync` returns a completed task. |

## Left out

- Reflection and expression compilation are replaced by the `Thunk` datatype. `MakeGenericType`, `GetMethod` and `Expression.Lambda(...).Compile()` are not modelled. A `GetMethod` that finds nothing, and the null dereference that would follow, are not modelled either.
- The full name of a closed generic type is rendered in a simplified form: `Def[[A],[B]]`, without the assembly-qualified argument names .NET uses. Key injectivity is proved for this rendering, over type names that are non-empty and free of `|`.
- Tasks are modelled by the value they complete with. Asynchrony, the blocking `GetAwaiter().GetResult()` wait, `Task.Delay` and the cancellation of a running handler are not modelled. Only which token reaches which handler call is modelled.
- Exceptions thrown by handlers, and how they propagate, are not modelled. This includes a sync handler throwing out of `InvokeAsync`'s fallback before any task exists, and exceptions surfacing from the blocking wait.
- The non-termination of a dispatch with no handler is modelled by `fuel`: `None` means "has not returned within `fuel` nested entry-point calls". The stack overflow that ends such a run in .NET is not modelled.
- The cache's thread safety, and a `GetOrAdd` factory running more than once under a race, are not modelled: the cache is a single-threaded class. Its process-wide lifetime is not modelled either.
- Dispatch.TryInvoke: uses `BuildThunk(req)` for the thunk the cache returns rather than calling the stateful `InvokerCache.GetInvoker`. `InvokerCache.GetInvoker` proves the two agree for requests of the form `RequestMatchesShape` shows the helpers make.
- The dependency-injection container's internals are not modelled: building the provider, lifetimes, and which registration wins among duplicates. `ProviderFor` leaves the last of these open.
- `Assembly.GetEntryAssembly()`, `GetTypes()` and `GetInterfaces()` are inputs rather than reflection calls. A null entry assembly, which the source dereferences, is not modelled.
- SampleApp.AddNumbersYieldsFive: does not model 32-bit wrap-around of `A + B`, because the sample adds 2 and 3.
- SampleApp.SampleBehaviour: ignores the token a handler receives. GetUserHandler passes it to `Task.Delay` (Program.cs line 55), so a cancelled token would cancel its task; the sample passes only the default token (lines 20 and 29), and `GetUserYieldsUser42` is stated for that token.
- Console output of the sample handlers is not modelled: a handler's side effect appears only as its call in the run's events. `Host` start-up and the `GetRequiredService<IInvoker>()` lookup are also not modelled.
- A null command is not modelled: each helper calls `command.GetType()` first (Invoker.cs lines 60, 83, 107 and 131), which throws for null. In the model a command always has a runtime type.
- The compiler-generated state-machine types of the sample's async `Main` and of `GetUserHandler.HandleAsync` are left out of the sample assembly's types. They implement only the non-generic `IAsyncStateMachine`, so the scan registers nothing for them.
- `ICommand.cs` is not part of this model: the command marker interfaces carry no behaviour. A command is its runtime type name and its payload.
