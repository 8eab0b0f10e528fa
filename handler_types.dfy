/**
 * The vocabulary of the dispatch engine: commands, the four handler
 * capabilities (synchronous or asynchronous, with or without a result), the
 * closed generic service types the provider is asked for, and the four
 * delegate types an invocation thunk can have.
 *
 * Types are identified by their full names; reflection is not modelled.
 */
module HandlerTypes {
  import opened Wrappers

  /** A type's full name, the only identity the engine uses. */
  type TypeName = string

  /** The four handler capabilities of ICommandHandler.cs and IAsyncCommandHandler.cs. */
  datatype Shape = SyncVoid | SyncResult | AsyncVoid | AsyncResult {

    predicate IsAsync() {
      this == AsyncVoid || this == AsyncResult
    }

    predicate HasResult() {
      this == SyncResult || this == AsyncResult
    }
  }

  /** The shape for an execution mode and a result arity. */
  function ShapeOf(isAsync: bool, hasResult: bool): (s: Shape)
    ensures s.IsAsync() == isAsync && s.HasResult() == hasResult
  {
    if isAsync then (if hasResult then AsyncResult else AsyncVoid)
    else (if hasResult then SyncResult else SyncVoid)
  }

  /** A generic type definition: one of the four handler interfaces, or anything else. */
  datatype GenericDef = HandlerDef(shape: Shape) | OtherDef(name: TypeName)

  /**
   * An interface type as the provider and the registration scan see it: a
   * non-generic interface, or a generic definition closed over type arguments.
   */
  datatype ServiceType = Plain(name: TypeName) | Closed(def: GenericDef, args: seq<TypeName>)

  /** An interface whose generic definition is one of the four handler shapes. */
  predicate IsHandlerInterface(t: ServiceType) {
    t.Closed? && t.def.HandlerDef?
  }

  /**
   * The closed handler interface for a command type: ICommandHandler<C>,
   * ICommandHandler<C, R>, IAsyncCommandHandler<C> or IAsyncCommandHandler<C, R>.
   */
  function HandlerService(shape: Shape, command: TypeName, result: Option<TypeName>): (t: ServiceType)
    requires shape.HasResult() == result.Some?
    ensures IsHandlerInterface(t) && t.def.shape == shape
    ensures t.args == if result.Some? then [command, result.value] else [command]
  {
    match result
    case None => Closed(HandlerDef(shape), [command])
    case Some(r) => Closed(HandlerDef(shape), [command, r])
  }

  /** The full name of a generic definition. */
  function DefinitionName(def: GenericDef): string {
    match def
    case HandlerDef(SyncVoid) => "DioRed.CoIn.ICommandHandler`1"
    case HandlerDef(SyncResult) => "DioRed.CoIn.ICommandHandler`2"
    case HandlerDef(AsyncVoid) => "DioRed.CoIn.IAsyncCommandHandler`1"
    case HandlerDef(AsyncResult) => "DioRed.CoIn.IAsyncCommandHandler`2"
    case OtherDef(name) => name
  }

  /** Type arguments rendered as `[A],[B]`. */
  function JoinArgs(args: seq<TypeName>): string
    decreases |args|
  {
    if |args| == 0 then ""
    else if |args| == 1 then "[" + args[0] + "]"
    else "[" + args[0] + "]," + JoinArgs(args[1..])
  }

  /** The full name of an interface type, in the bracketed form of closed generics. */
  function FullName(t: ServiceType): string {
    match t
    case Plain(name) => name
    case Closed(def, args) => DefinitionName(def) + "[" + JoinArgs(args) + "]"
  }

  /**
   * A name that can be a component of an invocation cache key: not empty
   * and free of the `|` separator.
   */
  predicate KeySafe(name: string) {
    name != [] && '|' !in name
  }

  lemma {:induction false} JoinArgsKeySafe(args: seq<TypeName>)
    requires forall i :: 0 <= i < |args| ==> KeySafe(args[i])
    ensures '|' !in JoinArgs(args)
    decreases |args|
  {
    if |args| > 1 {
      JoinArgsKeySafe(args[1..]);
    }
  }

  /** A handler interface over key-safe type names has a key-safe full name. */
  lemma HandlerServiceNameKeySafe(shape: Shape, command: TypeName, result: Option<TypeName>)
    requires shape.HasResult() == result.Some?
    requires KeySafe(command) && (result.Some? ==> KeySafe(result.value))
    ensures KeySafe(FullName(HandlerService(shape, command, result)))
  {
    var t := HandlerService(shape, command, result);
    JoinArgsKeySafe(t.args);
    DefinitionNameKeySafe(shape);
    assert FullName(t) == DefinitionName(t.def) + "[" + JoinArgs(t.args) + "]";
  }

  lemma DefinitionNameKeySafe(shape: Shape)
    ensures '|' !in DefinitionName(HandlerDef(shape))
  {
    var name := DefinitionName(HandlerDef(shape));
    assert forall i | 0 <= i < |name| :: name[i] != '|';
  }

  /** The delegate types of HandlerDelegates.cs; the generic ones carry their result type. */
  datatype DelegateType =
    | SyncHandlerInvoker
    | SyncHandlerInvokerOf(result: TypeName)
    | AsyncHandlerInvoker
    | AsyncHandlerInvokerOf(result: TypeName)

  /** The delegate type that goes with a result type and an execution mode. */
  function DelegateFor(result: Option<TypeName>, isAsync: bool): (d: DelegateType)
    ensures (d == AsyncHandlerInvoker || d.AsyncHandlerInvokerOf?) <==> isAsync
    ensures (d.SyncHandlerInvokerOf? || d.AsyncHandlerInvokerOf?) <==> result.Some?
    ensures result.Some? ==> d.result == result.value
  {
    match result
    case None => if isAsync then AsyncHandlerInvoker else SyncHandlerInvoker
    case Some(r) => if isAsync then AsyncHandlerInvokerOf(r) else SyncHandlerInvokerOf(r)
  }

  /** Payload values of commands and results of handlers. */
  datatype Value = Unit | Int(i: int) | Str(s: string)

  /** A command: its runtime type's full name and its payload fields. */
  datatype Command = Command(runtimeType: TypeName, fields: seq<Value>)

  /** A cancellation token; `NoneToken` is `CancellationToken.None`, the default value. */
  datatype CancellationToken = NoneToken | Token(id: nat)

  /** The handler method a thunk calls. */
  datatype Method = Handle | HandleAsync

  /**
   * One call of a handler method: the handler instance (named by its
   * implementation type), the method, the command and, for HandleAsync, the
   * token it receives.
   */
  datatype Call = Call(handler: TypeName, member: Method, command: Command, ct: Option<CancellationToken>)
}
