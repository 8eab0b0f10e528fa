/**
 * The sample application: its assembly (three commands, three handlers, the
 * program type), what its handlers compute, and the values the six
 * dispatches of the sample produce through a provider built from
 * `AddCoIn(typeof(Program).Assembly)`. Console output is not modelled; a
 * handler's side effect shows as its call in the dispatch's events.
 */
module SampleApp {
  import opened Wrappers
  import opened HandlerTypes
  import opened Dispatch
  import opened Registration

  const IntType: TypeName := "System.Int32"
  const StringType: TypeName := "System.String"

  function Equatable(t: TypeName): ServiceType {
    Closed(OtherDef("System.IEquatable`1"), [t])
  }

  /** The types of the sample assembly and their interfaces (records also implement IEquatable). */
  const ProgramType: TypeInfo := TypeInfo("Program", [])
  const PrintToConsoleType: TypeInfo :=
    TypeInfo("PrintToConsole", [Equatable("PrintToConsole"), Plain("DioRed.CoIn.ICommand")])
  const AddNumbersType: TypeInfo :=
    TypeInfo("AddNumbers", [Equatable("AddNumbers"), Closed(OtherDef("DioRed.CoIn.ICommand`1"), [IntType])])
  const PrintToConsoleHandlerType: TypeInfo :=
    TypeInfo("PrintToConsoleHandler", [HandlerService(SyncVoid, "PrintToConsole", None)])
  const AddNumbersHandlerType: TypeInfo :=
    TypeInfo("AddNumbersHandler", [HandlerService(SyncResult, "AddNumbers", Some(IntType))])
  const GetUserType: TypeInfo :=
    TypeInfo("GetUser", [Equatable("GetUser"), Closed(OtherDef("DioRed.CoIn.ICommand`1"), [StringType])])
  const GetUserHandlerType: TypeInfo :=
    TypeInfo("GetUserHandler", [HandlerService(AsyncResult, "GetUser", Some(StringType))])

  /**
   * The sample assembly's types, in declaration order. The compiler also
   * emits state-machine types for the async `Main` and for
   * `GetUserHandler.HandleAsync`; they implement only the non-generic
   * `IAsyncStateMachine`, so the scan registers nothing for them and they
   * are left out here.
   */
  const SampleTypes: seq<TypeInfo> := [
    ProgramType, PrintToConsoleType, AddNumbersType, PrintToConsoleHandlerType,
    AddNumbersHandlerType, GetUserType, GetUserHandlerType]

  const SampleAssembly: Assembly := Assembly("DioRed.CoIn.SampleApp", SampleTypes)

  /** What AddCoIn registers for the sample assembly. */
  function SampleRegistrations(): seq<ServiceDescriptor> {
    [InvokerRegistration] + HandlerRegistrations(TypesOf(ScannedAssemblies(Some([SampleAssembly]), SampleAssembly)))
  }

  /** Decimal text of a natural number. */
  function NatText(n: nat): string
    decreases n
  {
    if n < 10 then [Digit(n)] else NatText(n / 10) + [Digit(n % 10)]
  }

  function Digit(d: nat): char
    requires d < 10
  {
    "0123456789"[d]
  }

  /** Decimal text of an integer, with a leading minus sign when negative. */
  function IntText(i: int): string {
    if i < 0 then "-" + NatText(-i) else NatText(i)
  }

  /**
   * The sample handlers' bodies: AddNumbersHandler adds A and B,
   * GetUserHandler yields "User {Id}", PrintToConsoleHandler writes to the
   * console and returns nothing. The token is not consulted: GetUserHandler
   * hands it to `Task.Delay`, which only a cancelled token would cut short,
   * and the sample passes the default token only.
   */
  function SampleBehaviour(call: Call): Value {
    var fields := call.command.fields;
    if call.handler == "AddNumbersHandler" && |fields| == 2 && fields[0].Int? && fields[1].Int? then
      Int(fields[0].i + fields[1].i)
    else if call.handler == "GetUserHandler" && |fields| == 1 && fields[0].Int? then
      Str("User " + IntText(fields[0].i))
    else
      Unit
  }

  function AddNumbers(a: int, b: int): Command {
    Command("AddNumbers", [Int(a), Int(b)])
  }

  function GetUser(id: int): Command {
    Command("GetUser", [Int(id)])
  }

  function PrintToConsole(message: string): Command {
    Command("PrintToConsole", [Str(message)])
  }

  const PrintService: ServiceType := HandlerService(SyncVoid, "PrintToConsole", None)
  const AddService: ServiceType := HandlerService(SyncResult, "AddNumbers", Some(IntType))
  const GetUserService: ServiceType := HandlerService(AsyncResult, "GetUser", Some(StringType))

  /** A provider for the sample's registrations (see SampleProviderFromScan). */
  const SampleProvider: Provider := map[
    InvokerService := "DioRed.CoIn.Invoker",
    PrintService := "PrintToConsoleHandler",
    AddService := "AddNumbersHandler",
    GetUserService := "GetUserHandler"]

  const SampleEnv: Env := Env(SampleProvider, SampleBehaviour)

  lemma SampleTypesScanned()
    ensures TypesOf(ScannedAssemblies(Some([SampleAssembly]), SampleAssembly)) == SampleTypes
  {
    assert [SampleAssembly][..0] == [];
  }

  lemma {:induction false} NoHandlerInterface(implementation: TypeName, interfaces: seq<ServiceType>)
    requires forall k :: 0 <= k < |interfaces| ==> !IsHandlerInterface(interfaces[k])
    ensures InterfaceRegistrations(implementation, interfaces) == []
    decreases |interfaces|
  {
    if interfaces != [] {
      NoHandlerInterface(implementation, interfaces[..|interfaces| - 1]);
    }
  }

  lemma OneHandlerInterface(implementation: TypeName, service: ServiceType)
    requires IsHandlerInterface(service)
    ensures InterfaceRegistrations(implementation, [service]) == [ServiceDescriptor(service, implementation, Transient)]
  {
    assert [service][..0] == [];
  }

  /** Scanning the sample assembly registers the invoker and the three handlers, in scan order. */
  lemma SampleRegistrationsAre()
    ensures SampleRegistrations() == [
      InvokerRegistration,
      ServiceDescriptor(PrintService, "PrintToConsoleHandler", Transient),
      ServiceDescriptor(AddService, "AddNumbersHandler", Transient),
      ServiceDescriptor(GetUserService, "GetUserHandler", Transient)]
  {
    var printer := ServiceDescriptor(PrintService, "PrintToConsoleHandler", Transient);
    var adder := ServiceDescriptor(AddService, "AddNumbersHandler", Transient);
    var getUser := ServiceDescriptor(GetUserService, "GetUserHandler", Transient);
    SampleHandlerRegistrations();
    SampleTypesScanned();
    assert [InvokerRegistration] + [printer, adder, getUser] == [InvokerRegistration, printer, adder, getUser];
  }

  /** The scan of the sample's types registers the three handlers and nothing else. */
  lemma SampleHandlerRegistrations()
    ensures HandlerRegistrations(SampleTypes) == [
      ServiceDescriptor(PrintService, "PrintToConsoleHandler", Transient),
      ServiceDescriptor(AddService, "AddNumbersHandler", Transient),
      ServiceDescriptor(GetUserService, "GetUserHandler", Transient)]
  {
    var printer := ServiceDescriptor(PrintService, "PrintToConsoleHandler", Transient);
    var adder := ServiceDescriptor(AddService, "AddNumbersHandler", Transient);
    var getUser := ServiceDescriptor(GetUserService, "GetUserHandler", Transient);
    SampleTypeRegistrations();
    ScanInOrder(ProgramType, PrintToConsoleType, AddNumbersType, PrintToConsoleHandlerType,
                AddNumbersHandlerType, GetUserType, GetUserHandlerType, printer, adder, getUser);
  }

  /**
   * The sample's scan, one type at a time, over types that stand for the
   * sample's own (the concrete list would be unfolded by the verifier).
   */
  lemma ScanInOrder(t0: TypeInfo, t1: TypeInfo, t2: TypeInfo, t3: TypeInfo, t4: TypeInfo, t5: TypeInfo,
                    t6: TypeInfo, printer: ServiceDescriptor, adder: ServiceDescriptor, getUser: ServiceDescriptor)
    requires InterfaceRegistrations(t0.name, t0.interfaces) == []
    requires InterfaceRegistrations(t1.name, t1.interfaces) == []
    requires InterfaceRegistrations(t2.name, t2.interfaces) == []
    requires InterfaceRegistrations(t3.name, t3.interfaces) == [printer]
    requires InterfaceRegistrations(t4.name, t4.interfaces) == [adder]
    requires InterfaceRegistrations(t5.name, t5.interfaces) == []
    requires InterfaceRegistrations(t6.name, t6.interfaces) == [getUser]
    ensures HandlerRegistrations([t0, t1, t2, t3, t4, t5, t6]) == [printer, adder, getUser]
  {
    var u3 := [t0, t1, t2];
    var u4 := u3 + [t3];
    var u5 := u4 + [t4];
    var u6 := u5 + [t5];
    ScanNothing(t0, t1, t2);
    ScanStep(u3, t3, [], [printer]);
    ScanStep(u4, t4, [printer], [adder]);
    ScanStep(u5, t5, [printer, adder], []);
    ScanStep(u6, t6, [printer, adder], [getUser]);
    assert u6 + [t6] == [t0, t1, t2, t3, t4, t5, t6];
  }

  /** Three types with no handler interface register nothing. */
  lemma ScanNothing(t0: TypeInfo, t1: TypeInfo, t2: TypeInfo)
    requires InterfaceRegistrations(t0.name, t0.interfaces) == []
    requires InterfaceRegistrations(t1.name, t1.interfaces) == []
    requires InterfaceRegistrations(t2.name, t2.interfaces) == []
    ensures HandlerRegistrations([t0, t1, t2]) == []
  {
    ScanStep([], t0, [], []);
    ScanStep([t0], t1, [], []);
    assert [t0] + [t1] == [t0, t1];
    ScanStep([t0, t1], t2, [], []);
    assert [t0, t1] + [t2] == [t0, t1, t2];
  }

  /** One more type in the scan adds what its own interfaces yield, after what came before. */
  lemma ScanStep(types: seq<TypeInfo>, t: TypeInfo, before: seq<ServiceDescriptor>, own: seq<ServiceDescriptor>)
    requires HandlerRegistrations(types) == before
    requires InterfaceRegistrations(t.name, t.interfaces) == own
    ensures HandlerRegistrations(types + [t]) == before + own
  {
    HandlerRegistrationsAppend(types, [t]);
    assert [t][..0] == [];
  }

  /** What the scan registers for each type of the sample assembly. */
  lemma SampleTypeRegistrations()
    ensures InterfaceRegistrations(ProgramType.name, ProgramType.interfaces) == []
    ensures InterfaceRegistrations(PrintToConsoleType.name, PrintToConsoleType.interfaces) == []
    ensures InterfaceRegistrations(AddNumbersType.name, AddNumbersType.interfaces) == []
    ensures InterfaceRegistrations(GetUserType.name, GetUserType.interfaces) == []
    ensures InterfaceRegistrations(PrintToConsoleHandlerType.name, PrintToConsoleHandlerType.interfaces)
         == [ServiceDescriptor(PrintService, "PrintToConsoleHandler", Transient)]
    ensures InterfaceRegistrations(AddNumbersHandlerType.name, AddNumbersHandlerType.interfaces)
         == [ServiceDescriptor(AddService, "AddNumbersHandler", Transient)]
    ensures InterfaceRegistrations(GetUserHandlerType.name, GetUserHandlerType.interfaces)
         == [ServiceDescriptor(GetUserService, "GetUserHandler", Transient)]
  {
    NoHandlerInterface(ProgramType.name, ProgramType.interfaces);
    NoHandlerInterface(PrintToConsoleType.name, PrintToConsoleType.interfaces);
    NoHandlerInterface(AddNumbersType.name, AddNumbersType.interfaces);
    NoHandlerInterface(GetUserType.name, GetUserType.interfaces);
    OneHandlerInterface(PrintToConsoleHandlerType.name, PrintService);
    OneHandlerInterface(AddNumbersHandlerType.name, AddService);
    OneHandlerInterface(GetUserHandlerType.name, GetUserService);
  }

  /** The sample provider resolves exactly what AddCoIn registers for the sample assembly. */
  lemma SampleProviderFromScan()
    ensures ProviderFor(SampleProvider, SampleRegistrations())
  {
    SampleRegistrationsAre();
    var descriptors := SampleRegistrations();
    forall s | s in SampleProvider
      ensures exists d :: d in descriptors && d.service == s && d.implementation == SampleProvider[s]
    {
      var k := if s == InvokerService then 0 else if s == PrintService then 1 else if s == AddService then 2 else 3;
      assert descriptors[k].service == s && descriptors[k].implementation == SampleProvider[s];
    }
    forall d | d in descriptors
      ensures d.service in SampleProvider
    {
    }
  }

  /**
   * `AddNumbers(2, 3)`, which has only a sync handler, yields 5 through
   * Invoke<int> and, via the async-to-sync fallback, a completed task
   * holding 5 through InvokeAsync<int>.
   */
  lemma AddNumbersYieldsFive(ct: CancellationToken, fuel: nat)
    requires fuel >= 2
    ensures InvokeWithResult(SampleEnv, AddNumbers(2, 3), IntType, fuel).Some?
    ensures InvokeWithResult(SampleEnv, AddNumbers(2, 3), IntType, fuel).value.value == Int(5)
    ensures InvokeAsyncWithResult(SampleEnv, AddNumbers(2, 3), IntType, ct, fuel).Some?
    ensures InvokeAsyncWithResult(SampleEnv, AddNumbers(2, 3), IntType, ct, fuel).value.value == CompletedTask(Int(5))
  {
    ResultDispatch(SampleEnv, AddNumbers(2, 3), IntType, ct, fuel);
  }

  /**
   * `GetUser(42)`, which has only an async handler, yields "User 42"
   * through InvokeAsync<string> with the default token (the handler's own
   * task) and, via the blocking sync-to-async fallback, through
   * Invoke<string>.
   */
  lemma GetUserYieldsUser42(fuel: nat)
    requires fuel >= 2
    ensures InvokeWithResult(SampleEnv, GetUser(42), StringType, fuel).Some?
    ensures InvokeWithResult(SampleEnv, GetUser(42), StringType, fuel).value.value == Str("User 42")
    ensures InvokeAsyncWithResult(SampleEnv, GetUser(42), StringType, DefaultToken, fuel).Some?
    ensures InvokeAsyncWithResult(SampleEnv, GetUser(42), StringType, DefaultToken, fuel).value.value == HandlerTask(Str("User 42"))
  {
    ResultDispatch(SampleEnv, GetUser(42), StringType, DefaultToken, fuel);
    GetUserHandlerValue();
  }

  /** GetUserHandler yields "User 42" for `GetUser(42)` and the default token. */
  lemma GetUserHandlerValue()
    ensures SampleBehaviour(Call("GetUserHandler", HandleAsync, GetUser(42), Some(DefaultToken))) == Str("User 42")
  {
    assert IntText(42) == "42";
  }

  /**
   * `PrintToConsole(message)`, which has only a sync void handler, succeeds
   * through both Invoke and InvokeAsync, each calling PrintToConsoleHandler
   * exactly once, without a token; InvokeAsync returns an already completed
   * task.
   */
  lemma PrintToConsoleCallsHandlerOnce(message: string, ct: CancellationToken, fuel: nat)
    requires fuel >= 2
    ensures var call := Call("PrintToConsoleHandler", Handle, PrintToConsole(message), None);
      var request := RequestFor(SyncVoid, PrintToConsole(message), None);
      && Invoke(SampleEnv, PrintToConsole(message), fuel)
           == Some(Run((), [Lookup(PrintService), Request(request), Invoked(call)]))
      && InvokeAsync(SampleEnv, PrintToConsole(message), ct, fuel)
           == Some(Run(CompletedTask(Unit),
                [Lookup(HandlerService(AsyncVoid, "PrintToConsole", None)),
                 Lookup(PrintService), Request(request), Invoked(call)]))
  {
    VoidDispatch(SampleEnv, PrintToConsole(message), ct, fuel);
    var events := NativeEvents(SampleEnv, SyncVoid, PrintToConsole(message), None, None);
    var first := Lookup(HandlerService(AsyncVoid, "PrintToConsole", None));
    assert [first] + events == [first, events[0], events[1], events[2]];
  }
}
