/**
 * Handler registration (ServiceCollectionExtensions.AddCoIn): register the
 * invoker, then scan every type of the given assemblies (the entry assembly
 * when none are given) and register each of its interfaces whose generic
 * definition is one of the four handler shapes, as a transient service
 * implemented by that type.
 *
 * The scanned assemblies, their types and each type's interfaces are inputs;
 * the entry assembly is a parameter.
 */
module Registration {
  import opened Wrappers
  import opened HandlerTypes
  import Dispatch

  datatype Lifetime = Singleton | Transient

  /** One registration: service type, implementation type, lifetime. */
  datatype ServiceDescriptor = ServiceDescriptor(service: ServiceType, implementation: TypeName, lifetime: Lifetime)

  /** A type found in an assembly, with the interfaces it implements. */
  datatype TypeInfo = TypeInfo(name: TypeName, interfaces: seq<ServiceType>)

  datatype Assembly = Assembly(name: string, types: seq<TypeInfo>)

  const InvokerService: ServiceType := Plain("DioRed.CoIn.IInvoker")

  /** `AddSingleton<IInvoker, Invoker>()`. */
  const InvokerRegistration: ServiceDescriptor := ServiceDescriptor(InvokerService, "DioRed.CoIn.Invoker", Singleton)

  /** The assemblies scanned: those given, or the entry assembly alone when none (or null) are given. */
  function ScannedAssemblies(assemblies: Option<seq<Assembly>>, entry: Assembly): seq<Assembly> {
    if assemblies.None? || assemblies.value == [] then [entry] else assemblies.value
  }

  /** All types of the assemblies, in order (`SelectMany(a => a.GetTypes())`). */
  function TypesOf(assemblies: seq<Assembly>): seq<TypeInfo>
    decreases |assemblies|
  {
    if assemblies == [] then []
    else TypesOf(assemblies[..|assemblies| - 1]) + assemblies[|assemblies| - 1].types
  }

  /** The registrations the inner loop makes for one type over a list of its interfaces. */
  function InterfaceRegistrations(implementation: TypeName, interfaces: seq<ServiceType>): seq<ServiceDescriptor>
    decreases |interfaces|
  {
    if interfaces == [] then []
    else
      var last := interfaces[|interfaces| - 1];
      InterfaceRegistrations(implementation, interfaces[..|interfaces| - 1])
        + (if IsHandlerInterface(last) then [ServiceDescriptor(last, implementation, Transient)] else [])
  }

  /** The registrations the scan makes for a list of types. */
  function HandlerRegistrations(types: seq<TypeInfo>): seq<ServiceDescriptor>
    decreases |types|
  {
    if types == [] then []
    else
      var last := types[|types| - 1];
      HandlerRegistrations(types[..|types| - 1]) + InterfaceRegistrations(last.name, last.interfaces)
  }

  /** The service collection the registrations are appended to. */
  class ServiceCollection {
    var descriptors: seq<ServiceDescriptor>

    constructor ()
      ensures descriptors == []
    {
      descriptors := [];
    }

    method Add(d: ServiceDescriptor)
      modifies this
      ensures descriptors == old(descriptors) + [d]
    {
      descriptors := descriptors + [d];
    }
  }

  /**
   * AddCoIn: appends the invoker registration and then, in scan order, one
   * transient registration per handler interface of every scanned type, and
   * returns the same collection.
   */
  method AddCoIn(services: ServiceCollection, assemblies: Option<seq<Assembly>>, entry: Assembly)
    returns (r: ServiceCollection)
    modifies services
    ensures r == services
    ensures services.descriptors
         == old(services.descriptors) + [InvokerRegistration]
            + HandlerRegistrations(TypesOf(ScannedAssemblies(assemblies, entry)))
  {
    services.Add(InvokerRegistration);
    var scanned := assemblies;
    if scanned.None? || scanned.value == [] {
      scanned := Some([entry]);
    }
    var types := TypesOf(scanned.value);
    ghost var before := services.descriptors;
    var i := 0;
    while i < |types|
      invariant 0 <= i <= |types|
      invariant services.descriptors == before + HandlerRegistrations(types[..i])
    {
      var t := types[i];
      var j := 0;
      while j < |t.interfaces|
        invariant 0 <= j <= |t.interfaces|
        invariant services.descriptors
               == before + HandlerRegistrations(types[..i]) + InterfaceRegistrations(t.name, t.interfaces[..j])
      {
        var iface := t.interfaces[j];
        if IsHandlerInterface(iface) {
          services.Add(ServiceDescriptor(iface, t.name, Transient));
        }
        assert t.interfaces[..j + 1][..j] == t.interfaces[..j];
        j := j + 1;
      }
      assert t.interfaces[..j] == t.interfaces;
      assert types[..i + 1][..i] == types[..i];
      i := i + 1;
    }
    assert types[..i] == types;
    r := services;
  }

  // ---------------------------------------------------------------------
  // What the scan registers
  // ---------------------------------------------------------------------

  /**
   * One type's registrations: a transient registration of the type for an
   * interface exactly when the interface is among its interfaces and is a
   * handler interface; non-generic and other generic interfaces give none.
   */
  lemma {:induction false} InterfaceRegistrationsIff(implementation: TypeName, interfaces: seq<ServiceType>, d: ServiceDescriptor)
    ensures d in InterfaceRegistrations(implementation, interfaces)
        <==> d.implementation == implementation && d.lifetime == Transient
             && IsHandlerInterface(d.service) && d.service in interfaces
    decreases |interfaces|
  {
    if interfaces != [] {
      var init := interfaces[..|interfaces| - 1];
      InterfaceRegistrationsIff(implementation, init, d);
      assert interfaces == init + [interfaces[|interfaces| - 1]];
    }
  }

  /**
   * One registration per matching interface, in the order of the
   * interfaces: a type implementing several handler interfaces gets as many
   * registrations.
   */
  lemma {:induction false} OneRegistrationPerHandlerInterface(implementation: TypeName, interfaces: seq<ServiceType>)
    ensures |InterfaceRegistrations(implementation, interfaces)| == |HandlerInterfaces(interfaces)|
    ensures forall k :: 0 <= k < |HandlerInterfaces(interfaces)| ==>
      InterfaceRegistrations(implementation, interfaces)[k]
        == ServiceDescriptor(HandlerInterfaces(interfaces)[k], implementation, Transient)
    decreases |interfaces|
  {
    if interfaces != [] {
      OneRegistrationPerHandlerInterface(implementation, interfaces[..|interfaces| - 1]);
    }
  }

  /** The handler interfaces among a list of interfaces, in order. */
  function HandlerInterfaces(interfaces: seq<ServiceType>): seq<ServiceType>
    decreases |interfaces|
  {
    if interfaces == [] then []
    else
      var last := interfaces[|interfaces| - 1];
      HandlerInterfaces(interfaces[..|interfaces| - 1]) + (if IsHandlerInterface(last) then [last] else [])
  }

  /**
   * The scan registers `iface -> type` as transient exactly when some
   * scanned type of that name implements `iface` and `iface` is a handler
   * interface; nothing else.
   */
  lemma {:induction false} HandlerRegistrationsIff(types: seq<TypeInfo>, d: ServiceDescriptor)
    ensures d in HandlerRegistrations(types)
        <==> d.lifetime == Transient && IsHandlerInterface(d.service)
             && exists t :: t in types && t.name == d.implementation && d.service in t.interfaces
    decreases |types|
  {
    if types != [] {
      var init, last := types[..|types| - 1], types[|types| - 1];
      HandlerRegistrationsIff(init, d);
      InterfaceRegistrationsIff(last.name, last.interfaces, d);
      assert types == init + [last];
      if d in InterfaceRegistrations(last.name, last.interfaces) {
        assert last in types;
      }
      if exists t :: t in types && t.name == d.implementation && d.service in t.interfaces {
        var t :| t in types && t.name == d.implementation && d.service in t.interfaces;
        if t != last {
          assert t in init;
        }
      }
    }
  }

  /** `SelectMany` over two runs of assemblies yields the types of the first, then those of the second. */
  lemma {:induction false} TypesOfAppend(a: seq<Assembly>, b: seq<Assembly>)
    ensures TypesOf(a + b) == TypesOf(a) + TypesOf(b)
    decreases |b|
  {
    if b == [] {
      assert a + b == a;
    } else {
      var init, last := b[..|b| - 1], b[|b| - 1];
      TypesOfAppend(a, init);
      assert (a + b)[..|a + b| - 1] == a + init;
      assert (a + b)[|a + b| - 1] == last;
    }
  }

  /** Scanning two runs of types registers what the first yields, then what the second yields. */
  lemma {:induction false} HandlerRegistrationsAppend(a: seq<TypeInfo>, b: seq<TypeInfo>)
    ensures HandlerRegistrations(a + b) == HandlerRegistrations(a) + HandlerRegistrations(b)
    decreases |b|
  {
    if b == [] {
      assert a + b == a;
    } else {
      var init, last := b[..|b| - 1], b[|b| - 1];
      HandlerRegistrationsAppend(a, init);
      assert (a + b)[..|a + b| - 1] == a + init;
      assert (a + b)[|a + b| - 1] == last;
    }
  }

  /**
   * Scanning a list of assemblies registers, assembly run by assembly run,
   * what scanning each run alone would register, in the order given.
   */
  lemma ScanAppend(a: seq<Assembly>, b: seq<Assembly>)
    ensures HandlerRegistrations(TypesOf(a + b))
         == HandlerRegistrations(TypesOf(a)) + HandlerRegistrations(TypesOf(b))
  {
    TypesOfAppend(a, b);
    HandlerRegistrationsAppend(TypesOf(a), TypesOf(b));
  }

  /**
   * After AddCoIn the new registrations are the invoker's, first and as a
   * singleton, and otherwise only transient handler-interface registrations.
   */
  lemma OnlyInvokerAndHandlers(types: seq<TypeInfo>)
    ensures var added := [InvokerRegistration] + HandlerRegistrations(types);
      && added[0] == InvokerRegistration
      && forall k :: 1 <= k < |added| ==>
           added[k].lifetime == Transient && IsHandlerInterface(added[k].service)
  {
    var added := [InvokerRegistration] + HandlerRegistrations(types);
    forall k | 1 <= k < |added|
      ensures added[k].lifetime == Transient && IsHandlerInterface(added[k].service)
    {
      assert added[k] in HandlerRegistrations(types);
      HandlerRegistrationsIff(types, added[k]);
    }
  }

  // ---------------------------------------------------------------------
  // From registrations to the provider the invoker sees
  // ---------------------------------------------------------------------

  /**
   * A provider built from a list of registrations: it resolves exactly the
   * registered service types, each to an implementation registered for it.
   * Which one wins among several is the container's choice and left open.
   */
  ghost predicate ProviderFor(provider: Dispatch.Provider, descriptors: seq<ServiceDescriptor>) {
    && (forall s :: s in provider <==> exists d :: d in descriptors && d.service == s)
    && (forall s :: s in provider ==>
          exists d :: d in descriptors && d.service == s && d.implementation == provider[s])
  }

  /**
   * With a provider built from what AddCoIn registers, the invoker finds a
   * handler of a shape for a command exactly when some scanned type
   * implements that closed handler interface, and the handler it gets is an
   * instance of such a type.
   */
  lemma RegisteredAfterScan(env: Dispatch.Env, types: seq<TypeInfo>, shape: Shape, command: Command, result: Option<TypeName>)
    requires shape.HasResult() == result.Some?
    requires ProviderFor(env.provider, [InvokerRegistration] + HandlerRegistrations(types))
    ensures var service := HandlerService(shape, command.runtimeType, result);
      && (Dispatch.Registered(env, shape, command, result) <==> exists t :: t in types && service in t.interfaces)
      && (Dispatch.Registered(env, shape, command, result) ==>
           exists t :: t in types && service in t.interfaces && t.name == env.provider[service])
  {
    var service := HandlerService(shape, command.runtimeType, result);
    var descriptors := [InvokerRegistration] + HandlerRegistrations(types);
    if service in env.provider {
      var d :| d in descriptors && d.service == service && d.implementation == env.provider[service];
      assert d != InvokerRegistration;
      assert d in HandlerRegistrations(types);
      HandlerRegistrationsIff(types, d);
    }
    if exists t :: t in types && service in t.interfaces {
      var t :| t in types && service in t.interfaces;
      var d := ServiceDescriptor(service, t.name, Transient);
      HandlerRegistrationsIff(types, d);
      assert d in descriptors;
    }
  }
}
