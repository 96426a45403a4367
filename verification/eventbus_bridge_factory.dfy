/** The event-bus bridge wiring of one controller: the permission records built
    from its inbound/outbound declarations, the wildcard mount path, the order in
    which route handlers are installed, and the per-event dispatch that resolves a
    handler method's arguments by parameter type and invokes it reflectively. */
module EventBusBridgeFactory {
  import opened Wrappers
  import opened BridgeEvents

  // ---------------------------------------------------------------------------
  // Permission records
  // ---------------------------------------------------------------------------

  /** A bridge permission record; an absent field places no restriction on that axis. */
  datatype PermittedOptions = PermittedOptions(
    address: Option<string>,
    addressRegex: Option<string>,
    requiredAuthority: Option<string>)
  {
    /** No field is set: the record lets everything through. */
    predicate AllowsAll() {
      address.None? && addressRegex.None? && requiredAuthority.None?
    }

    /** No field holds the empty string as a value. */
    predicate NoEmptyValue() {
      address != Some("") && addressRegex != Some("") && requiredAuthority != Some("")
    }
  }

  /** A record built with no argument, as `new PermittedOptions()`. */
  const AllowAll: PermittedOptions := PermittedOptions(None, None, None)

  /** An `@InboundPermitted` declaration; each attribute defaults to "". */
  datatype InboundPermitted = InboundPermitted(address: string, addressRegex: string, requiredAuthority: string)

  /** An `@OutboundPermitted` declaration; each attribute defaults to "". */
  datatype OutboundPermitted = OutboundPermitted(address: string, addressRegex: string, requiredAuthority: string)

  /** The permission lists handed to the SockJS bridge. */
  datatype BridgeOptions = BridgeOptions(inboundPermitted: seq<PermittedOptions>, outboundPermitted: seq<PermittedOptions>)

  /** An annotation attribute as a record field: set exactly when non-empty. */
  function FieldOf(value: string): (r: Option<string>)
    ensures r.Some? <==> value != ""
    ensures r.Some? ==> r.value == value
  {
    if "" != value then Some(value) else None
  }

  /** The annotation attribute a record field came from: an unset field reads as "". */
  function AttributeOf(field: Option<string>): string {
    match field
    case Some(v) => v
    case None => ""
  }

  function CreatePermittedOptions(address: string, addressRegex: string, requiredAuthority: string): (r: PermittedOptions)
    ensures r.address.Some? <==> address != ""
    ensures r.addressRegex.Some? <==> addressRegex != ""
    ensures r.requiredAuthority.Some? <==> requiredAuthority != ""
    ensures r.address.Some? ==> r.address.value == address
    ensures r.addressRegex.Some? ==> r.addressRegex.value == addressRegex
    ensures r.requiredAuthority.Some? ==> r.requiredAuthority.value == requiredAuthority
    ensures r.NoEmptyValue()
  {
    PermittedOptions(FieldOf(address), FieldOf(addressRegex), FieldOf(requiredAuthority))
  }

  /** Reading the attributes back from a record recovers the declaration exactly. */
  lemma PermittedOptionsRoundTrip(address: string, addressRegex: string, requiredAuthority: string)
    ensures var r := CreatePermittedOptions(address, addressRegex, requiredAuthority);
      AttributeOf(r.address) == address
      && AttributeOf(r.addressRegex) == addressRegex
      && AttributeOf(r.requiredAuthority) == requiredAuthority
  {
  }

  /** Every record without an empty-string value is built from exactly one declaration:
      the one whose attributes are read back from it. */
  lemma PermittedOptionsOnto(o: PermittedOptions)
    requires o.NoEmptyValue()
    ensures CreatePermittedOptions(AttributeOf(o.address), AttributeOf(o.addressRegex), AttributeOf(o.requiredAuthority)) == o
  {
  }

  /** A declaration built into an allow-all record is exactly one with every attribute
      left at its default. */
  lemma AllowAllIffAllDefaults(address: string, addressRegex: string, requiredAuthority: string)
    ensures CreatePermittedOptions(address, addressRegex, requiredAuthority).AllowsAll()
      <==> address == "" && addressRegex == "" && requiredAuthority == ""
    ensures CreatePermittedOptions("", "", "") == AllowAll
  {
  }

  function CreateInboundPermitted(inbound: InboundPermitted): (r: PermittedOptions)
    ensures AttributeOf(r.address) == inbound.address
    ensures AttributeOf(r.addressRegex) == inbound.addressRegex
    ensures AttributeOf(r.requiredAuthority) == inbound.requiredAuthority
    ensures r.NoEmptyValue()
  {
    CreatePermittedOptions(inbound.address, inbound.addressRegex, inbound.requiredAuthority)
  }

  function CreateOutboundPermitted(outbound: OutboundPermitted): (r: PermittedOptions)
    ensures AttributeOf(r.address) == outbound.address
    ensures AttributeOf(r.addressRegex) == outbound.addressRegex
    ensures AttributeOf(r.requiredAuthority) == outbound.requiredAuthority
    ensures r.NoEmptyValue()
  {
    CreatePermittedOptions(outbound.address, outbound.addressRegex, outbound.requiredAuthority)
  }

  /** The permission lists of a controller: one record per declaration, in order,
      or a single allow-all record when a direction has no declaration. */
  function CreateBridgeOptions(inbounds: seq<InboundPermitted>, outbounds: seq<OutboundPermitted>): (r: BridgeOptions)
    ensures |inbounds| == 0 ==> r.inboundPermitted == [AllowAll]
    ensures |outbounds| == 0 ==> r.outboundPermitted == [AllowAll]
    ensures |inbounds| > 0 ==> |r.inboundPermitted| == |inbounds|
    ensures |outbounds| > 0 ==> |r.outboundPermitted| == |outbounds|
    ensures forall i :: 0 <= i < |inbounds| ==> r.inboundPermitted[i] == CreateInboundPermitted(inbounds[i])
    ensures forall i :: 0 <= i < |outbounds| ==> r.outboundPermitted[i] == CreateOutboundPermitted(outbounds[i])
  {
    BridgeOptions(
      if |inbounds| > 0 then seq(|inbounds|, i requires 0 <= i < |inbounds| => CreateInboundPermitted(inbounds[i]))
      else [AllowAll],
      if |outbounds| > 0 then seq(|outbounds|, i requires 0 <= i < |outbounds| => CreateOutboundPermitted(outbounds[i]))
      else [AllowAll])
  }

  /** The two loops of the bridge-options construction: they fill each list
      declaration by declaration and fall back to one allow-all record. */
  method BuildBridgeOptions(inbounds: seq<InboundPermitted>, outbounds: seq<OutboundPermitted>) returns (options: BridgeOptions)
    ensures options == CreateBridgeOptions(inbounds, outbounds)
  {
    var inboundPermitteds: seq<PermittedOptions> := [];
    if |inbounds| > 0 {
      var i := 0;
      while i < |inbounds|
        invariant 0 <= i <= |inbounds|
        invariant |inboundPermitteds| == i
        invariant forall k :: 0 <= k < i ==> inboundPermitteds[k] == CreateInboundPermitted(inbounds[k])
      {
        inboundPermitteds := inboundPermitteds + [CreateInboundPermitted(inbounds[i])];
        i := i + 1;
      }
    } else {
      inboundPermitteds := [AllowAll];
    }
    var outboundPermitteds: seq<PermittedOptions> := [];
    if |outbounds| > 0 {
      var i := 0;
      while i < |outbounds|
        invariant 0 <= i <= |outbounds|
        invariant |outboundPermitteds| == i
        invariant forall k :: 0 <= k < i ==> outboundPermitteds[k] == CreateOutboundPermitted(outbounds[k])
      {
        outboundPermitteds := outboundPermitteds + [CreateOutboundPermitted(outbounds[i])];
        i := i + 1;
      }
    } else {
      outboundPermitteds := [AllowAll];
    }
    options := BridgeOptions(inboundPermitteds, outboundPermitteds);
  }

  /** No direction is ever left without a permission record, and no record holds an
      empty-string value. */
  lemma BridgeOptionsWellFormed(inbounds: seq<InboundPermitted>, outbounds: seq<OutboundPermitted>)
    ensures var r := CreateBridgeOptions(inbounds, outbounds);
      |r.inboundPermitted| > 0 && |r.outboundPermitted| > 0
      && (forall i :: 0 <= i < |r.inboundPermitted| ==> r.inboundPermitted[i].NoEmptyValue())
      && (forall i :: 0 <= i < |r.outboundPermitted| ==> r.outboundPermitted[i].NoEmptyValue())
  {
  }

  /** The inbound list lets everything through with some record exactly when the
      controller declared no inbound rule or declared one with every attribute empty. */
  lemma InboundAllowAllIff(inbounds: seq<InboundPermitted>, outbounds: seq<OutboundPermitted>)
    ensures var r := CreateBridgeOptions(inbounds, outbounds);
      (exists k :: 0 <= k < |r.inboundPermitted| && r.inboundPermitted[k].AllowsAll())
      <==> |inbounds| == 0 || exists k :: 0 <= k < |inbounds| && inbounds[k] == InboundPermitted("", "", "")
  {
    var r := CreateBridgeOptions(inbounds, outbounds);
    if |inbounds| == 0 {
      assert r.inboundPermitted[0].AllowsAll();
    } else {
      forall k | 0 <= k < |inbounds|
        ensures r.inboundPermitted[k].AllowsAll() <==> inbounds[k] == InboundPermitted("", "", "")
      {
        AllowAllIffAllDefaults(inbounds[k].address, inbounds[k].addressRegex, inbounds[k].requiredAuthority);
      }
    }
  }

  // ---------------------------------------------------------------------------
  // Mount path
  // ---------------------------------------------------------------------------

  /** `s.endsWith(suffix)` */
  predicate EndsWith(s: string, suffix: string) {
    |suffix| <= |s| && s[|s| - |suffix|..] == suffix
  }

  /** The mount path made to end in the wildcard suffix (a slash followed by a star). */
  function NormalisePath(path: string): (r: string)
    ensures EndsWith(r, "/*")
    ensures EndsWith(path, "/*") ==> r == path
    ensures !EndsWith(path, "/*") && EndsWith(path, "/") ==> r == path + "*"
    ensures !EndsWith(path, "/*") && !EndsWith(path, "/") ==> r == path + "/*"
  {
    if !EndsWith(path, "/*") then
      if EndsWith(path, "/") then
        var r := path + "*";
        assert r[|r| - 2..] == [path[|path| - 1], '*'];
        r
      else
        var r := path + "/*";
        assert r[|r| - 2..] == "/*";
        r
    else
      path
  }

  lemma NormalisePathIdempotent(path: string)
    ensures NormalisePath(NormalisePath(path)) == NormalisePath(path)
  {
  }

  /** The normalised path is the shortest extension of the declared path that ends
      in the wildcard suffix: it keeps the declared path as a prefix and adds as little as possible. */
  lemma NormalisePathIsShortestWildcardExtension(path: string, extra: string)
    requires EndsWith(path + extra, "/*")
    ensures var r := NormalisePath(path);
      r[..|path|] == path && |r| - |path| <= |extra|
  {
    var r := NormalisePath(path);
    var s := path + extra;
    if |extra| == 0 {
      assert s == path;
    } else if |extra| == 1 {
      assert s[|s| - 2..] == "/*";
      assert s[|s| - 2] == path[|path| - 1];
      assert EndsWith(path, "/") by {
        assert path[|path| - 1..] == [path[|path| - 1]];
      }
    }
  }

  // ---------------------------------------------------------------------------
  // Route handlers
  // ---------------------------------------------------------------------------

  /** An authentication provider configured process-wide. */
  datatype AuthProvider = AuthProvider(name: string)

  /** The handlers installed on a bridge controller's mount path. */
  datatype RouteHandler =
    | CookieHandler
    | BodyHandler
    | SessionHandler
    | UserSessionHandler(authProvider: AuthProvider)
    | SockJSHandler

  datatype Route = Route(path: string, handler: RouteHandler)

  /** The routes installed on `path`, in installation order. */
  function MountRoutes(path: string, authProvider: Option<AuthProvider>): (routes: seq<Route>)
    ensures forall i :: 0 <= i < |routes| ==> routes[i].path == path
    ensures |routes| > 0 && routes[|routes| - 1].handler == SockJSHandler
    ensures forall i :: 0 <= i < |routes| - 1 ==> routes[i].handler != SockJSHandler
    ensures authProvider.None? ==> |routes| == 1
    ensures authProvider.Some? ==>
      |routes| == 5
      && routes[0].handler == CookieHandler
      && routes[1].handler == BodyHandler
      && routes[2].handler == SessionHandler
      && routes[3].handler == UserSessionHandler(authProvider.value)
  {
    var auth :=
      if authProvider.Some? then
        [Route(path, CookieHandler), Route(path, BodyHandler), Route(path, SessionHandler),
         Route(path, UserSessionHandler(authProvider.value))]
      else [];
    auth + [Route(path, SockJSHandler)]
  }

  // ---------------------------------------------------------------------------
  // Handler arguments
  // ---------------------------------------------------------------------------

  /** The event bus of the runtime. */
  datatype EventBus = EventBus(id: nat)

  /** The process-wide runtime handle. */
  datatype Vertx = Vertx(id: nat, eventBus: EventBus)

  /** A declared parameter type of a handler method. */
  datatype ParameterType =
    | BridgeEventClass
    | EventBusClass
    | VertxClass
    | OtherClass(name: string)
  {
    /** One of the three context types the dispatcher knows how to supply. */
    predicate IsInjectable() {
      !OtherClass?
    }
  }

  /** A value passed to a handler method. */
  datatype Argument =
    | EventArgument(event: BridgeEvent)
    | BusArgument(bus: EventBus)
    | VertxArgument(vertx: Vertx)

  /** The context object supplied for an injectable parameter type. */
  function InstanceFor(t: ParameterType, be: BridgeEvent, vertx: Vertx): (a: Argument)
    requires t.IsInjectable()
  {
    match t
    case BridgeEventClass => EventArgument(be)
    case EventBusClass => BusArgument(vertx.eventBus)
    case VertxClass => VertxArgument(vertx)
  }

  /** What one parameter type contributes to the argument list. */
  function ContributionOf(t: ParameterType, be: BridgeEvent, vertx: Vertx): seq<Argument> {
    if t.IsInjectable() then [InstanceFor(t, be, vertx)] else []
  }

  /** The argument list built for the parameter types `types`. */
  function ParamInstances(types: seq<ParameterType>, be: BridgeEvent, vertx: Vertx): (args: seq<Argument>)
    ensures |args| <= |types|
    ensures |args| == |types| <==> forall i :: 0 <= i < |types| ==> types[i].IsInjectable()
    decreases |types|
  {
    if |types| == 0 then []
    else ContributionOf(types[0], be, vertx) + ParamInstances(types[1..], be, vertx)
  }

  /** The injectable parameter types, in declaration order. */
  function InjectableTypes(types: seq<ParameterType>): (r: seq<ParameterType>)
    ensures |r| <= |types|
    ensures forall i :: 0 <= i < |r| ==> r[i].IsInjectable()
    decreases |types|
  {
    if |types| == 0 then []
    else (if types[0].IsInjectable() then [types[0]] else []) + InjectableTypes(types[1..])
  }

  lemma {:induction false} ParamInstancesAppend(types: seq<ParameterType>, t: ParameterType, be: BridgeEvent, vertx: Vertx)
    ensures ParamInstances(types + [t], be, vertx) == ParamInstances(types, be, vertx) + ContributionOf(t, be, vertx)
    decreases |types|
  {
    if |types| == 0 {
      assert types + [t] == [t];
    } else {
      assert (types + [t])[1..] == types[1..] + [t];
      ParamInstancesAppend(types[1..], t, be, vertx);
    }
  }

  /** The argument list is the parameter types filtered to the three known ones and
      mapped to (the event, the runtime's bus, the runtime); unknown types add nothing. */
  lemma {:induction false} ParamInstancesIsFilterThenMap(types: seq<ParameterType>, be: BridgeEvent, vertx: Vertx)
    ensures var args := ParamInstances(types, be, vertx);
      var known := InjectableTypes(types);
      |args| == |known| && forall i :: 0 <= i < |args| ==> args[i] == InstanceFor(known[i], be, vertx)
    decreases |types|
  {
    if |types| > 0 {
      ParamInstancesIsFilterThenMap(types[1..], be, vertx);
    }
  }

  /** The argument-resolution loop: one pass over the declared parameter types. */
  method ResolveArguments(types: seq<ParameterType>, be: BridgeEvent, vertx: Vertx) returns (args: seq<Argument>)
    ensures args == ParamInstances(types, be, vertx)
  {
    args := [];
    var i := 0;
    while i < |types|
      invariant 0 <= i <= |types|
      invariant args == ParamInstances(types[..i], be, vertx)
    {
      var t := types[i];
      if t == BridgeEventClass {
        args := args + [EventArgument(be)];
      } else if t == EventBusClass {
        args := args + [BusArgument(vertx.eventBus)];
      } else if t == VertxClass {
        args := args + [VertxArgument(vertx)];
      }
      assert types[..i + 1] == types[..i] + [t];
      ParamInstancesAppend(types[..i], t, be, vertx);
      i := i + 1;
    }
    assert types[..i] == types;
  }

  // ---------------------------------------------------------------------------
  // Invocation
  // ---------------------------------------------------------------------------

  /** What a handler body does when called: the resolving calls it makes on the event,
      in order, and the exception it ends with, if any. */
  datatype Invocation = Invocation(actions: seq<Action>, thrown: Option<Exception>)

  /** A handler method bound to the controller instance. `accessible` says whether
      reflection may call it from the dispatcher. Its body is abstract: any function
      from the argument list to an invocation outcome. */
  datatype Method = Method(
    name: string,
    accessible: bool,
    parameterTypes: seq<ParameterType>,
    body: seq<Argument> -> Invocation)

  /** What reflective invocation throws when the method may not be called; the
      message is not modelled. */
  const IllegalAccess: Exception := Exception("java.lang.IllegalAccessException", "")

  /** What reflective invocation throws when the argument count differs from the
      parameter count. */
  const WrongNumberOfArguments: Exception := Exception("java.lang.IllegalArgumentException", "wrong number of arguments")

  /** `method.invoke(instance, args)`: the access check and the arity check of
      reflection, then the body, whose exception reaches the caller wrapped. The two
      reflective refusals are thrown unwrapped, before the body runs. */
  function Invoke(m: Method, args: seq<Argument>): (inv: Invocation)
    ensures !m.accessible ==> inv == Invocation([], Some(IllegalAccess))
    ensures m.accessible && |args| != |m.parameterTypes| ==> inv == Invocation([], Some(WrongNumberOfArguments))
    ensures m.accessible && |args| == |m.parameterTypes| ==>
      inv.actions == m.body(args).actions
      && (m.body(args).thrown.None? <==> inv.thrown.None?)
      && (inv.thrown.Some? ==> inv.thrown.value == InvocationTargetException(m.body(args).thrown.value))
  {
    if !m.accessible then Invocation([], Some(IllegalAccess))
    else if |args| != |m.parameterTypes| then Invocation([], Some(WrongNumberOfArguments))
    else
      var outcome := m.body(args);
      Invocation(outcome.actions,
        match outcome.thrown
        case Some(e) => Some(InvocationTargetException(e))
        case None => None)
  }

  /** The event after dispatch, and the argument list passed to the handler method
      when one was invoked. */
  datatype Dispatched = Dispatched(event: BridgeEvent, call: Option<seq<Argument>>)

  /** Invokes `m` for `be` and, when it throws, fails the event unless it is already
      failed or succeeded. */
  function TryToInvoke(m: Method, be: BridgeEvent, vertx: Vertx): (r: Dispatched)
    ensures r.call == Some(ParamInstances(m.parameterTypes, be, vertx))
    ensures r.event.eventType == be.eventType
    ensures be.IsResolved() ==> r.event == be
    ensures var inv := Invoke(m, ParamInstances(m.parameterTypes, be, vertx));
      var settled := ApplyActions(be, inv.actions);
      && (inv.thrown.None? ==> r.event == settled)
      && (inv.thrown.Some? && !settled.IsResolved() ==> r.event.resolution == Failed(inv.thrown.value))
      && (settled.IsResolved() ==> r.event == settled)
  {
    var paramInstances := ParamInstances(m.parameterTypes, be, vertx);
    var inv := Invoke(m, paramInstances);
    var settled := ApplyActions(be, inv.actions);
    var event :=
      match inv.thrown
      case Some(e) => if !settled.HasFailed() && !settled.HasSucceeded() then settled.Fail(e) else settled
      case None => settled;
    Dispatched(event, Some(paramInstances))
  }

  /** A handler method with a parameter type the dispatcher does not know gets a short
      argument list; reflection then refuses the call (for the arity, or earlier for
      access), and an unresolved event fails without the body running. */
  lemma UnknownParameterFailsEvent(m: Method, be: BridgeEvent, vertx: Vertx, k: nat)
    requires k < |m.parameterTypes| && !m.parameterTypes[k].IsInjectable()
    requires !be.IsResolved()
    ensures TryToInvoke(m, be, vertx).event.resolution
      == Failed(if m.accessible then WrongNumberOfArguments else IllegalAccess)
  {
    var args := ParamInstances(m.parameterTypes, be, vertx);
    assert |args| != |m.parameterTypes|;
  }

  /** An invocation that leaves the event resolved settles it exactly once: either by
      the body's first resolving call or, when the body made none and threw, by the
      failure the dispatcher records. */
  lemma TryToInvokeResolvesOnce(m: Method, be: BridgeEvent, vertx: Vertx)
    requires !be.IsResolved()
    ensures var inv := Invoke(m, ParamInstances(m.parameterTypes, be, vertx));
      var r := TryToInvoke(m, be, vertx);
      && (|inv.actions| > 0 ==> r.event == be.Apply(inv.actions[0]))
      && (|inv.actions| == 0 && inv.thrown.Some? ==> r.event.resolution == Failed(inv.thrown.value))
      && (|inv.actions| == 0 && inv.thrown.None? ==> r.event == be)
  {
  }

  // ---------------------------------------------------------------------------
  // Dispatch
  // ---------------------------------------------------------------------------

  /** The bridge callback: the handler mapped to the event's type is invoked; an event
      of an unmapped type is completed with `true` and nothing is invoked. */
  function Dispatch(handlers: map<EventType, Method>, be: BridgeEvent, vertx: Vertx): (r: Dispatched)
    ensures r.event.eventType == be.eventType
    ensures be.eventType !in handlers ==> r.call.None?
    ensures be.eventType !in handlers && !be.IsResolved() ==> r.event.resolution == Succeeded(true)
    ensures be.eventType in handlers ==> r.call == Some(ParamInstances(handlers[be.eventType].parameterTypes, be, vertx))
    ensures be.eventType in handlers ==> r == TryToInvoke(handlers[be.eventType], be, vertx)
    ensures be.IsResolved() ==> r.event == be
  {
    if be.eventType in handlers then TryToInvoke(handlers[be.eventType], be, vertx)
    else Dispatched(be.Complete(true), None)
  }

  /** For a mapped type, the looked-up handler decides the event: its body's first
      resolving call settles it; with none, the exception the body threw fails it
      (wrapped by reflection); with neither, the event stays as it was. */
  lemma DispatchFollowsMappedHandler(handlers: map<EventType, Method>, be: BridgeEvent, vertx: Vertx)
    requires be.eventType in handlers && !be.IsResolved()
    requires handlers[be.eventType].accessible
    requires forall i :: 0 <= i < |handlers[be.eventType].parameterTypes| ==>
      handlers[be.eventType].parameterTypes[i].IsInjectable()
    ensures var m := handlers[be.eventType];
      var outcome := m.body(ParamInstances(m.parameterTypes, be, vertx));
      var r := Dispatch(handlers, be, vertx);
      && (|outcome.actions| > 0 ==> r.event == be.Apply(outcome.actions[0]))
      && (|outcome.actions| == 0 && outcome.thrown.Some? ==>
            r.event.resolution == Failed(InvocationTargetException(outcome.thrown.value)))
      && (|outcome.actions| == 0 && outcome.thrown.None? ==> r.event == be)
  {
  }

  /** The dispatcher does not itself guarantee resolution: a mapped handler that returns
      normally without resolving the event leaves it unresolved. */
  lemma DispatchMayLeaveEventUnresolved()
    ensures var m := Method("onMessage", true, [BridgeEventClass], args => Invocation([], None));
      var be := BridgeEvent(Send, Unresolved);
      Dispatch(map[Send := m], be, Vertx(0, EventBus(0))).event.resolution == Unresolved
  {
    var m := Method("onMessage", true, [BridgeEventClass], args => Invocation([], None));
    var be := BridgeEvent(Send, Unresolved);
    var vertx := Vertx(0, EventBus(0));
    assert ParamInstances([BridgeEventClass], be, vertx) == [EventArgument(be)];
  }

  /** A handler taking only the bridge event and accepting it is invoked with the event,
      and the event succeeds. */
  lemma DispatchToAcceptingHandler(be: BridgeEvent, vertx: Vertx)
    requires !be.IsResolved()
    ensures var m := Method("onMessage", true, [BridgeEventClass], args => Invocation([CompleteWith(true)], None));
      var r := Dispatch(map[be.eventType := m], be, vertx);
      r.call == Some([EventArgument(be)]) && r.event.resolution == Succeeded(true)
  {
    assert ParamInstances([BridgeEventClass], be, vertx) == [EventArgument(be)];
  }

  // ---------------------------------------------------------------------------
  // Registration of one controller
  // ---------------------------------------------------------------------------

  /** What the registration of one bridge controller reads from its annotations. */
  datatype Controller = Controller(
    name: string,
    path: string,
    inbounds: seq<InboundPermitted>,
    outbounds: seq<OutboundPermitted>)

  /** The wiring produced for one controller: its bridge options, its routes in
      installation order, and the handler table its bridge callback dispatches on. */
  datatype Registration = Registration(
    options: BridgeOptions,
    routes: seq<Route>,
    handlers: map<EventType, Method>,
    vertx: Vertx)
  {
    /** The bridge callback installed for this controller. */
    function Handle(be: BridgeEvent): Dispatched {
      Dispatch(handlers, be, vertx)
    }
  }

  /** The startup failure raised when a controller cannot be set up. */
  datatype RegistrationError = RuntimeException(message: string, cause: Exception)

  const InstantiationMessage: string := "Could not instanciate socket controller : "

  /** Sets up one bridge controller. `instantiation` is the exception thrown while
      constructing the controller or injecting its services, if any; `handlers` is the
      table of handler methods read from the controller type. */
  function CreateSocketHandlers(
    controller: Controller,
    instantiation: Option<Exception>,
    handlers: map<EventType, Method>,
    vertx: Vertx,
    authProvider: Option<AuthProvider>): (r: Result<Registration, RegistrationError>)
    ensures r.Failure? <==> instantiation.Some?
    ensures r.Failure? ==>
      r.error == RuntimeException(InstantiationMessage + controller.name, instantiation.value)
    ensures r.Success? ==>
      && r.value.options == CreateBridgeOptions(controller.inbounds, controller.outbounds)
      && r.value.routes == MountRoutes(NormalisePath(controller.path), authProvider)
      && r.value.handlers == handlers
      && r.value.vertx == vertx
  {
    var bridge := CreateBridgeOptions(controller.inbounds, controller.outbounds);
    match instantiation
    case Some(e) => Failure(RuntimeException(InstantiationMessage + controller.name, e))
    case None =>
      var path := NormalisePath(controller.path);
      Success(Registration(bridge, MountRoutes(path, authProvider), handlers, vertx))
  }

  /** Every route of a registered controller sits on a path ending in the wildcard suffix, and the
      bridge handler is installed last. */
  lemma RegisteredRoutesAreWildcards(
    controller: Controller,
    handlers: map<EventType, Method>,
    vertx: Vertx,
    authProvider: Option<AuthProvider>)
    ensures var r := CreateSocketHandlers(controller, None, handlers, vertx, authProvider);
      r.Success?
      && (forall i :: 0 <= i < |r.value.routes| ==> EndsWith(r.value.routes[i].path, "/*"))
      && r.value.routes[|r.value.routes| - 1].handler == SockJSHandler
  {
  }

  /** The bridge callback a registered controller installs dispatches on the
      controller's handler table with the configured runtime: an unmapped event is
      accepted without any call, a mapped one goes to its handler. */
  lemma RegisteredCallbackDispatches(
    controller: Controller,
    handlers: map<EventType, Method>,
    vertx: Vertx,
    authProvider: Option<AuthProvider>,
    be: BridgeEvent)
    requires !be.IsResolved()
    ensures var r := CreateSocketHandlers(controller, None, handlers, vertx, authProvider);
      && r.Success?
      && (be.eventType !in handlers ==>
            r.value.Handle(be).call.None? && r.value.Handle(be).event.resolution == Succeeded(true))
      && (be.eventType in handlers ==> r.value.Handle(be) == TryToInvoke(handlers[be.eventType], be, vertx))
  {
  }
}
