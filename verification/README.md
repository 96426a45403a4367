# Event-bus bridge wiring and content negotiation, modelled in Dafny

This project models two decision procedures of the Nubes request/bridge layer.
It then proves properties of the model.

- **Event-bus bridge wiring** (`EventBusBridgeFactory`, file `eventbus_bridge_factory.dfy`).
  - Builds the bridge's inbound/outbound permission records from `@InboundPermitted` / `@OutboundPermitted` declarations.
  - Normalises the controller's mount path so that it ends in the wildcard suffix.
  - Decides the order in which route handlers are installed.
  - Dispatches every bridge event to the handler method mapped to its type.
  - Resolves the method's arguments by parameter type and invokes it.
  - Fails the event on an exception, but only if the event is not already resolved.
- **Bridge event** (`BridgeEvents`, file `bridge_events.dfy`). This is the event as the dispatcher sees it. Its resolution is a three-state machine: `Unresolved`, `Succeeded(verdict)` or `Failed(cause)`. `complete` and `fail` never overwrite a terminal state.
- **Content negotiation** (`ContentTypeProcessor`, file `content_type_processor.dfy`). It models the pre-handler phase:
  - the Accept value is normalised;
  - the first acceptable type that the method can produce is selected;
  - without one, the request fails with 406.

  It also models the post-handler phase, which copies the selection into the Content-Type header, and the get/set pair for the selection stored in the request context.
- `Wrappers` (file `wrappers.dfy`) holds `Option` (for Java's nullable references) and `Result` (for thrown exceptions).

Everything is an immutable datatype plus pure functions. The one exception is the loop-based methods that mirror the source's loops; each is proved equal to its functional definition.

Parts of the source that cannot be seen are parameters of the model:
- The reflective handler method is a `Method` whose body is an arbitrary function. It maps the argument list to the resolving calls the body makes on the event, plus the exception it ends with, if any.
- `Utils.getSortedAcceptableMimeTypes` is an arbitrary function from string to list of strings (`MimeTypeSorter`).
- The controller's handler table from `BridgeEventFactory.createFromController` is an input map.
- The outcome of instantiation and service injection is an input: no exception, or the exception thrown.

Java's `Method.invoke` is modelled with three of its documented outcomes:
- If the method may not be called by reflection (the method's abstract `accessible` flag is false), it throws `IllegalAccessException` without running the body.
- If the argument count differs from the parameter count, it throws `IllegalArgumentException` without running the body.
- If the invoked method throws, the exception arrives wrapped in `InvocationTargetException`.

`tryToInvoke` catches all three, since each is a `java.lang.Exception`.

Three behaviours of the code differ from what one might expect of this layer; the model follows the code:
- **Unknown parameter types.** They are not simply ignored. In the code, an unknown type shortens the argument array, so reflection refuses the call and an unresolved event fails (`UnknownParameterFailsEvent`).
- **Events left unresolved.** The dispatcher does not ensure that every event is resolved after dispatch: a handler that returns normally without resolving the event leaves it `Unresolved` (`DispatchMayLeaveEventUnresolved`).
- **Accept header.** A request with `Accept: text/plain` to a method producing only `application/json` is not refused with 406. The header is replaced by `application/json` before selection, so that request is answered as `application/json` (`TextPlainIsServedAsJson`). This normalisation is modelled as written, not corrected.

## Model

| member | source | states |
|---|---|---|
| `EventBusBridgeFactory.CreatePermittedOptions` | src/main/java/com/github/aesteve/vertx/nubes/reflections/EventBusBridgeFactory.java:130-142 | each of address, address pattern and required authority is set iff its source string is non-empty, and then holds that string; no field ever holds the empty string |
| `EventBusBridgeFactory.PermittedOptionsRoundTrip` | src/main/java/com/github/aesteve/vertx/nubes/reflections/EventBusBridgeFactory.java:130-142 | reading the three attributes back from a built record (an unset field reads as "") recovers the declaration exactly |
| `EventBusBridgeFactory.PermittedOptionsOnto` | src/main/java/com/github/aesteve/vertx/nubes/reflections/EventBusBridgeFactory.java:130-142 | every record with no empty-string value is the record built from the attributes read back from it |
| `EventBusBridgeFactory.AllowAllIffAllDefaults` | src/main/java/com/github/aesteve/vertx/nubes/reflections/EventBusBridgeFactory.java:130-142 | a declaration yields an allow-all record iff all three attributes are empty; the all-default declaration yields exactly the no-argument record |
| `EventBusBridgeFactory.CreateInboundPermitted` | src/main/java/com/github/aesteve/vertx/nubes/reflections/EventBusBridgeFactory.java:123-128 | the record built from an inbound declaration carries its three attributes (unset when empty) and no empty-string value |
| `EventBusBridgeFactory.CreateOutboundPermitted` | src/main/java/com/github/aesteve/vertx/nubes/reflections/EventBusBridgeFactory.java:116-121 | the record built from an outbound declaration carries its three attributes (unset when empty) and no empty-string value |
| `EventBusBridgeFactory.CreateBridgeOptions` | src/main/java/com/github/aesteve/vertx/nubes/reflections/EventBusBridgeFactory.java:90-114 | no inbound declaration gives exactly one allow-all inbound record, independently of outbound and vice versa; otherwise the list has one record per declaration, in declaration order, record i built from declaration i |
| `EventBusBridgeFactory.BuildBridgeOptions` | src/main/java/com/github/aesteve/vertx/nubes/reflections/EventBusBridgeFactory.java:92-112 | the two declaration loops with their allow-all fallbacks build exactly the bridge options defined above |
| `EventBusBridgeFactory.BridgeOptionsWellFormed` | src/main/java/com/github/aesteve/vertx/nubes/reflections/EventBusBridgeFactory.java:90-114 | neither permission list is ever empty, and no record in either holds an empty-string value |
| `EventBusBridgeFactory.InboundAllowAllIff` | src/main/java/com/github/aesteve/vertx/nubes/reflections/EventBusBridgeFactory.java:92-102 | the inbound list contains an allow-all record iff there is no inbound declaration or one declaration leaves every attribute empty |
| `EventBusBridgeFactory.NormalisePath` | src/main/java/com/github/aesteve/vertx/nubes/reflections/EventBusBridgeFactory.java:73-79 | the mount path always ends in the wildcard suffix; a path already ending in it is unchanged, one ending in a slash gains a star, anything else gains slash-star |
| `EventBusBridgeFactory.NormalisePathIdempotent` | src/main/java/com/github/aesteve/vertx/nubes/reflections/EventBusBridgeFactory.java:73-79 | normalising a normalised path returns it unchanged |
| `EventBusBridgeFactory.NormalisePathIsShortestWildcardExtension` | src/main/java/com/github/aesteve/vertx/nubes/reflections/EventBusBridgeFactory.java:73-79 | the normalised path keeps the declared path as a prefix and is no longer than any other extension of it that ends in the wildcard suffix |
| `EventBusBridgeFactory.MountRoutes` | src/main/java/com/github/aesteve/vertx/nubes/reflections/EventBusBridgeFactory.java:81-87 | every route sits on the given path; the SockJS bridge handler is installed exactly once and last; the cookie, body, session and user-session handlers precede it, in that order, iff an authentication provider is configured |
| `EventBusBridgeFactory.ParamInstances` | src/main/java/com/github/aesteve/vertx/nubes/reflections/EventBusBridgeFactory.java:145-154 | the argument list is never longer than the parameter list, and it is exactly as long iff every parameter type is one of the three known ones |
| `EventBusBridgeFactory.ParamInstancesIsFilterThenMap` | src/main/java/com/github/aesteve/vertx/nubes/reflections/EventBusBridgeFactory.java:145-154 | the arguments are the parameter types filtered to bridge event, event bus and runtime, in declaration order, mapped to the event, the runtime's bus and the runtime; unknown types contribute nothing |
| `EventBusBridgeFactory.ResolveArguments` | src/main/java/com/github/aesteve/vertx/nubes/reflections/EventBusBridgeFactory.java:145-154 | the loop over the parameter types builds exactly that argument list |
| `EventBusBridgeFactory.Invoke` | src/main/java/com/github/aesteve/vertx/nubes/reflections/EventBusBridgeFactory.java:156 | reflective invocation of an inaccessible method throws the access exception, and one with the wrong number of arguments throws the argument exception, both unwrapped and without running the body; otherwise the body runs and its exception, if any, arrives wrapped |
| `EventBusBridgeFactory.TryToInvoke` | src/main/java/com/github/aesteve/vertx/nubes/reflections/EventBusBridgeFactory.java:144-163 | the method is called with the resolved arguments; an already-resolved event is returned unchanged; when the call throws and the event is neither failed nor succeeded, it becomes failed with that exception; an event the body resolved keeps that resolution |
| `EventBusBridgeFactory.UnknownParameterFailsEvent` | src/main/java/com/github/aesteve/vertx/nubes/reflections/EventBusBridgeFactory.java:144-162 | a method with a parameter type outside the three known ones gets a short argument list, so an unresolved event fails with the wrong-argument-count exception (or the access exception, for an inaccessible method) |
| `EventBusBridgeFactory.TryToInvokeResolvesOnce` | src/main/java/com/github/aesteve/vertx/nubes/reflections/EventBusBridgeFactory.java:155-162 | starting unresolved, the event ends settled by the body's first resolving call if it made one, else failed with the thrown exception, else unchanged |
| `EventBusBridgeFactory.Dispatch` | src/main/java/com/github/aesteve/vertx/nubes/reflections/EventBusBridgeFactory.java:65-72 | an event whose type has no handler is completed with true and no method is invoked; an event of a mapped type has exactly the outcome of invoking the handler looked up for that type, with the resolved arguments; a resolved event is never changed |
| `EventBusBridgeFactory.DispatchFollowsMappedHandler` | src/main/java/com/github/aesteve/vertx/nubes/reflections/EventBusBridgeFactory.java:65-68 | for a mapped type with an accessible handler taking only known types, the handler's body decides the event: its first resolving call settles it, else its exception fails it (wrapped), else the event is unchanged |
| `EventBusBridgeFactory.DispatchMayLeaveEventUnresolved` | src/main/java/com/github/aesteve/vertx/nubes/reflections/EventBusBridgeFactory.java:65-72 | a mapped handler that returns without resolving the event leaves it unresolved after dispatch |
| `EventBusBridgeFactory.DispatchToAcceptingHandler` | src/main/java/com/github/aesteve/vertx/nubes/reflections/EventBusBridgeFactory.java:65-72 | a handler taking only the bridge event that accepts it is invoked with that event, and the event succeeds with true |
| `EventBusBridgeFactory.CreateSocketHandlers` | src/main/java/com/github/aesteve/vertx/nubes/reflections/EventBusBridgeFactory.java:51-88 | registration fails iff instantiation or injection threw, with the message naming the controller and the exception as cause; otherwise it installs the routes for the normalised path with the controller's bridge options, handler table and the configured runtime |
| `EventBusBridgeFactory.RegisteredCallbackDispatches` | src/main/java/com/github/aesteve/vertx/nubes/reflections/EventBusBridgeFactory.java:63-72 | the bridge callback of a registered controller accepts an unresolved event of an unmapped type without any call, and hands one of a mapped type to the looked-up handler with the configured runtime |
| `EventBusBridgeFactory.RegisteredRoutesAreWildcards` | src/main/java/com/github/aesteve/vertx/nubes/reflections/EventBusBridgeFactory.java:73-87 | every route of a registered controller sits on a path ending in the wildcard suffix, and the bridge handler comes last |
| `BridgeEvents.ApplyActions` | src/main/java/com/github/aesteve/vertx/nubes/reflections/EventBusBridgeFactory.java:159-161 | a resolved event is unchanged by any sequence of complete/fail calls; an unresolved one is settled by the first call and by no later one |
| `BridgeEvents.ResolutionIsMonotone` | src/main/java/com/github/aesteve/vertx/nubes/reflections/EventBusBridgeFactory.java:159-161 | the event ends resolved iff it started resolved or a resolving call was made; an event that ends unresolved is unchanged |
| `ContentTypeProcessor.NormaliseAccept` | src/main/java/com/github/aesteve/vertx/nubes/handlers/impl/ContentTypeProcessor.java:28-32 | whatever the incoming header, a missing one included, the value used is `application/json` |
| `ContentTypeProcessor.FirstProducible` | src/main/java/com/github/aesteve/vertx/nubes/handlers/impl/ContentTypeProcessor.java:34-35 | a selection is both acceptable and producible; there is none iff no acceptable type is producible |
| `ContentTypeProcessor.FirstProducibleIff` | src/main/java/com/github/aesteve/vertx/nubes/handlers/impl/ContentTypeProcessor.java:35 | the selection is t iff t is the acceptable type at the first position holding a producible type |
| `ContentTypeProcessor.GetContentType` | src/main/java/com/github/aesteve/vertx/nubes/handlers/impl/ContentTypeProcessor.java:50-52 | the stored selection is present iff the context holds the best-content-type key, and is then the value stored under it |
| `ContentTypeProcessor.SetContentType` | src/main/java/com/github/aesteve/vertx/nubes/handlers/impl/ContentTypeProcessor.java:50-56 | reading the selection back after storing c gives c; every other context key, the request, the response, the status and the continuation count are untouched |
| `ContentTypeProcessor.PreHandle` | src/main/java/com/github/aesteve/vertx/nubes/handlers/impl/ContentTypeProcessor.java:27-42 | with a selection, it is stored under the best-content-type key, the chain continues exactly once and no status is set; without one, the context fails with 406, does not continue, and its store is untouched |
| `ContentTypeProcessor.PostHandle` | src/main/java/com/github/aesteve/vertx/nubes/handlers/impl/ContentTypeProcessor.java:45-48 | the response's Content-Type becomes the stored selection and the chain continues once; the response gains exactly that header, other headers keep their values, and the request, store and status are untouched; with nothing stored it is an error |
| `ContentTypeProcessor.AcceptHeaderIrrelevant` | src/main/java/com/github/aesteve/vertx/nubes/handlers/impl/ContentTypeProcessor.java:28-35 | two requests that differ only in their headers get the same store, status, continuation count and response from the pre-handler phase |
| `ContentTypeProcessor.NegotiatedTypeReachesResponse` | src/main/java/com/github/aesteve/vertx/nubes/handlers/impl/ContentTypeProcessor.java:36-47 | a successful pre-handler phase followed by the post-handler phase answers with Content-Type equal to the selection, having continued twice and set no status |
| `ContentTypeProcessor.TextPlainIsServedAsJson` | src/main/java/com/github/aesteve/vertx/nubes/handlers/impl/ContentTypeProcessor.java:28-38 | `Accept: text/plain` to a method producing only `application/json` is answered as `application/json`, not refused |
| `ContentTypeProcessor.UnproducibleIsNotAcceptable` | src/main/java/com/github/aesteve/vertx/nubes/handlers/impl/ContentTypeProcessor.java:39-41 | when no acceptable type is producible, every request fails with 406, does not continue, and has nothing stored as the selection |

## Left out

- Package scanning with `Reflections`, reading annotations, `newInstance` and service injection (EventBusBridgeFactory.java:41-62). These are reflection and dependency-injection plumbing. Their outcome is the input `instantiation`, and `createHandlers` is not modelled.
- `SockJSHandler` creation and the concrete cookie, body, session and user-session handlers. Only their installation order on the router is modelled (`MountRoutes`). Bridge matching of permission records against addresses is inside the SockJS library and is not modelled.
- `BridgeEventFactory.createFromController` is not part of this model: the handler table is an input, and nothing is claimed about duplicate bindings.
- `Utils.getSortedAcceptableMimeTypes` is not part of this model: its Accept parsing and quality-value ordering are an arbitrary function.
- EventBusBridgeFactory.Invoke: whether a method is accessible to reflection is an abstract flag, not derived from its modifiers. An argument-type mismatch cannot arise, because equal counts mean every parameter got an instance of its own type. Errors that are not exceptions, such as a class initialisation failure, escape the `catch (Exception e)` and are not modelled.
- Logging in `tryToInvoke`, and the identity of the controller instance that a handler method is bound to. The instance is folded into the method's abstract body.
- `BridgeEvents.ApplyActions`: a second `complete` or `fail` on a resolved event is modelled as having no effect. The event's future in the bus library throws `IllegalStateException` in that case, and that library is not part of this model.
- `ContentTypeProcessor.PostHandle`: with nothing stored, the source passes a null header value to the HTTP layer, whose reaction cannot be seen. It is modelled only as an error result.
- Header names are compared case-insensitively by the HTTP layer. The model looks headers up by their canonical spelling.
- The general pre/post processor chain (forward pre-phases, reverse post-phases) lives outside the processor, and `afterAll` is a no-op inherited from `NoopAfterAllProcessor`.
- Concurrency: each event and each request is processed by one call and shares no mutable state. The model therefore has no concurrency.
