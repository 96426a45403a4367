/** Content negotiation for one controller method carrying a `@ContentType`
    annotation. Before the handler runs, the processor picks the first acceptable
    media type the method declares it can produce and stores it in the request
    context, or fails the request with 406 Not Acceptable (HTTP proactive
    negotiation, sections 5.3.2 and 6.5.6 of RFC 7231). After the handler, it
    copies the stored type into the response's Content-Type header.

    The Accept header is first normalised: anything other than exactly
    `application/json`, a missing header included, is replaced by
    `application/json`, so the header the client sent never affects the outcome. */
module ContentTypeProcessor {
  import opened Wrappers

  /** The request-context key under which the selected media type is stored. */
  const BEST_CONTENT_TYPE: string := "nubes-best-content-type"

  const DEFAULT_CONTENT_TYPE: string := "application/json"

  /** Header names, in their canonical spelling. */
  const ACCEPT: string := "Accept"
  const CONTENT_TYPE: string := "Content-Type"

  /** The status a request fails with when no acceptable type is producible. */
  const NOT_ACCEPTABLE: int := 406

  /** The `@ContentType` annotation: the media types the method can produce. */
  datatype ContentType = ContentType(value: seq<string>)

  datatype HttpServerRequest = HttpServerRequest(headers: map<string, string>)

  datatype HttpServerResponse = HttpServerResponse(headers: map<string, string>)

  /** The request-scoped state the processor reads and changes: the request, the
      response headers, the context's key/value store, the failure status if the
      context was failed, and how many times the chain was continued. */
  datatype RoutingContext = RoutingContext(
    request: HttpServerRequest,
    response: HttpServerResponse,
    data: map<string, string>,
    failure: Option<int>,
    nextCalls: nat)
  {
    /** `request().getHeader(name)`: absent when the header was not sent. */
    function GetHeader(name: string): Option<string> {
      if name in request.headers then Some(request.headers[name]) else None
    }

    /** `context.next()` */
    function Next(): (r: RoutingContext)
      ensures r.nextCalls == nextCalls + 1
    {
      this.(nextCalls := nextCalls + 1)
    }
  }

  /** `Utils.getSortedAcceptableMimeTypes`: turns an Accept value into the list of
      acceptable media types, most preferred first. Its parsing is not modelled; it
      is any function of this shape. */
  type MimeTypeSorter = string -> seq<string>

  /** The Accept value after normalisation: always the default media type. */
  function NormaliseAccept(accept: Option<string>): (r: string)
    ensures r == DEFAULT_CONTENT_TYPE
  {
    if accept.None? || DEFAULT_CONTENT_TYPE != accept.value then DEFAULT_CONTENT_TYPE
    else accept.value
  }

  /** Position `i` holds the first entry of `acceptable` that is producible. */
  predicate IsFirstProducibleAt(acceptable: seq<string>, producible: seq<string>, i: int) {
    && 0 <= i < |acceptable|
    && acceptable[i] in producible
    && forall j :: 0 <= j < i ==> acceptable[j] !in producible
  }

  /** The first acceptable type that is producible, if any. */
  function FirstProducible(acceptable: seq<string>, producible: seq<string>): (r: Option<string>)
    ensures r.Some? ==> r.value in acceptable && r.value in producible
    ensures r.None? <==> forall i :: 0 <= i < |acceptable| ==> acceptable[i] !in producible
    decreases |acceptable|
  {
    if |acceptable| == 0 then None
    else if acceptable[0] in producible then Some(acceptable[0])
    else FirstProducible(acceptable[1..], producible)
  }

  /** The selection is the producible entry at the first position where one occurs,
      and only that entry. */
  lemma {:induction false} FirstProducibleIff(acceptable: seq<string>, producible: seq<string>, t: string)
    ensures FirstProducible(acceptable, producible) == Some(t)
      <==> exists i :: IsFirstProducibleAt(acceptable, producible, i) && acceptable[i] == t
    decreases |acceptable|
  {
    if |acceptable| == 0 {
    } else if acceptable[0] in producible {
      if FirstProducible(acceptable, producible) == Some(t) {
        assert IsFirstProducibleAt(acceptable, producible, 0);
      }
    } else {
      var tail := acceptable[1..];
      FirstProducibleIff(tail, producible, t);
      if FirstProducible(acceptable, producible) == Some(t) {
        var i :| IsFirstProducibleAt(tail, producible, i) && tail[i] == t;
        assert IsFirstProducibleAt(acceptable, producible, i + 1);
      }
      if exists i :: IsFirstProducibleAt(acceptable, producible, i) && acceptable[i] == t {
        var i :| IsFirstProducibleAt(acceptable, producible, i) && acceptable[i] == t;
        assert IsFirstProducibleAt(tail, producible, i - 1);
      }
    }
  }

  /** The media type negotiated for a request. */
  function SelectContentType(annotation: ContentType, context: RoutingContext, sorter: MimeTypeSorter): Option<string> {
    var accept := NormaliseAccept(context.GetHeader(ACCEPT));
    FirstProducible(sorter(accept), annotation.value)
  }

  /** `ContentTypeProcessor.getContentType(context)` */
  function GetContentType(context: RoutingContext): (r: Option<string>)
    ensures r.Some? <==> BEST_CONTENT_TYPE in context.data
    ensures r.Some? ==> r.value == context.data[BEST_CONTENT_TYPE]
  {
    if BEST_CONTENT_TYPE in context.data then Some(context.data[BEST_CONTENT_TYPE]) else None
  }

  /** `ContentTypeProcessor.setContentType(context, contentType)` */
  function SetContentType(context: RoutingContext, contentType: string): (r: RoutingContext)
    ensures GetContentType(r) == Some(contentType)
    ensures forall k :: k != BEST_CONTENT_TYPE ==> (k in r.data <==> k in context.data)
    ensures forall k :: k != BEST_CONTENT_TYPE && k in context.data ==> r.data[k] == context.data[k]
    ensures r.request == context.request && r.response == context.response
    ensures r.failure == context.failure && r.nextCalls == context.nextCalls
  {
    context.(data := context.data[BEST_CONTENT_TYPE := contentType])
  }

  /** The pre-handler phase: select the media type, store it and continue, or fail the
      request with 406. Either way the outcome is the one for the default Accept value. */
  function PreHandle(annotation: ContentType, context: RoutingContext, sorter: MimeTypeSorter): (r: RoutingContext)
    ensures r.request == context.request && r.response == context.response
    ensures var best := FirstProducible(sorter(DEFAULT_CONTENT_TYPE), annotation.value);
      match best
      case Some(t) =>
        && t in sorter(DEFAULT_CONTENT_TYPE) && t in annotation.value
        && GetContentType(r) == Some(t)
        && r.nextCalls == context.nextCalls + 1
        && r.failure == context.failure
        && (forall k :: k != BEST_CONTENT_TYPE ==> (k in r.data <==> k in context.data))
        && (forall k :: k != BEST_CONTENT_TYPE && k in context.data ==> r.data[k] == context.data[k])
      case None =>
        && r.failure == Some(NOT_ACCEPTABLE)
        && r.nextCalls == context.nextCalls
        && r.data == context.data
  {
    var bestType := SelectContentType(annotation, context, sorter);
    if bestType.Some? then
      SetContentType(context, bestType.value).Next()
    else
      context.(failure := Some(NOT_ACCEPTABLE))
  }

  /** Why the post-handler phase could not write the header: nothing was stored. */
  datatype PostHandleError = NullContentType

  /** The post-handler phase: copy the stored selection into the response's
      Content-Type header and continue. */
  function PostHandle(context: RoutingContext): (r: Result<RoutingContext, PostHandleError>)
    ensures GetContentType(context).None? <==> r.Failure?
    ensures r.Success? ==>
      && CONTENT_TYPE in r.value.response.headers
      && Some(r.value.response.headers[CONTENT_TYPE]) == GetContentType(context)
      && r.value.nextCalls == context.nextCalls + 1
      && r.value.data == context.data && r.value.failure == context.failure
      && r.value.request == context.request
      && r.value.response.headers.Keys == context.response.headers.Keys + {CONTENT_TYPE}
      && (forall h :: h != CONTENT_TYPE && h in context.response.headers ==>
            h in r.value.response.headers && r.value.response.headers[h] == context.response.headers[h])
  {
    match GetContentType(context)
    case None => Failure(NullContentType)
    case Some(contentType) =>
      var response := HttpServerResponse(context.response.headers[CONTENT_TYPE := contentType]);
      Success(context.(response := response).Next())
  }

  /** The Accept header a request carries has no effect on the pre-handler phase. */
  lemma AcceptHeaderIrrelevant(
    annotation: ContentType, context: RoutingContext, sorter: MimeTypeSorter,
    headers1: map<string, string>, headers2: map<string, string>)
    ensures var r1 := PreHandle(annotation, context.(request := HttpServerRequest(headers1)), sorter);
      var r2 := PreHandle(annotation, context.(request := HttpServerRequest(headers2)), sorter);
      r1.data == r2.data && r1.failure == r2.failure && r1.nextCalls == r2.nextCalls && r1.response == r2.response
  {
  }

  /** A successful negotiation followed by the post-handler phase answers with the
      selected type in the Content-Type header, having continued the chain twice. */
  lemma NegotiatedTypeReachesResponse(annotation: ContentType, context: RoutingContext, sorter: MimeTypeSorter, t: string)
    requires FirstProducible(sorter(DEFAULT_CONTENT_TYPE), annotation.value) == Some(t)
    ensures var r := PostHandle(PreHandle(annotation, context, sorter));
      && r.Success?
      && r.value.response.headers[CONTENT_TYPE] == t
      && r.value.nextCalls == context.nextCalls + 2
      && r.value.failure == context.failure
  {
  }

  /** With a sorter that lists `application/json` for itself, a request sent with
      `Accept: text/plain` to a method producing only `application/json` is answered
      as `application/json` rather than refused with 406. */
  lemma TextPlainIsServedAsJson(sorter: MimeTypeSorter)
    requires sorter(DEFAULT_CONTENT_TYPE) == [DEFAULT_CONTENT_TYPE]
    ensures var context := RoutingContext(
        HttpServerRequest(map[ACCEPT := "text/plain"]), HttpServerResponse(map[]), map[], None, 0);
      var r := PostHandle(PreHandle(ContentType([DEFAULT_CONTENT_TYPE]), context, sorter));
      r.Success? && r.value.response.headers[CONTENT_TYPE] == DEFAULT_CONTENT_TYPE && r.value.failure.None?
  {
    assert FirstProducible([DEFAULT_CONTENT_TYPE], [DEFAULT_CONTENT_TYPE]) == Some(DEFAULT_CONTENT_TYPE);
  }

  /** A method that cannot produce any of the default Accept value's types refuses every
      request with 406, stores nothing and does not continue the chain. */
  lemma UnproducibleIsNotAcceptable(annotation: ContentType, context: RoutingContext, sorter: MimeTypeSorter)
    requires forall i :: 0 <= i < |sorter(DEFAULT_CONTENT_TYPE)| ==> sorter(DEFAULT_CONTENT_TYPE)[i] !in annotation.value
    requires GetContentType(context).None?
    ensures var r := PreHandle(annotation, context, sorter);
      r.failure == Some(NOT_ACCEPTABLE) && r.nextCalls == context.nextCalls && GetContentType(r).None?
  {
  }
}
