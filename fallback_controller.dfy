/**
 * The global fallback: when a routed call fails, answer 503 with a body
 * naming the route that failed. The clock reading is a parameter.
 */
module FallbackController {
  import opened Wrappers
  import opened Strings

  const ServiceUnavailable := 503
  const UnknownService := "Unknown Service"
  const MessageHead := "The "
  const MessageTail := " is currently unavailable. Please try again later."

  /** The matched route the gateway attaches to the exchange; only its id is read. */
  datatype Route = Route(id: string)

  /** The values the JSON body holds: the epoch-millisecond timestamp (a Java long) and strings. */
  datatype Value = Millis(ms: int) | Text(text: string)

  datatype Response = Response(status: int, body: map<string, Value>)

  /** The message naming the failed service. */
  function UnavailableMessage(service: string): (message: string)
    ensures StartsWith(message, MessageHead) && |message| == |MessageHead| + |service| + |MessageTail|
    ensures message[|MessageHead|..|MessageHead| + |service|] == service
    ensures message[|MessageHead| + |service|..] == MessageTail
  {
    MessageHead + service + MessageTail
  }

  /**
   * `globalFallback`: a fresh map filled with `timestamp` and `status`,
   * then `failedService` (the route id, or "Unknown Service" when no
   * route was matched) and the message built from it.
   */
  function GlobalFallback(route: Option<Route>, nowMillis: int): (response: Response)
    ensures response.status == ServiceUnavailable
    ensures response.body.Keys == {"timestamp", "status", "failedService", "message"}
    ensures response.body["timestamp"] == Millis(nowMillis)
    ensures response.body["status"] == Text("SERVICE_UNAVAILABLE")
    ensures route.Some? ==> response.body["failedService"] == Text(route.value.id)
    ensures route.None? ==> response.body["failedService"] == Text(UnknownService)
    ensures response.body["message"] ==
      Text("The " + response.body["failedService"].text + " is currently unavailable. Please try again later.")
  {
    var body: map<string, Value> := map[];
    var body := body["timestamp" := Millis(nowMillis)];
    var body := body["status" := Text("SERVICE_UNAVAILABLE")];
    var serviceName := if route.Some? then route.value.id else UnknownService;
    var body := body["failedService" := Text(serviceName)];
    var body := body["message" := Text(UnavailableMessage(serviceName))];
    Response(ServiceUnavailable, body)
  }

  /** The message template is injective: a message names one service only. */
  lemma MessageNamesOneService(a: string, b: string)
    requires UnavailableMessage(a) == UnavailableMessage(b)
    ensures a == b
  {
    var m := UnavailableMessage(a);
    assert |a| == |b|;
    assert a == m[|MessageHead|..|MessageHead| + |a|];
    assert b == UnavailableMessage(b)[|MessageHead|..|MessageHead| + |b|];
  }

  /**
   * Failure is attributed to the right service: two fallback responses carry
   * the same message exactly when they name the same failed service.
   */
  lemma FallbackAttributesFailure(r1: Option<Route>, t1: int, r2: Option<Route>, t2: int)
    ensures GlobalFallback(r1, t1).body["message"] == GlobalFallback(r2, t2).body["message"] <==>
      GlobalFallback(r1, t1).body["failedService"] == GlobalFallback(r2, t2).body["failedService"]
  {
    var s1 := GlobalFallback(r1, t1).body["failedService"].text;
    var s2 := GlobalFallback(r2, t2).body["failedService"].text;
    if UnavailableMessage(s1) == UnavailableMessage(s2) {
      MessageNamesOneService(s1, s2);
    }
  }

  /** Two routes with different ids never produce the same fallback message. */
  lemma DistinctRoutesDistinctMessages(id1: string, id2: string, t1: int, t2: int)
    requires id1 != id2
    ensures GlobalFallback(Some(Route(id1)), t1).body["message"] != GlobalFallback(Some(Route(id2)), t2).body["message"]
  {
    FallbackAttributesFailure(Some(Route(id1)), t1, Some(Route(id2)), t2);
  }

  /** The clock reading affects the timestamp and nothing else. */
  lemma OnlyTimestampDependsOnClock(route: Option<Route>, t1: int, t2: int)
    ensures GlobalFallback(route, t1).status == GlobalFallback(route, t2).status
    ensures forall key :: key in GlobalFallback(route, t1).body && key != "timestamp" ==>
      GlobalFallback(route, t1).body[key] == GlobalFallback(route, t2).body[key]
  {
  }

  /** The two worked cases: a named route and no route at all. */
  lemma FallbackExamples(nowMillis: int)
    ensures GlobalFallback(Some(Route("wallet-service")), nowMillis) ==
      Response(503, map["timestamp" := Millis(nowMillis), "status" := Text("SERVICE_UNAVAILABLE"),
                        "failedService" := Text("wallet-service"),
                        "message" := Text(UnavailableMessage("wallet-service"))])
    ensures GlobalFallback(None, nowMillis) ==
      Response(503, map["timestamp" := Millis(nowMillis), "status" := Text("SERVICE_UNAVAILABLE"),
                        "failedService" := Text("Unknown Service"),
                        "message" := Text(UnavailableMessage("Unknown Service"))])
  {
  }
}
