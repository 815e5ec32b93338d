/**
 * The parameter rule of `GET /devices/:id/history`: the result cap defaults
 * to 500 and is clamped above at 2000, and an optional window of `hours`
 * must be a finite positive number.
 */
module History {
  import opened Wrappers

  /** A JavaScript number as `Number(...)` yields it: finite, NaN or an infinity. */
  datatype JsNumber = Finite(v: real) | NaN | PosInfinity | NegInfinity

  /** The Mongo query the handler runs: the device, the window start (ms) if any, and the cap. */
  datatype HistoryQuery = HistoryQuery(deviceId: string, from: Option<real>, limit: JsNumber)

  /** The handler's answer: a query to run, or a 400 with its error text. */
  datatype Request = Run(query: HistoryQuery) | BadRequest(error: string)

  const DefaultLimit: real := 500.0
  const MaxLimit: real := 2000.0
  const MillisPerHour: real := 3600000.0

  /** `Math.min(x, 2000)`. */
  function ClampLimit(x: JsNumber): (r: JsNumber)
    ensures x.NaN? <==> r.NaN?
    ensures r != PosInfinity
    ensures r.Finite? ==> r.v <= MaxLimit
    ensures (x.Finite? && x.v <= MaxLimit) || x == NegInfinity ==> r == x
    ensures x == PosInfinity || (x.Finite? && x.v >= MaxLimit) ==> r == Finite(MaxLimit)
  {
    match x
    case Finite(v) => if v <= MaxLimit then x else Finite(MaxLimit)
    case NaN => NaN
    case PosInfinity => Finite(MaxLimit)
    case NegInfinity => NegInfinity
  }

  /** `Number.isFinite(x) && x > 0`. */
  predicate ValidHours(x: JsNumber)
  {
    x.Finite? && x.v > 0.0
  }

  /**
   * The request parameters as numbers (`limitArg`, `hoursArg` are None when
   * the query string lacks them) and the current time `now` in ms.
   */
  function HistoryRequest(deviceId: string, limitArg: Option<JsNumber>, hoursArg: Option<JsNumber>, now: real): (r: Request)
    ensures r.BadRequest? <==> hoursArg.Some? && !ValidHours(hoursArg.value)
    ensures r.BadRequest? ==> r.error == "Invalid hours"
    ensures r.Run? ==> r.query.deviceId == deviceId
    ensures r.Run? ==> (r.query.from.Some? <==> hoursArg.Some?)
    ensures r.Run? && r.query.from.Some? ==>
              r.query.from.value < now && now - r.query.from.value == hoursArg.value.v * MillisPerHour
    ensures r.Run? && limitArg.None? ==> r.query.limit == Finite(DefaultLimit)
    ensures r.Run? && limitArg.Some? ==> r.query.limit == ClampLimit(limitArg.value)
  {
    var limit := ClampLimit(if limitArg.Some? then limitArg.value else Finite(DefaultLimit));
    match hoursArg
    case None => Run(HistoryQuery(deviceId, None, limit))
    case Some(hours) =>
      if !ValidHours(hours) then BadRequest("Invalid hours")
      else Run(HistoryQuery(deviceId, Some(now - hours.v * MillisPerHour), limit))
  }

  /** Whatever the request, the limit handed to the store is never above 2000. */
  lemma LimitNeverAboveMax(deviceId: string, limitArg: Option<JsNumber>, hoursArg: Option<JsNumber>, now: real)
    ensures var r := HistoryRequest(deviceId, limitArg, hoursArg, now);
            r.Run? ==> r.query.limit != PosInfinity && (r.query.limit.Finite? ==> r.query.limit.v <= MaxLimit)
  {
  }

  /**
   * The clamp is one-sided: a zero, negative or -Infinity limit reaches
   * `.limit()` unchanged (MongoDB reads `limit(0)` as "no limit").
   */
  lemma LimitNotClampedBelow(deviceId: string, x: JsNumber, hoursArg: Option<JsNumber>, now: real)
    requires x == NegInfinity || (x.Finite? && x.v <= 0.0)
    requires hoursArg.None? || ValidHours(hoursArg.value)
    ensures var r := HistoryRequest(deviceId, Some(x), hoursArg, now);
            r.Run? && r.query.limit == x
  {
  }
}
