/**
 * The edge proxy in front of the upstream weather provider: configuration
 * check, per-client rate limiting, origin validation (the `Origin` header of
 * RFC 6454, section 7, with the `Referer` header's origin as fallback),
 * endpoint routing, mapping of upstream failures, and CORS origin selection for
 * both `GET` and the `OPTIONS` preflight.
 *
 * What the handler cannot see is a parameter: the clock (`now`), the
 * environment (`Config`), the URL parser that yields the origin of a
 * `Referer` value (`urlOrigin`, `None` when the parser throws) and the
 * upstream call (`fetch`, from the URL to what came back).
 */
module Gateway {
  import opened Wrappers
  import RateLimit
  import UriEncoding

  const LocalOrigin: string := "http://localhost:3000"
  const ProductionOrigin: string := "https://sky-stats.vercel.app"
  const UpstreamHost: string := "https://api.openweathermap.org"

  /** `WEATHER_API_KEY` and `VERCEL_URL` from the environment. */
  datatype Config = Config(apiKey: Option<string>, vercelUrl: Option<string>)

  /** The request headers the handler reads (`headers.get(...)`, null when absent). */
  datatype Headers = Headers(
    origin: Option<string>,
    referer: Option<string>,
    forwardedFor: Option<string>,
    realIp: Option<string>)

  /** The query parameters the handler reads (`searchParams.get(...)`). */
  datatype Query = Query(endpoint: Option<string>, city: Option<string>, lat: Option<string>, lon: Option<string>)

  datatype Request = Request(headers: Headers, query: Query)

  /** What the upstream call produced: no response at all, or a status and a body that parses as JSON or not. */
  datatype FetchResult = TransportFailure | Reply(status: int, json: Option<string>)

  /** A validated request: which upstream endpoint, with its parameters. */
  datatype Target =
    | CurrentWeather(city: string)
    | Forecast(city: string)
    | Geocoding(city: string)
    | AirPollution(lat: string, lon: string)

  datatype Routing = Routed(target: Target) | BadRequest(message: string)

  datatype Body = NoBody | ErrorBody(error: string) | Data(json: string)

  datatype Response = Response(status: int, body: Body, headers: map<string, string>)

  function ErrorResponse(status: int, message: string): Response
  {
    Response(status, ErrorBody(message), map[])
  }

  const ConfigError: Response := ErrorResponse(500, "Weather API key not configured")
  const RateLimited: Response := ErrorResponse(429, "Rate limit exceeded. Please try again later.")
  const Forbidden: Response := ErrorResponse(403, "Unauthorized origin")
  const FetchFailed: Response := ErrorResponse(500, "Failed to fetch weather data")

  /** The status codes the handler can answer with. */
  predicate KnownStatus(status: int)
  {
    status == 200 || status == 400 || status == 401 || status == 403 ||
    status == 404 || status == 429 || status == 500
  }

  /**
   * `ALLOWED_ORIGINS`: the development and production origins, then the
   * deployment origin when `VERCEL_URL` is set; `filter(Boolean)` drops the
   * placeholder when it is not.
   */
  function AllowedOrigins(vercelUrl: Option<string>): (r: seq<string>)
    ensures |r| == if Truthy(vercelUrl) then 3 else 2
    ensures r[0] == LocalOrigin && r[1] == ProductionOrigin
    ensures Truthy(vercelUrl) ==> r[2] == "https://" + vercelUrl.value
    ensures forall k :: 0 <= k < |r| ==> r[k] != ""
  {
    [LocalOrigin, ProductionOrigin] + if Truthy(vercelUrl) then ["https://" + vercelUrl.value] else []
  }

  /** The rate-limit partition key: `x-forwarded-for`, else `x-real-ip`, else the shared "unknown" bucket. */
  function ClientKey(h: Headers): (key: string)
    ensures key != ""
    ensures Truthy(h.forwardedFor) ==> key == h.forwardedFor.value
    ensures !Truthy(h.forwardedFor) && Truthy(h.realIp) ==> key == h.realIp.value
    ensures !Truthy(h.forwardedFor) && !Truthy(h.realIp) ==> key == "unknown"
  {
    if Truthy(h.forwardedFor) then h.forwardedFor.value
    else if Truthy(h.realIp) then h.realIp.value
    else "unknown"
  }

  /**
   * `validateOrigin`: `None` when the `Referer` fallback is not a URL (the
   * parser throws), otherwise whether the request's origin is allow-listed.
   */
  function ValidateOrigin(h: Headers, allowed: seq<string>, urlOrigin: string -> Option<string>): (r: Option<bool>)
    // neither header: rejected
    ensures !Truthy(h.origin) && !Truthy(h.referer) ==> r == Some(false)
    // an Origin header decides alone; the Referer is not looked at
    ensures Truthy(h.origin) ==> r == Some(h.origin.value in allowed)
    // otherwise the Referer's origin decides, or the parse fails
    ensures !Truthy(h.origin) && Truthy(h.referer) ==>
      r == match urlOrigin(h.referer.value)
           case None => None
           case Some(o) => Some(o in allowed)
  {
    if !Truthy(h.origin) && !Truthy(h.referer) then Some(false)
    else if Truthy(h.origin) then Some(h.origin.value in allowed)
    else
      match urlOrigin(h.referer.value)
      case None => None
      case Some(o) => Some(o in allowed)
  }

  /**
   * The `Access-Control-Allow-Origin` value: the request's `Origin` when it is
   * allow-listed, else the first allowed origin, else the production origin.
   */
  function SelectCorsOrigin(allowed: seq<string>, origin: Option<string>): (r: string)
    ensures r != ""
    ensures Truthy(origin) && origin.value in allowed ==> r == origin.value
    ensures |allowed| > 0 && allowed[0] != "" ==> r in allowed
    ensures !(Truthy(origin) && origin.value in allowed) && |allowed| > 0 && allowed[0] != "" ==> r == allowed[0]
  {
    if Truthy(origin) && origin.value in allowed then origin.value
    else if |allowed| > 0 && allowed[0] != "" then allowed[0]
    else ProductionOrigin
  }

  predicate CityEndpoint(endpoint: string)
  {
    endpoint == "weather" || endpoint == "forecast" || endpoint == "geocoding"
  }

  /** The `switch (endpoint)`: which upstream request, or which 400 message. */
  function Route(q: Query): (r: Routing)
    ensures !Truthy(q.endpoint) ==> r == BadRequest("Missing endpoint parameter")
    ensures Truthy(q.endpoint) && CityEndpoint(q.endpoint.value) ==>
      (r.BadRequest? <==> !Truthy(q.city)) &&
      (r.BadRequest? ==> r.message == "Missing city parameter") &&
      (r.Routed? ==> !r.target.AirPollution? && r.target.city == q.city.value)
    ensures Truthy(q.endpoint) && q.endpoint.value == "air-pollution" ==>
      if Truthy(q.lat) && Truthy(q.lon) then r == Routed(AirPollution(q.lat.value, q.lon.value))
      else r == BadRequest("Missing lat/lon parameters")
    ensures Truthy(q.endpoint) && !CityEndpoint(q.endpoint.value) && q.endpoint.value != "air-pollution" ==>
      r == BadRequest("Invalid endpoint")
    ensures r.Routed? && r.target.CurrentWeather? ==> q.endpoint == Some("weather")
    ensures r.Routed? && r.target.Forecast? ==> q.endpoint == Some("forecast")
    ensures r.Routed? && r.target.Geocoding? ==> q.endpoint == Some("geocoding")
  {
    if !Truthy(q.endpoint) then BadRequest("Missing endpoint parameter")
    else
      var endpoint := q.endpoint.value;
      if endpoint == "weather" then
        if !Truthy(q.city) then BadRequest("Missing city parameter") else Routed(CurrentWeather(q.city.value))
      else if endpoint == "forecast" then
        if !Truthy(q.city) then BadRequest("Missing city parameter") else Routed(Forecast(q.city.value))
      else if endpoint == "geocoding" then
        if !Truthy(q.city) then BadRequest("Missing city parameter") else Routed(Geocoding(q.city.value))
      else if endpoint == "air-pollution" then
        if !Truthy(q.lat) || !Truthy(q.lon) then BadRequest("Missing lat/lon parameters")
        else Routed(AirPollution(q.lat.value, q.lon.value))
      else BadRequest("Invalid endpoint")
  }

  /** The path and the literal start of the query string for a city target. */
  function CityPrefix(t: Target): string
    requires !t.AirPollution?
  {
    match t
    case CurrentWeather(_) => UpstreamHost + "/data/2.5/weather?q="
    case Forecast(_) => UpstreamHost + "/data/2.5/forecast?q="
    case Geocoding(_) => UpstreamHost + "/geo/1.0/direct?q="
  }

  /** The parameters that follow the city, up to the credential. */
  function CityParams(t: Target): string
    requires !t.AirPollution?
  {
    if t.Geocoding? then "&limit=1&appid=" else "&units=metric&appid="
  }

  /**
   * The upstream URL. For a city target the `q` parameter is the encoded city,
   * which holds no `&` of its own, so it ends where the fixed parameters begin;
   * the credential is always the last parameter.
   */
  function UpstreamUrl(t: Target, key: string): (url: string)
    ensures !t.AirPollution? ==>
      url == CityPrefix(t) + UriEncoding.EncodeUriComponent(t.city) + CityParams(t) + key &&
      '&' !in UriEncoding.EncodeUriComponent(t.city) && CityParams(t)[0] == '&'
    ensures t.AirPollution? ==>
      url == UpstreamHost + "/data/2.5/air_pollution?lat=" + t.lat + "&lon=" + t.lon + "&appid=" + key
  {
    match t
    case CurrentWeather(city) =>
      var e := UriEncoding.EncodeUriComponent(city);
      assert !UriEncoding.EncodedChar('&');
      CityPrefix(t) + e + CityParams(t) + key
    case Forecast(city) =>
      var e := UriEncoding.EncodeUriComponent(city);
      assert !UriEncoding.EncodedChar('&');
      CityPrefix(t) + e + CityParams(t) + key
    case Geocoding(city) =>
      var e := UriEncoding.EncodeUriComponent(city);
      assert !UriEncoding.EncodedChar('&');
      CityPrefix(t) + e + CityParams(t) + key
    case AirPollution(lat, lon) =>
      UpstreamHost + "/data/2.5/air_pollution?lat=" + lat + "&lon=" + lon + "&appid=" + key
  }

  /** Headers of a successful `GET`: five-minute caching and the selected CORS origin. */
  function SuccessHeaders(corsOrigin: string): map<string, string>
  {
    map[
      "Cache-Control" := "public, max-age=300, s-maxage=300",
      "Access-Control-Allow-Origin" := corsOrigin,
      "Access-Control-Allow-Methods" := "GET",
      "Access-Control-Allow-Headers" := "Content-Type"]
  }

  /**
   * From what the upstream returned to the client's response: 401 and 404 are
   * passed on with fixed messages, any other failure becomes a generic 500,
   * and a success returns the upstream payload unchanged.
   */
  function Shape(f: FetchResult, allowed: seq<string>, origin: Option<string>): (r: Response)
    ensures KnownStatus(r.status)
    ensures r.status == 200 <==> f.Reply? && 200 <= f.status < 300 && f.json.Some?
    ensures r.status == 200 ==>
      r.body == Data(f.json.value) && r.headers == SuccessHeaders(SelectCorsOrigin(allowed, origin))
    ensures f.Reply? && f.status == 401 ==> r == ErrorResponse(401, "Invalid API key")
    ensures f.Reply? && f.status == 404 ==> r == ErrorResponse(404, "Location not found")
    ensures r.status != 200 && r.status != 401 && r.status != 404 ==> r == FetchFailed
    ensures r.status == 401 ==> f.Reply? && f.status == 401
    ensures r.status == 404 ==> f.Reply? && f.status == 404
  {
    match f
    case TransportFailure => FetchFailed
    case Reply(status, json) =>
      if !(200 <= status < 300) then
        if status == 401 then ErrorResponse(401, "Invalid API key")
        else if status == 404 then ErrorResponse(404, "Location not found")
        else FetchFailed
      else
        match json
        case None => FetchFailed
        case Some(data) => Response(200, Data(data), SuccessHeaders(SelectCorsOrigin(allowed, origin)))
  }

  /** Everything `GET` does after the request was admitted by the rate limiter. */
  function Respond(allowed: seq<string>, key: string, req: Request,
                   fetch: string -> FetchResult, urlOrigin: string -> Option<string>): (r: Response)
    ensures KnownStatus(r.status) && r.status != 429
    ensures r.status == 403 <==> ValidateOrigin(req.headers, allowed, urlOrigin) == Some(false)
    ensures r == Forbidden <==> r.status == 403
    ensures ValidateOrigin(req.headers, allowed, urlOrigin) == None ==> r == FetchFailed
    ensures r.status == 400 <==>
      ValidateOrigin(req.headers, allowed, urlOrigin) == Some(true) && Route(req.query).BadRequest?
    ensures r.status == 400 ==> r == ErrorResponse(400, Route(req.query).message)
    ensures r.status == 200 ==>
      ValidateOrigin(req.headers, allowed, urlOrigin) == Some(true) && Route(req.query).Routed?
    // an accepted origin and a routed query: the upstream's answer, mapped by `Shape`
    ensures ValidateOrigin(req.headers, allowed, urlOrigin) == Some(true) && Route(req.query).Routed? ==>
      r == Shape(fetch(UpstreamUrl(Route(req.query).target, key)), allowed, req.headers.origin)
  {
    match ValidateOrigin(req.headers, allowed, urlOrigin)
    case None => FetchFailed
    case Some(ok) =>
      if !ok then Forbidden
      else
        match Route(req.query)
        case BadRequest(message) => ErrorResponse(400, message)
        case Routed(target) => Shape(fetch(UpstreamUrl(target, key)), allowed, req.headers.origin)
  }

  /**
   * The whole `GET` handler as a function of the rate table before the call:
   * the response and the table after it.
   */
  function Handle(cfg: Config, table: map<string, RateLimit.Entry>, req: Request, now: int,
                  fetch: string -> FetchResult, urlOrigin: string -> Option<string>): (r: (Response, map<string, RateLimit.Entry>))
    ensures KnownStatus(r.0.status)
    // a missing credential is answered before the table is touched
    ensures !Truthy(cfg.apiKey) ==> r == (ConfigError, table)
    // otherwise the client's entry is counted exactly once, whatever follows
    ensures Truthy(cfg.apiKey) ==> r.1 == RateLimit.CheckRate(table, ClientKey(req.headers), now).1
    ensures r.1 - {ClientKey(req.headers)} == table - {ClientKey(req.headers)}
    ensures RateLimit.ValidTable(table) ==> RateLimit.ValidTable(r.1)
    ensures r.0.status == 429 <==>
      Truthy(cfg.apiKey) && !RateLimit.CheckRate(table, ClientKey(req.headers), now).0
    // a 403 is only reached after the rate limiter admitted (and counted) the request
    ensures r.0.status == 403 ==>
      Truthy(cfg.apiKey) && RateLimit.CheckRate(table, ClientKey(req.headers), now).0
    ensures r.0.status == 200 ==>
      "Access-Control-Allow-Origin" in r.0.headers && "Cache-Control" in r.0.headers &&
      r.0.headers["Access-Control-Allow-Origin"] in AllowedOrigins(cfg.vercelUrl) &&
      r.0.headers["Cache-Control"] == "public, max-age=300, s-maxage=300"
    // an admitted request gets the answer of the later gates
    ensures Truthy(cfg.apiKey) && RateLimit.CheckRate(table, ClientKey(req.headers), now).0 ==>
      r.0 == Respond(AllowedOrigins(cfg.vercelUrl), cfg.apiKey.value, req, fetch, urlOrigin)
  {
    if !Truthy(cfg.apiKey) then (ConfigError, table)
    else
      var (admitted, table') := RateLimit.CheckRate(table, ClientKey(req.headers), now);
      if !admitted then (RateLimited, table')
      else (Respond(AllowedOrigins(cfg.vercelUrl), cfg.apiKey.value, req, fetch, urlOrigin), table')
  }

  /** `GET`: the gates in order, each an early return, over the shared rate table. */
  method Get(limiter: RateLimit.RateLimiter, cfg: Config, req: Request, now: int,
             fetch: string -> FetchResult, urlOrigin: string -> Option<string>) returns (resp: Response)
    requires limiter.Valid()
    modifies limiter
    ensures limiter.Valid()
    ensures (resp, limiter.entries) == Handle(cfg, old(limiter.entries), req, now, fetch, urlOrigin)
  {
    if !Truthy(cfg.apiKey) {
      return ConfigError;
    }
    var ip := ClientKey(req.headers);
    var admitted := limiter.Check(ip, now);
    if !admitted {
      return RateLimited;
    }
    var allowed := AllowedOrigins(cfg.vercelUrl);
    var verdict := ValidateOrigin(req.headers, allowed, urlOrigin);
    if verdict.None? {
      return FetchFailed;
    }
    if !verdict.value {
      return Forbidden;
    }
    var routing := Route(req.query);
    if routing.BadRequest? {
      return ErrorResponse(400, routing.message);
    }
    var reply := fetch(UpstreamUrl(routing.target, cfg.apiKey.value));
    resp := Shape(reply, allowed, req.headers.origin);
  }

  /**
   * `OPTIONS`: the preflight always succeeds with the CORS headers; it takes
   * no rate table, so it can neither read nor change one.
   */
  function Options(cfg: Config, h: Headers): (r: Response)
    ensures r.status == 200 && r.body == NoBody
    ensures "Access-Control-Allow-Origin" in r.headers && "Access-Control-Allow-Methods" in r.headers
    ensures "Access-Control-Max-Age" in r.headers
    ensures r.headers["Access-Control-Allow-Origin"] in AllowedOrigins(cfg.vercelUrl)
    ensures Truthy(h.origin) && h.origin.value in AllowedOrigins(cfg.vercelUrl) ==>
      r.headers["Access-Control-Allow-Origin"] == h.origin.value
    ensures !(Truthy(h.origin) && h.origin.value in AllowedOrigins(cfg.vercelUrl)) ==>
      r.headers["Access-Control-Allow-Origin"] == LocalOrigin
    ensures r.headers["Access-Control-Allow-Methods"] == "GET, OPTIONS"
    ensures r.headers["Access-Control-Max-Age"] == "86400"
  {
    Response(200, NoBody, map[
      "Access-Control-Allow-Origin" := SelectCorsOrigin(AllowedOrigins(cfg.vercelUrl), h.origin),
      "Access-Control-Allow-Methods" := "GET, OPTIONS",
      "Access-Control-Allow-Headers" := "Content-Type",
      "Access-Control-Max-Age" := "86400"])
  }
}
