/** The `/api/matches` handlers (src/app/api/matches/route.ts): `POST`
    creates a match for the signed-in user from a checked body, `GET` checks
    the query, builds the filters, asks `getMatches` and adds the page
    arithmetic.  Query values arrive as strings; `new Date(str)` is a
    parameter, `parseInt` is Text.ParseInt. */
module MatchesRoute {
  import opened Common
  import Text
  import opened MatchModel
  import MatchService

  /** `Math.floor(a / b)` on integers. */
  function FloorDiv(a: int, b: int): (q: int)
    requires b != 0
    ensures b > 0 ==> q * b <= a < q * b + b
    ensures b < 0 ==> q * b >= a > q * b + b
  {
    if b > 0 then a / b else (-a) / (-b)
  }

  /** `Math.ceil(a / b)` on integers. */
  function CeilDiv(a: int, b: int): (q: int)
    requires b != 0
    ensures b > 0 ==> q * b - b < a <= q * b
    ensures b < 0 ==> q * b - b > a >= q * b
  {
    -FloorDiv(-a, b)
  }

  /** `Math.floor(skip / limit) + 1`: the page the `skip`-th match is on. */
  function PageOf(skip: int, limit: int): (p: int)
    requires limit != 0
    ensures limit > 0 ==> (p - 1) * limit <= skip < p * limit
  {
    var q := FloorDiv(skip, limit);
    assert (q + 1 - 1) * limit == q * limit;
    assert (q + 1) * limit == q * limit + limit;
    q + 1
  }

  /** `Math.ceil(total / limit)`: the fewest pages of `limit` holding `total`. */
  function PageCount(total: int, limit: int): (c: int)
    requires limit != 0
    ensures limit > 0 ==> (c - 1) * limit < total <= c * limit
  {
    var c := CeilDiv(total, limit);
    assert (c - 1) * limit == c * limit - limit;
    c
  }

  /** A request-schema error: the path of the field and the message. */
  datatype FieldError = FieldError(path: string, message: string)

  datatype Body =
    | Created(created: Match)
    | Page(matches: seq<Match>, total: nat, page: int, totalPages: int)
    | Failure(error: string, details: seq<FieldError>)

  datatype Reply = Reply(status: int, body: Body)

  // GET

  /** The query parameters, as strings; an absent one is `None`. */
  datatype Query = Query(status: Option<string>, city: Option<string>, startDate: Option<string>,
                         endDate: Option<string>, limit: Option<string>, skip: Option<string>)

  /** The schema's message for a status outside the enumeration. */
  function StatusMessage(received: string): string {
    "Invalid enum value. Expected 'scheduled' | 'in-progress' | 'completed', received '" + received + "'"
  }

  function StatusErrors(status: Option<string>): (r: seq<FieldError>)
    ensures r == [] <==> status.None? || ParseStatus(status.value).Some?
  {
    match status
    case None => []
    case Some(s) => if ParseStatus(s).None? then [FieldError("status", StatusMessage(s))] else []
  }

  function ParsedNum(s: Option<string>): Option<Num> {
    if s.Some? then Some(Text.ParseInt(s.value)) else None
  }

  /** `limit || 10` and `skip || 0` on the parsed parameters. */
  function LimitOf(q: Query): int { OrDefault(ParsedNum(q.limit), 10) }
  function SkipOf(q: Query): int { OrDefault(ParsedNum(q.skip), 0) }

  /** The filters handed to `getMatches`: the date range only when both
      bounds are given (a `Date`, even an invalid one, is truthy). */
  function Filters(q: Query, parseDate: string -> Instant): (f: MatchService.MatchFilters)
    ensures f.status == q.status && f.city == q.city
    ensures f.date.Some? <==> q.startDate.Some? && q.endDate.Some?
    ensures f.date.Some? ==> f.date.value == MatchService.DateRange(parseDate(q.startDate.value), parseDate(q.endDate.value))
    ensures OrDefault(f.limit, MatchService.DefaultLimit) == LimitOf(q) != 0
    ensures OrDefault(f.skip, MatchService.DefaultSkip) == SkipOf(q)
  {
    MatchService.MatchFilters(
      q.status, q.city,
      if q.startDate.Some? && q.endDate.Some? then
        Some(MatchService.DateRange(parseDate(q.startDate.value), parseDate(q.endDate.value)))
      else None,
      Some(Int(LimitOf(q))), Some(Int(SkipOf(q))))
  }

  /** What `getMatches` returns for the query's filters, in the terms of
      the query: matches of the requested status and city, at most `limit`
      of them, and never for a negative skip. */
  function Listed(store: MatchService.Store, q: Query, parseDate: string -> Instant): (r: Result<MatchService.MatchPage>)
    ensures r.Ok? ==> r.value.total == |MatchService.Selected(store, Filters(q, parseDate))|
    ensures r.Ok? ==> forall k :: 0 <= k < |r.value.matches| ==>
              var m := r.value.matches[k];
              && m in store
              && (Present(q.status) ==> StatusName(m.status) == q.status.value)
              && (Present(q.city) ==> m.location.city == q.city.value)
    ensures r.Ok? ==> |r.value.matches| <= Abs(LimitOf(q)) && SkipOf(q) >= 0
  {
    var f := Filters(q, parseDate);
    var r := MatchService.GetMatches(store, f);
    assert r.Ok? ==> forall k :: 0 <= k < |r.value.matches| ==> MatchService.Selects(f, r.value.matches[k]);
    r
  }

  /** `GET`: 400 for a status outside the enumeration; otherwise the page
      of matches with `page = floor(skip / limit) + 1` and
      `totalPages = ceil(total / limit)`; 500 when the service throws. */
  function Get(store: MatchService.Store, q: Query, parseDate: string -> Instant): (r: Reply)
    ensures r.status == 400 <==> StatusErrors(q.status) != []
    ensures r.status == 400 ==> r.body == Failure("Invalid query parameters", StatusErrors(q.status))
    ensures r.status in {200, 400, 500}
    ensures r.status == 500 ==> r.body == Failure("Failed to get matches", [])
    ensures r.status == 500 <==> StatusErrors(q.status) == [] && Listed(store, q, parseDate).Err?
    ensures r.status == 200 ==> r.body.Page?
                                && Listed(store, q, parseDate) == Ok(MatchService.MatchPage(r.body.matches, r.body.total))
    ensures r.status == 200 ==> r.body.page == PageOf(SkipOf(q), LimitOf(q))
    ensures r.status == 200 ==> r.body.totalPages == PageCount(r.body.total, LimitOf(q))
  {
    var errors := StatusErrors(q.status);
    if errors != [] then Reply(400, Failure("Invalid query parameters", errors))
    else
      match Listed(store, q, parseDate)
      case Err(_) => Reply(500, Failure("Failed to get matches", []))
      case Ok(p) =>
        assert LimitOf(q) != 0;
        Reply(200, Page(p.matches, p.total, PageOf(SkipOf(q), LimitOf(q)), PageCount(p.total, LimitOf(q))))
  }

  // POST

  datatype CoordinatesInput = CoordinatesInput(latitude: Option<real>, longitude: Option<real>)

  datatype LocationInput = LocationInput(name: Option<string>, address: Option<string>, city: Option<string>,
                                         coordinates: Option<CoordinatesInput>)

  /** The JSON body of `POST`; an absent field is `None`. */
  datatype CreateInput = CreateInput(date: Option<string>, location: Option<LocationInput>)

  function RequiredText(path: string, v: Option<string>, emptyMessage: string): (r: seq<FieldError>)
    ensures r == [] <==> v.Some? && v.value != ""
  {
    if v.None? then [FieldError(path, "Required")]
    else if v.value == "" then [FieldError(path, emptyMessage)]
    else []
  }

  function RequiredNumber(path: string, v: Option<real>): (r: seq<FieldError>)
    ensures r == [] <==> v.Some?
  {
    if v.None? then [FieldError(path, "Required")] else []
  }

  function CoordinatesErrors(c: Option<CoordinatesInput>): (r: seq<FieldError>)
    ensures r == [] <==> c.Some? && c.value.latitude.Some? && c.value.longitude.Some?
  {
    if c.None? then [FieldError("location.coordinates", "Required")]
    else RequiredNumber("location.coordinates.latitude", c.value.latitude)
         + RequiredNumber("location.coordinates.longitude", c.value.longitude)
  }

  /** Every error of `createMatchSchema`, in field order. */
  function CreateErrors(b: CreateInput): (r: seq<FieldError>)
    ensures r == [] <==> && b.date.Some? && b.location.Some?
                         && b.location.value.name.Some? && b.location.value.name.value != ""
                         && b.location.value.address.Some? && b.location.value.address.value != ""
                         && b.location.value.city.Some? && b.location.value.city.value != ""
                         && b.location.value.coordinates.Some?
                         && b.location.value.coordinates.value.latitude.Some?
                         && b.location.value.coordinates.value.longitude.Some?
  {
    (if b.date.None? then [FieldError("date", "Required")] else [])
    + if b.location.None? then [FieldError("location", "Required")]
      else
        var l := b.location.value;
        RequiredText("location.name", l.name, "Location name is required")
        + RequiredText("location.address", l.address, "Address is required")
        + RequiredText("location.city", l.city, "City is required")
        + CoordinatesErrors(l.coordinates)
  }

  function LocationOf(b: CreateInput): Location
    requires CreateErrors(b) == []
  {
    var l := b.location.value;
    Location(l.name.value, l.address.value, l.city.value,
             Coordinates(l.coordinates.value.latitude.value, l.coordinates.value.longitude.value))
  }

  datatype Posted = Posted(store: MatchService.Store, reply: Reply)

  /** `POST`: 401 without a signed-in user, 400 for a body the schema
      rejects, 201 with the new match, 500 when the body is not JSON or the
      service throws.  Only a 201 changes the collection. */
  function Post(store: MatchService.Store, session: Option<Id>, body: Result<CreateInput>, newId: Id,
                freshId: string, parseDate: string -> Instant, now: int): (r: Posted)
    ensures r.reply.status == 401 <==> session.None?
    ensures session.None? ==> r.reply.body == Failure("Authentication required", [])
    ensures r.reply.status == 400 <==> session.Some? && body.Ok? && CreateErrors(body.value) != []
    ensures r.reply.status == 400 ==> r.reply.body == Failure("Invalid request data", CreateErrors(body.value))
    ensures r.reply.status in {201, 400, 401, 500}
    ensures r.reply.status != 201 ==> r.store == store
    ensures r.reply.status == 201 <==>
              && session.Some? && body.Ok? && CreateErrors(body.value) == []
              && MatchService.CreateMatch(store, newId, freshId, parseDate(body.value.date.value), LocationOf(body.value),
                                          session.value, now).Ok?
    ensures r.reply.status == 201 ==>
              && r.reply.body.Created? && r.store == store + [r.reply.body.created]
              && var m := r.reply.body.created;
                 && m.id == newId && m.idPath == freshId && m.createdBy == session.value && m.location == LocationOf(body.value)
                 && m.status == Scheduled && m.home == [] && m.away == [] && m.scores == Scores(0, 0)
                 && parseDate(body.value.date.value) == At(m.date)
  {
    if session.None? then Posted(store, Reply(401, Failure("Authentication required", [])))
    else match body
      case Err(_) => Posted(store, Reply(500, Failure("Failed to create match", [])))
      case Ok(b) =>
        var errors := CreateErrors(b);
        if errors != [] then Posted(store, Reply(400, Failure("Invalid request data", errors)))
        else match MatchService.CreateMatch(store, newId, freshId, parseDate(b.date.value), LocationOf(b), session.value, now)
          case Err(_) => Posted(store, Reply(500, Failure("Failed to create match", [])))
          case Ok(saved) => Posted(saved.store, Reply(201, Created(saved.saved)))
  }
}
