/** The match map page (src/app/matches/map/page.tsx): the scheduled matches
    it loads, and `serializeMatch`, which turns a stored match (dates as
    `Date` objects, references possibly populated into objects) into plain
    JSON with string ids and ISO date strings.  `toISOString` is a
    parameter. */
module MapPage {
  import opened Common
  import opened MatchModel
  import MatchService
  import Listing

  /** A reference as it comes back from the data layer: an id string, or a
      populated object that may carry `id` and `_id`. */
  datatype Ref = RefId(s: string) | Populated(id: Option<string>, oid: Option<string>)

  /** A date-valued field: a `Date` object, or a value that is not one
      (already a string). */
  datatype DateField = DateValue(ms: int) | NotDate(s: string)

  /** A match document as the data layer returns it. */
  datatype RawMatch = RawMatch(
    id: Option<string>,
    oid: Option<string>,
    date: DateField,
    location: Location,
    home: seq<Ref>,
    away: seq<Ref>,
    status: string,
    scores: Scores,
    createdBy: Option<Ref>,
    createdAt: DateField,
    updatedAt: DateField)

  /** The plain match handed to the client; an id that came out `undefined`
      is `None`. */
  datatype PlainMatch = PlainMatch(
    id: Option<string>,
    date: string,
    location: Location,
    home: seq<Option<string>>,
    away: seq<Option<string>>,
    status: string,
    scores: Scores,
    createdBy: Option<string>,
    createdAt: string,
    updatedAt: string)

  /** `a || b?.toString()` on an optional `id` and `_id`. */
  function IdOrObjectId(id: Option<string>, oid: Option<string>): (r: Option<string>)
    ensures Present(id) ==> r == id
    ensures !Present(id) ==> r == oid
  {
    if Present(id) then id else oid
  }

  /** A roster entry or creator: kept when it is a string, otherwise its
      `id`, otherwise its `_id` as a string. */
  function RefString(r: Ref): (s: Option<string>)
    ensures r.RefId? ==> s == Some(r.s)
    ensures r.Populated? ==> s == IdOrObjectId(r.id, r.oid)
  {
    match r
    case RefId(s) => Some(s)
    case Populated(id, oid) => IdOrObjectId(id, oid)
  }

  function RefStrings(rs: seq<Ref>): (r: seq<Option<string>>)
    ensures |r| == |rs|
    ensures forall k :: 0 <= k < |rs| ==> r[k] == RefString(rs[k])
  {
    seq(|rs|, k requires 0 <= k < |rs| => RefString(rs[k]))
  }

  /** `instanceof Date ? toISOString() : value` */
  function DateString(d: DateField, iso: int -> string): (s: string)
    ensures d.DateValue? ==> s == iso(d.ms)
    ensures d.NotDate? ==> s == d.s
  {
    match d
    case DateValue(ms) => iso(ms)
    case NotDate(s) => s
  }

  /** `serializeMatch` */
  function SerializeMatch(m: RawMatch, iso: int -> string): (r: PlainMatch)
    ensures r.id == IdOrObjectId(m.id, m.oid)
    ensures r.date == DateString(m.date, iso) && r.createdAt == DateString(m.createdAt, iso)
    ensures r.updatedAt == DateString(m.updatedAt, iso)
    ensures |r.home| == |m.home| && forall k :: 0 <= k < |m.home| ==> r.home[k] == RefString(m.home[k])
    ensures |r.away| == |m.away| && forall k :: 0 <= k < |m.away| ==> r.away[k] == RefString(m.away[k])
    ensures r.createdBy == (if m.createdBy.Some? then RefString(m.createdBy.value) else None)
    ensures r.location == m.location && r.status == m.status && r.scores == m.scores
  {
    PlainMatch(
      IdOrObjectId(m.id, m.oid),
      DateString(m.date, iso),
      m.location,
      RefStrings(m.home),
      RefStrings(m.away),
      m.status,
      m.scores,
      if m.createdBy.Some? then RefString(m.createdBy.value) else None,
      DateString(m.createdAt, iso),
      DateString(m.updatedAt, iso))
  }

  /** A stored match as a plain (`lean`) query returns it: the schema's
      `id` path as `id`, the key as `_id`, dates as `Date` objects,
      references unpopulated. */
  function Stored(m: Match): RawMatch {
    RawMatch(Some(m.idPath), Some(m.id), DateValue(m.date), m.location,
             seq(|m.home|, k requires 0 <= k < |m.home| => RefId(m.home[k])),
             seq(|m.away|, k requires 0 <= k < |m.away| => RefId(m.away[k])),
             StatusName(m.status), m.scores, Some(RefId(m.createdBy)),
             DateValue(m.createdAt), DateValue(m.updatedAt))
  }

  /** Serializing a stored match keeps what the client reads: the rosters
      in order, the creator, the status and the dates come back, and the id
      is the stored `id` path whenever it is set. */
  lemma SerializeStored(m: Match, iso: int -> string)
    ensures var p := SerializeMatch(Stored(m), iso);
            && p.id == Some(if m.idPath != "" then m.idPath else m.id)
            && |p.home| == |m.home| && (forall k :: 0 <= k < |m.home| ==> p.home[k] == Some(m.home[k]))
            && |p.away| == |m.away| && (forall k :: 0 <= k < |m.away| ==> p.away[k] == Some(m.away[k]))
            && p.createdBy == Some(m.createdBy)
            && ParseStatus(p.status) == Some(m.status)
            && p.date == iso(m.date) && p.location == m.location && p.scores == m.scores
  {
    StatusRoundTrip(m.status);
  }

  /** The id `serializeMatch` gives a newly created match is the default of
      its `id` path, and looking a match up by that id finds nothing: the
      key is a different, independently generated object id. */
  lemma NewMatchIdMissesLookup(store: MatchService.Store, newId: Id, freshId: string, date: Instant,
                               location: Location, createdBy: Id, now: int, iso: int -> string)
    requires MatchService.CreateMatch(store, newId, freshId, date, location, createdBy, now).Ok?
    requires freshId != newId
    requires forall k :: 0 <= k < |store| ==> store[k].id != freshId
    ensures var s := MatchService.CreateMatch(store, newId, freshId, date, location, createdBy, now).value;
            && SerializeMatch(Stored(s.saved), iso).id == Some(freshId)
            && MatchService.GetMatchById(s.store, freshId).None?
  {
    var s := MatchService.CreateMatch(store, newId, freshId, date, location, createdBy, now).value;
    assert Present(Some(s.saved.idPath));
    AppendedMissesId(store, s.saved, freshId);
  }

  /** A match appended to a store that holds no key `id` is not found by
      `id` unless it carries that key itself. */
  lemma AppendedMissesId(store: MatchService.Store, m: Match, id: Id)
    requires forall k :: 0 <= k < |store| ==> store[k].id != id
    requires m.id != id
    ensures MatchService.GetMatchById(store + [m], id).None?
  {
    var s := store + [m];
    forall k | 0 <= k < |s| ensures s[k].id != id {
      if k < |store| {
        assert s[k] == store[k];
      }
    }
  }

  /** `serializeMatch` with the key first: the id a client gets is the
      `_id` that `findById` looks up, and the `id` field only when there is
      no key. */
  function SerializeKeyed(m: RawMatch, iso: int -> string): (r: PlainMatch)
    ensures m.oid.Some? ==> r.id == m.oid
    ensures m.oid.None? ==> r.id == m.id
    ensures r.(id := SerializeMatch(m, iso).id) == SerializeMatch(m, iso)
  {
    SerializeMatch(m, iso).(id := if m.oid.Some? then m.oid else m.id)
  }

  /** The filters of the map: scheduled matches only, limit and skip left to
      the service's defaults. */
  const MapFilters: MatchService.MatchFilters := MatchService.MatchFilters(Some("scheduled"), None, None, None, None)

  /** The matches the map asks for: the first ten scheduled matches by date
      (the service can not fail on these filters). */
  function MapSource(store: MatchService.Store): (r: seq<Match>)
    ensures |r| == Min(MatchService.DefaultLimit, |MatchService.Selected(store, MapFilters)|)
    ensures forall k :: 0 <= k < |r| ==> r[k] in store && r[k].status == Scheduled
    ensures Listing.SortedBy(r, MatchService.DateKey)
  {
    var page := MatchService.GetMatches(store, MapFilters);
    assert OrDefault(MapFilters.skip, MatchService.DefaultSkip) == 0 && MapFilters.date.None?;
    var ms := page.value.matches;
    assert forall k :: 0 <= k < |ms| ==> ms[k].status == Scheduled by {
      forall k | 0 <= k < |ms| {
        ScheduledOnly(ms[k]);
      }
    }
    ms
  }

  /** The map's filters let through scheduled matches only. */
  lemma ScheduledOnly(m: Match)
    requires MatchService.Selects(MapFilters, m)
    ensures m.status == Scheduled
  {
    StatusRoundTrip(m.status);
    assert StatusName(m.status) == "scheduled";
  }

  /** The map page's `getMatches`: the first ten scheduled matches by date,
      serialized with their keys as ids (an error would give the empty
      list). */
  function MapMatches(store: MatchService.Store, iso: int -> string): (r: seq<PlainMatch>)
    ensures |r| == |MapSource(store)| <= MatchService.DefaultLimit
    ensures forall k :: 0 <= k < |r| ==> r[k] == SerializeKeyed(Stored(MapSource(store)[k]), iso)
    ensures forall k :: 0 <= k < |r| ==> r[k].status == "scheduled"
  {
    match MatchService.GetMatches(store, MapFilters)
    case Err(_) => []
    case Ok(page) =>
      var ms := MapSource(store);
      var r := SerializeAll(ms, iso);
      assert forall k :: 0 <= k < |r| ==> r[k].status == "scheduled" by {
        forall k | 0 <= k < |r| ensures r[k].status == "scheduled" {
          assert r[k].status == StatusName(ms[k].status);
        }
      }
      r
  }

  /** Serializes matches one by one, in order, with their keys as ids. */
  function SerializeAll(ms: seq<Match>, iso: int -> string): (r: seq<PlainMatch>)
    ensures |r| == |ms|
    ensures forall k :: 0 <= k < |ms| ==> r[k] == SerializeKeyed(Stored(ms[k]), iso)
    ensures forall k :: 0 <= k < |ms| ==> r[k].id == Some(ms[k].id) && r[k].status == StatusName(ms[k].status)
  {
    seq(|ms|, k requires 0 <= k < |ms| => SerializeKeyed(Stored(ms[k]), iso))
  }

  /** Every match on the map carries an id that looking up by key finds it
      by, so its details and its join action reach it. */
  lemma MapIdsFindTheirMatch(store: MatchService.Store, iso: int -> string, k: nat)
    requires MatchService.UniqueIds(store)
    requires k < |MapMatches(store, iso)|
    ensures MapMatches(store, iso)[k].id.Some?
    ensures MatchService.GetMatchById(store, MapMatches(store, iso)[k].id.value) == Some(MapSource(store)[k])
  {
    var m := MapSource(store)[k];
    assert MapMatches(store, iso)[k].id == Some(m.id);
    var i := MatchService.IndexOf(store, m.id).value;
    var j :| 0 <= j < |store| && store[j] == m;
    assert store[i] == m by {
      if i != j {
        assert store[i].id == store[j].id;
      }
    }
  }
}
