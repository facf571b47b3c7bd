/** The match document (src/models/match.ts): a location, two rosters of
    player ids, a lifecycle status, a score pair and the creator, with the
    schema's required fields, status enumeration and defaults, and the
    `toObject`/`toJSON` transform that renames `_id` to `id`. */
module MatchModel {
  import opened Common
  import Text
  import opened Validation
  import Listing
  import MessageText

  type Id = string

  datatype Status = Scheduled | InProgress | Completed

  function StatusName(s: Status): string {
    match s
    case Scheduled => "scheduled"
    case InProgress => "in-progress"
    case Completed => "completed"
  }

  /** The schema's `enum` check: exactly the three status names are accepted. */
  function ParseStatus(s: string): (r: Option<Status>)
    ensures r.Some? <==> s == "scheduled" || s == "in-progress" || s == "completed"
    ensures r.Some? ==> StatusName(r.value) == s
  {
    if s == "scheduled" then Some(Scheduled)
    else if s == "in-progress" then Some(InProgress)
    else if s == "completed" then Some(Completed)
    else None
  }

  /** Every status survives being written out and read back. */
  lemma StatusRoundTrip(st: Status)
    ensures ParseStatus(StatusName(st)) == Some(st)
  {
  }

  datatype Coordinates = Coordinates(latitude: real, longitude: real)

  datatype Location = Location(name: string, address: string, city: string, coordinates: Coordinates)

  datatype Team = Home | Away

  datatype Scores = Scores(home: int, away: int)

  /** A stored match.  `id` is the document key `_id`: what `findById`
      looks up and what the `toObject` transform writes out as `id`.
      `idPath` is the schema's own stored `id` path, which gets a fresh
      object-id string of its own when the match is created and is not tied
      to `_id`.  `date`, `createdAt` and `updatedAt` are milliseconds since
      the epoch. */
  datatype Match = Match(
    id: Id,
    idPath: string,
    date: int,
    location: Location,
    home: seq<Id>,
    away: seq<Id>,
    status: Status,
    scores: Scores,
    createdBy: Id,
    createdAt: int,
    updatedAt: int)
  {
    function Roster(team: Team): seq<Id> {
      match team
      case Home => home
      case Away => away
    }

    predicate Plays(player: Id) {
      player in home || player in away
    }
  }

  /** A location as handed to the data layer: the coordinates may be
      missing. */
  datatype LocationDraft = LocationDraft(name: string, address: string, city: string,
                                         latitude: Option<real>, longitude: Option<real>)

  /** The draft of a complete location. */
  function DraftOf(l: Location): LocationDraft {
    LocationDraft(l.name, l.address, l.city, Some(l.coordinates.latitude), Some(l.coordinates.longitude))
  }

  /** A match document as handed to the data layer before validation:
      missing fields are `None`, and the date may be an invalid `Date`. */
  datatype MatchDraft = MatchDraft(
    idPath: Option<string>,
    date: Instant,
    location: Option<LocationDraft>,
    home: seq<Id>,
    away: seq<Id>,
    status: Option<string>,
    scoreHome: Option<int>,
    scoreAway: Option<int>,
    createdBy: string)

  /** The document paths the match schema validates. */
  datatype MatchPath =
    | IdPath | DatePath | LocationPath | NamePath | AddressPath | CityPath | LatitudePath | LongitudePath
    | StatusPath | CreatorPath

  function PathName(p: MatchPath): string {
    match p
    case IdPath => "id"
    case DatePath => "date"
    case LocationPath => "location"
    case NamePath => "location.name"
    case AddressPath => "location.address"
    case CityPath => "location.city"
    case LatitudePath => "location.coordinates.latitude"
    case LongitudePath => "location.coordinates.longitude"
    case StatusPath => "status"
    case CreatorPath => "createdBy"
  }

  /** Whether the validator of path `p` rejects the draft.  A required string
      fails when it is empty; a nested path is checked only when its parent
      is present.  The `id` path takes `freshId` when it is not given. */
  predicate Fails(d: MatchDraft, freshId: string, p: MatchPath) {
    match p
    case IdPath => IdPathOf(d, freshId) == ""
    case DatePath => d.date.InvalidDate?
    case LocationPath => d.location.None?
    case NamePath => d.location.Some? && d.location.value.name == ""
    case AddressPath => d.location.Some? && d.location.value.address == ""
    case CityPath => d.location.Some? && d.location.value.city == ""
    case LatitudePath => d.location.Some? && d.location.value.latitude.None?
    case LongitudePath => d.location.Some? && d.location.value.longitude.None?
    case StatusPath => d.status.Some? && ParseStatus(d.status.value).None?
    case CreatorPath => d.createdBy == ""
  }

  /** The stored `id` path: the one given, or the default. */
  function IdPathOf(d: MatchDraft, freshId: string): string {
    if d.idPath.Some? then d.idPath.value else freshId
  }

  /** The validators' order: the schema's paths as declared. */
  const MatchPaths: seq<MatchPath> :=
    [IdPath, DatePath, LocationPath, NamePath, AddressPath, CityPath, LatitudePath, LongitudePath,
     StatusPath, CreatorPath]

  /** Where a path stands in the validators' order. */
  function PathIndex(p: MatchPath): (k: nat)
    ensures k < |MatchPaths| && MatchPaths[k] == p
  {
    match p
    case IdPath => 0
    case DatePath => 1
    case LocationPath => 2
    case NamePath => 3
    case AddressPath => 4
    case CityPath => 5
    case LatitudePath => 6
    case LongitudePath => 7
    case StatusPath => 8
    case CreatorPath => 9
  }

  /** The error a failing validator reports.  The `required` message of a
      location field names its path inside the location schema; an invalid
      date is a failed cast; a status outside the enumeration quotes the
      value. */
  function IssueFor(d: MatchDraft, p: MatchPath): (i: Issue)
    ensures i.path == PathName(p)
  {
    match p
    case DatePath => Issue(PathName(p), DateCastMessage(PathName(p)))
    case StatusPath => Issue(PathName(p), EnumMessage(if d.status.Some? then d.status.value else "", PathName(p)))
    case NamePath => Issue(PathName(p), RequiredMessage("name"))
    case AddressPath => Issue(PathName(p), RequiredMessage("address"))
    case CityPath => Issue(PathName(p), RequiredMessage("city"))
    case LatitudePath => Issue(PathName(p), RequiredMessage("coordinates.latitude"))
    case LongitudePath => Issue(PathName(p), RequiredMessage("coordinates.longitude"))
    case _ => Issue(PathName(p), RequiredMessage(PathName(p)))
  }

  /** The paths whose validator fails, in schema order. */
  function FailingPaths(d: MatchDraft, freshId: string): (r: seq<MatchPath>)
    ensures forall p :: p in r <==> Fails(d, freshId, p)
    ensures forall p :: multiset(r)[p] == if Fails(d, freshId, p) then 1 else 0
    ensures Listing.SubsequenceOf(r, MatchPaths)
  {
    var fails := p => Fails(d, freshId, p);
    var r := Listing.Filter(MatchPaths, fails);
    forall p
      ensures p in r <==> Fails(d, freshId, p)
      ensures multiset(r)[p] == if Fails(d, freshId, p) then 1 else 0
    {
      var k := PathIndex(p);
      assert MatchPaths[k] == p;
      assert fails(p) == Fails(d, freshId, p);
      Listing.FilterMultiplicity(MatchPaths, fails, p);
      PathsOnce(p);
    }
    r
  }

  /** Every path is validated once. */
  lemma PathsOnce(p: MatchPath)
    ensures multiset(MatchPaths)[p] == 1
  {
  }

  /** The errors of a draft, one per failing path, in schema order. */
  function MatchIssues(d: MatchDraft, freshId: string): seq<Issue> {
    var paths := FailingPaths(d, freshId);
    seq(|paths|, k requires 0 <= k < |paths| => IssueFor(d, paths[k]))
  }

  /** No validator fails exactly when every required field is present and
      the status is one of the three names. */
  lemma NoFailureIff(d: MatchDraft, freshId: string)
    ensures (forall p :: !Fails(d, freshId, p))
            <==> (&& IdPathOf(d, freshId) != "" && d.date.At? && d.location.Some?
                  && d.location.value.name != "" && d.location.value.address != "" && d.location.value.city != ""
                  && d.location.value.latitude.Some? && d.location.value.longitude.Some?
                  && d.createdBy != "" && (d.status.None? || ParseStatus(d.status.value).Some?))
  {
    if forall p :: !Fails(d, freshId, p) {
      assert !Fails(d, freshId, IdPath) && !Fails(d, freshId, DatePath) && !Fails(d, freshId, LocationPath);
      assert !Fails(d, freshId, NamePath) && !Fails(d, freshId, AddressPath) && !Fails(d, freshId, CityPath);
      assert !Fails(d, freshId, LatitudePath) && !Fails(d, freshId, LongitudePath);
      assert !Fails(d, freshId, StatusPath) && !Fails(d, freshId, CreatorPath);
    }
  }

  /** Validation and defaults on save: the document is stored iff every
      required field is present (the `id` path, the date, the location with
      its name, address, city and both coordinates, the creator) and the
      status is one of the three names; an absent status becomes
      `scheduled`, absent scores become 0 and an absent `id` path becomes
      `freshId`.  Otherwise the error lists every failed validator. */
  function ValidateMatch(d: MatchDraft, id: Id, freshId: string, now: int): (r: Result<Match>)
    ensures r.Ok? <==> && IdPathOf(d, freshId) != "" && d.date.At? && d.location.Some?
                       && d.location.value.name != "" && d.location.value.address != "" && d.location.value.city != ""
                       && d.location.value.latitude.Some? && d.location.value.longitude.Some?
                       && d.createdBy != "" && (d.status.None? || ParseStatus(d.status.value).Some?)
    ensures r.Ok? ==> r.value.id == id && r.value.date == d.date.ms && DraftOf(r.value.location) == d.location.value
    ensures r.Ok? ==> r.value.idPath == (if d.idPath.Some? then d.idPath.value else freshId)
    ensures r.Ok? ==> r.value.home == d.home && r.value.away == d.away && r.value.createdBy == d.createdBy
    ensures r.Ok? && d.status.None? ==> r.value.status == Scheduled
    ensures r.Ok? && d.status.Some? ==> StatusName(r.value.status) == d.status.value
    ensures r.Ok? ==> r.value.scores.home == (if d.scoreHome.Some? then d.scoreHome.value else 0)
    ensures r.Ok? ==> r.value.scores.away == (if d.scoreAway.Some? then d.scoreAway.value else 0)
    ensures r.Ok? ==> r.value.createdAt == now && r.value.updatedAt == now
    ensures r.Ok? <==> forall p :: !Fails(d, freshId, p)
    ensures r.Err? ==> r.msg == ValidationMessage("Match", MatchIssues(d, freshId))
  {
    NoFailureIff(d, freshId);
    if FailingPaths(d, freshId) != [] then
      Err(ValidationMessage("Match", MatchIssues(d, freshId)))
    else
      var l := d.location.value;
      Ok(Match(
        id, IdPathOf(d, freshId), d.date.ms,
        Location(l.name, l.address, l.city, Coordinates(l.latitude.value, l.longitude.value)),
        d.home, d.away,
        if d.status.Some? then ParseStatus(d.status.value).value else Scheduled,
        Scores(if d.scoreHome.Some? then d.scoreHome.value else 0,
               if d.scoreAway.Some? then d.scoreAway.value else 0),
        d.createdBy, now, now))
  }

  /** The creator's `required` validator is the only one a draft that is
      complete but for its creator fails. */
  lemma OnlyCreatorFails(d: MatchDraft, freshId: string)
    requires IdPathOf(d, freshId) != "" && d.date.At? && d.location.Some?
    requires d.location.value.name != "" && d.location.value.address != "" && d.location.value.city != ""
    requires d.location.value.latitude.Some? && d.location.value.longitude.Some?
    requires d.status.None? && d.createdBy == ""
    ensures FailingPaths(d, freshId) == [CreatorPath]
  {
    var paths := FailingPaths(d, freshId);
    assert forall p :: Fails(d, freshId, p) <==> p == CreatorPath;
    OnlyOccurrence(paths, CreatorPath);
  }

  /** A sequence holding `q` once and nothing else is `[q]`. */
  lemma OnlyOccurrence(r: seq<MatchPath>, q: MatchPath)
    requires forall p :: multiset(r)[p] == if p == q then 1 else 0
    ensures r == [q]
  {
    assert multiset(r) == multiset{q};
    assert |r| == |multiset(r)| == 1;
    assert r[0] in multiset(r);
  }

  /** The issue of a missing creator. */
  lemma CreatorIssue(d: MatchDraft)
    ensures IssueFor(d, CreatorPath) == Issue("createdBy", RequiredMessage("createdBy"))
  {
  }

  /** A draft that is complete but for its creator fails with exactly the
      creator's `required` error. */
  lemma MissingCreatorMessage(d: MatchDraft, freshId: string, id: Id, now: int)
    requires IdPathOf(d, freshId) != "" && d.date.At? && d.location.Some?
    requires d.location.value.name != "" && d.location.value.address != "" && d.location.value.city != ""
    requires d.location.value.latitude.Some? && d.location.value.longitude.Some?
    requires d.status.None? && d.createdBy == ""
    ensures ValidateMatch(d, id, freshId, now)
            == Err("Match validation failed: createdBy: Path `createdBy` is required.")
  {
    OnlyCreatorFails(d, freshId);
    CreatorIssue(d);
    OneRequiredMessage("Match", "createdBy");
    MessageText.CreatorMessageText();
  }

  /** A field value of a raw stored document. */
  datatype Value = Str(s: string) | Number(n: int) | ObjectId(hex: string) | Composite

  /** `value.toString()` */
  function ValueString(v: Value): string {
    match v
    case Str(s) => s
    case Number(n) => Text.IntToString(n)
    case ObjectId(hex) => hex
    case Composite => "[object Object]"
  }

  /** The `toObject`/`toJSON` transform: `id` becomes the string form of
      `_id`, `_id` and `__v` are removed, and every other field is kept as
      it is.  A document without `_id` makes `_id.toString()` throw. */
  function TransformDocument(ret: map<string, Value>): (r: Result<map<string, Value>>)
    ensures r.Err? <==> "_id" !in ret
    ensures r.Ok? ==> r.value.Keys == ret.Keys - {"_id", "__v"} + {"id"}
    ensures r.Ok? ==> r.value["id"] == Str(ValueString(ret["_id"]))
    ensures r.Ok? ==> forall k :: k in ret && k != "_id" && k != "__v" && k != "id" ==> r.value[k] == ret[k]
  {
    if "_id" !in ret then Err("Cannot read properties of undefined (reading 'toString')")
    else Ok((ret - {"_id", "__v"})["id" := Str(ValueString(ret["_id"]))])
  }

  /** Transforming an already transformed document fails: the transform is
      meant to be applied once, to the stored form. */
  lemma TransformOnce(ret: map<string, Value>)
    requires TransformDocument(ret).Ok?
    ensures TransformDocument(TransformDocument(ret).value).Err?
  {
  }
}
