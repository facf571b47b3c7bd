/** The available-players search (src/app/api/players/available/route.ts):
    players who are available now, optionally for a position, within a
    distance of a point, other than the one asking.  The distance function
    and `parseFloat` are parameters; JavaScript numbers that can be NaN are
    `Float`. */
module AvailablePlayers {
  import opened Common
  import Text
  import opened UserModel
  import Listing

  const DefaultDistance: string := "10"
  const DefaultMaxDistance: real := 10.0

  datatype Float = FNaN | F(x: real)

  /** `dist <= distance`: false whenever either side is NaN. */
  predicate AtMost(dist: Float, distance: Num) {
    dist.F? && distance.Int? && dist.x <= distance.v as real
  }

  /** The query parameters, as strings; an absent one is `None`. */
  datatype Query = Query(latitude: Option<string>, longitude: Option<string>, distance: Option<string>,
                         position: Option<string>)

  datatype FieldError = FieldError(path: string, message: string)

  function QueryErrors(q: Query): (r: seq<FieldError>)
    ensures r == [] <==> q.latitude.Some? && q.longitude.Some?
  {
    (if q.latitude.None? then [FieldError("latitude", "Required")] else [])
    + (if q.longitude.None? then [FieldError("longitude", "Required")] else [])
  }

  /** `parseInt(distance)` after the default "10".  The call passes no
      radix, so a "0x" prefix reads the digits after it in base 16. */
  function DistanceOf(q: Query): (r: Num)
    ensures q.distance.None? ==> r == Int(10)
    ensures q.distance.Some? && !Text.HasHexPrefix(Text.Unsigned(q.distance.value)) ==>
              r == Text.ParseInt(q.distance.value)
  {
    Text.IntToStringReadsBackAnyRadix(10);
    assert Text.IntToString(10) == DefaultDistance;
    Text.ParseIntAnyRadix(if q.distance.Some? then q.distance.value else DefaultDistance)
  }

  /** `?distance=0x14` asks for 20 km, and a bare `?distance=0x` is NaN and
      so lists nobody. */
  lemma HexDistances(q: Query)
    ensures q.distance == Some("0x14") ==> DistanceOf(q) == Int(20)
    ensures q.distance == Some("0x") ==> DistanceOf(q) == NaN
  {
    if q.distance == Some("0x14") {
      assert "0x14" == "0x" + "14" + "";
      Text.HexPrefixReadsHex("14", "");
      assert Text.ParseHex("14") == 20 by {
        assert "14"[..1] == "1";
      }
    }
    if q.distance == Some("0x") {
      Text.HexTextShape("");
    }
  }

  /** The database query: role player, available, and available until a
      time strictly after now. */
  predicate Candidate(u: User, now: int) {
    && u.role == PlayerRole && u.profile.Some?
    && u.profile.value.availability.isAvailable
    && u.profile.value.availability.availableUntil.Some?
    && u.profile.value.availability.availableUntil.value > now
  }

  /** The position filter, only for a non-empty position. */
  predicate PlaysPosition(u: User, position: Option<string>)
    requires u.profile.Some?
  {
    Present(position) ==> position.value in u.profile.value.availability.preferredPositions
  }

  /** Everything a player must satisfy to be listed: a candidate for the
      position, with a known location within `distance` of the point, and
      not the requester. */
  predicate Kept(u: User, now: int, position: Option<string>, lat: Float, lon: Float, distance: Num,
                 dist: (Float, Float, real, real) -> Float, requester: Id)
  {
    && Candidate(u, now) && PlaysPosition(u, position)
    && u.profile.value.availability.location.Some?
    && (var loc := u.profile.value.availability.location.value;
        AtMost(dist(lat, lon, loc.latitude, loc.longitude), distance))
    && u.id != requester
  }

  /** The players found, in the order the collection returns them. */
  function Selection(users: seq<User>, now: int, position: Option<string>, lat: Float, lon: Float, distance: Num,
                     dist: (Float, Float, real, real) -> Float, requester: Id): (r: seq<User>)
    ensures forall k :: 0 <= k < |r| ==> r[k] in users && Kept(r[k], now, position, lat, lon, distance, dist, requester)
    ensures forall k :: 0 <= k < |users| && Kept(users[k], now, position, lat, lon, distance, dist, requester) ==>
              users[k] in r
    ensures Listing.SubsequenceOf(r, users)
  {
    Listing.Filter(users, (u: User) => Kept(u, now, position, lat, lon, distance, dist, requester))
  }

  /** One entry of the reply. */
  datatype Listed = Listed(id: Id, name: string, position: seq<string>, maxDistance: real, availableUntil: Option<int>)

  /** The reply entry of a player: the preferred positions, and the maximum
      distance with 10 for a missing or zero one. */
  function Output(u: User): (r: Listed)
    requires u.profile.Some?
    ensures r.id == u.id && r.name == u.name
    ensures r.position == u.profile.value.availability.preferredPositions
    ensures var md := u.profile.value.availability.maxDistance;
            r.maxDistance == (if md.None? || md.value == 0.0 then DefaultMaxDistance else md.value)
    ensures r.maxDistance != 0.0
    ensures r.availableUntil == u.profile.value.availability.availableUntil
  {
    var a := u.profile.value.availability;
    Listed(u.id, u.name, a.preferredPositions,
           if a.maxDistance.None? || a.maxDistance.value == 0.0 then DefaultMaxDistance else a.maxDistance.value,
           a.availableUntil)
  }

  function OutputAll(chosen: seq<User>): (r: seq<Listed>)
    requires forall k :: 0 <= k < |chosen| ==> chosen[k].profile.Some?
    ensures |r| == |chosen| && forall k :: 0 <= k < |chosen| ==> r[k] == Output(chosen[k])
  {
    seq(|chosen|, k requires 0 <= k < |chosen| => Output(chosen[k]))
  }

  datatype Body = Players(players: seq<Listed>) | Failure(error: string, details: seq<FieldError>)

  datatype Reply = Reply(status: int, body: Body)

  /** `GET`: 401 without a signed-in user, 400 without a latitude or a
      longitude, otherwise the listed players. */
  function Get(users: seq<User>, session: Option<Id>, q: Query, now: int, parseFloat: string -> Float,
               dist: (Float, Float, real, real) -> Float): (r: Reply)
    ensures r.status == 401 <==> session.None?
    ensures session.None? ==> r.body == Failure("Authentication required", [])
    ensures r.status == 400 <==> session.Some? && QueryErrors(q) != []
    ensures r.status == 400 ==> r.body == Failure("Invalid query parameters", QueryErrors(q))
    ensures r.status in {200, 400, 401}
    ensures r.status == 200 ==>
              var chosen := Selection(users, now, q.position, parseFloat(q.latitude.value), parseFloat(q.longitude.value),
                                      DistanceOf(q), dist, session.value);
              && (forall k :: 0 <= k < |chosen| ==> chosen[k].profile.Some?)
              && r.body == Players(OutputAll(chosen))
  {
    if session.None? then Reply(401, Failure("Authentication required", []))
    else
      var errors := QueryErrors(q);
      if errors != [] then Reply(400, Failure("Invalid query parameters", errors))
      else
        var chosen := Selection(users, now, q.position, parseFloat(q.latitude.value), parseFloat(q.longitude.value),
                                DistanceOf(q), dist, session.value);
        Reply(200, Players(OutputAll(chosen)))
  }

  /** A distance parameter that is not a number lists nobody: every
      comparison with NaN is false. */
  lemma NaNDistanceListsNobody(users: seq<User>, session: Id, q: Query, now: int, parseFloat: string -> Float,
                               dist: (Float, Float, real, real) -> Float)
    requires q.latitude.Some? && q.longitude.Some?
    requires DistanceOf(q).NaN?
    ensures Get(users, Some(session), q, now, parseFloat, dist) == Reply(200, Players([]))
  {
  }

  /** The requester never appears in their own search. */
  lemma RequesterNotListed(users: seq<User>, session: Id, q: Query, now: int, parseFloat: string -> Float,
                           dist: (Float, Float, real, real) -> Float)
    requires Get(users, Some(session), q, now, parseFloat, dist).status == 200
    ensures var ps := Get(users, Some(session), q, now, parseFloat, dist).body.players;
            forall k :: 0 <= k < |ps| ==> ps[k].id != session
  {
  }
}
