/** The availability switch of a player
    (src/components/availability/PlayerAvailabilityToggle.tsx): its initial
    state, the preferred-position toggle, the request it sends when flipped
    and what it shows once the request has been answered.  The clock is a
    parameter; the geolocation prompt is an action, not modelled further. */
module AvailabilityToggle {
  import opened Common
  import UserModel
  import Listing

  const DefaultDuration: int := 2
  const DefaultMaxDistance: real := 10.0

  /** The component state that the switch reads and writes. */
  datatype State = State(
    isAvailable: bool,
    duration: int,
    maxDistance: real,
    preferredPositions: seq<string>,
    location: Option<UserModel.GeoPoint>)

  /** The first state: the stored availability where there is one, with
      `false`, 10 km and no positions in place of a missing or falsy value,
      and always two hours. */
  function Initial(init: Option<UserModel.Availability>): (s: State)
    ensures s.duration == DefaultDuration
    ensures s.isAvailable <==> init.Some? && init.value.isAvailable
    ensures init.None? ==> s == State(false, DefaultDuration, DefaultMaxDistance, [], None)
    ensures init.Some? ==> s.preferredPositions == init.value.preferredPositions && s.location == init.value.location
    ensures init.Some? && init.value.maxDistance.Some? && init.value.maxDistance.value != 0.0 ==>
              s.maxDistance == init.value.maxDistance.value
    ensures init.Some? && (init.value.maxDistance.None? || init.value.maxDistance.value == 0.0) ==>
              s.maxDistance == DefaultMaxDistance
  {
    match init
    case None => State(false, DefaultDuration, DefaultMaxDistance, [], None)
    case Some(a) =>
      State(a.isAvailable, DefaultDuration,
            if a.maxDistance.Some? && a.maxDistance.value != 0.0 then a.maxDistance.value else DefaultMaxDistance,
            a.preferredPositions, a.location)
  }

  /** `togglePosition`: a selected position is removed (every occurrence of
      it), any other position is added at the end; every other position
      keeps its number of occurrences. */
  function TogglePosition(prev: seq<string>, position: string): (r: seq<string>)
    ensures position in r <==> position !in prev
    ensures forall x :: x != position ==> (x in r <==> x in prev)
    ensures forall x :: x != position ==> multiset(r)[x] == multiset(prev)[x]
    ensures position !in prev ==> r == prev + [position]
    ensures position in prev ==> Listing.SubsequenceOf(r, prev) && |r| < |prev|
  {
    if position in prev then
      var ne := (p: string) => p != position;
      var r := Listing.Filter(prev, ne);
      assert forall x :: x in prev && x != position ==> x in r;
      forall x | x != position
        ensures multiset(r)[x] == multiset(prev)[x]
      {
        Listing.FilterMultiplicity(prev, ne, x);
      }
      assert |r| != |prev| by {
        if |r| == |prev| {
          assert r == prev by { LengthOfSubsequence(r, prev); }
          assert false;
        }
      }
      r
    else
      prev + [position]
  }

  /** A subsequence as long as the list is the list. */
  lemma {:induction false} LengthOfSubsequence(a: seq<string>, b: seq<string>)
    requires Listing.SubsequenceOf(a, b) && |a| == |b|
    ensures a == b
    decreases |b|
  {
    if |b| > 0 {
      if a[0] == b[0] {
        LengthOfSubsequence(a[1..], b[1..]);
        assert a == [a[0]] + a[1..];
      } else {
        SubsequenceShorter(a, b[1..]);
        assert false;
      }
    }
  }

  /** A subsequence is never longer than the list. */
  lemma {:induction false} SubsequenceShorter(a: seq<string>, b: seq<string>)
    requires Listing.SubsequenceOf(a, b)
    ensures |a| <= |b|
    decreases |b|
  {
    if |a| > 0 && |b| > 0 {
      if a[0] == b[0] {
        SubsequenceShorter(a[1..], b[1..]);
      } else {
        SubsequenceShorter(a, b[1..]);
      }
    }
  }

  /** Selecting a position and deselecting it again restores the list. */
  lemma ToggleTwiceRestores(prev: seq<string>, position: string)
    requires position !in prev
    ensures TogglePosition(TogglePosition(prev, position), position) == prev
  {
    var ne := (p: string) => p != position;
    Listing.FilterSnoc(prev, position, ne);
    assert forall k :: 0 <= k < |prev| ==> ne(prev[k]);
  }

  /** Deselecting a position and selecting it again moves it to the end,
      once. */
  lemma ToggleTwiceMovesToEnd(prev: seq<string>, position: string)
    requires position in prev
    ensures TogglePosition(TogglePosition(prev, position), position)
            == Listing.Filter(prev, (p: string) => p != position) + [position]
  {
  }

  /** The body of the `PUT` request; a field left `undefined` is `None`. */
  datatype Payload = Payload(
    isAvailable: bool,
    availableUntil: int,
    preferredPositions: Option<seq<string>>,
    maxDistance: real,
    location: Option<UserModel.GeoPoint>,
    lastUpdated: int)

  /** What flipping the switch does: ask the browser for a location, or
      send the request. */
  datatype Action = AskLocation | Send(payload: Payload)

  /** `handleAvailabilityToggle` up to the request: turning availability on
      without a known location only asks for one; otherwise the request
      asks for the opposite of the current state, until `duration` hours
      from now, with the positions and the location only when there are
      any. */
  function HandleToggle(s: State, now: int): (a: Action)
    ensures a.AskLocation? <==> !s.isAvailable && s.location.None?
    ensures a.Send? ==> var p := a.payload;
              && p.isAvailable == !s.isAvailable
              && p.availableUntil == now + s.duration * MsPerHour && p.lastUpdated == now
              && (p.preferredPositions.None? <==> s.preferredPositions == [])
              && (p.preferredPositions.Some? ==> p.preferredPositions.value == s.preferredPositions)
              && p.maxDistance == s.maxDistance
              && p.location == s.location
  {
    if !s.isAvailable && s.location.None? then AskLocation
    else
      Send(Payload(!s.isAvailable, now + s.duration * MsPerHour,
                   if |s.preferredPositions| > 0 then Some(s.preferredPositions) else None,
                   s.maxDistance, s.location, now))
  }

  /** The answer to the request: success, or a failure with the route's
      error message (possibly empty). */
  datatype Response = Done | Refused(error: string)

  const UpdateFailed: string := "Failed to update availability"

  /** The state and the notice after the answer: the switch flips only on
      success; a failure keeps it and shows the route's message, or the
      fallback one. */
  function AfterResponse(s: State, r: Response): (out: (State, string))
    ensures out.0.isAvailable == (if r.Done? then !s.isAvailable else s.isAvailable)
    ensures out.0 == s.(isAvailable := out.0.isAvailable)
    ensures r.Done? && !s.isAvailable ==> out.1 == "You are now available for matches!"
    ensures r.Done? && s.isAvailable ==> out.1 == "You are no longer available for matches"
    ensures r.Refused? ==> out.1 == (if r.error != "" then r.error else UpdateFailed)
  {
    match r
    case Done =>
      (s.(isAvailable := !s.isAvailable),
       if !s.isAvailable then "You are now available for matches!" else "You are no longer available for matches")
    case Refused(e) => (s, if e != "" then e else UpdateFailed)
  }

  /** After a successful request the switch shows what the request asked
      for. */
  lemma SwitchMatchesRequest(s: State, now: int)
    requires HandleToggle(s, now).Send?
    ensures AfterResponse(s, Done).0.isAvailable == HandleToggle(s, now).payload.isAvailable
  {
  }

  /** Turning availability on with a location sends a request for the
      stored location, ending `duration` hours from now. */
  lemma TurnOnSends(s: State, now: int)
    requires !s.isAvailable && s.location.Some?
    ensures HandleToggle(s, now).Send?
    ensures HandleToggle(s, now).payload.isAvailable
    ensures HandleToggle(s, now).payload.location == s.location
    ensures HandleToggle(s, now).payload.availableUntil > now <==> s.duration > 0
  {
  }
}
