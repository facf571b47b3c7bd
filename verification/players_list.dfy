/** The list of available players (src/components/players/AvailablePlayersList.tsx):
    the query string it sends to the available-players route, the badge
    colour of a position, and the "time remaining" label.  The clock, `new
    Date(str)` and the number formatting of coordinates are parameters. */
module PlayersList {
  import opened Common
  import Text
  import AvailablePlayers
  import UserModel

  // Position badges

  const Gray: string := "bg-gray-500"

  /** The badge colour of a position: one colour for each of the four known
      positions, gray for anything else. */
  function PositionColor(pos: string): (c: string)
    ensures pos == "GK" <==> c == "bg-yellow-500"
    ensures pos == "DEF" <==> c == "bg-blue-500"
    ensures pos == "MID" <==> c == "bg-green-500"
    ensures pos == "FWD" <==> c == "bg-red-500"
    ensures c == Gray <==> pos != "GK" && pos != "DEF" && pos != "MID" && pos != "FWD"
  {
    if pos == "GK" then "bg-yellow-500"
    else if pos == "DEF" then "bg-blue-500"
    else if pos == "MID" then "bg-green-500"
    else if pos == "FWD" then "bg-red-500"
    else Gray
  }

  /** Whether a position is one of the four with a colour of its own. */
  predicate KnownPosition(pos: string) {
    pos == "GK" || pos == "DEF" || pos == "MID" || pos == "FWD"
  }

  /** A badge tells the known positions apart: two positions share a colour
      exactly when they are the same position or both unknown. */
  lemma ColorIdentifiesPosition(p: string, q: string)
    ensures PositionColor(p) == PositionColor(q) <==> p == q || (!KnownPosition(p) && !KnownPosition(q))
  {
  }

  // Time remaining

  /** A positive span of milliseconds as whole hours and the whole minutes
      left over. */
  function Split(diff: int): (hm: (nat, nat))
    requires diff > 0
    ensures hm.1 < 60
    ensures hm.0 * MsPerHour + hm.1 * MsPerMinute <= diff < hm.0 * MsPerHour + hm.1 * MsPerMinute + MsPerMinute
  {
    var h := diff / MsPerHour;
    var rest := diff % MsPerHour;
    var m := rest / MsPerMinute;
    assert h * MsPerHour + rest == diff;
    assert m * MsPerMinute <= rest < m * MsPerMinute + MsPerMinute;
    (h, m)
  }

  /** The label of `h` hours and `m` minutes: the hours only when there is
      at least one. */
  function Show(h: nat, m: nat): string {
    if h > 0 then Text.NatToString(h) + "h " + Text.NatToString(m) + "m remaining"
    else Text.NatToString(m) + "m remaining"
  }

  /** Reads a label back as hours and minutes; `None` for any text that is
      not "<digits>h <digits>m remaining" or "<digits>m remaining". */
  function ReadRemaining(s: string): Option<(nat, nat)> {
    var n := Text.DigitRun(s);
    if n == 0 then None
    else
      var a := Text.ParseNat(s[..n]);
      var rest := s[n..];
      if rest == "m remaining" then Some((0, a))
      else if |rest| >= 2 && rest[..2] == "h " then
        var t := rest[2..];
        var k := Text.DigitRun(t);
        if k > 0 && t[k..] == "m remaining" then Some((a, Text.ParseNat(t[..k]))) else None
      else None
  }

  /** A number followed by a suffix that does not start with a digit reads
      back as that number, leaving the suffix. */
  lemma ReadNumber(n: nat, tail: string)
    requires tail == [] || !Text.IsDigit(tail[0])
    ensures var s := Text.NatToString(n) + tail;
            var k := Text.DigitRun(s);
            && k == |Text.NatToString(n)| > 0
            && s[..k] == Text.NatToString(n) && s[k..] == tail
            && Text.ParseNat(s[..k]) == n
  {
    Text.DigitRunOfPrefix(Text.NatToString(n), tail);
    var s := Text.NatToString(n) + tail;
    assert s[..|Text.NatToString(n)|] == Text.NatToString(n);
    Text.NatToStringRoundTrip(n);
  }

  /** Every label reads back as the hours and minutes it shows. */
  lemma ShowRoundTrip(h: nat, m: nat)
    ensures ReadRemaining(Show(h, m)) == Some((h, m))
  {
    if h > 0 {
      var tail := "h " + Text.NatToString(m) + "m remaining";
      assert Show(h, m) == Text.NatToString(h) + tail;
      ReadNumber(h, tail);
      var t := tail[2..];
      assert t == Text.NatToString(m) + "m remaining";
      ReadNumber(m, "m remaining");
    } else {
      ReadNumber(m, "m remaining");
    }
  }

  /** The texts that are not a count of hours and minutes. */
  lemma OtherLabelsUnread()
    ensures ReadRemaining("Unknown").None?
    ensures ReadRemaining("No longer available").None?
    ensures ReadRemaining("NaNm remaining").None?
  {
    assert Text.DigitRun("Unknown") == 0;
    assert Text.DigitRun("No longer available") == 0;
    assert Text.DigitRun("NaNm remaining") == 0;
  }

  /** The label of a span still to come: it reads back as the span's hours
      and minutes, so it is none of the other labels. */
  function LeftLabel(diff: int): (r: string)
    requires diff > 0
    ensures ReadRemaining(r) == Some(Split(diff))
    ensures r != "Unknown" && r != "No longer available" && r != "NaNm remaining"
  {
    var hm := Split(diff);
    ShowRoundTrip(hm.0, hm.1);
    OtherLabelsUnread();
    Show(hm.0, hm.1)
  }

  /** `formatTimeRemaining`: "Unknown" without a date, "No longer available"
      once it has passed, otherwise the hours and minutes left.  An
      unparsable date makes every comparison false and prints NaN minutes. */
  function FormatTimeRemaining(dateString: Option<string>, parseDate: string -> Instant, now: int): (r: string)
    ensures r == "Unknown" <==> !Present(dateString)
    ensures Present(dateString) && parseDate(dateString.value).InvalidDate? ==> r == "NaNm remaining"
    ensures Present(dateString) && parseDate(dateString.value).At? && parseDate(dateString.value).ms <= now ==>
              r == "No longer available"
    ensures Present(dateString) && parseDate(dateString.value).At? && parseDate(dateString.value).ms > now ==>
              r == LeftLabel(parseDate(dateString.value).ms - now)
  {
    if !Present(dateString) then "Unknown"
    else match parseDate(dateString.value)
      case InvalidDate => "NaNm remaining"
      case At(until) =>
        if until - now <= 0 then "No longer available" else LeftLabel(until - now)
  }

  /** A label reads back as hours and minutes exactly when the date lies
      ahead, and then as the hours and minutes still to go. */
  lemma FormatReadsBack(dateString: Option<string>, parseDate: string -> Instant, now: int)
    ensures var r := FormatTimeRemaining(dateString, parseDate, now);
            && (ReadRemaining(r).Some? <==>
                  Present(dateString) && parseDate(dateString.value).At? && parseDate(dateString.value).ms > now)
            && (ReadRemaining(r).Some? ==> ReadRemaining(r).value == Split(parseDate(dateString.value).ms - now))
  {
    OtherLabelsUnread();
  }

  /** The total whole minutes of a span are its hours times 60 plus its
      leftover minutes. */
  lemma MinutesOfSplit(diff: int)
    requires diff > 0
    ensures diff / MsPerMinute == Split(diff).0 * 60 + Split(diff).1
  {
    var hm := Split(diff);
    var q := hm.0 * 60 + hm.1;
    assert q * MsPerMinute == hm.0 * MsPerHour + hm.1 * MsPerMinute;
    assert q * MsPerMinute <= diff < q * MsPerMinute + MsPerMinute;
  }

  /** Two spans get the same label exactly when they hold the same number of
      whole minutes: the label neither merges different minutes nor splits
      one. */
  lemma SameLabelSameMinute(a: int, b: int)
    requires a > 0 && b > 0
    ensures LeftLabel(a) == LeftLabel(b) <==> a / MsPerMinute == b / MsPerMinute
  {
    MinutesOfSplit(a);
    MinutesOfSplit(b);
    if a / MsPerMinute == b / MsPerMinute {
      assert Split(a) == Split(b);
    }
    if LeftLabel(a) == LeftLabel(b) {
      assert Split(a) == Split(b);
    }
  }

  // The search query

  /** `URLSearchParams`, as its name/value pairs in order. */
  type Params = seq<(string, string)>

  /** The query of `fetchAvailablePlayers`: latitude, longitude and distance
      always, then the position when one is selected.  `show` is the
      number-to-string conversion of the coordinates. */
  function SearchParams(lat: real, lon: real, distance: int, position: Option<string>, show: real -> string): (r: Params)
    ensures |r| == if Present(position) then 4 else 3
    ensures r[0] == ("latitude", show(lat)) && r[1] == ("longitude", show(lon))
    ensures r[2] == ("distance", Text.IntToString(distance))
    ensures Present(position) ==> r[3] == ("position", position.value)
  {
    [("latitude", show(lat)), ("longitude", show(lon)), ("distance", Text.IntToString(distance))]
    + if Present(position) then [("position", position.value)] else []
  }

  /** `Object.fromEntries(searchParams.entries())[name]`: a later pair
      overwrites an earlier one, so the value is the last one given under
      `name`. */
  function Lookup(ps: Params, name: string): (r: Option<string>)
    ensures r.Some? <==> exists k :: 0 <= k < |ps| && ps[k].0 == name
    decreases |ps|
  {
    if ps == [] then None
    else if ps[|ps| - 1].0 == name then Some(ps[|ps| - 1].1)
    else
      assert forall k :: 0 <= k < |ps| - 1 ==> ps[k] == ps[..|ps| - 1][k];
      Lookup(ps[..|ps| - 1], name)
  }

  /** The value `Lookup` finds is the one of the last pair with that name. */
  lemma {:induction false} LookupLast(ps: Params, name: string, k: nat)
    requires k < |ps| && ps[k].0 == name
    requires forall j :: k < j < |ps| ==> ps[j].0 != name
    ensures Lookup(ps, name) == Some(ps[k].1)
    decreases |ps|
  {
    if k < |ps| - 1 {
      LookupLast(ps[..|ps| - 1], name, k);
    }
  }

  /** The query the route reads from a parameter list. */
  function RouteQuery(ps: Params): AvailablePlayers.Query {
    AvailablePlayers.Query(Lookup(ps, "latitude"), Lookup(ps, "longitude"), Lookup(ps, "distance"),
                           Lookup(ps, "position"))
  }

  /** The route reads back every parameter the list sets, and no position
      when none is selected. */
  lemma SearchQuery(lat: real, lon: real, distance: int, position: Option<string>, show: real -> string)
    ensures RouteQuery(SearchParams(lat, lon, distance, position, show))
            == AvailablePlayers.Query(Some(show(lat)), Some(show(lon)), Some(Text.IntToString(distance)),
                                      if Present(position) then Some(position.value) else None)
  {
    var ps := SearchParams(lat, lon, distance, position, show);
    assert "latitude"[1] != "longitude"[1] && "latitude"[0] != "distance"[0] && "latitude"[0] != "position"[0];
    assert "longitude"[0] != "distance"[0] && "longitude"[0] != "position"[0] && "distance"[0] != "position"[0];
    LookupLast(ps, "latitude", 0);
    LookupLast(ps, "longitude", 1);
    LookupLast(ps, "distance", 2);
    if Present(position) {
      LookupLast(ps, "position", 3);
    }
  }

  /** What the list sends is what the route reads: the query passes its
      schema, the distance parses back to the slider value, and the position
      filter is on exactly when a position is selected. */
  lemma SearchReachesRoute(lat: real, lon: real, distance: int, position: Option<string>, show: real -> string)
    ensures var q := RouteQuery(SearchParams(lat, lon, distance, position, show));
            && AvailablePlayers.QueryErrors(q) == []
            && q.latitude == Some(show(lat)) && q.longitude == Some(show(lon))
            && AvailablePlayers.DistanceOf(q) == Int(distance)
            && (Present(q.position) <==> Present(position))
            && (Present(q.position) ==> q.position == position)
  {
    SearchQuery(lat, lon, distance, position, show);
    Text.IntToStringReadsBackAnyRadix(distance);
  }

  // The fetch

  const FetchFailed: string := "Failed to fetch available players"

  /** The list's state after a reply: the players and no error on success;
      otherwise the previous players and the route's error message, or the
      fallback message when the reply carries none. */
  function AfterFetch(previous: seq<AvailablePlayers.Listed>, reply: AvailablePlayers.Reply):
    (r: (seq<AvailablePlayers.Listed>, Option<string>))
    requires 200 <= reply.status < 300 ==> reply.body.Players?
    ensures r.1.None? <==> 200 <= reply.status < 300
    ensures r.1.None? ==> r.0 == reply.body.players
    ensures r.1.Some? ==> r.0 == previous && r.1.value != ""
    ensures r.1.Some? && reply.body.Failure? && reply.body.error != "" ==> r.1.value == reply.body.error
  {
    if 200 <= reply.status < 300 then (reply.body.players, None)
    else if reply.body.Failure? && reply.body.error != "" then (previous, Some(reply.body.error))
    else (previous, Some(FetchFailed))
  }

  /** A signed-in search shows the route's players with no error; a search
      without a session shows the route's authentication message. */
  lemma SearchOutcome(users: seq<UserModel.User>, session: Option<UserModel.Id>, lat: real, lon: real,
                      distance: int, position: Option<string>, show: real -> string, now: int,
                      parseFloat: string -> AvailablePlayers.Float,
                      dist: (AvailablePlayers.Float, AvailablePlayers.Float, real, real) -> AvailablePlayers.Float,
                      previous: seq<AvailablePlayers.Listed>)
    ensures var reply := AvailablePlayers.Get(users, session, RouteQuery(SearchParams(lat, lon, distance, position, show)),
                                              now, parseFloat, dist);
            && (200 <= reply.status < 300 ==> reply.body.Players?)
            && (session.Some? ==> AfterFetch(previous, reply) == (reply.body.players, None))
            && (session.None? ==> AfterFetch(previous, reply) == (previous, Some("Authentication required")))
  {
    SearchReachesRoute(lat, lon, distance, position, show);
  }
}
