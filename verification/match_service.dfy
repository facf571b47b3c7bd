/** `MatchService` (src/services/match.service.ts) over an in-memory
    collection of matches.  The collection is a sequence in its natural
    (insertion) order; ids are unique in it.  Every operation returns the
    new collection together with its answer, or the message it throws.
    The `withRetry` wrapping is modelled once, in module Retry: these
    operations are deterministic in the collection, so retrying them changes
    only the number of attempts (Retry.RetryOfDeterministic). */
module MatchService {
  import opened Common
  import opened MatchModel
  import Listing

  type Store = seq<Match>

  const DefaultLimit: int := 10
  const DefaultSkip: int := 0

  predicate UniqueIds(store: Store) {
    forall i, j :: 0 <= i < j < |store| ==> store[i].id != store[j].id
  }

  predicate Distinct(s: seq<Id>) {
    forall i, j :: 0 <= i < j < |s| ==> s[i] != s[j]
  }

  /** The roster invariant: no player twice in a roster, none in both. */
  predicate RostersWellFormed(m: Match) {
    Distinct(m.home) && Distinct(m.away) && forall p :: p in m.home ==> p !in m.away
  }

  predicate Valid(store: Store) {
    UniqueIds(store) && forall k :: 0 <= k < |store| ==> RostersWellFormed(store[k])
  }

  /** Position of the first match with the given id (`findById`). */
  function IndexOf(store: Store, id: Id): (r: Option<nat>)
    ensures r.Some? ==> r.value < |store| && store[r.value].id == id
    ensures r.Some? ==> forall k :: 0 <= k < r.value ==> store[k].id != id
    ensures r.None? ==> forall k :: 0 <= k < |store| ==> store[k].id != id
  {
    Listing.FirstIndex(store, (m: Match) => m.id == id)
  }

  /** A successful write: the new collection and the match as saved. */
  datatype Saved = Saved(store: Store, saved: Match)

  /** `createMatch`: a scheduled match with empty rosters and a 0-0 score.
      `newId` is the key the data layer assigns and `freshId` the default
      of the schema's `id` path. */
  function CreateMatch(store: Store, newId: Id, freshId: string, date: Instant, location: Location, createdBy: Id,
                       now: int): (r: Result<Saved>)
    ensures r.Ok? <==> date.At? && location.name != "" && location.address != "" && location.city != ""
                       && createdBy != "" && freshId != "" && IndexOf(store, newId).None?
    ensures r.Ok? ==> r.value.store == store + [r.value.saved]
    ensures r.Ok? ==> var m := r.value.saved;
                      && m.id == newId && m.idPath == freshId && m.status == Scheduled && m.home == [] && m.away == []
                      && m.scores == Scores(0, 0) && m.date == date.ms && m.location == location
                      && m.createdBy == createdBy
    ensures r.Ok? && Valid(store) ==> Valid(r.value.store)
  {
    var draft := CreateDraft(date, location, createdBy);
    ValidateCreateDraft(date, location, createdBy, newId, freshId, now);
    match ValidateMatch(draft, newId, freshId, now)
    case Err(msg) => Err("Failed to create match: " + msg)
    case Ok(m) =>
      if IndexOf(store, newId).Some? then Err("Failed to create match: E11000 duplicate key error")
      else
        AppendKeepsValid(store, m);
        Ok(Saved(store + [m], m))
  }

  /** The document `createMatch` hands to the data layer: a scheduled match
      with empty rosters and a 0-0 score, and no `id` path of its own. */
  function CreateDraft(date: Instant, location: Location, createdBy: Id): MatchDraft {
    MatchDraft(None, date, Some(DraftOf(location)), [], [], Some(StatusName(Scheduled)), Some(0), Some(0), createdBy)
  }

  /** The creation draft is valid iff its date is valid and its text fields
      and `id` path are non-empty, and it is stored as given. */
  lemma ValidateCreateDraft(date: Instant, location: Location, createdBy: Id, newId: Id, freshId: string, now: int)
    ensures var v := ValidateMatch(CreateDraft(date, location, createdBy), newId, freshId, now);
            && (v.Ok? <==> date.At? && location.name != "" && location.address != "" && location.city != ""
                           && createdBy != "" && freshId != "")
            && (v.Ok? ==> v.value == Match(newId, freshId, date.ms, location, [], [], Scheduled, Scores(0, 0),
                                           createdBy, now, now))
  {
    StatusRoundTrip(Scheduled);
    var v := ValidateMatch(CreateDraft(date, location, createdBy), newId, freshId, now);
    if v.Ok? {
      DraftOfInjective(v.value.location, location);
    }
  }

  lemma DraftOfInjective(a: Location, b: Location)
    requires DraftOf(a) == DraftOf(b)
    ensures a == b
  {
  }

  /** Appending a match with a new key and well-formed rosters keeps the
      collection valid. */
  lemma AppendKeepsValid(store: Store, m: Match)
    requires IndexOf(store, m.id).None? && RostersWellFormed(m)
    ensures Valid(store) ==> Valid(store + [m])
  {
    var after := store + [m];
    assert forall k :: 0 <= k < |store| ==> after[k] == store[k];
  }

  /** `getMatchById`: the match with that id, or null (not an error). */
  function GetMatchById(store: Store, id: Id): (r: Option<Match>)
    ensures r.Some? <==> exists k :: 0 <= k < |store| && store[k].id == id
    ensures r.Some? ==> r.value in store && r.value.id == id
  {
    match IndexOf(store, id)
    case None => None
    case Some(i) => Some(store[i])
  }

  datatype DateRange = DateRange(start: Instant, end: Instant)

  /** The filters of `getMatches`; every field is optional. */
  datatype MatchFilters = MatchFilters(
    status: Option<string>,
    city: Option<string>,
    date: Option<DateRange>,
    limit: Option<Num>,
    skip: Option<Num>)

  predicate Within(range: DateRange, t: int) {
    range.start.At? && range.end.At? && range.start.ms <= t <= range.end.ms
  }

  /** The query `getMatches` builds: each predicate applies only when its
      filter is supplied (a falsy status or city is not), and they combine
      conjunctively; the date range is inclusive at both ends. */
  predicate Selects(f: MatchFilters, m: Match) {
    && (Present(f.status) ==> StatusName(m.status) == f.status.value)
    && (Present(f.city) ==> m.location.city == f.city.value)
    && (f.date.Some? ==> Within(f.date.value, m.date))
  }

  function Selected(store: Store, f: MatchFilters): seq<Match> {
    Listing.Filter(store, m => Selects(f, m))
  }

  function DateKey(m: Match): int {
    m.date
  }

  datatype MatchPage = MatchPage(matches: seq<Match>, total: nat)

  /** `getMatches`: the selected matches sorted by ascending date, the
      `skip`/`limit` window of them (limit 10 and skip 0 when falsy), and
      the number selected before paging.  An invalid date bound or a
      negative skip makes the data layer throw. */
  function GetMatches(store: Store, f: MatchFilters): (r: Result<MatchPage>)
    ensures r.Err? <==> (f.date.Some? && (f.date.value.start.InvalidDate? || f.date.value.end.InvalidDate?))
                        || OrDefault(f.skip, DefaultSkip) < 0
    ensures r.Ok? ==> r.value.total == |Selected(store, f)|
    ensures r.Ok? ==> forall k :: 0 <= k < |r.value.matches| ==>
                        r.value.matches[k] in store && Selects(f, r.value.matches[k])
    ensures r.Ok? ==> Listing.SortedBy(r.value.matches, DateKey)
    ensures r.Ok? ==> OrDefault(f.skip, DefaultSkip) >= 0
                      && Listing.PageOfSorted(r.value.matches, Selected(store, f), DateKey, OrDefault(f.skip, DefaultSkip))
    ensures r.Ok? ==> |r.value.matches| ==
                      Listing.Taken(Max(0, r.value.total - OrDefault(f.skip, DefaultSkip)), OrDefault(f.limit, DefaultLimit))
    ensures r.Ok? ==> |r.value.matches| <= Abs(OrDefault(f.limit, DefaultLimit))
  {
    if f.date.Some? && (f.date.value.start.InvalidDate? || f.date.value.end.InvalidDate?) then
      Err("Failed to get matches: Cast to date failed")
    else
      var selected := Selected(store, f);
      match SortedPage(selected, OrDefault(f.skip, DefaultSkip), OrDefault(f.limit, DefaultLimit))
      case Err(msg) => Err("Failed to get matches: " + msg)
      case Ok(page) => Ok(MatchPage(page, |selected|))
  }

  /** The `skip`/`limit` window of some matches sorted by date: the run
      starting at `skip` of an ordering of them by date. */
  function SortedPage(selected: seq<Match>, skip: int, limit: int): (r: Result<seq<Match>>)
    ensures r.Err? <==> skip < 0
    ensures r.Ok? ==> forall k :: 0 <= k < |r.value| ==> r.value[k] in selected
    ensures r.Ok? ==> Listing.SortedBy(r.value, DateKey)
    ensures r.Ok? ==> skip >= 0 && Listing.PageOfSorted(r.value, selected, DateKey, skip)
    ensures r.Ok? ==> |r.value| == Listing.Taken(Max(0, |selected| - skip), limit)
  {
    var sorted := Listing.SortBy(selected, DateKey);
    match Listing.Window(sorted, skip, limit)
    case Err(msg) => Err(msg)
    case Ok(page) =>
      Listing.WindowKeepsOrder(sorted, skip, limit, DateKey);
      Listing.WindowOfSorted(selected, skip, limit, DateKey);
      assert forall k :: 0 <= k < |page| ==> page[k] in multiset(sorted);
      Ok(page)
  }

  /** When no two selected matches share a date the page is determined:
      its `k`-th match is the selected match with exactly `skip + k`
      selected matches dated before it. */
  lemma PageByDate(store: Store, f: MatchFilters, k: nat)
    requires GetMatches(store, f).Ok?
    requires Listing.DistinctKeys(Selected(store, f), DateKey)
    requires k < |GetMatches(store, f).value.matches|
    ensures var m := GetMatches(store, f).value.matches[k];
            && m in Selected(store, f)
            && Listing.Earlier(Selected(store, f), DateKey, m.date) == OrDefault(f.skip, DefaultSkip) + k
  {
    var page := GetMatches(store, f).value.matches;
    Listing.PageRank(page, Selected(store, f), DateKey, OrDefault(f.skip, DefaultSkip), k);
  }

  /** `joinMatch`: the player is appended to the chosen roster of a
      scheduled match they are not yet on; nothing else about the match
      changes except its update time. */
  function JoinMatch(store: Store, matchId: Id, playerId: Id, team: Team, now: int): (r: Result<Saved>)
    ensures IndexOf(store, matchId).None? ==> r == Err("Failed to join match: Match not found")
    ensures IndexOf(store, matchId).Some? && store[IndexOf(store, matchId).value].status != Scheduled ==>
              r == Err("Failed to join match: Cannot join a match that is not in scheduled status")
    ensures IndexOf(store, matchId).Some? && store[IndexOf(store, matchId).value].status == Scheduled
            && store[IndexOf(store, matchId).value].Plays(playerId) ==>
              r == Err("Failed to join match: Player is already in a team")
    ensures r.Ok? <==> IndexOf(store, matchId).Some? && store[IndexOf(store, matchId).value].status == Scheduled
                       && !store[IndexOf(store, matchId).value].Plays(playerId)
    ensures r.Ok? ==> var i := IndexOf(store, matchId).value; var old_ := store[i]; var m := r.value.saved;
                      && r.value.store == store[i := m]
                      && m.Roster(team) == old_.Roster(team) + [playerId]
                      && m.Roster(if team == Home then Away else Home) == old_.Roster(if team == Home then Away else Home)
                      && m.updatedAt == now
                      && m.(home := old_.home, away := old_.away, updatedAt := old_.updatedAt) == old_
    ensures r.Ok? && RostersWellFormed(store[IndexOf(store, matchId).value]) ==> RostersWellFormed(r.value.saved)
  {
    match IndexOf(store, matchId)
    case None => Err("Failed to join match: Match not found")
    case Some(i) =>
      var m := store[i];
      if m.status != Scheduled then
        Err("Failed to join match: Cannot join a match that is not in scheduled status")
      else if m.Plays(playerId) then
        Err("Failed to join match: Player is already in a team")
      else
        var joined := if team == Home then m.(home := m.home + [playerId], updatedAt := now)
                      else m.(away := m.away + [playerId], updatedAt := now);
        Ok(Saved(store[i := joined], joined))
  }

  /** Joining keeps the whole collection valid: ids stay unique and every
      match keeps disjoint, duplicate-free rosters. */
  lemma JoinPreservesValid(store: Store, matchId: Id, playerId: Id, team: Team, now: int)
    requires Valid(store)
    requires JoinMatch(store, matchId, playerId, team, now).Ok?
    ensures Valid(JoinMatch(store, matchId, playerId, team, now).value.store)
  {
    var i := IndexOf(store, matchId).value;
    var s' := JoinMatch(store, matchId, playerId, team, now).value.store;
    assert RostersWellFormed(store[i]);
    forall k | 0 <= k < |s'|
      ensures RostersWellFormed(s'[k])
    {
      if k != i {
        assert s'[k] == store[k];
      }
    }
  }

  /** A player who has joined a match cannot join it again, on either side. */
  lemma JoinTwiceFails(store: Store, matchId: Id, playerId: Id, team: Team, team2: Team, now: int, now2: int)
    requires JoinMatch(store, matchId, playerId, team, now).Ok?
    ensures JoinMatch(JoinMatch(store, matchId, playerId, team, now).value.store, matchId, playerId, team2, now2)
            == Err("Failed to join match: Player is already in a team")
  {
    var i := IndexOf(store, matchId).value;
    var s' := JoinMatch(store, matchId, playerId, team, now).value.store;
    assert s'[i].id == matchId;
    assert forall k :: 0 <= k < i ==> s'[k] == store[k];
    assert IndexOf(s', matchId) == Some(i);
    assert playerId in s'[i].Roster(team);
  }

  /** `updateMatchStatus`: any status may follow any other; the scores are
      replaced only when supplied; nothing but the status, the scores and
      the update time changes, and the update time moves only when the
      status or the scores actually change (assigning an equal value does
      not mark a path modified, and the timestamps are set on save only for
      a modified document). */
  function UpdateMatchStatus(store: Store, matchId: Id, status: Status, scores: Option<Scores>, now: int)
    : (r: Result<Saved>)
    ensures r.Err? <==> IndexOf(store, matchId).None?
    ensures r.Err? ==> r.msg == "Failed to update match status: Match not found"
    ensures r.Ok? ==> var i := IndexOf(store, matchId).value; var m := r.value.saved;
                      && r.value.store == store[i := m]
                      && m.status == status
                      && m.scores == (if scores.Some? then scores.value else store[i].scores)
                      && m.updatedAt == (if m.status == store[i].status && m.scores == store[i].scores
                                         then store[i].updatedAt else now)
                      && m.(status := store[i].status, scores := store[i].scores, updatedAt := store[i].updatedAt) == store[i]
  {
    match IndexOf(store, matchId)
    case None => Err("Failed to update match status: Match not found")
    case Some(i) =>
      var x := store[i];
      var scores' := if scores.Some? then scores.value else x.scores;
      var modified := status != x.status || scores' != x.scores;
      var m := x.(status := status, scores := scores', updatedAt := if modified then now else x.updatedAt);
      Ok(Saved(store[i := m], m))
  }

  /** Setting the same status and scores again changes nothing, not even
      the update time. */
  lemma UpdateMatchStatusIdempotent(store: Store, matchId: Id, status: Status, scores: Option<Scores>, t1: int,
                                    t2: int)
    requires UpdateMatchStatus(store, matchId, status, scores, t1).Ok?
    ensures var once := UpdateMatchStatus(store, matchId, status, scores, t1).value;
            var twice := UpdateMatchStatus(once.store, matchId, status, scores, t2);
            && twice.Ok? && twice.value == once
  {
    var once := UpdateMatchStatus(store, matchId, status, scores, t1).value;
    var i := IndexOf(store, matchId).value;
    assert once.store[i].id == matchId;
    assert forall k :: 0 <= k < i ==> once.store[k] == store[k];
    assert IndexOf(once.store, matchId) == Some(i);
  }

  /** Updating the status leaves the set of matches, their keys and their
      rosters alone, so the collection stays valid. */
  lemma UpdateMatchStatusKeepsValid(store: Store, matchId: Id, status: Status, scores: Option<Scores>, now: int)
    requires Valid(store) && UpdateMatchStatus(store, matchId, status, scores, now).Ok?
    ensures Valid(UpdateMatchStatus(store, matchId, status, scores, now).value.store)
  {
    var after := UpdateMatchStatus(store, matchId, status, scores, now).value.store;
    var i := IndexOf(store, matchId).value;
    assert forall k :: 0 <= k < |after| ==> after[k].id == store[k].id && after[k].Roster(Home) == store[k].Roster(Home)
                                            && after[k].Roster(Away) == store[k].Roster(Away);
  }

  /** No lifecycle order is enforced: a completed match can be set back to
      scheduled, after which players may join it again. */
  lemma CompletedCanReturnToScheduled(store: Store, matchId: Id, now: int)
    requires IndexOf(store, matchId).Some?
    requires store[IndexOf(store, matchId).value].status == Completed
    ensures UpdateMatchStatus(store, matchId, Scheduled, None, now).Ok?
    ensures UpdateMatchStatus(store, matchId, Scheduled, None, now).value.saved.status == Scheduled
  {
  }

  /** `deleteMatch`: removes the match, or fails when nothing was deleted. */
  function DeleteMatch(store: Store, matchId: Id): (r: Result<Store>)
    ensures r.Err? <==> IndexOf(store, matchId).None?
    ensures r.Err? ==> r.msg == "Failed to delete match: Match not found"
    ensures r.Ok? ==> |r.value| == |store| - 1
    ensures r.Ok? ==> var i := IndexOf(store, matchId).value;
                      forall k :: 0 <= k < |r.value| ==> r.value[k] == (if k < i then store[k] else store[k + 1])
    ensures r.Ok? && UniqueIds(store) ==> IndexOf(r.value, matchId).None?
    ensures r.Ok? && Valid(store) ==> Valid(r.value)
  {
    match IndexOf(store, matchId)
    case None => Err("Failed to delete match: Match not found")
    case Some(i) => Ok(store[..i] + store[i + 1..])
  }
}
