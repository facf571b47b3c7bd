/** `RatingService` (src/services/rating.service.ts) over an in-memory
    collection of ratings in natural order, next to the collection of
    matches it consults. */
module RatingService {
  import opened Common
  import opened RatingModel
  import Validation
  import MatchModel
  import MatchService
  import Listing

  type Ratings = seq<Rating>

  predicate UniqueIds(ratings: Ratings) {
    forall i, j :: 0 <= i < j < |ratings| ==> ratings[i].id != ratings[j].id
  }

  function IndexOf(ratings: Ratings, id: Id): (r: Option<nat>)
    ensures r.Some? ==> r.value < |ratings| && ratings[r.value].id == id
    ensures r.Some? ==> forall k :: 0 <= k < r.value ==> ratings[k].id != id
    ensures r.None? ==> forall k :: 0 <= k < |ratings| ==> ratings[k].id != id
  {
    Listing.FirstIndex(ratings, (x: Rating) => x.id == id)
  }

  /** Whether some stored rating has the same (match, player, rater). */
  function TripleTaken(ratings: Ratings, matchId: Id, playerId: Id, raterId: Id): (b: bool)
    ensures b <==> exists k :: 0 <= k < |ratings| && ratings[k].matchId == matchId
                              && ratings[k].playerId == playerId && ratings[k].raterId == raterId
  {
    Listing.FirstIndex(ratings, (x: Rating) => x.matchId == matchId && x.playerId == playerId && x.raterId == raterId).Some?
  }

  datatype Saved = Saved(ratings: Ratings, saved: Rating)

  /** `createRating`: only for a completed match the player was on; the
      rating stored is exactly the one given.  A second rating for the
      same (match, player, rater) is refused by the unique index.  `newId`
      is the key the data layer assigns and `freshId` the default of the
      schema's `id` path. */
  function CreateRating(ratings: Ratings, matches: MatchService.Store, newId: Id, freshId: string, matchId: Id,
                        playerId: Id, raterId: Id, skills: Skills, comments: Option<string>, now: int)
    : (r: Result<Saved>)
    ensures MatchService.GetMatchById(matches, matchId).None? ==> r == Err("Failed to create rating: Match not found")
    ensures MatchService.GetMatchById(matches, matchId).Some?
            && MatchService.GetMatchById(matches, matchId).value.status != MatchModel.Completed ==>
              r == Err("Failed to create rating: Can only rate players after match is completed")
    ensures MatchService.GetMatchById(matches, matchId).Some?
            && MatchService.GetMatchById(matches, matchId).value.status == MatchModel.Completed
            && !MatchService.GetMatchById(matches, matchId).value.Plays(playerId) ==>
              r == Err("Failed to create rating: Player was not in this match")
    ensures r.Ok? <==> && MatchService.GetMatchById(matches, matchId).Some?
                       && MatchService.GetMatchById(matches, matchId).value.status == MatchModel.Completed
                       && MatchService.GetMatchById(matches, matchId).value.Plays(playerId)
                       && freshId != "" && matchId != "" && playerId != "" && raterId != ""
                       && SkillsInRange(skills) && CommentOk(comments)
                       && !TripleTaken(ratings, matchId, playerId, raterId)
                       && IndexOf(ratings, newId).None?
    ensures r.Ok? ==> r.value.ratings == ratings + [r.value.saved]
    ensures r.Ok? ==> var x := r.value.saved;
                      && x.id == newId && x.idPath == freshId && x.matchId == matchId && x.playerId == playerId
                      && x.raterId == raterId && x.skills == skills && x.comments == comments
                      && x.createdAt == now && x.updatedAt == now
    ensures r.Ok? && UniqueTriples(ratings) ==> UniqueTriples(r.value.ratings)
    ensures r.Ok? && UniqueIds(ratings) ==> UniqueIds(r.value.ratings)
  {
    match MatchService.GetMatchById(matches, matchId)
    case None => Err("Failed to create rating: Match not found")
    case Some(m) =>
      if m.status != MatchModel.Completed then
        Err("Failed to create rating: Can only rate players after match is completed")
      else if !m.Plays(playerId) then
        Err("Failed to create rating: Player was not in this match")
      else
        InsertRating(ratings, newId, freshId, RatingDraft(None, matchId, playerId, raterId, Some(skills), comments), now)
  }

  /** `RatingModel.create` once the service's own checks have passed:
      validation, then the unique indexes on the key and on the triple. */
  function InsertRating(ratings: Ratings, newId: Id, freshId: string, d: RatingDraft, now: int): (r: Result<Saved>)
    requires d.idPath.None? && d.skills.Some?
    ensures r.Ok? <==> && freshId != "" && d.matchId != "" && d.playerId != "" && d.raterId != ""
                       && SkillsInRange(d.skills.value) && CommentOk(d.comments)
                       && !TripleTaken(ratings, d.matchId, d.playerId, d.raterId)
                       && IndexOf(ratings, newId).None?
    ensures ValidateRating(d, newId, freshId, now).Err? ==>
              r == Err("Failed to create rating: " + Validation.ValidationMessage("Rating", RatingIssues(d, freshId)))
    ensures r.Ok? ==> r.value.ratings == ratings + [r.value.saved]
    ensures r.Ok? ==> r.value.saved == Rating(newId, freshId, d.matchId, d.playerId, d.raterId, d.skills.value,
                                              d.comments, now, now)
    ensures r.Ok? && UniqueTriples(ratings) ==> UniqueTriples(r.value.ratings)
    ensures r.Ok? && UniqueIds(ratings) ==> UniqueIds(r.value.ratings)
  {
    match ValidateRating(d, newId, freshId, now)
    case Err(msg) => Err("Failed to create rating: " + msg)
    case Ok(x) =>
      if TripleTaken(ratings, d.matchId, d.playerId, d.raterId) || IndexOf(ratings, newId).Some? then
        Err("Failed to create rating: E11000 duplicate key error")
      else
        AppendKeepsUnique(ratings, x);
        Ok(Saved(ratings + [x], x))
  }

  /** Appending a rating whose key and triple are free keeps both unique
      indexes. */
  lemma AppendKeepsUnique(ratings: Ratings, x: Rating)
    requires !TripleTaken(ratings, x.matchId, x.playerId, x.raterId) && IndexOf(ratings, x.id).None?
    ensures UniqueTriples(ratings) ==> UniqueTriples(ratings + [x])
    ensures UniqueIds(ratings) ==> UniqueIds(ratings + [x])
  {
    var after := ratings + [x];
    assert forall k :: 0 <= k < |ratings| ==> after[k] == ratings[k];
  }

  /** Rating the same player in the same match twice, as the same rater,
      fails the second time. */
  lemma SecondRatingRefused(ratings: Ratings, matches: MatchService.Store, id1: Id, id2: Id, f1: string, f2: string,
                            matchId: Id, playerId: Id, raterId: Id, s1: Skills, s2: Skills, c1: Option<string>,
                            c2: Option<string>, t1: int, t2: int)
    requires CreateRating(ratings, matches, id1, f1, matchId, playerId, raterId, s1, c1, t1).Ok?
    ensures CreateRating(CreateRating(ratings, matches, id1, f1, matchId, playerId, raterId, s1, c1, t1).value.ratings,
                         matches, id2, f2, matchId, playerId, raterId, s2, c2, t2).Err?
  {
    var after := CreateRating(ratings, matches, id1, f1, matchId, playerId, raterId, s1, c1, t1).value.ratings;
    assert after[|ratings|].matchId == matchId && after[|ratings|].playerId == playerId
           && after[|ratings|].raterId == raterId;
    assert TripleTaken(after, matchId, playerId, raterId);
  }

  /** The query options of `getPlayerRatings`; each is optional. */
  datatype RatingQuery = RatingQuery(limit: Option<int>, skip: Option<int>, sortBy: Option<string>, order: Option<string>)

  const DefaultLimit: int := 10

  function CreatedAsc(x: Rating): int { x.createdAt }
  function CreatedDesc(x: Rating): int { -x.createdAt }
  function AverageAsc(x: Rating): int { SkillsAverageTenths(x.skills) }
  function AverageDesc(x: Rating): int { -SkillsAverageTenths(x.skills) }

  /** Destructuring defaults: they apply only to missing options. */
  function LimitOf(q: RatingQuery): int { if q.limit.Some? then q.limit.value else DefaultLimit }
  function SkipOf(q: RatingQuery): int { if q.skip.Some? then q.skip.value else 0 }
  predicate ByDate(q: RatingQuery) { q.sortBy.None? || q.sortBy.value == "date" }
  predicate Descending(q: RatingQuery) { q.order.None? || q.order.value == "desc" }

  /** The sort: on `createdAt` for "date", on the average otherwise, with
      "desc" meaning -1 (newest or best first). */
  function SortKey(q: RatingQuery): Rating -> int {
    if ByDate(q) then (if Descending(q) then CreatedDesc else CreatedAsc)
    else (if Descending(q) then AverageDesc else AverageAsc)
  }

  function ForPlayer(ratings: Ratings, playerId: Id): (r: Ratings)
    ensures forall k :: 0 <= k < |r| ==> r[k] in ratings && r[k].playerId == playerId
    ensures forall k :: 0 <= k < |ratings| && ratings[k].playerId == playerId ==> ratings[k] in r
    ensures (forall k :: 0 <= k < |ratings| ==> ratings[k].playerId == playerId) ==> r == ratings
  {
    Listing.Filter(ratings, (x: Rating) => x.playerId == playerId)
  }

  datatype RatingPage = RatingPage(ratings: Ratings, total: nat)

  /** The sorted `skip`/`limit` window of one player's ratings: the run
      starting at `skip` of an ordering of them by `key`. */
  function SortedWindow(mine: Ratings, key: Rating -> int, skip: int, limit: int): (r: Result<Ratings>)
    ensures r.Err? <==> skip < 0
    ensures r.Ok? ==> |r.value| == Listing.Taken(Max(0, |mine| - skip), limit)
    ensures r.Ok? ==> Listing.SortedBy(r.value, key)
    ensures r.Ok? ==> forall k :: 0 <= k < |r.value| ==> r.value[k] in mine
    ensures r.Ok? ==> skip >= 0 && Listing.PageOfSorted(r.value, mine, key, skip)
  {
    var sorted := Listing.SortBy(mine, key);
    match Listing.Window(sorted, skip, limit)
    case Err(msg) => Err("Failed to get player ratings: " + msg)
    case Ok(page) =>
      Listing.WindowKeepsOrder(sorted, skip, limit, key);
      Listing.WindowOfSorted(mine, skip, limit, key);
      assert forall k :: 0 <= k < |page| ==> page[k] in multiset(sorted) by {
        forall k | 0 <= k < |page| ensures page[k] in multiset(sorted) {
          assert page[k] == sorted[skip + k];
        }
      }
      Ok(page)
  }

  /** `getPlayerRatings`: the player's ratings, sorted on the key the query
      asks for, cut to the `skip`/`limit` window, with the count of all the
      player's ratings. */
  function GetPlayerRatings(ratings: Ratings, playerId: Id, q: RatingQuery): (r: Result<RatingPage>)
    ensures r.Err? <==> SkipOf(q) < 0
    ensures r.Ok? ==> r.value.total == |ForPlayer(ratings, playerId)|
    ensures r.Ok? ==> forall k :: 0 <= k < |r.value.ratings| ==>
                        r.value.ratings[k] in ratings && r.value.ratings[k].playerId == playerId
    ensures r.Ok? ==> |r.value.ratings| == Listing.Taken(Max(0, r.value.total - SkipOf(q)), LimitOf(q))
    ensures r.Ok? ==> Listing.SortedBy(r.value.ratings, SortKey(q))
    ensures r.Ok? ==> SkipOf(q) >= 0 && Listing.PageOfSorted(r.value.ratings, ForPlayer(ratings, playerId), SortKey(q), SkipOf(q))
  {
    var mine := ForPlayer(ratings, playerId);
    match SortedWindow(mine, SortKey(q), SkipOf(q), LimitOf(q))
    case Err(msg) => Err(msg)
    case Ok(page) => Ok(RatingPage(page, |mine|))
  }

  /** When no two of the player's ratings share a sort key the page is
      determined: its `k`-th rating is the player's rating with exactly
      `skip + k` of the player's ratings ahead of it in the requested
      order. */
  lemma RatingPageByRank(ratings: Ratings, playerId: Id, q: RatingQuery, k: nat)
    requires GetPlayerRatings(ratings, playerId, q).Ok?
    requires Listing.DistinctKeys(ForPlayer(ratings, playerId), SortKey(q))
    requires k < |GetPlayerRatings(ratings, playerId, q).value.ratings|
    ensures var x := GetPlayerRatings(ratings, playerId, q).value.ratings[k];
            && x in ForPlayer(ratings, playerId)
            && Listing.Earlier(ForPlayer(ratings, playerId), SortKey(q), SortKey(q)(x)) == SkipOf(q) + k
  {
    var page := GetPlayerRatings(ratings, playerId, q).value.ratings;
    Listing.PageRank(page, ForPlayer(ratings, playerId), SortKey(q), SkipOf(q), k);
  }

  /** The order of a page of `getPlayerRatings`: newest first by default,
      oldest first for "asc", and by the average rating otherwise. */
  lemma PlayerRatingsOrder(ratings: Ratings, playerId: Id, q: RatingQuery)
    requires GetPlayerRatings(ratings, playerId, q).Ok?
    ensures var p := GetPlayerRatings(ratings, playerId, q).value.ratings;
            && (ByDate(q) && Descending(q) ==>
                  forall i, j :: 0 <= i < j < |p| ==> p[i].createdAt >= p[j].createdAt)
            && (ByDate(q) && !Descending(q) ==>
                  forall i, j :: 0 <= i < j < |p| ==> p[i].createdAt <= p[j].createdAt)
            && (!ByDate(q) && Descending(q) ==>
                  forall i, j :: 0 <= i < j < |p| ==> SkillsAverageTenths(p[i].skills) >= SkillsAverageTenths(p[j].skills))
            && (!ByDate(q) && !Descending(q) ==>
                  forall i, j :: 0 <= i < j < |p| ==> SkillsAverageTenths(p[i].skills) <= SkillsAverageTenths(p[j].skills))
  {
    var p := GetPlayerRatings(ratings, playerId, q).value.ratings;
    var key := SortKey(q);
    forall i, j | 0 <= i < j < |p|
      ensures key(p[i]) <= key(p[j])
    {
    }
  }

  /** The sort key the source writes for "rating": `averageRating` is a
      virtual and is not stored, so every document sorts with the same
      (missing) key. */
  function MissingKey(x: Rating): int { 0 }

  function SortKeyAsWritten(q: RatingQuery): Rating -> int {
    if ByDate(q) then (if Descending(q) then CreatedDesc else CreatedAsc) else MissingKey
  }

  /** `getPlayerRatings` as the source writes it: sorting by "rating"
      leaves the ratings in the data layer's tie order. */
  function GetPlayerRatingsAsWritten(ratings: Ratings, playerId: Id, q: RatingQuery): (r: Result<RatingPage>)
    ensures r.Ok? && !ByDate(q) && SkipOf(q) == 0 && LimitOf(q) == 0 ==> r.value.ratings == ForPlayer(ratings, playerId)
  {
    var mine := ForPlayer(ratings, playerId);
    var sorted := Listing.SortBy(mine, SortKeyAsWritten(q));
    SortConstantKeepsOrder(mine);
    match Listing.Window(sorted, SkipOf(q), LimitOf(q))
    case Err(msg) => Err("Failed to get player ratings: " + msg)
    case Ok(page) => Ok(RatingPage(page, |mine|))
  }

  lemma {:induction false} SortConstantKeepsOrder(s: Ratings)
    ensures Listing.SortBy(s, MissingKey) == s
    decreases |s|
  {
    if |s| > 0 {
      SortConstantKeepsOrder(s[1..]);
      assert s == [s[0]] + s[1..];
    }
  }

  /** Two ratings of one player, the better one stored first: asking for
      ascending order by rating returns them best first. */
  lemma SortByRatingIgnored(good: Rating, poor: Rating)
    requires good.playerId == poor.playerId
    requires good.skills == Skills(9, 9, 9, 9, 9, 9) && poor.skills == Skills(2, 2, 2, 2, 2, 2)
    ensures var q := RatingQuery(Some(0), None, Some("rating"), Some("asc"));
            var r := GetPlayerRatingsAsWritten([good, poor], good.playerId, q);
            && r.Ok? && r.value.ratings == [good, poor]
            && SkillsAverageTenths(r.value.ratings[0].skills) > SkillsAverageTenths(r.value.ratings[1].skills)
  {
    var q := RatingQuery(Some(0), None, Some("rating"), Some("asc"));
    assert !ByDate(q);
    var mine := ForPlayer([good, poor], good.playerId);
    assert mine == [good, poor];
  }

  /** `getMatchRatings`: every rating of the match, in stored order. */
  function GetMatchRatings(ratings: Ratings, matchId: Id): (r: Ratings)
    ensures forall k :: 0 <= k < |r| ==> r[k].matchId == matchId && r[k] in ratings
    ensures forall k :: 0 <= k < |ratings| && ratings[k].matchId == matchId ==> ratings[k] in r
    ensures Listing.SubsequenceOf(r, ratings)
  {
    Listing.Filter(ratings, (x: Rating) => x.matchId == matchId)
  }

  /** Component-wise sum of two skill sets. */
  function AddSkills(a: Skills, b: Skills): Skills {
    Skills(a.pace + b.pace, a.shooting + b.shooting, a.passing + b.passing,
           a.dribbling + b.dribbling, a.defending + b.defending, a.physical + b.physical)
  }

  const NoSkills: Skills := Skills(0, 0, 0, 0, 0, 0)

  /** The six per-skill sums over a list of ratings. */
  function SumSkills(rs: Ratings): Skills
    decreases |rs|
  {
    if |rs| == 0 then NoSkills else AddSkills(SumSkills(rs[..|rs| - 1]), rs[|rs| - 1].skills)
  }

  /** Each per-skill sum, to one decimal place, in tenths. */
  function AverageSkills(sums: Skills, n: int): Skills
    requires n > 0
  {
    Skills(Tenths(sums.pace, n), Tenths(sums.shooting, n), Tenths(sums.passing, n),
           Tenths(sums.dribbling, n), Tenths(sums.defending, n), Tenths(sums.physical, n))
  }

  /** The result of `getPlayerAverageRatings`; every average is in tenths. */
  datatype PlayerAverages = PlayerAverages(overall: int, skills: Skills, totalRatings: nat)

  /** `getPlayerAverageRatings`: zeros for a player nobody rated; otherwise
      each skill's mean over the player's ratings rounded to a tenth, and the
      overall mean of those six rounded figures, rounded again to a tenth
      (a sum of tenths over 6 is `Tenths(sum, 60)`). */
  method GetPlayerAverageRatings(ratings: Ratings, playerId: Id) returns (a: PlayerAverages)
    ensures a.totalRatings == |ForPlayer(ratings, playerId)|
    ensures a.totalRatings == 0 ==> a == PlayerAverages(0, NoSkills, 0)
    ensures a.totalRatings > 0 ==> a.skills == AverageSkills(SumSkills(ForPlayer(ratings, playerId)), a.totalRatings)
    ensures a.totalRatings > 0 ==> a.overall == Tenths(SkillSum(a.skills), 60)
  {
    var mine := ForPlayer(ratings, playerId);
    if |mine| == 0 {
      return PlayerAverages(0, NoSkills, 0);
    }
    var sums := NoSkills;
    var i := 0;
    while i < |mine|
      invariant 0 <= i <= |mine|
      invariant sums == SumSkills(mine[..i])
    {
      assert mine[..i + 1][..i] == mine[..i];
      sums := AddSkills(sums, mine[i].skills);
      i := i + 1;
    }
    assert mine[..|mine|] == mine;
    var averages := AverageSkills(sums, |mine|);
    a := PlayerAverages(Tenths(SkillSum(averages), 60), averages, |mine|);
  }

  /** Every per-skill sum of `n` ratings within 1..10 lies in n..10n. */
  lemma {:induction false} SumSkillsWithin(rs: Ratings)
    requires forall k :: 0 <= k < |rs| ==> SkillsInRange(rs[k].skills)
    ensures var t := SumSkills(rs); var n := |rs|;
            && n <= t.pace <= 10 * n && n <= t.shooting <= 10 * n && n <= t.passing <= 10 * n
            && n <= t.dribbling <= 10 * n && n <= t.defending <= 10 * n && n <= t.physical <= 10 * n
    decreases |rs|
  {
    if |rs| > 0 {
      SumSkillsWithin(rs[..|rs| - 1]);
    }
  }

  /** The averages of a player's well-formed ratings are between 1.0 and
      10.0, skill by skill and overall. */
  lemma AveragesWithinSkillRange(mine: Ratings)
    requires |mine| > 0
    requires forall k :: 0 <= k < |mine| ==> SkillsInRange(mine[k].skills)
    ensures var avg := AverageSkills(SumSkills(mine), |mine|);
            && 10 <= avg.pace <= 100 && 10 <= avg.shooting <= 100 && 10 <= avg.passing <= 100
            && 10 <= avg.dribbling <= 100 && 10 <= avg.defending <= 100 && 10 <= avg.physical <= 100
            && 10 <= Tenths(SkillSum(avg), 60) <= 100
  {
    var t := SumSkills(mine);
    var n := |mine|;
    SumSkillsWithin(mine);
    MeanWithin(t.pace, n);
    MeanWithin(t.shooting, n);
    MeanWithin(t.passing, n);
    MeanWithin(t.dribbling, n);
    MeanWithin(t.defending, n);
    MeanWithin(t.physical, n);
    var avg := AverageSkills(t, n);
    OverallWithin(avg);
  }

  lemma MeanWithin(sum: int, n: int)
    requires n > 0 && n <= sum <= 10 * n
    ensures 10 <= Tenths(sum, n) <= 100
  {
    TenthsWithin(sum, n, 1, 10);
  }

  lemma OverallWithin(avg: Skills)
    requires 10 <= avg.pace <= 100 && 10 <= avg.shooting <= 100 && 10 <= avg.passing <= 100
    requires 10 <= avg.dribbling <= 100 && 10 <= avg.defending <= 100 && 10 <= avg.physical <= 100
    ensures 10 <= Tenths(SkillSum(avg), 60) <= 100
  {
    TenthsWithin(SkillSum(avg), 60, 1, 10);
  }

  /** The partial skills of `updateRating`: a missing field is undefined. */
  datatype PartialSkills = PartialSkills(
    pace: Option<int>, shooting: Option<int>, passing: Option<int>,
    dribbling: Option<int>, defending: Option<int>, physical: Option<int>)

  function Pick(update: Option<int>, current: int): int {
    if update.Some? then update.value else current
  }

  function Merge(s: Skills, p: PartialSkills): Skills {
    Skills(Pick(p.pace, s.pace), Pick(p.shooting, s.shooting), Pick(p.passing, s.passing),
           Pick(p.dribbling, s.dribbling), Pick(p.defending, s.defending), Pick(p.physical, s.physical))
  }

  /** `updateRating`: overwrites exactly the skills given, replaces the
      comment only when one is given, and saves through validation.  The
      update time moves only when the save changes something: assigning a
      value equal to the stored one does not mark the path modified, and
      the timestamps are set on save only for a modified document. */
  function UpdateRating(ratings: Ratings, ratingId: Id, p: PartialSkills, comments: Option<string>, now: int)
    : (r: Result<Saved>)
    ensures IndexOf(ratings, ratingId).None? ==> r == Err("Failed to update rating: Rating not found")
    ensures r.Ok? ==> IndexOf(ratings, ratingId).Some?
    ensures r.Ok? ==> var i := IndexOf(ratings, ratingId).value; var old_ := ratings[i].skills; var s := r.value.saved.skills;
                      && r.value.ratings == ratings[i := r.value.saved]
                      && s.pace == (if p.pace.Some? then p.pace.value else old_.pace)
                      && s.shooting == (if p.shooting.Some? then p.shooting.value else old_.shooting)
                      && s.passing == (if p.passing.Some? then p.passing.value else old_.passing)
                      && s.dribbling == (if p.dribbling.Some? then p.dribbling.value else old_.dribbling)
                      && s.defending == (if p.defending.Some? then p.defending.value else old_.defending)
                      && s.physical == (if p.physical.Some? then p.physical.value else old_.physical)
                      && r.value.saved.comments == (if comments.Some? then comments else ratings[i].comments)
    ensures r.Ok? ==> var i := IndexOf(ratings, ratingId).value; var x := r.value.saved;
                      && x.(skills := ratings[i].skills, comments := ratings[i].comments, updatedAt := ratings[i].updatedAt)
                         == ratings[i]
                      && x.updatedAt == (if x.skills == ratings[i].skills && x.comments == ratings[i].comments
                                         then ratings[i].updatedAt else now)
    ensures r.Ok? ==> SkillsInRange(r.value.saved.skills) && CommentOk(r.value.saved.comments)
    ensures (&& IndexOf(ratings, ratingId).Some? && WellFormed(ratings[IndexOf(ratings, ratingId).value])
             && SkillsInRange(Merge(ratings[IndexOf(ratings, ratingId).value].skills, p))
             && CommentOk(comments)) ==> r.Ok?
  {
    match IndexOf(ratings, ratingId)
    case None => Err("Failed to update rating: Rating not found")
    case Some(i) =>
      var x := ratings[i];
      var skills := Merge(x.skills, p);
      var comments' := if comments.Some? then comments else x.comments;
      var modified := skills != x.skills || comments' != x.comments;
      var updated := x.(skills := skills, comments := comments', updatedAt := if modified then now else x.updatedAt);
      var draft := RatingDraft(Some(x.idPath), x.matchId, x.playerId, x.raterId, Some(skills), comments');
      match ValidateRating(draft, x.id, x.idPath, x.createdAt)
      case Err(msg) => Err("Failed to update rating: " + msg)
      case Ok(_) => Ok(Saved(ratings[i := updated], updated))
  }

  /** An update that gives nothing leaves the rating, and the collection,
      exactly as they were. */
  lemma EmptyUpdateKeepsRating(ratings: Ratings, ratingId: Id, now: int)
    requires IndexOf(ratings, ratingId).Some? && WellFormed(ratings[IndexOf(ratings, ratingId).value])
    ensures var r := UpdateRating(ratings, ratingId, PartialSkills(None, None, None, None, None, None), None, now);
            && r.Ok?
            && r.value.saved == ratings[IndexOf(ratings, ratingId).value]
            && r.value.ratings == ratings
  {
  }

  /** Applying the same update twice is the same as applying it once: the
      second save changes nothing, not even the update time. */
  lemma UpdateIdempotent(ratings: Ratings, ratingId: Id, p: PartialSkills, comments: Option<string>, t1: int, t2: int)
    requires UpdateRating(ratings, ratingId, p, comments, t1).Ok?
    ensures var once := UpdateRating(ratings, ratingId, p, comments, t1).value;
            var twice := UpdateRating(once.ratings, ratingId, p, comments, t2);
            && twice.Ok? && twice.value.saved == once.saved && twice.value.ratings == once.ratings
  {
    var once := UpdateRating(ratings, ratingId, p, comments, t1).value;
    var i := IndexOf(ratings, ratingId).value;
    assert once.ratings[i].id == ratingId;
    assert forall k :: 0 <= k < i ==> once.ratings[k] == ratings[k];
    var j := IndexOf(once.ratings, ratingId);
    assert j.Some? && j.value <= i;
    assert j == Some(i);
  }

  /** `deleteRating`: removes the rating, or fails when nothing was deleted. */
  function DeleteRating(ratings: Ratings, ratingId: Id): (r: Result<Ratings>)
    ensures r.Err? <==> IndexOf(ratings, ratingId).None?
    ensures r.Err? ==> r.msg == "Failed to delete rating: Rating not found"
    ensures r.Ok? ==> |r.value| == |ratings| - 1
    ensures r.Ok? ==> var i := IndexOf(ratings, ratingId).value;
                      forall k :: 0 <= k < |r.value| ==> r.value[k] == (if k < i then ratings[k] else ratings[k + 1])
    ensures r.Ok? && UniqueIds(ratings) ==> IndexOf(r.value, ratingId).None?
  {
    match IndexOf(ratings, ratingId)
    case None => Err("Failed to delete rating: Rating not found")
    case Some(i) => Ok(ratings[..i] + ratings[i + 1..])
  }
}
