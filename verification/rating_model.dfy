/** The rating document (src/models/rating.ts): six skills, each required
    and bounded to 1..10, the `id` path and the three required ids, an
    optional comment of at most 500 UTF-16 code units, the validation error
    listing every failed validator, the unique (match, player, rater) index, and the
    `averageRating` virtual.  `toFixed(1)` is modelled on exact fractions,
    as a count of tenths rounded to nearest with halves away from zero. */
module RatingModel {
  import opened Common
  import Text
  import opened Validation
  import Listing

  type Id = string

  const MinSkill: int := 1
  const MaxSkill: int := 10
  const MaxCommentLength: int := 500
  const SkillCount: int := 6

  datatype Skills = Skills(pace: int, shooting: int, passing: int, dribbling: int, defending: int, physical: int)

  function SkillSum(s: Skills): int {
    s.pace + s.shooting + s.passing + s.dribbling + s.defending + s.physical
  }

  predicate InRange(v: int) {
    MinSkill <= v <= MaxSkill
  }

  predicate SkillsInRange(s: Skills) {
    InRange(s.pace) && InRange(s.shooting) && InRange(s.passing)
    && InRange(s.dribbling) && InRange(s.defending) && InRange(s.physical)
  }

  /** A stored rating.  `id` is the document key `_id` (what `findById`
      looks up and what `toObject` writes out as `id`); `idPath` is the
      schema's own stored `id` path, which gets a fresh object-id string of
      its own when the rating is created, and which the plain objects of a
      `lean()` query carry as their `id`. */
  datatype Rating = Rating(
    id: Id,
    idPath: string,
    matchId: Id,
    playerId: Id,
    raterId: Id,
    skills: Skills,
    comments: Option<string>,
    createdAt: int,
    updatedAt: int)

  /** A rating document as handed to the data layer before validation. */
  datatype RatingDraft = RatingDraft(
    idPath: Option<string>,
    matchId: string,
    playerId: string,
    raterId: string,
    skills: Option<Skills>,
    comments: Option<string>)

  /** At most 500 UTF-16 code units of comment. */
  predicate CommentOk(c: Option<string>) {
    c.None? || Text.Utf16Length(c.value) <= MaxCommentLength
  }

  datatype Skill = Pace | Shooting | Passing | Dribbling | Defending | Physical

  function SkillName(k: Skill): string {
    match k
    case Pace => "pace"
    case Shooting => "shooting"
    case Passing => "passing"
    case Dribbling => "dribbling"
    case Defending => "defending"
    case Physical => "physical"
  }

  function SkillIndex(k: Skill): nat {
    match k
    case Pace => 0
    case Shooting => 1
    case Passing => 2
    case Dribbling => 3
    case Defending => 4
    case Physical => 5
  }

  function SkillValue(s: Skills, k: Skill): int {
    match k
    case Pace => s.pace
    case Shooting => s.shooting
    case Passing => s.passing
    case Dribbling => s.dribbling
    case Defending => s.defending
    case Physical => s.physical
  }

  /** The document paths the rating schema validates, and the validators'
      order. */
  datatype RatingPath = IdField | MatchField | PlayerField | RaterField | SkillsField | SkillField(skill: Skill) | CommentsField

  const RatingPaths: seq<RatingPath> :=
    [IdField, MatchField, PlayerField, RaterField, SkillsField,
     SkillField(Pace), SkillField(Shooting), SkillField(Passing),
     SkillField(Dribbling), SkillField(Defending), SkillField(Physical), CommentsField]

  /** Where a path stands in the validators' order. */
  function PathIndex(p: RatingPath): (k: nat)
    ensures k < |RatingPaths| && RatingPaths[k] == p
  {
    match p
    case IdField => 0
    case MatchField => 1
    case PlayerField => 2
    case RaterField => 3
    case SkillsField => 4
    case SkillField(k) => 5 + SkillIndex(k)
    case CommentsField => 11
  }

  function PathName(p: RatingPath): string {
    match p
    case IdField => "id"
    case MatchField => "matchId"
    case PlayerField => "playerId"
    case RaterField => "raterId"
    case SkillsField => "skills"
    case SkillField(k) => "skills." + SkillName(k)
    case CommentsField => "comments"
  }

  /** The stored `id` path: the one given, or the default. */
  function IdPathOf(d: RatingDraft, freshId: string): string {
    if d.idPath.Some? then d.idPath.value else freshId
  }

  /** Whether the validator of path `p` rejects the draft.  A required
      string fails when it is empty; a skill is checked only when the skills
      are present. */
  predicate Fails(d: RatingDraft, freshId: string, p: RatingPath) {
    match p
    case IdField => IdPathOf(d, freshId) == ""
    case MatchField => d.matchId == ""
    case PlayerField => d.playerId == ""
    case RaterField => d.raterId == ""
    case SkillsField => d.skills.None?
    case SkillField(k) => d.skills.Some? && !InRange(SkillValue(d.skills.value, k))
    case CommentsField => !CommentOk(d.comments)
  }

  /** The error a failing validator reports: `required`, the `min` or `max`
      of a skill (whose message names the path inside the skills schema),
      or the `maxlength` of the comment. */
  function IssueFor(d: RatingDraft, p: RatingPath): (i: Issue)
    ensures i.path == PathName(p)
  {
    match p
    case SkillField(k) =>
      var v := if d.skills.Some? then SkillValue(d.skills.value, k) else MinSkill;
      Issue(PathName(p), if v < MinSkill then MinMessage(SkillName(k), v, MinSkill)
                         else MaxMessage(SkillName(k), v, MaxSkill))
    case CommentsField =>
      Issue("comments", MaxLengthMessage("comments", if d.comments.Some? then d.comments.value else "",
                                         MaxCommentLength))
    case _ => Issue(PathName(p), RequiredMessage(PathName(p)))
  }

  /** The paths whose validator fails, in schema order. */
  function FailingPaths(d: RatingDraft, freshId: string): (r: seq<RatingPath>)
    ensures forall p :: p in r <==> Fails(d, freshId, p)
    ensures Listing.SubsequenceOf(r, RatingPaths)
  {
    var fails := p => Fails(d, freshId, p);
    var r := Listing.Filter(RatingPaths, fails);
    forall p
      ensures p in r <==> Fails(d, freshId, p)
    {
      var k := PathIndex(p);
      assert RatingPaths[k] == p;
      assert fails(p) == Fails(d, freshId, p);
    }
    r
  }

  /** The errors of a draft, one per failing path, in schema order. */
  function RatingIssues(d: RatingDraft, freshId: string): seq<Issue> {
    var paths := FailingPaths(d, freshId);
    seq(|paths|, k requires 0 <= k < |paths| => IssueFor(d, paths[k]))
  }

  /** No validator fails exactly when the `id` path, the three ids and the
      skills are present, every skill lies in 1..10 and the comment fits. */
  lemma NoFailureIff(d: RatingDraft, freshId: string)
    ensures (forall p :: !Fails(d, freshId, p))
            <==> (&& IdPathOf(d, freshId) != "" && d.matchId != "" && d.playerId != "" && d.raterId != ""
                  && d.skills.Some? && SkillsInRange(d.skills.value) && CommentOk(d.comments))
  {
    if forall p :: !Fails(d, freshId, p) {
      assert !Fails(d, freshId, IdField) && !Fails(d, freshId, MatchField) && !Fails(d, freshId, PlayerField);
      assert !Fails(d, freshId, RaterField) && !Fails(d, freshId, SkillsField) && !Fails(d, freshId, CommentsField);
      assert !Fails(d, freshId, SkillField(Pace)) && !Fails(d, freshId, SkillField(Shooting));
      assert !Fails(d, freshId, SkillField(Passing)) && !Fails(d, freshId, SkillField(Dribbling));
      assert !Fails(d, freshId, SkillField(Defending)) && !Fails(d, freshId, SkillField(Physical));
    }
  }

  /** Validation on save: the `id` path, the three ids and the skills are
      required (an empty string fails `required`), every skill lies in
      1..10, and a comment has at most 500 UTF-16 code units.  A valid
      draft is stored as is, with `freshId` for a missing `id` path; an
      invalid one fails with the data layer's message listing every failed
      validator. */
  function ValidateRating(d: RatingDraft, id: Id, freshId: string, now: int): (r: Result<Rating>)
    ensures r.Ok? <==> IdPathOf(d, freshId) != "" && d.matchId != "" && d.playerId != "" && d.raterId != ""
                       && d.skills.Some? && SkillsInRange(d.skills.value) && CommentOk(d.comments)
    ensures r.Ok? ==> r.value == Rating(id, IdPathOf(d, freshId), d.matchId, d.playerId, d.raterId,
                                        d.skills.value, d.comments, now, now)
    ensures r.Err? ==> r.msg == ValidationMessage("Rating", RatingIssues(d, freshId))
  {
    NoFailureIff(d, freshId);
    if FailingPaths(d, freshId) != [] then
      Err(ValidationMessage("Rating", RatingIssues(d, freshId)))
    else
      Ok(Rating(id, IdPathOf(d, freshId), d.matchId, d.playerId, d.raterId, d.skills.value, d.comments, now, now))
  }

  /** A comment of 251 characters outside the Basic Multilingual Plane is
      502 code units long, and so too long, although it has fewer than 500
      characters. */
  lemma AstralCommentTooLong(c: string)
    requires |c| == 251 && forall k :: 0 <= k < |c| ==> c[k] as int >= 0x1_0000
    ensures !CommentOk(Some(c))
  {
  }

  /** A stored rating satisfies the schema. */
  predicate WellFormed(r: Rating) {
    r.idPath != "" && r.matchId != "" && r.playerId != "" && r.raterId != "" && SkillsInRange(r.skills)
    && CommentOk(r.comments)
  }

  predicate SameTriple(a: Rating, b: Rating) {
    a.matchId == b.matchId && a.playerId == b.playerId && a.raterId == b.raterId
  }

  /** The unique compound index on (matchId, playerId, raterId). */
  predicate UniqueTriples(store: seq<Rating>) {
    forall i, j :: 0 <= i < j < |store| ==> !SameTriple(store[i], store[j])
  }

  /** Nearest integer to a / b, halves rounded up. */
  function RoundDiv(a: int, b: int): (q: int)
    requires b > 0
    ensures 2 * q * b - b <= 2 * a < 2 * q * b + b
  {
    (2 * a + b) / (2 * b)
  }

  /** `Number((sum / n).toFixed(1))`, counted in tenths, on the exact
      quotient: the nearest tenth, with halves rounded away from zero.  The
      binary floating-point quotient the program divides into can sit just
      below an exact half (7 / 20 prints as "0.3"); that is not modelled. */
  function Tenths(sum: int, n: int): (t: int)
    requires n > 0
    ensures sum >= 0 ==> 2 * t * n - n <= 20 * sum < 2 * t * n + n
    ensures sum < 0 ==> 2 * t * n - n < 20 * sum <= 2 * t * n + n
  {
    if sum >= 0 then RoundDiv(10 * sum, n) else -RoundDiv(-10 * sum, n)
  }

  lemma MulStrict(a: int, b: int, n: int)
    ensures n > 0 && a > b ==> a * n > b * n
  {
    if n > 0 && a > b {
      assert a * n - b * n == (a - b) * n;
    }
  }

  lemma CancelFactor(a: int, b: int, n: int)
    requires n > 0 && a * n <= b * n
    ensures a <= b
  {
    MulStrict(a, b, n);
  }

  /** Rounding keeps an average of values in [lo, hi] within [lo, hi]. */
  lemma TenthsWithin(sum: int, n: int, lo: nat, hi: nat)
    requires n > 0 && lo * n <= sum <= hi * n
    ensures 10 * lo <= Tenths(sum, n) <= 10 * hi
  {
    var t := Tenths(sum, n);
    assert 0 <= lo * n;
    assert 20 * sum < 2 * t * n + n;
    assert (20 * lo) * n == 20 * (lo * n);
    assert (2 * t + 1) * n == 2 * t * n + n;
    CancelFactor(20 * lo, 2 * t + 1, n);
    assert 2 * t * n - n <= 20 * sum;
    assert (20 * hi) * n == 20 * (hi * n);
    assert (2 * t - 1) * n == 2 * t * n - n;
    CancelFactor(2 * t - 1, 20 * hi, n);
  }

  /** Text of a number of tenths, as `toFixed(1)` prints it. */
  function TenthsText(negative: bool, t: nat): (r: string)
    ensures |r| >= 3 && r[|r| - 2] == '.' && Text.IsDigit(r[|r| - 1])
  {
    (if negative then "-" else "") + Text.NatToString(t / 10) + "." + [Text.DigitChar(t % 10)]
  }

  /** Reads the text of a non-negative number of tenths back. */
  function ParseTenths(s: string): nat
    requires |s| >= 3 && s[|s| - 2] == '.' && Text.IsDigit(s[|s| - 1]) && Text.AllDigits(s[..|s| - 2])
  {
    10 * Text.ParseNat(s[..|s| - 2]) + Text.DigitValue(s[|s| - 1])
  }

  /** The printed average identifies the number of tenths it stands for. */
  lemma TenthsTextRoundTrip(t: nat)
    ensures var s := TenthsText(false, t); Text.AllDigits(s[..|s| - 2]) && ParseTenths(s) == t
  {
    var s := TenthsText(false, t);
    assert s[..|s| - 2] == Text.NatToString(t / 10);
    Text.NatToStringRoundTrip(t / 10);
  }

  /** The mean of one rating's six skills, in tenths. */
  function SkillsAverageTenths(s: Skills): int {
    Tenths(SkillSum(s), SkillCount)
  }

  /** Six skills in 1..10 average to between 1.0 and 10.0. */
  lemma AverageWithinSkillRange(s: Skills)
    ensures SkillsInRange(s) ==> 10 <= SkillsAverageTenths(s) <= 100
  {
    if SkillsInRange(s) {
      TenthsWithin(SkillSum(s), SkillCount, 1, 10);
    }
  }

  /** The `averageRating` virtual: "0.0" without skills, otherwise the
      mean of the six skills to one decimal. */
  function AverageRatingText(skills: Option<Skills>): (r: string)
    ensures |r| >= 3 && r[|r| - 2] == '.' && Text.IsDigit(r[|r| - 1])
    ensures skills.None? ==> r == "0.0"
    ensures skills.Some? && SkillSum(skills.value) >= 0 ==>
              Text.AllDigits(r[..|r| - 2]) && ParseTenths(r) == SkillsAverageTenths(skills.value)
    ensures skills.Some? && SkillSum(skills.value) < 0 ==> r[0] == '-'
  {
    match skills
    case None => "0.0"
    case Some(s) =>
      var t := SkillsAverageTenths(s);
      if SkillSum(s) >= 0 then
        TenthsTextRoundTrip(t);
        TenthsText(false, t)
      else
        TenthsText(true, -t)
  }
}
