/** The matches page (src/app/matches/page.tsx): a signed-in visitor sees
    page `page` (default 1) of ten matches, optionally narrowed by status
    and city; a visitor without a session is sent to the login page before
    anything is queried. */
module MatchesPage {
  import opened Common
  import Text
  import opened MatchModel
  import MatchService
  import MatchesRoute

  const PageSize: int := 10

  /** The search parameters; an absent one is `None`. */
  datatype PageParams = PageParams(page: Option<string>, status: Option<string>, city: Option<string>)

  /** `parseInt(page || '1', 10)` */
  function PageNumber(p: PageParams): Num {
    Text.ParseInt(if Present(p.page) then p.page.value else "1")
  }

  /** `(page - 1) * limit`: the matches on the pages before this one; NaN
      stays NaN. */
  function SkipFor(page: Num): (r: Num)
    ensures page.NaN? <==> r.NaN?
    ensures page.Int? ==> r.v % PageSize == 0 && r.v / PageSize == page.v - 1
  {
    match page
    case NaN => NaN
    case Int(n) => Int((n - 1) * PageSize)
  }

  /** The filters the page hands to `getMatches` for page number `page`:
      limit 10, the skip of the page, and status and city only when they
      are non-empty. */
  function PageFilters(p: PageParams, page: Num): (f: MatchService.MatchFilters)
    ensures f.limit == Some(Int(PageSize)) && f.skip == Some(SkipFor(page)) && f.date.None?
    ensures Present(f.status) <==> Present(p.status)
    ensures Present(f.status) ==> f.status == p.status
    ensures Present(f.city) <==> Present(p.city)
    ensures Present(f.city) ==> f.city == p.city
  {
    MatchService.MatchFilters(
      if Present(p.status) then p.status else None,
      if Present(p.city) then p.city else None,
      None, Some(Int(PageSize)), Some(SkipFor(page)))
  }

  datatype View =
    | RedirectToLogin
    | MatchList(matches: seq<Match>, total: nat, currentPage: Num)
    | ErrorPage(message: string)

  /** The data layer accepts the filters of a page exactly when the page
      number is at least 1 or did not parse: `?page=0` asks for a negative
      skip, which it refuses. */
  lemma PageQueryOk(store: MatchService.Store, p: PageParams, page: Num)
    ensures MatchService.GetMatches(store, PageFilters(p, page)).Ok? <==> page.NaN? || page.v >= 1
  {
    var f := PageFilters(p, page);
    assert OrDefault(f.skip, MatchService.DefaultSkip) >= 0 <==> page.NaN? || page.v >= 1;
  }

  /** What a signed-in visitor sees for page number `page`: the matches of
      that page, or the error the service throws, which happens exactly for
      a page number below 1. */
  function ShowPage(store: MatchService.Store, p: PageParams, page: Num): (v: View)
    ensures !v.RedirectToLogin?
    ensures v.MatchList? <==> page.NaN? || page.v >= 1
    ensures v.MatchList? ==> v.currentPage == page
    ensures v.MatchList? ==> |v.matches| <= PageSize
    ensures v.MatchList? ==> v.total == |MatchService.Selected(store, PageFilters(p, page))|
    ensures v.MatchList? ==> forall k :: 0 <= k < |v.matches| ==>
              v.matches[k] in store
              && (Present(p.status) ==> StatusName(v.matches[k].status) == p.status.value)
              && (Present(p.city) ==> v.matches[k].location.city == p.city.value)
  {
    var f := PageFilters(p, page);
    PageQueryOk(store, p, page);
    match MatchService.GetMatches(store, f)
    case Err(msg) => ErrorPage(msg)
    case Ok(result) =>
      assert forall k :: 0 <= k < |result.matches| ==> MatchService.Selects(f, result.matches[k]);
      MatchList(result.matches, result.total, page)
  }

  /** The page: a visitor without a session is redirected before anything
      is queried; anyone else sees the page `parseInt(page || '1')`. */
  function Render(store: MatchService.Store, signedIn: bool, p: PageParams): (v: View)
    ensures !signedIn <==> v == RedirectToLogin
    ensures signedIn ==> v == ShowPage(store, p, PageNumber(p))
  {
    if !signedIn then RedirectToLogin else ShowPage(store, p, PageNumber(p))
  }

  /** The skip the page sends for page `n >= 1` gives back `n` under the
      route's `floor(skip / limit) + 1`. */
  lemma PageSkipRoundTrip(n: int)
    requires n >= 1
    ensures MatchesRoute.PageOf((n - 1) * PageSize, PageSize) == n
  {
    var p := MatchesRoute.PageOf((n - 1) * PageSize, PageSize);
    assert (p - 1) * PageSize <= (n - 1) * PageSize < p * PageSize;
  }

  /** `?page=n` for `n >= 1` is read as page `n`. */
  lemma PageNumberOf(n: int, status: Option<string>, city: Option<string>)
    requires n >= 1
    ensures PageNumber(PageParams(Some(Text.IntToString(n)), status, city)) == Int(n)
  {
    Text.IntToStringRoundTrip(n);
    assert Text.IntToString(n) == Text.NatToString(n);
  }

  /** From the address bar to the page number: `?page=n` for `n >= 1` is
      shown as page `n`, and asks for the matches from position `(n-1)*10`,
      which the route reports as page `n` again. */
  lemma PageParamRoundTrip(n: int, status: Option<string>, city: Option<string>)
    requires n >= 1
    ensures var p := PageParams(Some(Text.IntToString(n)), status, city);
            && PageNumber(p) == Int(n)
            && SkipFor(PageNumber(p)) == Int((n - 1) * PageSize)
            && MatchesRoute.PageOf(SkipFor(PageNumber(p)).v, PageSize) == n
  {
    PageNumberOf(n, status, city);
    PageSkipRoundTrip(n);
  }
}
