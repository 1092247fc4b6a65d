/** The global game catalog page (`src/pages/GlobalGamesList.jsx`): the global games,
    narrowed by a search box and five filters, sorted, and shown twelve to a page. */
module Catalog {
  import opened Optional
  import opened Text
  import opened Seqs
  import opened Session
  import Collation
  import Pagination
  import opened Games

  const PerPage: nat := 12

  /** The six orders of the "Ordenar por" select. */
  datatype SortOrder = Recent | Oldest | TitleAZ | TitleZA | BestRated | WorstRated

  /** The filter record; `""` and `AnyYear`/`None` mean "off". */
  datatype Filters = Filters(genre: string, platform: string, year: YearFilter,
                             minRating: Option<int>, developer: string, order: SortOrder)

  const Cleared: Filters := Filters("", "", AnyYear, None, "", Recent)

  /** The load step: only games flagged global are kept. */
  function Load(response: seq<Game>): (all: seq<Game>)
    ensures forall i :: 0 <= i < |all| ==> all[i].isGlobal
    ensures forall i :: 0 <= i < |response| && response[i].isGlobal ==> response[i] in all
    ensures multiset(all) <= multiset(response)
    ensures forall g :: multiset(all)[g] == if g.isGlobal then multiset(response)[g] else 0
  {
    FilterMultiplicity(response, (g: Game) => g.isGlobal);
    Filter(response, (g: Game) => g.isGlobal)
  }

  /** The search box matches the title, the developer or the description. */
  predicate MatchesSearch(term: string, g: Game) {
    Mentions(Some(g.title), term) || Mentions(g.developer, term) || Mentions(g.description, term)
  }

  /** The search step: on when the term is not blank, and then matching the untrimmed
      term. */
  function SearchStage(term: string): Stage<Game> {
    Stage(!IsBlank(term), (g: Game) => MatchesSearch(term, g))
  }

  /** Exact genre. */
  function GenreStage(genre: string): Stage<Game> {
    Stage(|genre| > 0, (g: Game) => g.genre == Some(genre))
  }

  function PlatformStage(platform: string): Stage<Game> {
    Stage(|platform| > 0, (g: Game) => OnPlatform(Some(g), platform))
  }

  function YearStage(y: YearFilter): Stage<Game> {
    Stage(!y.AnyYear?, (g: Game) => InYearFilter(y, g.year))
  }

  /** `(ratingPromedio || 0) >= min`. */
  function RatingStage(min: Option<int>): Stage<Game> {
    Stage(min.Some?, (g: Game) => g.rating.GetOr(0) >= min.GetOr(0))
  }

  /** Case-insensitive developer substring. */
  function DeveloperStage(developer: string): Stage<Game> {
    Stage(|developer| > 0, (g: Game) => Mentions(g.developer, developer))
  }

  /** `applyFilters`' filter steps, in the order the page runs them. */
  function Stages(f: Filters, term: string): seq<Stage<Game>> {
    [SearchStage(term), GenreStage(f.genre), PlatformStage(f.platform), YearStage(f.year),
     RatingStage(f.minRating), DeveloperStage(f.developer)]
  }

  /** What a game must satisfy to be listed, written as one condition. */
  predicate Keeps(f: Filters, term: string, g: Game) {
    && (IsBlank(term) || MatchesSearch(term, g))
    && (|f.genre| == 0 || g.genre == Some(f.genre))
    && (|f.platform| == 0 || OnPlatform(Some(g), f.platform))
    && InYearFilter(f.year, g.year)
    && (f.minRating.None? || g.rating.GetOr(0) >= f.minRating.value)
    && (|f.developer| == 0 || Mentions(g.developer, f.developer))
  }

  lemma StagesMeanKeeps(f: Filters, term: string, g: Game)
    ensures PassesAll(Stages(f, term), g) <==> Keeps(f, term, g)
  {
    PassesSix(SearchStage(term), GenreStage(f.genre), PlatformStage(f.platform), YearStage(f.year),
              RatingStage(f.minRating), DeveloperStage(f.developer), g);
  }

  function TitleOf(g: Game): string {
    g.title
  }

  /** The comparator of each order; a missing year or rating counts as 0. */
  function Order(o: SortOrder): (Game, Game) -> bool {
    match o
    case Recent => Desc((g: Game) => g.year.GetOr(0))
    case Oldest => Asc((g: Game) => g.year.GetOr(0))
    case TitleAZ => Collation.Ascending(TitleOf)
    case TitleZA => Collation.Descending(TitleOf)
    case BestRated => Desc((g: Game) => g.rating.GetOr(0))
    case WorstRated => Asc((g: Game) => g.rating.GetOr(0))
  }

  lemma OrderIsTotalPreorder(o: SortOrder)
    ensures TotalPreorder(Order(o))
  {
    match o
    case Recent => DescIsTotalPreorder((g: Game) => g.year.GetOr(0));
    case Oldest => AscIsTotalPreorder((g: Game) => g.year.GetOr(0));
    case TitleAZ => Collation.ByFieldIsTotalPreorder(TitleOf);
    case TitleZA => Collation.ByFieldIsTotalPreorder(TitleOf);
    case BestRated => DescIsTotalPreorder((g: Game) => g.rating.GetOr(0));
    case WorstRated => AscIsTotalPreorder((g: Game) => g.rating.GetOr(0));
  }

  /** `Keeps` as the predicate handed to the filter. */
  function KeepsFn(f: Filters, term: string): Game -> bool {
    (g: Game) => Keeps(f, term, g)
  }

  /** The chain of filters keeps exactly the games `Keeps` accepts. */
  lemma ChainKeeps(all: seq<Game>, f: Filters, term: string)
    ensures Chain(all, Stages(f, term)) == Filter(all, KeepsFn(f, term))
  {
    ChainIsOneFilter(all, Stages(f, term));
    forall g ensures PassesAll(Stages(f, term), g) <==> Keeps(f, term, g) {
      StagesMeanKeeps(f, term, g);
    }
    FilterExt(all, (g: Game) => PassesAll(Stages(f, term), g), KeepsFn(f, term));
  }

  /** `applyFilters`: every copy of every game that meets the active filters, and
      nothing else, in the chosen order. */
  function ApplyFilters(all: seq<Game>, f: Filters, term: string): (r: seq<Game>)
    ensures multiset(r) == multiset(Filter(all, KeepsFn(f, term)))
    ensures multiset(r) <= multiset(all)
    ensures forall i :: 0 <= i < |r| ==> Keeps(f, term, r[i])
    ensures forall i :: 0 <= i < |all| && Keeps(f, term, all[i]) ==> all[i] in r
    ensures SortedBy(r, Order(f.order))
  {
    ChainKeeps(all, f, term);
    SortedSelection(all, KeepsFn(f, term), Order(f.order));
    OrderIsTotalPreorder(f.order);
    SortBy(Chain(all, Stages(f, term)), Order(f.order))
  }

  /** `hasActiveFilters`: the sort order never counts, the raw search text does. */
  predicate HasActiveFilters(f: Filters, term: string) {
    |f.genre| > 0 || |f.platform| > 0 || !f.year.AnyYear? || f.minRating.Some? || |f.developer| > 0 || |term| > 0
  }

  /** With no active filter every game is listed: the result is a reordering of all. */
  lemma InactiveFiltersKeepAll(all: seq<Game>, f: Filters, term: string)
    requires !HasActiveFilters(f, term)
    ensures multiset(ApplyFilters(all, f, term)) == multiset(all)
  {
    var r := ApplyFilters(all, f, term);
    assert IsBlank(term) by {
      assert AllSpace(term);
    }
    forall i | 0 <= i < |all| ensures Keeps(f, term, all[i]) {
    }
    FilterAll(all, (g: Game) => Keeps(f, term, g));
    ChainIsOneFilter(all, Stages(f, term));
    forall g ensures PassesAll(Stages(f, term), g) <==> Keeps(f, term, g) {
      StagesMeanKeeps(f, term, g);
    }
    FilterExt(all, (g: Game) => PassesAll(Stages(f, term), g), (g: Game) => Keeps(f, term, g));
  }

  /** The page's state: the loaded games, the filters and search text, the filtered list,
      the current page and the ids added to the library during this visit. */
  datatype Page = Page(all: seq<Game>, filters: Filters, term: string, filtered: seq<Game>,
                       current: nat, added: seq<string>)

  /** After every filter or search change the list is recomputed and page 1 is shown. */
  function Refilter(p: Page): (q: Page)
    ensures q.filtered == ApplyFilters(p.all, p.filters, p.term) && q.current == 1
    ensures q.(filtered := p.filtered, current := p.current) == p
  {
    p.(filtered := ApplyFilters(p.all, p.filters, p.term), current := 1)
  }

  /** A freshly loaded page: every global game, page 1, nothing added. */
  function Loaded(response: seq<Game>): Page {
    Refilter(Page(Load(response), Cleared, "", Load(response), 1, []))
  }

  function SetFilters(p: Page, f: Filters): Page {
    Refilter(p.(filters := f))
  }

  function SetSearch(p: Page, term: string): Page {
    Refilter(p.(term := term))
  }

  /** `clearFilters`: all filters off, the order back to "recientes", the search emptied. */
  function ClearFilters(p: Page): (q: Page)
    ensures !HasActiveFilters(q.filters, q.term) && q.filters.order == Recent
    ensures multiset(q.filtered) == multiset(p.all)
  {
    InactiveFiltersKeepAll(p.all, Cleared, "");
    Refilter(p.(filters := Cleared, term := ""))
  }

  function TotalPages(p: Page): nat {
    Pagination.TotalPages(|p.filtered|, PerPage)
  }

  /** The games on screen: the current page of the filtered list. */
  function Displayed(p: Page): (r: seq<Game>)
    requires p.current >= 1
    ensures |r| <= PerPage
    ensures p.current <= TotalPages(p) ==> |r| > 0
  {
    Pagination.PageOf(p.filtered, p.current, PerPage)
  }

  /** `handlePageChange`: a page outside `1..totalPages` is ignored; nothing but the
      current page changes. */
  function GoToPage(p: Page, page: int): (q: Page)
    ensures 1 <= page <= TotalPages(p) ==> q == p.(current := page)
    ensures !(1 <= page <= TotalPages(p)) ==> q == p
  {
    if 1 <= page <= TotalPages(p) then p.(current := page) else p
  }

  /** The current page is 1, or a page that exists. */
  predicate ValidPage(p: Page) {
    p.current == 1 || 1 <= p.current <= TotalPages(p)
  }

  /** Every action keeps the current page valid, so the page on screen is never empty
      while the filtered list is not. */
  lemma ActionsKeepValidPage(p: Page, f: Filters, term: string, page: int, response: seq<Game>)
    requires ValidPage(p)
    ensures ValidPage(Loaded(response))
    ensures ValidPage(SetFilters(p, f)) && ValidPage(SetSearch(p, term)) && ValidPage(ClearFilters(p))
    ensures ValidPage(GoToPage(p, page))
    ensures |p.filtered| > 0 ==> |Displayed(p)| > 0
  {
  }

  /** How adding a game to the library ended. */
  datatype AddResult = AddResult(page: Page, posted: bool, toLogin: bool)

  /** `handleAddToLibrary`: without an access token nothing is sent and the user is sent
      to the login page; a successful POST appends the game's id; a failed one changes
      nothing. */
  function AddToLibrary(p: Page, st: Storage, gameId: string, succeeded: bool): (r: AddResult)
    ensures r.posted <==> Holds(st, AccessToken)
    ensures r.toLogin <==> !r.posted
    ensures r.posted && succeeded ==> r.page == p.(added := p.added + [gameId])
    ensures !(r.posted && succeeded) ==> r.page == p
  {
    if !Holds(st, AccessToken) then AddResult(p, false, true)
    else if succeeded then AddResult(p.(added := p.added + [gameId]), true, false)
    else AddResult(p, true, false)
  }

  /** The card text: up to 100 characters of the description with "..." when cut, or
      a fixed text when there is none. */
  function CardDescription(g: Game): (t: string)
    ensures g.description.None? || g.description.value == "" ==> t == "Sin descripción disponible"
    ensures g.description.Some? && g.description.value != "" ==> t == Truncate(g.description.value, 100)
  {
    if g.description.Some? && |g.description.value| > 0 then Truncate(g.description.value, 100)
    else "Sin descripción disponible"
  }
}
