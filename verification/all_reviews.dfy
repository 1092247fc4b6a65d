/** The community reviews page (`src/pages/AllReviews.jsx`): public reviews only, six
    filters and five orders, and the three best-rated games of the catalog. */
module AllReviews {
  import opened Optional
  import opened Seqs
  import opened Games
  import opened Reviews

  /** The five orders of the "Ordenar por" select. */
  datatype SortOrder = Recent | Oldest | BestScore | WorstScore | MostHours

  /** The filter record. `recommended` is the raw select value: `""` is off, `"true"`
      keeps recommending reviews and any other value the others. */
  datatype Filters = Filters(genre: string, platform: string, year: YearFilter, recommended: string,
                             difficulty: string, minScore: Option<int>, order: SortOrder)

  const Cleared: Filters := Filters("", "", AnyYear, "", "", None, Recent)

  predicate IsPublic(r: Review) {
    r.isPublic
  }

  /** The loaded list: only the reviews marked `esPublica`, in server order. */
  function PublicOnly(all: seq<Review>): (r: seq<Review>)
    ensures multiset(r) <= multiset(all)
    ensures forall i :: 0 <= i < |r| ==> r[i].isPublic
    ensures forall i :: 0 <= i < |all| && all[i].isPublic ==> all[i] in r
    ensures forall x :: multiset(r)[x] == if x.isPublic then multiset(all)[x] else 0
  {
    FilterMultiplicity(all, IsPublic);
    Filter(all, IsPublic)
  }

  /** The reviewed game's release year, when the game and its year are known. */
  function ReleaseYear(r: Review): Option<int> {
    if r.game.Some? then r.game.value.year else None
  }

  /** `review.recomendaria === (recomendado === "true")`. */
  predicate RecommendationMatches(choice: string, r: Review) {
    r.recommends == (choice == "true")
  }

  function GenreStage(genre: string): Stage<Review> {
    Stage(|genre| > 0, (r: Review) => r.game.Some? && r.game.value.genre == Some(genre))
  }

  function PlatformStage(platform: string): Stage<Review> {
    Stage(|platform| > 0, (r: Review) => OnPlatform(r.game, platform))
  }

  function YearStage(y: YearFilter): Stage<Review> {
    Stage(!y.AnyYear?, (r: Review) => InYearFilter(y, ReleaseYear(r)))
  }

  function RecommendationStage(choice: string): Stage<Review> {
    Stage(choice != "", (r: Review) => RecommendationMatches(choice, r))
  }

  function DifficultyStage(difficulty: string): Stage<Review> {
    Stage(|difficulty| > 0, (r: Review) => r.difficulty == difficulty)
  }

  function ScoreStage(min: Option<int>): Stage<Review> {
    Stage(min.Some?, (r: Review) => r.score >= min.GetOr(0))
  }

  /** `applyFilters`' filter steps, in the order the page runs them. */
  function Stages(f: Filters): seq<Stage<Review>> {
    [GenreStage(f.genre), PlatformStage(f.platform), YearStage(f.year),
     RecommendationStage(f.recommended), DifficultyStage(f.difficulty), ScoreStage(f.minScore)]
  }

  /** What a review must satisfy to be listed, written as one condition. */
  predicate Keeps(f: Filters, r: Review) {
    && (|f.genre| == 0 || (r.game.Some? && r.game.value.genre == Some(f.genre)))
    && (|f.platform| == 0 || OnPlatform(r.game, f.platform))
    && InYearFilter(f.year, ReleaseYear(r))
    && (f.recommended == "" || RecommendationMatches(f.recommended, r))
    && (|f.difficulty| == 0 || r.difficulty == f.difficulty)
    && (f.minScore.None? || r.score >= f.minScore.value)
  }

  function KeepsFn(f: Filters): Review -> bool {
    (r: Review) => Keeps(f, r)
  }

  lemma StagesMeanKeeps(f: Filters, r: Review)
    ensures PassesAll(Stages(f), r) <==> Keeps(f, r)
  {
    PassesSix(GenreStage(f.genre), PlatformStage(f.platform), YearStage(f.year),
              RecommendationStage(f.recommended), DifficultyStage(f.difficulty), ScoreStage(f.minScore), r);
  }

  lemma ChainKeeps(all: seq<Review>, f: Filters)
    ensures Chain(all, Stages(f)) == Filter(all, KeepsFn(f))
  {
    ChainIsOneFilter(all, Stages(f));
    forall r ensures PassesAll(Stages(f), r) <==> Keeps(f, r) {
      StagesMeanKeeps(f, r);
    }
    FilterExt(all, (r: Review) => PassesAll(Stages(f), r), KeepsFn(f));
  }

  /** The comparator of each order; missing hours count as 0. */
  function Order(o: SortOrder): (Review, Review) -> bool {
    match o
    case Recent => Desc((r: Review) => r.createdAt)
    case Oldest => Asc((r: Review) => r.createdAt)
    case BestScore => Desc((r: Review) => r.score)
    case WorstScore => Asc((r: Review) => r.score)
    case MostHours => Desc((r: Review) => r.hours.GetOr(0))
  }

  lemma OrderIsTotalPreorder(o: SortOrder)
    ensures TotalPreorder(Order(o))
  {
    match o
    case Recent => DescIsTotalPreorder((r: Review) => r.createdAt);
    case Oldest => AscIsTotalPreorder((r: Review) => r.createdAt);
    case BestScore => DescIsTotalPreorder((r: Review) => r.score);
    case WorstScore => AscIsTotalPreorder((r: Review) => r.score);
    case MostHours => DescIsTotalPreorder((r: Review) => r.hours.GetOr(0));
  }

  /** `applyFilters`: every copy of every review that meets the active filters, and
      nothing else, in the chosen order. */
  function ApplyFilters(all: seq<Review>, f: Filters): (r: seq<Review>)
    ensures multiset(r) == multiset(Filter(all, KeepsFn(f)))
    ensures multiset(r) <= multiset(all)
    ensures forall i :: 0 <= i < |r| ==> Keeps(f, r[i])
    ensures forall i :: 0 <= i < |all| && Keeps(f, all[i]) ==> all[i] in r
    ensures SortedBy(r, Order(f.order))
  {
    ChainKeeps(all, f);
    SortedSelection(all, KeepsFn(f), Order(f.order));
    OrderIsTotalPreorder(f.order);
    SortBy(Chain(all, Stages(f)), Order(f.order))
  }

  /** `hasActiveFilters`: the order never counts, and there is no search box. */
  predicate HasActiveFilters(f: Filters) {
    |f.genre| > 0 || |f.platform| > 0 || !f.year.AnyYear? || f.recommended != "" || |f.difficulty| > 0 || f.minScore.Some?
  }

  /** `clearFilters` switches every filter off and puts the order back to "recientes". */
  lemma ClearedIsInactive()
    ensures !HasActiveFilters(Cleared) && Cleared.order == Recent
  {
  }

  /** With no active filter every loaded review is listed. */
  lemma InactiveFiltersKeepAll(all: seq<Review>, f: Filters)
    requires !HasActiveFilters(f)
    ensures multiset(ApplyFilters(all, f)) == multiset(all)
  {
    FilterAll(all, KeepsFn(f));
    ChainKeeps(all, f);
  }

  predicate Recommends(r: Review) {
    r.recommends
  }

  predicate DoesNotRecommend(r: Review) {
    !r.recommends
  }

  /** With no other filter, "recomendado: sí" and "recomendado: no" split the reviews
      between them. */
  lemma RecommendationPartitions(all: seq<Review>, f: Filters, other: string)
    requires !HasActiveFilters(f)
    requires other != "" && other != "true"
    ensures multiset(ApplyFilters(all, f.(recommended := "true"))) + multiset(ApplyFilters(all, f.(recommended := other)))
      == multiset(all)
  {
    var fy := f.(recommended := "true");
    var fn := f.(recommended := other);
    ChainKeeps(all, fy);
    ChainKeeps(all, fn);
    FilterExt(all, KeepsFn(fy), Recommends);
    FilterExt(all, KeepsFn(fn), DoesNotRecommend);
    FilterPartition(all, Recommends, DoesNotRecommend);
  }

  /** `ratingPromedio || promedioPuntuacion`: the first non-zero of the two ratings, or 0. */
  function RankKey(g: Game): int {
    if g.rating.GetOr(0) != 0 then g.rating.value else g.averageScore.GetOr(0)
  }

  predicate Ranked(g: Game) {
    RankKey(g) != 0
  }

  /** The "top games" box: at most three rated games from the catalog, best first, and
      no rated game left out is better than the ones shown. */
  function TopGames(games: seq<Game>): (r: seq<Game>)
    ensures |r| <= 3
    ensures multiset(r) <= multiset(games)
    ensures forall g :: g in r ==> Ranked(g)
    ensures SortedBy(r, Desc(RankKey))
    ensures forall g :: g in games && Ranked(g) && g !in r ==>
      |r| == 3 && forall h :: h in r ==> RankKey(h) >= RankKey(g)
  {
    DescIsTotalPreorder(RankKey);
    TopSelection(games, Ranked, Desc(RankKey), 3);
    Take(SortBy(Filter(games, Ranked), Desc(RankKey)), 3)
  }
}
