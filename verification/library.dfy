/** The user's library page (`src/pages/MyLibrary.jsx`): search, six filters and six
    orders over the library entries, the counters at the top, deletion and the status
    badge. */
module Library {
  import opened Optional
  import opened Text
  import opened Seqs
  import opened Session
  import opened Games
  import Collation

  /** The "tipo" select: everything, games the user created, or catalog games. */
  datatype Kind = AnyKind | PersonalOnly | GlobalOnly

  /** The six orders of the "Ordenar por" select. */
  datatype SortOrder = Recent | Oldest | TitleAZ | TitleZA | MostHours | BestRated

  /** The filter record; `""` and `None` mean "off". `minHours` is the typed number, so
      a typed `0` is an active filter. */
  datatype Filters = Filters(status: string, genre: string, platform: string, kind: Kind,
                             minRating: Option<int>, minHours: Option<int>, order: SortOrder)

  const Cleared: Filters := Filters("", "", "", AnyKind, None, None, Recent)

  /** The search box matches the game's title, developer or genre. */
  predicate MatchesSearch(term: string, e: Entry) {
    e.game.Some? &&
      (Mentions(Some(e.game.value.title), term) || Mentions(e.game.value.developer, term) || Mentions(e.game.value.genre, term))
  }

  /** A catalog game the user only added. */
  predicate IsCatalog(e: Entry) {
    !IsPersonal(e)
  }

  predicate OfKind(k: Kind, e: Entry) {
    match k
    case AnyKind => true
    case PersonalOnly => IsPersonal(e)
    case GlobalOnly => IsCatalog(e)
  }

  /** `calificacionPersonal && calificacionPersonal >= min`: a missing or zero rating
      never passes. */
  predicate RatedAtLeast(e: Entry, min: int) {
    e.personalRating.Some? && e.personalRating.value != 0 && e.personalRating.value >= min
  }

  /** `horasJugadas >= min`: missing hours never pass. */
  predicate PlayedAtLeast(e: Entry, min: int) {
    e.hours.Some? && e.hours.value >= min
  }

  function SearchStage(term: string): Stage<Entry> {
    Stage(!IsBlank(term), (e: Entry) => MatchesSearch(term, e))
  }

  function StatusStage(status: string): Stage<Entry> {
    Stage(|status| > 0, (e: Entry) => e.status == status)
  }

  function GenreStage(genre: string): Stage<Entry> {
    Stage(|genre| > 0, (e: Entry) => e.game.Some? && e.game.value.genre == Some(genre))
  }

  function PlatformStage(platform: string): Stage<Entry> {
    Stage(|platform| > 0, (e: Entry) => OnPlatform(e.game, platform))
  }

  function KindStage(k: Kind): Stage<Entry> {
    Stage(!k.AnyKind?, (e: Entry) => OfKind(k, e))
  }

  function RatingStage(min: Option<int>): Stage<Entry> {
    Stage(min.Some?, (e: Entry) => RatedAtLeast(e, min.GetOr(0)))
  }

  function HoursStage(min: Option<int>): Stage<Entry> {
    Stage(min.Some?, (e: Entry) => PlayedAtLeast(e, min.GetOr(0)))
  }

  /** `applyFilters`' filter steps, in the order the page runs them. */
  function Stages(f: Filters, term: string): seq<Stage<Entry>> {
    [SearchStage(term), StatusStage(f.status), GenreStage(f.genre), PlatformStage(f.platform),
     KindStage(f.kind), RatingStage(f.minRating), HoursStage(f.minHours)]
  }

  /** What an entry must satisfy to be listed, written as one condition. */
  predicate Keeps(f: Filters, term: string, e: Entry) {
    && (IsBlank(term) || MatchesSearch(term, e))
    && (|f.status| == 0 || e.status == f.status)
    && (|f.genre| == 0 || (e.game.Some? && e.game.value.genre == Some(f.genre)))
    && (|f.platform| == 0 || OnPlatform(e.game, f.platform))
    && OfKind(f.kind, e)
    && (f.minRating.None? || RatedAtLeast(e, f.minRating.value))
    && (f.minHours.None? || PlayedAtLeast(e, f.minHours.value))
  }

  /** `Keeps` as the predicate handed to the filter. */
  function KeepsFn(f: Filters, term: string): Entry -> bool {
    (e: Entry) => Keeps(f, term, e)
  }

  lemma StagesMeanKeeps(f: Filters, term: string, e: Entry)
    ensures PassesAll(Stages(f, term), e) <==> Keeps(f, term, e)
  {
    PassesSeven(SearchStage(term), StatusStage(f.status), GenreStage(f.genre), PlatformStage(f.platform),
                KindStage(f.kind), RatingStage(f.minRating), HoursStage(f.minHours), e);
  }

  /** The title an alphabetical sort compares; an entry without its game compares as `""`. */
  function TitleKey(e: Entry): string {
    if e.game.Some? then e.game.value.title else ""
  }

  /** The comparator of each order; missing hours or rating count as 0. */
  function Order(o: SortOrder): (Entry, Entry) -> bool {
    match o
    case Recent => Desc((e: Entry) => e.addedAt)
    case Oldest => Asc((e: Entry) => e.addedAt)
    case TitleAZ => Collation.Ascending(TitleKey)
    case TitleZA => Collation.Descending(TitleKey)
    case MostHours => Desc((e: Entry) => e.hours.GetOr(0))
    case BestRated => Desc((e: Entry) => e.personalRating.GetOr(0))
  }

  lemma OrderIsTotalPreorder(o: SortOrder)
    ensures TotalPreorder(Order(o))
  {
    match o
    case Recent => DescIsTotalPreorder((e: Entry) => e.addedAt);
    case Oldest => AscIsTotalPreorder((e: Entry) => e.addedAt);
    case TitleAZ => Collation.ByFieldIsTotalPreorder(TitleKey);
    case TitleZA => Collation.ByFieldIsTotalPreorder(TitleKey);
    case MostHours => DescIsTotalPreorder((e: Entry) => e.hours.GetOr(0));
    case BestRated => DescIsTotalPreorder((e: Entry) => e.personalRating.GetOr(0));
  }

  /** The chain of filters keeps exactly the entries `Keeps` accepts. */
  lemma ChainKeeps(all: seq<Entry>, f: Filters, term: string)
    ensures Chain(all, Stages(f, term)) == Filter(all, KeepsFn(f, term))
  {
    ChainIsOneFilter(all, Stages(f, term));
    forall e ensures PassesAll(Stages(f, term), e) <==> Keeps(f, term, e) {
      StagesMeanKeeps(f, term, e);
    }
    FilterExt(all, (e: Entry) => PassesAll(Stages(f, term), e), KeepsFn(f, term));
  }

  /** `applyFilters`: every copy of every entry that meets the active filters, and
      nothing else, in the chosen order. */
  function ApplyFilters(all: seq<Entry>, f: Filters, term: string): (r: seq<Entry>)
    ensures multiset(r) == multiset(Filter(all, KeepsFn(f, term)))
    ensures multiset(r) <= multiset(all)
    ensures forall i :: 0 <= i < |r| ==> Keeps(f, term, r[i])
    ensures forall i :: 0 <= i < |all| && Keeps(f, term, all[i]) ==> all[i] in r
    ensures SortedBy(r, Order(f.order))
  {
    ChainKeeps(all, f, term);
    SortedSelection(all, KeepsFn(f, term), Order(f.order));
    OrderIsTotalPreorder(f.order);
    SortBy(Chain(all, Stages(f, term)), Order(f.order))
  }

  /** `hasActiveFilters`: the order never counts, the raw search text does. */
  predicate HasActiveFilters(f: Filters, term: string) {
    |f.status| > 0 || |f.genre| > 0 || |f.platform| > 0 || !f.kind.AnyKind? || f.minRating.Some? || f.minHours.Some? || |term| > 0
  }

  /** `clearFilters` switches every filter off and puts the order back to "recientes". */
  lemma ClearedIsInactive()
    ensures !HasActiveFilters(Cleared, "") && Cleared.order == Recent
  {
  }

  /** With no active filter every entry is listed: the result is a reordering of the
      library. */
  lemma InactiveFiltersKeepAll(all: seq<Entry>, f: Filters, term: string)
    requires !HasActiveFilters(f, term)
    ensures multiset(ApplyFilters(all, f, term)) == multiset(all)
  {
    assert IsBlank(term) by {
      assert AllSpace(term);
    }
    FilterAll(all, KeepsFn(f, term));
    ChainKeeps(all, f, term);
  }

  /** With no other filter, "personal" and "global" split the library between them:
      every entry lands in exactly one of the two lists. */
  lemma KindsPartition(all: seq<Entry>, f: Filters, term: string)
    requires !HasActiveFilters(f, term)
    ensures multiset(ApplyFilters(all, f.(kind := PersonalOnly), "")) + multiset(ApplyFilters(all, f.(kind := GlobalOnly), ""))
      == multiset(all)
  {
    assert IsBlank("") by {
      assert AllSpace("");
    }
    var fp := f.(kind := PersonalOnly);
    var fg := f.(kind := GlobalOnly);
    ChainKeeps(all, fp, "");
    ChainKeeps(all, fg, "");
    FilterExt(all, KeepsFn(fp, ""), IsPersonal);
    FilterExt(all, KeepsFn(fg, ""), IsCatalog);
    FilterPartition(all, IsPersonal, IsCatalog);
  }

  /** The four counters above the list. */
  datatype Stats = Stats(total: nat, created: nat, completed: nat, inProgress: nat)

  /** The counters are computed over the whole library, not the filtered list. */
  function ComputeStats(all: seq<Entry>): (s: Stats)
    ensures s.total == |all|
    ensures s.created == Count(all, IsPersonal) && s.completed == Count(all, IsCompleted)
    ensures s.inProgress == Count(all, IsInProgress)
    ensures s.created <= s.total
    ensures s.completed + s.inProgress <= s.total
  {
    CountDisjoint(all, IsCompleted, IsInProgress);
    Stats(|all|, Count(all, IsPersonal), Count(all, IsCompleted), Count(all, IsInProgress))
  }

  /** An empty library has every counter at 0, and one more entry adds one to the
      total and one to each counter whose condition it meets. */
  lemma StatsAddUp(all: seq<Entry>, e: Entry)
    ensures ComputeStats([]) == Stats(0, 0, 0, 0)
    ensures ComputeStats(all + [e]) ==
      Stats(|all| + 1,
            ComputeStats(all).created + (if IsPersonal(e) then 1 else 0),
            ComputeStats(all).completed + (if e.status == Completed then 1 else 0),
            ComputeStats(all).inProgress + (if e.status == InProgress then 1 else 0))
  {
    CountAppendOne(all, e, IsPersonal);
    CountAppendOne(all, e, IsCompleted);
    CountAppendOne(all, e, IsInProgress);
  }

  /** The library's games the user created and the ones from the catalog add up to the
      total. */
  lemma CreatedAndCatalogAddUp(all: seq<Entry>)
    ensures ComputeStats(all).created + Count(all, IsCatalog) == |all|
  {
    CountSplit(all, IsPersonal, IsCatalog);
  }

  /** `handleDeleteConfirm`: the path of the DELETE request, or none without an access
      token. A game the user created is deleted itself; a catalog game is only removed
      from the library. */
  function DeletePath(st: Storage, e: Entry): (path: Option<string>)
    ensures path.None? <==> !Holds(st, AccessToken)
    ensures path.Some? && IsPersonal(e) ==> path.value == "/juegos/" + e.game.value.id
    ensures path.Some? && !IsPersonal(e) ==> path.value == "/mis-juegos/" + e.id
  {
    if !Holds(st, AccessToken) then None
    else if IsPersonal(e) then Some("/juegos/" + e.game.value.id)
    else Some("/mis-juegos/" + e.id)
  }

  /** A badge: colour and text. */
  datatype Badge = Badge(bg: string, text: string)

  /** `getStatusBadge`: the three known statuses have their own badge; anything else gets
      the "Pendiente" one. */
  function StatusBadge(status: string): (b: Badge)
    ensures status == Completed ==> b == Badge("success", "Completado")
    ensures status == InProgress ==> b == Badge("primary", "En Progreso")
    ensures status != Completed && status != InProgress ==> b == Badge("secondary", "Pendiente")
  {
    if status == Pending then Badge("secondary", "Pendiente")
    else if status == InProgress then Badge("primary", "En Progreso")
    else if status == Completed then Badge("success", "Completado")
    else Badge("secondary", "Pendiente")
  }
}
