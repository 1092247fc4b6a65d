/** The dashboard (`src/pages/Dashboard.jsx`): statistics over the user's library and
    reviews, and the short "recent", "top rated" and "recent reviews" lists. */
module Dashboard {
  import opened Optional
  import opened Seqs
  import opened Games
  import opened Reviews

  /** The signed-in user as the page reads it: `user.id` and `user._id`, either of
      which may be missing from the stored profile. */
  datatype Profile = Profile(id: Option<string>, altId: Option<string>)

  /** A forum post, reduced to its author's `_id`. */
  datatype Post = Post(author: Option<string>)

  /** The forum request: it failed, or it answered with a body whose `posts` field may
      be missing. */
  datatype PostsFetch = FetchFailed | Fetched(posts: Option<seq<Post>>)

  const LoadError: string := "Error al cargar los datos del dashboard. Por favor, intenta de nuevo."

  /** The match as written: `author?._id === user.id || author?._id === user._id`,
      where a missing author and a missing profile id are both `undefined` and so
      compare equal. */
  predicate AuthoredByAsWritten(u: Profile, author: Option<string>) {
    author == u.id || author == u.altId
  }

  /** The match as intended: the item has an author and it is the user, under either
      of the profile's ids. */
  predicate AuthoredBy(u: Profile, author: Option<string>) {
    author.Some? && (author == u.id || author == u.altId)
  }

  /** A review with no author counts as the user's under the written match when the
      profile lacks `_id`; the intended match does not count it. */
  lemma AuthorlessReviewCountsAsWritten()
    ensures var u := Profile(Some("u1"), None);
      var r := Review("r1", None, None, 5, "Sin autor visible", None, Normal, true, true, 0, false);
      && AuthoredByAsWritten(u, r.author)
      && !AuthoredBy(u, r.author)
      && UserReviewsAsWritten(u, [r]) == [r]
      && UserReviews(u, [r]) == []
  {
    var u := Profile(Some("u1"), None);
    var r := Review("r1", None, None, 5, "Sin autor visible", None, Normal, true, true, 0, false);
    assert [r][1..] == [];
  }

  /** The two matches agree on every item that has an author. */
  lemma MatchesAgreeWithAuthor(u: Profile, author: Option<string>)
    ensures author.Some? ==> (AuthoredByAsWritten(u, author) <==> AuthoredBy(u, author))
    ensures AuthoredBy(u, author) ==> AuthoredByAsWritten(u, author)
  {
  }

  function ReviewAuthoredBy(u: Profile): Review -> bool {
    (r: Review) => AuthoredBy(u, r.author)
  }

  function ReviewAuthoredByAsWritten(u: Profile): Review -> bool {
    (r: Review) => AuthoredByAsWritten(u, r.author)
  }

  /** The reviews selection as written. */
  function UserReviewsAsWritten(u: Profile, all: seq<Review>): seq<Review> {
    Filter(all, ReviewAuthoredByAsWritten(u))
  }

  /** The user's reviews: exactly the reviews with an author that is the user, in
      server order. */
  function UserReviews(u: Profile, all: seq<Review>): (r: seq<Review>)
    ensures multiset(r) <= multiset(all)
    ensures forall i :: 0 <= i < |r| ==> r[i].author.Some? && (r[i].author == u.id || r[i].author == u.altId)
    ensures forall i :: 0 <= i < |all| && AuthoredBy(u, all[i].author) ==> all[i] in r
    ensures forall x :: multiset(r)[x] == if AuthoredBy(u, x.author) then multiset(all)[x] else 0
  {
    FilterMultiplicity(all, ReviewAuthoredBy(u));
    Filter(all, ReviewAuthoredBy(u))
  }

  function PostAuthoredBy(u: Profile): Post -> bool {
    (p: Post) => AuthoredBy(u, p.author)
  }

  /** The user's forum posts: nothing when the request failed or the body has no
      `posts`; the dashboard loads either way. */
  function UserPosts(u: Profile, fetch: PostsFetch): (r: seq<Post>)
    ensures fetch.FetchFailed? || fetch.posts.None? ==> r == []
    ensures fetch.Fetched? && fetch.posts.Some? ==>
      && multiset(r) <= multiset(fetch.posts.value)
      && (forall i :: 0 <= i < |r| ==> AuthoredBy(u, r[i].author))
      && (forall i :: 0 <= i < |fetch.posts.value| && AuthoredBy(u, fetch.posts.value[i].author) ==> fetch.posts.value[i] in r)
      && (forall x :: multiset(r)[x] == if AuthoredBy(u, x.author) then multiset(fetch.posts.value)[x] else 0)
  {
    match fetch
    case FetchFailed => []
    case Fetched(None) => []
    case Fetched(Some(posts)) =>
      FilterMultiplicity(posts, PostAuthoredBy(u));
      Filter(posts, PostAuthoredBy(u))
  }

  function PostAuthoredByAsWritten(u: Profile): Post -> bool {
    (p: Post) => AuthoredByAsWritten(u, p.author)
  }

  /** The posts selection as written, with the same match as the reviews. */
  function UserPostsAsWritten(u: Profile, fetch: PostsFetch): seq<Post> {
    match fetch
    case FetchFailed => []
    case Fetched(None) => []
    case Fetched(Some(posts)) => Filter(posts, PostAuthoredByAsWritten(u))
  }

  function HoursOf(e: Entry): int {
    e.hours.GetOr(0)
  }

  /** Total hours: every entry's `horasJugadas`, a missing value counting as 0. */
  function TotalHours(library: seq<Entry>): int {
    Sum(library, HoursOf)
  }

  /** Adding an entry adds its hours, or nothing when it has none; with no negative
      hours the total is never negative. */
  lemma TotalHoursAddsUp(library: seq<Entry>, e: Entry)
    ensures TotalHours(library + [e]) == TotalHours(library) + (if e.hours.Some? then e.hours.value else 0)
    ensures TotalHours([]) == 0
    ensures (forall i :: 0 <= i < |library| ==> library[i].hours.GetOr(0) >= 0) ==> TotalHours(library) >= 0
  {
    SumAppend(library, e, HoursOf);
    if forall i :: 0 <= i < |library| ==> library[i].hours.GetOr(0) >= 0 {
      SumNonNegative(library, HoursOf);
    }
  }

  function ScoreOf(r: Review): int {
    r.score
  }

  /** The average score of the user's reviews, or 0 when there are none. */
  function AverageScore(reviews: seq<Review>): (avg: real)
    ensures |reviews| == 0 ==> avg == 0.0
    ensures |reviews| > 0 ==> avg * |reviews| as real == Sum(reviews, ScoreOf) as real
  {
    if |reviews| == 0 then 0.0 else Sum(reviews, ScoreOf) as real / |reviews| as real
  }

  /** The average lies between the lowest and the highest score. */
  lemma AverageWithinScores(reviews: seq<Review>, lo: int, hi: int)
    requires |reviews| > 0
    requires forall i :: 0 <= i < |reviews| ==> lo <= reviews[i].score <= hi
    ensures lo as real <= AverageScore(reviews) <= hi as real
  {
    SumBounds(reviews, ScoreOf, lo, hi);
    var n := |reviews| as real;
    var s := Sum(reviews, ScoreOf) as real;
    assert n * (lo as real) <= s <= n * (hi as real);
    DivideBounds(s, n, lo as real, hi as real);
  }

  lemma DivideBounds(s: real, n: real, lo: real, hi: real)
    requires n > 0.0 && n * lo <= s <= n * hi
    ensures lo <= s / n <= hi
  {
    assert s / n * n == s;
  }

  predicate IsStarted(e: Entry) {
    e.status == Completed || e.status == InProgress
  }

  /** The statistics cards. */
  datatype Stats = Stats(totalGames: nat, totalReviews: nat, totalHours: int, completed: nat, inProgress: nat,
                         pending: nat, averageScore: real, totalPosts: nat)

  /** The three status counts never add up to more than the library: an entry has one
      status, and some entries may have none of the three. */
  function ComputeStats(library: seq<Entry>, reviews: seq<Review>, posts: seq<Post>): (s: Stats)
    ensures s.totalGames == |library| && s.totalReviews == |reviews| && s.totalPosts == |posts|
    ensures s.completed + s.inProgress + s.pending <= s.totalGames
    ensures s.totalHours == TotalHours(library)
    ensures s.completed == Count(library, IsCompleted) && s.inProgress == Count(library, IsInProgress)
    ensures s.pending == Count(library, IsPending)
    ensures s.averageScore == AverageScore(reviews)
    ensures |reviews| == 0 ==> s.averageScore == 0.0
  {
    CountUnion(library, IsCompleted, IsInProgress, IsStarted);
    CountDisjoint(library, IsStarted, IsPending);
    Stats(|library|, |reviews|, TotalHours(library), Count(library, IsCompleted), Count(library, IsInProgress),
          Count(library, IsPending), AverageScore(reviews), |posts|)
  }

  /** An empty library counts no status, and one more entry adds one to the counter of
      its own status and nothing to the others. */
  lemma StatusCountsAddUp(library: seq<Entry>, e: Entry, reviews: seq<Review>, posts: seq<Post>)
    ensures var s := ComputeStats([], reviews, posts); s.completed == 0 && s.inProgress == 0 && s.pending == 0
    ensures var before, after := ComputeStats(library, reviews, posts), ComputeStats(library + [e], reviews, posts);
      && after.completed == before.completed + (if e.status == Completed then 1 else 0)
      && after.inProgress == before.inProgress + (if e.status == InProgress then 1 else 0)
      && after.pending == before.pending + (if e.status == Pending then 1 else 0)
  {
    CountAppendOne(library, e, IsCompleted);
    CountAppendOne(library, e, IsInProgress);
    CountAppendOne(library, e, IsPending);
  }

  function AddedAt(e: Entry): int {
    e.addedAt
  }

  function PersonalRating(e: Entry): int {
    e.personalRating.GetOr(0)
  }

  function ReviewDate(r: Review): int {
    r.createdAt
  }

  /** `calificacionPersonal && calificacionPersonal > 0`. */
  predicate RatedPositive(e: Entry) {
    e.personalRating.Some? && e.personalRating.value > 0
  }

  /** The library sorted newest first. The page sorts the library array in place, so
      the "top rated" list below starts from this order too. */
  function Newest(library: seq<Entry>): (r: seq<Entry>)
    ensures multiset(r) == multiset(library)
    ensures SortedBy(r, Desc(AddedAt))
  {
    DescIsTotalPreorder(AddedAt);
    SortBySorted(library, Desc(AddedAt));
    SortBy(library, Desc(AddedAt))
  }

  /** The five most recently added games, newest first; none left out is newer. */
  function RecentGames(library: seq<Entry>): (r: seq<Entry>)
    ensures |r| == Min(5, |library|)
    ensures multiset(r) <= multiset(library)
    ensures SortedBy(r, Desc(AddedAt))
    ensures forall x, y :: x in library && x !in r && y in r ==> AddedAt(y) >= AddedAt(x)
  {
    TopByKey(library, AddedAt, 5);
    Take(Newest(library), 5)
  }

  /** The five games the user rated best, among those with a positive rating; none
      left out is rated higher. */
  function TopRated(library: seq<Entry>): (r: seq<Entry>)
    ensures |r| <= 5
    ensures multiset(r) <= multiset(library)
    ensures forall e :: e in r ==> RatedPositive(e)
    ensures SortedBy(r, Desc(PersonalRating))
    ensures forall x :: x in library && RatedPositive(x) && x !in r ==> |r| == 5
    ensures forall x, y :: x in library && RatedPositive(x) && x !in r && y in r ==>
      PersonalRating(y) >= PersonalRating(x)
  {
    SameElements(library, Newest(library));
    TopSelectionByKey(Newest(library), RatedPositive, PersonalRating, 5);
    Take(SortBy(Filter(Newest(library), RatedPositive), Desc(PersonalRating)), 5)
  }

  /** A reordering has the same elements. */
  lemma SameElements<T>(a: seq<T>, b: seq<T>)
    requires multiset(a) == multiset(b)
    ensures forall x :: x in a <==> x in b
  {
    forall x ensures x in a <==> x in b {
      assert x in a <==> x in multiset(a);
      assert x in b <==> x in multiset(b);
    }
  }

  /** The user's three newest reviews; none left out is newer. */
  function RecentReviews(reviews: seq<Review>): (r: seq<Review>)
    ensures |r| == Min(3, |reviews|)
    ensures multiset(r) <= multiset(reviews)
    ensures SortedBy(r, Desc(ReviewDate))
    ensures forall x, y :: x in reviews && x !in r && y in r ==> ReviewDate(y) >= ReviewDate(x)
  {
    TopByKey(reviews, ReviewDate, 3);
    Take(SortBy(reviews, Desc(ReviewDate)), 3)
  }

  /** What the page shows once loaded. */
  datatype View = View(stats: Stats, recentGames: seq<Entry>, topRated: seq<Entry>, recentReviews: seq<Review>)

  /** `fetchDashboardData`: the library and the reviews are required, the forum is not. */
  function Load(u: Profile, library: Option<seq<Entry>>, reviews: Option<seq<Review>>, posts: PostsFetch)
    : (r: Result<View>)
    ensures library.None? || reviews.None? <==> r == Failed(LoadError)
    ensures r.Loaded? ==>
      && r.view.stats == ComputeStats(library.value, UserReviews(u, reviews.value), UserPosts(u, posts))
      && r.view.recentGames == RecentGames(library.value)
      && r.view.topRated == TopRated(library.value)
      && r.view.recentReviews == RecentReviews(UserReviews(u, reviews.value))
  {
    if library.None? || reviews.None? then Failed(LoadError)
    else
      var mine := UserReviews(u, reviews.value);
      Loaded(View(ComputeStats(library.value, mine, UserPosts(u, posts)), RecentGames(library.value),
                  TopRated(library.value), RecentReviews(mine)))
  }

  datatype Result<+T> = Loaded(view: T) | Failed(message: string)

  /** `fetchDashboardData` as written: the same page built from the written matches. */
  function LoadAsWritten(u: Profile, library: Option<seq<Entry>>, reviews: Option<seq<Review>>, posts: PostsFetch)
    : Result<View>
  {
    if library.None? || reviews.None? then Failed(LoadError)
    else
      var mine := UserReviewsAsWritten(u, reviews.value);
      Loaded(View(ComputeStats(library.value, mine, UserPostsAsWritten(u, posts)), RecentGames(library.value),
                  TopRated(library.value), RecentReviews(mine)))
  }

  /** For a profile without `_id`, the page as written counts a review and a post that
      have no author as the user's; the corrected page counts neither. */
  lemma AuthorlessItemsCountOnPageAsWritten()
    ensures var u := Profile(Some("u1"), None);
      var r := Review("r1", None, None, 5, "Sin autor visible", None, Normal, true, true, 0, false);
      var written := LoadAsWritten(u, Some([]), Some([r]), Fetched(Some([Post(None)])));
      var corrected := Load(u, Some([]), Some([r]), Fetched(Some([Post(None)])));
      && written.Loaded? && written.view.stats.totalReviews == 1 && written.view.stats.totalPosts == 1
      && corrected.Loaded? && corrected.view.stats.totalReviews == 0 && corrected.view.stats.totalPosts == 0
  {
    var u := Profile(Some("u1"), None);
    var r := Review("r1", None, None, 5, "Sin autor visible", None, Normal, true, true, 0, false);
    var posts := Fetched(Some([Post(None)]));
    AuthorlessReviewCountsAsWritten();
    AuthorlessPostCountsAsWritten();
    PageCounts(u, Some([]), Some([r]), posts);
  }

  /** A post with no author is the user's under the written match when the profile
      lacks `_id`; the intended match does not select it. */
  lemma AuthorlessPostCountsAsWritten()
    ensures var u, posts := Profile(Some("u1"), None), Fetched(Some([Post(None)]));
      UserPostsAsWritten(u, posts) == [Post(None)] && UserPosts(u, posts) == []
  {
    assert [Post(None)][1..] == [];
  }

  /** Both pages count exactly the reviews and posts their own matches select. */
  lemma PageCounts(u: Profile, library: Option<seq<Entry>>, reviews: Option<seq<Review>>, posts: PostsFetch)
    requires library.Some? && reviews.Some?
    ensures var w := LoadAsWritten(u, library, reviews, posts);
      && w.Loaded? && w.view.stats.totalReviews == |UserReviewsAsWritten(u, reviews.value)|
      && w.view.stats.totalPosts == |UserPostsAsWritten(u, posts)|
    ensures var c := Load(u, library, reviews, posts);
      && c.Loaded? && c.view.stats.totalReviews == |UserReviews(u, reviews.value)|
      && c.view.stats.totalPosts == |UserPosts(u, posts)|
  {
  }

  /** When every review and post has an author, the page as written and the corrected
      page are the same. */
  lemma LoadsAgreeWhenAuthored(u: Profile, library: Option<seq<Entry>>, reviews: Option<seq<Review>>, posts: PostsFetch)
    requires reviews.Some? ==> forall i :: 0 <= i < |reviews.value| ==> reviews.value[i].author.Some?
    requires posts.Fetched? && posts.posts.Some? ==> forall i :: 0 <= i < |posts.posts.value| ==> posts.posts.value[i].author.Some?
    ensures LoadAsWritten(u, library, reviews, posts) == Load(u, library, reviews, posts)
  {
    if reviews.Some? {
      FilterExtOn(reviews.value, ReviewAuthoredByAsWritten(u), ReviewAuthoredBy(u));
    }
    if posts.Fetched? && posts.posts.Some? {
      FilterExtOn(posts.posts.value, PostAuthoredByAsWritten(u), PostAuthoredBy(u));
    }
  }

  /** `getStatusBadge`: one colour per known status, "secondary" for anything else. */
  function StatusBadge(status: string): (c: string)
    ensures status == Completed ==> c == "success"
    ensures status == InProgress ==> c == "primary"
    ensures status == Pending ==> c == "warning"
    ensures c == "secondary" <==> status != Completed && status != InProgress && status != Pending
  {
    if status == Completed then "success"
    else if status == InProgress then "primary"
    else if status == Pending then "warning"
    else "secondary"
  }
}
