# GameTracker front end, modelled in Dafny

GameTracker is a React single-page application. Players use it to keep a personal game
library, browse a global catalog of games, write and read reviews, and talk in a forum.
This project models the application's client-side logic as pure Dafny functions over
immutable data, and proves what each piece promises. The modelled pieces are:

- **Session and HTTP client.** The session lives in the browser's storage under three
  keys: access token, refresh token and serialized user. The shared HTTP client sends
  the access token with every request. When the server answers 401 with `expired`, the
  client refreshes the token once and resends the request. If the refresh fails, the
  session is torn down.
- **Auth service, context and route guard.** The service wraps each server call. The
  context holds the in-memory user and its flags. The route guard shows a spinner, a
  redirect to `/login`, or the protected page.
- **Sign-in forms.** Login (including the resend of the verification email), register
  (including the email pattern), and password reset.
- **Catalog and library pages.** The global catalog and the personal library each filter
  in stages, sort by a chosen order, show counters, and paginate. The model also covers
  the home page's "newest global games" strip.
- **Review pages.** The community reviews page, with its filters and top-three games.
  Each game's review page, with its sign-in guards, modal form and save requests.
- **Dashboard.** The user's statistics, recent games, best-rated games and recent
  reviews.
- **Game form.** Create and edit a game, including the cover upload checks.
- **Forum.** The post form: limits, trimming and the tag field. The post list: filters,
  relative times, preview, pager and category colours. The comment thread: new comment,
  likes, replies and the recursive reply tree.

Each server call is a parameter of the model: it either succeeded with a body or failed
with an optional error body. The current time is also a parameter. Nothing else here
needs the network, a clock or a browser.

Lengths are those JavaScript's `length`, `slice` and `substring` use: UTF-16 code
units, two for a character beyond U+FFFF. Every length limit and every cut counts them.

Two author tests in the source treat a missing author as the user's. The model uses the
corrected tests and keeps the written ones beside them; "## Findings" lists both. The
rows of the members built on the corrected tests say so.

One data quirk is reproduced as written. The post list's colour table spells its
discussion key with the UTF-8 bytes of "Discusión" decoded in another encoding. The post
form stores the correct spelling. So a discussion post gets the fallback colour.
`Forum.DiscussionPostsAreGrey` states this. The list's category filter offers the same
mis-decoded spelling as an option value (`src/pages/Forum.jsx:112`). So choosing it asks
the server for a category that the post form never stores.

## Model

| member | source | states |
|---|---|---|
| Session.SetItem | src/api/authService.js:21-23 | writing one storage key changes that key and no other |
| Session.Clear | src/api/authService.js:55-57 | removing the three session keys leaves every key empty |
| Session.CurrentUser | src/api/authService.js:119-122 | the current user is present exactly when a non-empty user string is stored, and it is that string |
| Session.IsAuthenticatedIgnoresRefreshToken | src/api/authService.js:112-116 | whether a session counts as signed in depends only on the access token and the user, never on the refresh token |
| Session.ClearSignsOut | src/api/authService.js:112-122 | a cleared store is signed out and has no current user |
| Gateway.AttachToken | src/api/axiosConfig.js:15-26 | with a stored access token the request carries `Bearer <token>`; without one it is sent unchanged |
| Gateway.Dispatch | src/api/axiosConfig.js:29-71 | one request's lifecycle starts by sending the request with its token attached. Whatever the server does, the request is sent at most twice and refreshed at most once; a request already retried is sent once and never refreshed |
| Gateway.RetriedRequestIsNotRefreshed | src/api/axiosConfig.js:29-71 | a request marked `_retry` gets its answer passed through unchanged, even an expired 401: no refresh, no storage change, no redirect |
| Gateway.OtherErrorsPassThrough | src/api/axiosConfig.js:29-71 | any failure other than a first-time expired 401 reaches the caller as it came, with storage untouched |
| Gateway.SuccessResolvesUntouched | src/api/axiosConfig.js:29-30 | a first send answered 2xx resolves with that reply after one send, with no refresh, no storage change and no redirect |
| Gateway.RefreshOnlyWhenExpired | src/api/axiosConfig.js:35-48 | a refresh call happens only after a first-time expired 401, only with a stored refresh token, and it carries that token |
| Gateway.MissingRefreshTokenTearsDown | src/api/axiosConfig.js:39-66 | with no refresh token, an expired 401 clears all three keys, sends the page to `/login` and rejects, with no further call |
| Gateway.FailedRefreshTearsDown | src/api/axiosConfig.js:46-66 | a failed refresh clears the session, redirects to `/login` and rejects; nothing is sent after the refresh call |
| Gateway.RefreshedRequestIsResentOnce | src/api/axiosConfig.js:50-58 | after a successful refresh both new tokens are stored and the user is kept. The original request is resent exactly once with the new token, and that answer is what the caller gets |
| Gateway.RefreshKeepsUser | src/api/axiosConfig.js:53-54 | after a refresh the session is signed in exactly when the new access token is non-empty and a user is stored |
| AuthService.ErrorOf | src/api/authService.js:10 | the thrown error is the server's error body when there is one, else a body carrying the call's default message |
| AuthService.MessageOf | src/pages/GameForm.jsx:188 | the message shown is the server's non-empty message, else the page's own default text |
| AuthService.Wrap | src/api/authService.js:62-69 | a wrapper resolves exactly when the call succeeded, with its body; otherwise it throws the error body or the default |
| AuthService.Register | src/api/authService.js:5-12 | registering never touches storage, and its outcome is the wrapped call with the registration default message |
| AuthService.SignIn | src/api/authService.js:15-45 | a successful sign-in stores exactly the returned access token, refresh token and user under the three keys; a failed one leaves storage unchanged and throws |
| AuthService.Logout | src/api/authService.js:48-59 | logout always ends with every key removed and the session signed out |
| AuthService.LogoutIgnoresServer | src/api/authService.js:48-59 | how the server call went makes no difference to logout's result |
| AuthService.SignInAuthenticates | src/api/authService.js:15-29 | a successful login leaves the session signed in exactly when the token and user are non-empty, and then the user is the returned one; a failed login changes nothing |
| AuthService.LoginThenLogout | src/api/authService.js:15-59 | signing in and then out: signed in between, signed out after |
| AuthService.UnverifiedLoginIsDistinguishable | src/api/authService.js:26-28 | a refusal for an unverified email still says so when thrown, and stores nothing |
| AuthService.AliceSignsIn | src/api/authService.js:18-23 | a concrete sign-in stores exactly that access token, refresh token and user |
| AuthContext.CheckAuth | src/context/AuthContext.jsx:17-26 | loading always ends; a stored session is adopted with its user; otherwise the user and flag stay as they were |
| AuthContext.CheckAuthOnLoad | src/context/AuthContext.jsx:8-26 | on first load the context's flag and user mirror storage exactly |
| AuthContext.SignIn | src/context/AuthContext.jsx:39-67 | a successful login adopts the returned user and sets the flag; a failed one leaves the context unchanged and rethrows |
| AuthContext.LoginAgreesWithStorage | src/context/AuthContext.jsx:39-67 | a context login succeeds exactly when the server call does. Then the context's user equals the stored user; otherwise neither context nor storage changes |
| AuthContext.Logout | src/context/AuthContext.jsx:69-80 | logout clears the user and the flag and leaves storage signed out, whatever the server said |
| AuthContext.Register | src/context/AuthContext.jsx:28-37 | register never changes the context or storage, and it succeeds exactly when the call does |
| AuthContext.UpdateUser | src/context/AuthContext.jsx:82-85 | the in-memory user and the stored user become the same profile; tokens and flags are untouched |
| AuthContext.ActionsKeepWellFormed | src/context/AuthContext.jsx:17-85 | every context action keeps the invariant that a signed-in context has a user |
| RouteGuard.Guard | src/components/ProtectedRoute.jsx:5-24 | while loading the guard shows the spinner; once loaded it shows the page exactly when signed in, and otherwise replaces the history entry with `/login` |
| RouteGuard.GuardAfterLoad | src/components/ProtectedRoute.jsx:8-23 | before the first check the guard waits; after it, the page shows exactly when storage holds a session |
| RouteGuard.FailedRefreshThenReloadRedirects | src/api/axiosConfig.js:59-66 | after a failed refresh has cleared storage, reloading lands on `/login` |
| RouteGuard.LogoutLeavesProtectedPage | src/components/ProtectedRoute.jsx:19-21 | signing out from a protected page sends the guard to `/login` |
| Forms.ClearError | src/components/Auth/LoginForm.jsx:31-33 | editing a field blanks its own message and leaves every other field's entry unchanged |
| LoginForm.Validate | src/components/Auth/LoginForm.jsx:37-50 | a blank username and an empty password each get their own message, and the form passes exactly when neither applies |
| LoginForm.Change | src/components/Auth/LoginForm.jsx:25-35 | an edit sets that input, blanks only its message, and always hides the unverified-email notice |
| LoginForm.Submit | src/components/Auth/LoginForm.jsx:52-70 | `login` is called exactly when the form is valid, and the page goes to `/dashboard` exactly when it succeeds. An unverified-email refusal shows the notice with the body's email, or `""` when there is none |
| LoginForm.Resend | src/components/Auth/LoginForm.jsx:72-84 | the verification mail is resent to the known email, and not at all when none is known |
| LoginForm.UnverifiedAccountCanResend | src/components/Auth/LoginForm.jsx:52-84 | after an unverified-email refusal the user stays signed out, the notice shows, and the resend goes to the refused account's email |
| LoginForm.EditHidesNotice | src/components/Auth/LoginForm.jsx:34 | any edit hides the notice and keeps the resend address |
| EmailPattern.TestIffMatches | src/components/Auth/RegisterForm.jsx:53 | the scan accepts exactly the strings the email pattern describes: no white space, and an `@` then a later `.` with characters before, between and after |
| EmailPattern.MatchIsNotBlank | src/components/Auth/RegisterForm.jsx:53-58 | an address the pattern accepts is never blank |
| EmailPattern.Examples | src/components/Auth/RegisterForm.jsx:53 | concrete accepted and refused addresses |
| RegisterForm.CheckUsername | src/components/Auth/RegisterForm.jsx:41-45 | a blank username is "required"; otherwise fewer than 3 UTF-16 code units, untrimmed, is "too short" |
| RegisterForm.TwoEmojiUsernameAccepted | src/components/Auth/RegisterForm.jsx:43 | two emoji are four UTF-16 code units and so pass the three-character minimum |
| RegisterForm.CheckName | src/components/Auth/RegisterForm.jsx:48-50 | the name is refused exactly when blank |
| RegisterForm.CheckEmail | src/components/Auth/RegisterForm.jsx:53-58 | a blank email is "required"; otherwise it passes exactly when the pattern matches |
| RegisterForm.CheckPassword | src/components/Auth/RegisterForm.jsx:61-65 | an empty password is "required", one of 1 to 5 UTF-16 code units "too short", and 6 or more pass |
| RegisterForm.CheckConfirm | src/components/Auth/RegisterForm.jsx:68-72 | an empty confirmation is "required"; otherwise a mismatch is reported, and it passes exactly when equal |
| RegisterForm.Validate | src/components/Auth/RegisterForm.jsx:37-76 | each field carries exactly the message of its own check, if any |
| RegisterForm.ValidIff | src/components/Auth/RegisterForm.jsx:37-76 | the form passes exactly when every field is acceptable on its own terms |
| RegisterForm.Change | src/components/Auth/RegisterForm.jsx:25-35 | an edit sets exactly that input to the typed value, leaves the other inputs alone, and blanks only its message |
| RegisterForm.Submit | src/components/Auth/RegisterForm.jsx:78-106 | `register` is called exactly when the form is valid. Success empties the inputs, shows the notice and goes to `/login`; failure keeps what was typed |
| RegisterForm.EmptyFormNeedsEverything | src/components/Auth/RegisterForm.jsx:37-76 | the emptied form, submitted again, gets every field's "required" message |
| ResetPassword.Submit | src/pages/ResetPassword.jsx:22-45 | both fields are required, then they must be equal; only then are the token and both passwords sent. The page goes to `/login` exactly when the reset succeeds |
| ResetPassword.SentIffConfirmed | src/pages/ResetPassword.jsx:25-37 | the service is called exactly when a non-empty password was typed twice the same |
| Pagination.TotalPages | src/pages/GlobalGamesList.jsx:150 | the page count is the smallest number of pages that holds every item |
| Pagination.PageOf | src/pages/GlobalGamesList.jsx:151-152 | a page holds at most one page's worth of items, is the matching slice, and is non-empty when the page exists |
| Pagination.PagesPartition | src/pages/GlobalGamesList.jsx:149-153 | the pages read one after another give back the whole list: nothing lost, repeated or reordered |
| Pagination.LinkFor | src/pages/GlobalGamesList.jsx:508-530 | a page gets a number link exactly when it is the first, the last or within two of the current page, and an ellipsis exactly when it is three away |
| Pagination.Window | src/pages/GlobalGamesList.jsx:508 | the link row has one entry per page, in page order |
| Pagination.WindowMarksGaps | src/pages/GlobalGamesList.jsx:508-530 | the current page always shows as active, and every hidden page has an ellipsis on its side of the current page |
| Catalog.Load | src/pages/GlobalGamesList.jsx:59-62 | every copy of each game flagged global is kept, and no copy of any other game |
| Catalog.StagesMeanKeeps | src/pages/GlobalGamesList.jsx:71-119 | passing every active filter stage is the same as meeting the one combined listing condition |
| Catalog.ChainKeeps | src/pages/GlobalGamesList.jsx:71-119 | the chain of filter stages keeps exactly the games the combined condition accepts, in loaded order |
| Catalog.OrderIsTotalPreorder | src/pages/GlobalGamesList.jsx:122-143 | each of the six sort orders is a total preorder, so the stable sort is well defined |
| Catalog.ApplyFilters | src/pages/GlobalGamesList.jsx:71-147 | the listed games are every copy of every loaded game that meets every active filter, and nothing else, sorted by the chosen order |
| Catalog.InactiveFiltersKeepAll | src/pages/GlobalGamesList.jsx:175-178 | with no active filter every loaded game is listed, reordered only |
| Catalog.Refilter | src/pages/GlobalGamesList.jsx:71-147 | a filter or search change recomputes the list and goes back to page 1, changing nothing else |
| Catalog.ClearFilters | src/pages/GlobalGamesList.jsx:163-173 | clearing leaves no active filter, the order "recientes", and every loaded game listed |
| Catalog.Displayed | src/pages/GlobalGamesList.jsx:149-153 | at most 12 games are shown, and some are shown whenever the current page exists |
| Catalog.GoToPage | src/pages/GlobalGamesList.jsx:205-210 | a page outside the existing ones is ignored; otherwise only the current page changes |
| Catalog.ActionsKeepValidPage | src/pages/GlobalGamesList.jsx:145-210 | every action keeps the current page valid, so a non-empty list never shows an empty page |
| Catalog.AddToLibrary | src/pages/GlobalGamesList.jsx:180-203 | with no access token nothing is posted and the user goes to login. A successful post records the game's id; a failure changes nothing |
| Catalog.CardDescription | src/pages/GlobalGamesList.jsx:461-463 | a description over 100 UTF-16 code units keeps the whole characters of its first 100 units and is marked; a shorter one is shown whole; a missing one gets the fixed text |
| Library.StagesMeanKeeps | src/pages/MyLibrary.jsx:67-118 | passing every active filter stage is the same as meeting the one combined listing condition |
| Library.OrderIsTotalPreorder | src/pages/MyLibrary.jsx:120-139 | each of the six sort orders is a total preorder |
| Library.ChainKeeps | src/pages/MyLibrary.jsx:67-118 | the chain of filter stages keeps exactly the entries the combined condition accepts, in library order |
| Library.ApplyFilters | src/pages/MyLibrary.jsx:67-144 | the listed entries are every copy of every library entry that meets every active filter, and nothing else, sorted by the chosen order |
| Library.ClearedIsInactive | src/pages/MyLibrary.jsx:153-169 | clearing switches every filter off and puts the order back to "recientes" |
| Library.InactiveFiltersKeepAll | src/pages/MyLibrary.jsx:166-169 | with no active filter the whole library is listed, reordered only |
| Library.KindsPartition | src/pages/MyLibrary.jsx:96-101 | with no other filter, the "personal" and "global" lists together hold every entry exactly once |
| Library.ComputeStats | src/pages/MyLibrary.jsx:218-223 | the counters cover the whole library: the total, and the number of created, completed and in-progress entries; created games and completed plus in-progress games never exceed the total |
| Library.StatsAddUp | src/pages/MyLibrary.jsx:218-223 | an empty library has every counter at 0, and one more entry adds one to the total and one to each counter whose condition it meets |
| Library.CreatedAndCatalogAddUp | src/pages/MyLibrary.jsx:218-220 | created games plus catalog games equal the total |
| Library.DeletePath | src/pages/MyLibrary.jsx:176-195 | without a token nothing is deleted. A game the user created is deleted itself; a catalog game is only removed from the library |
| Library.StatusBadge | src/pages/MyLibrary.jsx:206-214 | "Completado" and "En progreso" have their own badges; every other status, pending included, gets the "Pendiente" badge |
| Reviews.DifficultyColor | src/pages/AllReviews.jsx:165-174 | "Fácil" is the only green and "Difícil" the only red; anything else is amber |
| Reviews.FilledInRow | src/pages/AllReviews.jsx:160-163 | of the first n stars, the rating clamped to 0..n are filled |
| Reviews.Stars | src/pages/AllReviews.jsx:160-163 | a rating is always drawn as exactly five stars; `Reviews.StarsShowRating` states which are filled |
| Reviews.StarsShowRating | src/pages/GameReviews.jsx:162-174 | the five stars show the rating, clamped to 0..5, as filled stars from the left |
| AllReviews.PublicOnly | src/pages/AllReviews.jsx:48 | every copy of each public review is kept, and no copy of any other review |
| AllReviews.StagesMeanKeeps | src/pages/AllReviews.jsx:67-110 | passing every active filter stage is the same as meeting the one combined listing condition |
| AllReviews.ChainKeeps | src/pages/AllReviews.jsx:67-110 | the chain of filter stages keeps exactly the reviews the combined condition accepts |
| AllReviews.OrderIsTotalPreorder | src/pages/AllReviews.jsx:113-131 | each of the five sort orders is a total preorder |
| AllReviews.ApplyFilters | src/pages/AllReviews.jsx:67-134 | the listed reviews are every copy of every public review that meets every active filter, and nothing else, sorted by the chosen order |
| AllReviews.ClearedIsInactive | src/pages/AllReviews.jsx:143-158 | clearing switches every filter off and puts the order back to "recientes" |
| AllReviews.InactiveFiltersKeepAll | src/pages/AllReviews.jsx:155-158 | with no active filter every public review is listed, reordered only |
| AllReviews.RecommendationPartitions | src/pages/AllReviews.jsx:96-99 | with no other filter, "recommended: yes" and "recommended: no" together hold every review exactly once |
| AllReviews.TopGames | src/pages/AllReviews.jsx:53-57 | at most three rated games are shown, best first, and no rated game left out scores higher than one shown |
| Dashboard.AuthorlessReviewCountsAsWritten | src/pages/Dashboard.jsx:45-47 | under the match as written, a review with no author counts as the user's when the profile lacks `_id`; the intended match does not count it |
| Dashboard.MatchesAgreeWithAuthor | src/pages/Dashboard.jsx:45-55 | the written and intended matches agree on every item that has an author |
| Dashboard.UserReviews | src/pages/Dashboard.jsx:45-47 | corrected match, see Findings: every copy of each review with an author that is one of the user's ids, and no copy of any other review |
| Dashboard.UserPosts | src/pages/Dashboard.jsx:50-58 | corrected match, see Findings: the forum fetch failing or lacking `posts` gives no posts and does not fail the page; otherwise every copy of each post with an author that is one of the user's ids, and no copy of any other post |
| Dashboard.TotalHoursAddsUp | src/pages/Dashboard.jsx:61 | each entry adds its hours to the total, a missing value adding nothing; with no negative hours the total is never negative |
| Dashboard.AverageWithinScores | src/pages/Dashboard.jsx:66-68 | the average score lies between the lowest and the highest score |
| Dashboard.ComputeStats | src/pages/Dashboard.jsx:60-79 | the statistics count the library, reviews and posts, and the completed, in-progress and pending entries; those three never exceed the library; the average is the reviews' mean score, 0 with no reviews |
| Dashboard.AverageScore | src/pages/Dashboard.jsx:66-68 | the mean of the review scores: times the number of reviews it gives their total; 0 when there are no reviews |
| Dashboard.StatusCountsAddUp | src/pages/Dashboard.jsx:62-64 | an empty library counts no status, and one more entry adds one to the counter of its own status and nothing to the others |
| Dashboard.Newest | src/pages/Dashboard.jsx:82-83 | the library is reordered newest first, nothing lost or added |
| Dashboard.RecentGames | src/pages/Dashboard.jsx:82-85 | up to five games, newest first, and none left out was added later than one shown |
| Dashboard.TopRated | src/pages/Dashboard.jsx:88-92 | at most five positively rated games, best first; a positively rated game is left out only when five are shown, and then it is rated no higher than any of them |
| Dashboard.RecentReviews | src/pages/Dashboard.jsx:95-98 | up to three of the user's reviews, newest first, and none left out is newer |
| Dashboard.Load | src/pages/Dashboard.jsx:34-106 | corrected match, see Findings: the page fails exactly when the library or the reviews could not be loaded; otherwise it shows the statistics and the three lists computed from them |
| Dashboard.AuthorlessPostCountsAsWritten | src/pages/Dashboard.jsx:53-55 | for a profile without `_id`, the written match selects a post with no author and the corrected match does not |
| Dashboard.AuthorlessItemsCountOnPageAsWritten | src/pages/Dashboard.jsx:45-55 | for a profile without `_id`, the page as written counts an authorless review and an authorless post, and the corrected page counts neither |
| Dashboard.LoadsAgreeWhenAuthored | src/pages/Dashboard.jsx:34-106 | when every review and post has an author, the page as written and the corrected page are the same |
| Dashboard.StatusBadge | src/pages/Dashboard.jsx:108-115 | each known status has its own colour, and "secondary" is used exactly for unknown statuses |
| HomeSection.Newest | src/components/Home/GlobalGamesSection.jsx:20-26 | at most four global games, newest first; a global game is left out only when four are shown, and then it is no newer than any of them |
| HomeSection.Preview | src/components/Home/GlobalGamesSection.jsx:125-127 | a non-empty description shows the whole characters of its first 90 UTF-16 code units plus "..." whether or not anything was cut; otherwise the fixed invitation |
| HomeSection.PreviewAlwaysMarks | src/components/Home/GlobalGamesSection.jsx:125-127 | unlike a truncation, the preview marks even a description of at most 90 UTF-16 code units with "..." |
| HomeSection.Cover | src/components/Home/GlobalGamesSection.jsx:108-112 | the stored cover is used when it is non-blank; otherwise the placeholder |
| HomeSection.AddToLibrary | src/components/Home/GlobalGamesSection.jsx:40-60 | with no access token nothing is sent; otherwise the game is posted to the library with the token |
| GameForm.OrText | src/pages/GameForm.jsx:47-54 | a missing or empty stored text falls back to the default |
| GameForm.OrNumber | src/pages/GameForm.jsx:50-56 | a missing or zero stored number falls back to the default |
| GameForm.Prefill | src/pages/GameForm.jsx:46-57 | each stored field is copied into the form, and each missing one takes the new-game default |
| GameForm.PrefillOfNothing | src/pages/GameForm.jsx:46-57 | a stored game with nothing filled in prefills exactly the new-game form |
| GameForm.LoadForEdit | src/pages/GameForm.jsx:38-68 | the form is filled exactly when the game loads, and then from that game; a failed load shows "Error al cargar los datos del juego" and returns to `/my-library` |
| GameForm.PrefillRestoresSaved | src/pages/GameForm.jsx:46-57 | a game saved with every field filled in comes back into the form unchanged |
| GameForm.PickImage | src/pages/GameForm.jsx:80-108 | a file becomes the cover exactly when its type is an image and it is at most 5 MiB, the type checked first; a refused file changes nothing |
| GameForm.Validate | src/pages/GameForm.jsx:113-125 | title, genre and platform must each be non-blank, checked in that order; the first failure is the only message |
| GameForm.PayloadOf | src/pages/GameForm.jsx:131-144 | the body carries the fields as typed, is never global, and carries a cover file exactly when a new one was chosen |
| GameForm.Save | src/pages/GameForm.jsx:146-188 | with a route id the game is updated with one PUT. Otherwise it is created, and only after that succeeds is it added to the library under the returned id. The page goes to the library only when every request succeeded |
| GameForm.Submit | src/pages/GameForm.jsx:110-125 | an invalid form stops with its first message and sends nothing; a valid one is saved with its payload |
| GameForm.SubmitSendsOnlyValid | src/pages/GameForm.jsx:110-185 | nothing is sent for an invalid form; a valid one sends its game first, as a PUT exactly when a route id is present |
| GameReviews.FormOf | src/pages/GameReviews.jsx:72-79 | editing copies the review's six fields into the form |
| GameReviews.OpenModal | src/pages/GameReviews.jsx:63-93 | signed out, the user is sent to login. Otherwise the modal opens blank for a new review, or with the review's fields for an edit |
| GameReviews.EditUnchangedSendsSame | src/pages/GameReviews.jsx:72-119 | an edited review saved untouched sends back exactly what it held |
| GameReviews.Submit | src/pages/GameReviews.jsx:96-128 | signed out, nothing is sent; a text under 10 UTF-16 code units is refused; otherwise an edit is PUT to its own path and a new review is POSTed |
| GameReviews.DeletePath | src/pages/GameReviews.jsx:138-149 | signed out, nothing is deleted; otherwise the review's own path is |
| GameReviews.ShowsWriteButton | src/pages/GameReviews.jsx:238 | "Escribir mi reseña" shows exactly for a signed-in user none of whose reviews is listed |
| GameReviews.OwnReviewHidesButton | src/pages/GameReviews.jsx:187 | once the user's own review is listed, the button stays hidden |
| Tags.TrimAll | src/pages/ForumPostForm.jsx:84 | every piece is trimmed, and the pieces keep their count and order |
| Tags.Parse | src/pages/ForumPostForm.jsx:83-85 | an empty field gives no tags; every tag is non-empty, trimmed and comma-free |
| Tags.ParseShowRoundTrip | src/pages/ForumPostForm.jsx:42-85 | proper tags joined with ", " parse back to the same list |
| ForumPostForm.Open | src/pages/ForumPostForm.jsx:21-31 | signed out, the user goes to login and nothing is loaded; with a route id the post is loaded; otherwise the form starts blank |
| ForumPostForm.Prefill | src/pages/ForumPostForm.jsx:33-43 | the post's fields are copied, with its tags joined by ", ", or left empty when it has none |
| ForumPostForm.LoadForEdit | src/pages/ForumPostForm.jsx:33-50 | the form is filled exactly when the post loads, and then from that post; a failed load shows "Error al cargar el post" and returns to `/forum` |
| ForumPostForm.Validate | src/pages/ForumPostForm.jsx:61-74 | title and content must be non-blank, then the untrimmed title at most 200 and the content at most 5000 UTF-16 code units, checked in that order |
| ForumPostForm.DataOf | src/pages/ForumPostForm.jsx:79-86 | the body has the trimmed title and content, the category, and the parsed tags |
| ForumPostForm.ValidDataFits | src/pages/ForumPostForm.jsx:61-81 | a valid form sends a non-empty title and content, each within its limit in UTF-16 code units |
| ForumPostForm.Submit | src/pages/ForumPostForm.jsx:58-96 | an invalid form sends nothing. With a route id the post is updated, otherwise created; on success the page opens the saved post |
| ForumPostForm.EditKeepsTags | src/pages/ForumPostForm.jsx:33-85 | opening a post with proper tags and saving it untouched keeps its tags |
| RelativeTime.Elapsed | src/pages/Forum.jsx:51 | the elapsed seconds are the elapsed milliseconds divided by 1000, rounded down |
| RelativeTime.PostAge | src/pages/Forum.jsx:48-57 | under 60 s is "a moment ago", then minutes under an hour, hours under a day, days under 30 days, and the date after that. Each count is the whole number of its unit |
| RelativeTime.CommentAge | src/components/Forum/Comentario.jsx:16-31 | comments have no day bucket: from one day on they show the date, and below a day they agree with the post list |
| RelativeTime.AgesDifferOnlyInDays | src/components/Forum/Comentario.jsx:16-31 | the post list and the comments show different ages exactly between one day and thirty |
| Forum.ChangeFilter | src/pages/Forum.jsx:39-41 | changing a filter sets it, keeps the other one, and goes back to page 1 |
| Forum.ChangePage | src/pages/Forum.jsx:43-46 | changing the page alters only the page |
| Forum.FilterChangeRestartsPaging | src/pages/Forum.jsx:39-46 | a filter change after paging gives the same state as without the paging |
| Forum.ContentPreview | src/pages/Forum.jsx:175-176 | a content of at most 150 UTF-16 code units is shown whole; a longer one keeps the whole characters of its first 150 units and gets "..." |
| Forum.PlainContentPreview | src/pages/Forum.jsx:175-176 | without characters beyond U+FFFF, the preview is the first 150 characters, with "..." exactly when something was cut |
| Forum.PagerFor | src/pages/Forum.jsx:201-219 | the pager shows exactly when there is more than one page; "Anterior" is off exactly on page 1, "Siguiente" exactly on the last page |
| Forum.PagerInterior | src/pages/Forum.jsx:201-219 | on every page strictly between the first and the last, both buttons work |
| Forum.CategoryColor | src/pages/Forum.jsx:235-245 | the five table entries have their colours; any other category is "secondary" |
| Forum.DiscussionPostsAreGrey | src/pages/ForumPostForm.jsx:151 | a post saved under the correctly spelled discussion category misses the list's key and is painted "secondary" |
| Comments.Submit | src/components/Forum/ComentariosSeccion.jsx:33-66 | a comment is sent only when signed in, non-blank, and at most 2000 UTF-16 code units untrimmed, checked in that order. It carries the trimmed text, and the box empties only after the server accepted it |
| Comments.SentCommentFits | src/components/Forum/ComentariosSeccion.jsx:41-56 | what is sent is a non-empty, trimmed top-level comment of at most 2000 UTF-16 code units |
| Comments.NoDoublePost | src/components/Forum/ComentariosSeccion.jsx:41-57 | after a published comment, submitting again sends nothing and reports an empty comment |
| Comments.LikeRequest | src/components/Forum/ComentariosSeccion.jsx:81-88 | a like is sent for the comment exactly when signed in |
| Comments.FormAreaFor | src/components/Forum/ComentariosSeccion.jsx:101-164 | a closed post shows the closed notice; an open one shows the form when signed in and the sign-in prompt otherwise |
| Comments.AuthorlessCommentOwnedAsWritten | src/components/Forum/Comentario.jsx:13 | under the test as written, a user object without `id` owns a comment with no author; the intended test does not |
| Comments.AuthorTestsAgreeWithAuthor | src/components/Forum/Comentario.jsx:13 | the written and intended author tests agree whenever the comment has an author |
| Comments.LikeCount | src/components/Forum/Comentario.jsx:112 | the count is the number of likes, or 0 when the list is missing |
| Comments.LikedMeansCounted | src/components/Forum/Comentario.jsx:112 | a comment the user has liked shows a count of at least one |
| Comments.Reply | src/components/Forum/Comentario.jsx:33-63 | a reply needs a user and a non-blank text; it carries the trimmed text and this comment as parent. A published reply empties and closes the box; otherwise the box is kept |
| Comments.ToggleReply | src/components/Forum/Comentario.jsx:120 | "Responder" flips the box open or closed and keeps the text |
| Comments.CancelReply | src/components/Forum/Comentario.jsx:157-160 | "Cancelar" closes the box and empties it |
| Comments.PublishedReplyResetsBox | src/components/Forum/Comentario.jsx:53-54 | a published reply leaves the box as "Cancelar" would |
| Comments.ReplyWord | src/components/Forum/Comentario.jsx:133-134 | the word is plural exactly when the reply count is not 1 |
| Comments.Render | src/components/Forum/Comentario.jsx:89-197 | corrected match, see Findings: every node of the rendered thread, at any depth, shows its own comment's delete button, like state, like count, reply button and replies toggle, computed for the same user and post |
| Comments.RenderAgreesAsWrittenWhenAuthored | src/components/Forum/Comentario.jsx:13 | on a comment that has an author, the rendered delete button is the one the written author test gives |
| Comments.DeleteOnlyForAuthor | src/components/Forum/Comentario.jsx:89-98 | corrected match, see Findings: anywhere in the thread, a delete button sits only on a comment whose author is the signed-in user |
| Comments.SignedOutRenderIsReadOnly | src/components/Forum/Comentario.jsx:115-197 | signed out, no comment or reply at any depth offers delete or reply |

## Left out

- HTTP itself: every server call is a success-or-failure parameter. That includes the fetches and refetches of every page (the model keeps what each page does with the outcome, such as the edit pages' return on a failed load) and the thin wrappers of `src/api/forumService.js`. Loading spinners and `loading` flags are not modelled.
- Two requests refreshing at the same time: one request's lifecycle is a function, so the interleaving of concurrent refreshes is not modelled.
- Rendering, toasts, `setTimeout` delays and `window.scrollTo`: the model states only which page is navigated to and, where a page leaves on an error, the error message it shows.
- Date parsing and `toLocaleDateString`: dates are integer millisecond timestamps. The absolute-date case of a relative time is a constructor, not a formatted text.
- Floating point: `toFixed(1)` of the dashboard average is not modelled, and the average is a `real`. The `Math.round` before a star row is not modelled either; star rows take integer ratings.
- Fractional game averages: a game's `ratingPromedio` and `promedioPuntuacion` are held as integers, while the server sends fractions (the catalog shows them with `toFixed(1)`, the reviews page rounds them). So the catalog's minimum-rating filter, the rating sorts and the top-three ranking compare integer averages; a fractional average between two integers is not modelled.
- `localeCompare`: replaced by code-point lexicographic order, which is a total order like the locale collation. The proofs use only its total-preorder facts.
- `toLowerCase`: folds only ASCII letters.
- `JSON.stringify` and `JSON.parse` of the stored user: the user is kept as its serialized string.
- `parseInt` of select and number inputs: numeric fields are held as the integers they parse to, and the filter selects offer only their listed values.
- JSON `null`: every `Option` stands for a missing field, that is `undefined`, and a stored `null` is not modelled. The two differ in two filters. With "Anteriores", `null < 2018` is true, so the pages keep a game whose year is `null`, while `Games.InYearFilter` refuses a missing year. With a minimum of hours `min <= 0`, `null >= min` is true, so the library keeps an entry whose hours are `null`, while `Library.PlayedAtLeast` refuses missing hours. For `undefined` the model and the pages agree.
- Alphabetical sort of a library entry with no game: the model gives it the title `""`, so it comes first from A to Z and last from Z to A. In JavaScript the optional chain makes the comparator return `undefined`, read as "equal", when the first entry has no game. When only the second has none, the first title is compared with the text "undefined". That comparator is not consistent, so the engine's order for such entries is not determined, and the model does not follow it. The comparator throws only for an entry whose game has no title, which the model cannot represent because a game always has a title.
- Catalog.CardDescription: when the cut at 100 UTF-16 code units falls between the two halves of a surrogate pair, JavaScript keeps a lone high surrogate. The model keeps only whole characters and drops that character, because a Dafny string holds whole Unicode scalars.
- HomeSection.Preview: when the cut at 90 UTF-16 code units falls between the two halves of a surrogate pair, JavaScript keeps a lone high surrogate. The model keeps only whole characters and drops that character, because a Dafny string holds whole Unicode scalars.
- Forum.ContentPreview: when the cut at 150 UTF-16 code units falls between the two halves of a surrogate pair, JavaScript keeps a lone high surrogate. The model keeps only whole characters and drops that character, because a Dafny string holds whole Unicode scalars.
- The `catch` in the context's `logout`: it is unreachable because the service's `logout` never throws, so only the success path is modelled.
- The header `Bearer null` sent when a page reads a missing token: every page that sends a token checks for it first, except the library's initial load (`fetchLibrary` in `src/pages/MyLibrary.jsx`), the game form and the review page. Those are reached only behind the route guard or a sign-in check.
- The message texts of the review page, the post form and the game form toasts: only whether a request was sent and where the page went are modelled, except where a member returns the message.
- The delete confirmation dialogs (`window.confirm` and the delete modals): the model starts from the confirmed action.
- The reply box's `maxLength` of 2000: it is an input attribute, so the reply handler itself has no length check, and none is modelled.
- Pages whose only logic is one server call or a status flag are not part of this model: `src/pages/ForgotPassword.jsx`, `src/pages/VerifyEmail.jsx`, `src/pages/Contact.jsx`, `src/pages/GameDetail.jsx`, and `src/pages/ForumPostView.jsx`. The last one repeats the forum list and comment helpers modelled above.
- Presentation, routing and third-party sign-in are not part of this model: `src/App.jsx`, `src/pages/Home.jsx`, the header, footer, carousel and categories components, and the Google sign-in button.
- The cover preview through `FileReader` and the upload progress bar: only the accepted file is modelled.
- AuthService.MessageOf: the `||` picks the server's message whenever it is truthy. The model treats only a non-empty string as truthy, because messages are strings.

## Findings

| source | as written | input that shows it | evidently intended | confidence | as-written member | corrected member |
|---|---|---|---|---|---|---|
| src/pages/Dashboard.jsx:45-47 | a review counts as the user's when its optional author id strictly equals the user's `id` or the user's `_id`, so two missing values compare equal | a profile with `id` "u1" and no `_id`, and a review whose author was not populated: the review is counted as the user's | only reviews that have an author equal to one of the user's ids | not executed; medium | Dashboard.AuthorlessReviewCountsAsWritten | Dashboard.UserReviews |
| src/pages/Dashboard.jsx:53-55 | a forum post counts as the user's under the same test, so an authorless post is counted for a profile without `_id` | the same profile and a post whose author was not populated: the page counts one post | only posts that have an author equal to one of the user's ids | not executed; medium | Dashboard.AuthorlessItemsCountOnPageAsWritten | Dashboard.UserPosts |
| src/components/Forum/Comentario.jsx:13 | a comment is the user's when the user's `id` strictly equals the comment's optional author id, so two missing values compare equal | a signed-in user object without `id`, and a comment whose author was not populated: the delete button is offered | only a comment with an author equal to the signed-in user's id is deletable | not executed; medium | Comments.AuthorlessCommentOwnedAsWritten | Comments.DeleteOnlyForAuthor |
