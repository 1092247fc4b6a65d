/** A game's review page (`src/pages/GameReviews.jsx`): the sign-in guards, the review
    form and its defaults, the save and delete requests, and when the "write my review"
    button shows. The difficulty colour and the stars are shared with the community
    reviews page (module `Reviews`). */
module GameReviews {
  import opened Optional
  import opened Text
  import opened Seqs
  import opened Reviews

  const LoginPath: string := "/login"

  /** The shortest review text accepted, counted before any trimming. */
  const MinLength: nat := 10

  /** The modal's form: `puntuacion`, `textoResena`, `horasJugadas`, `dificultad`,
      `recomendaria` and `esPublica`. */
  datatype ReviewForm = ReviewForm(score: int, text: string, hours: Option<int>, difficulty: string,
                                   recommends: bool, isPublic: bool)

  /** A new review: 5 points, no text, 0 hours, "Normal", recommended and public. */
  const NewReview: ReviewForm := ReviewForm(5, "", Some(0), Normal, true, true)

  /** An existing review's six fields, copied into the form. */
  function FormOf(r: Review): (f: ReviewForm)
    ensures f.score == r.score && f.text == r.text && f.hours == r.hours
    ensures f.difficulty == r.difficulty && f.recommends == r.recommends && f.isPublic == r.isPublic
  {
    ReviewForm(r.score, r.text, r.hours, r.difficulty, r.recommends, r.isPublic)
  }

  /** Opening the modal: signed out, the user is sent to the login page; otherwise the
      form is blank for a new review or holds the review being edited. */
  datatype Modal = SignInFirst | Open(editing: Option<string>, form: ReviewForm)

  function OpenModal(authenticated: bool, review: Option<Review>): (m: Modal)
    ensures !authenticated <==> m.SignInFirst?
    ensures authenticated && review.None? ==> m == Open(None, NewReview)
    ensures authenticated && review.Some? ==> m == Open(Some(review.value.id), FormOf(review.value))
  {
    if !authenticated then SignInFirst
    else match review
      case None => Open(None, NewReview)
      case Some(r) => Open(Some(r.id), FormOf(r))
  }

  /** The body sent: the game's id and the form's fields. */
  datatype Payload = Payload(gameId: string, score: int, text: string, hours: Option<int>, difficulty: string,
                             recommends: bool, isPublic: bool)

  function PayloadOf(gameId: string, f: ReviewForm): Payload {
    Payload(gameId, f.score, f.text, f.hours, f.difficulty, f.recommends, f.isPublic)
  }

  /** Editing a review and saving it untouched sends back exactly what it held. */
  lemma EditUnchangedSendsSame(r: Review, gameId: string)
    ensures var m := OpenModal(true, Some(r));
      m.Open? && var p := PayloadOf(gameId, m.form);
      && p.gameId == gameId && p.score == r.score && p.text == r.text && p.hours == r.hours
      && p.difficulty == r.difficulty && p.recommends == r.recommends && p.isPublic == r.isPublic
  {
  }

  /** What a submit does. */
  datatype Save = NeedsSignIn | TooShort | Put(path: string, payload: Payload) | Post(path: string, payload: Payload)

  /** `handleSubmitReview`: signed out, nothing is sent; a text under 10 UTF-16 code units
      is refused; otherwise an edited review is PUT to its own path and a new one POSTed. */
  function Submit(authenticated: bool, f: ReviewForm, editing: Option<string>, gameId: string): (s: Save)
    ensures !authenticated <==> s.NeedsSignIn?
    ensures s.TooShort? <==> authenticated && Utf16Length(f.text) < MinLength
    ensures s.Put? <==> authenticated && Utf16Length(f.text) >= MinLength && editing.Some?
    ensures s.Put? ==> s == Put("/resenas/" + editing.value, PayloadOf(gameId, f))
    ensures s.Post? ==> s == Post("/resenas", PayloadOf(gameId, f))
  {
    if !authenticated then NeedsSignIn
    else if Utf16Length(f.text) < MinLength then TooShort
    else match editing
      case Some(id) => Put("/resenas/" + id, PayloadOf(gameId, f))
      case None => Post("/resenas", PayloadOf(gameId, f))
  }

  /** `handleDeleteReview`: signed out, nothing is sent. */
  function DeletePath(authenticated: bool, reviewId: string): (path: Option<string>)
    ensures path.None? <==> !authenticated
    ensures path.Some? ==> path.value == "/resenas/" + reviewId
  {
    if authenticated then Some("/resenas/" + reviewId) else None
  }

  predicate IsMine(r: Review) {
    r.isMine
  }

  /** "Escribir mi reseña" shows for a signed-in user with no review of this game yet. */
  function ShowsWriteButton(reviews: seq<Review>, authenticated: bool): (b: bool)
    ensures b <==> authenticated && forall i :: 0 <= i < |reviews| ==> !reviews[i].isMine
  {
    !Any(reviews, IsMine) && authenticated
  }

  /** Once the user's review is among them, the button stays hidden whatever else is
      listed. */
  lemma OwnReviewHidesButton(reviews: seq<Review>, mine: Review, authenticated: bool)
    requires mine.isMine
    ensures !ShowsWriteButton(reviews + [mine], authenticated)
  {
    assert (reviews + [mine])[|reviews|] == mine;
  }
}
