/** The home page's "latest global games" section
    (`src/components/Home/GlobalGamesSection.jsx`): the four newest catalog games,
    their card texts, and adding one to the library. */
module HomeSection {
  import opened Optional
  import opened Text
  import opened Seqs
  import opened Session
  import opened Games

  const Shown: nat := 4
  const NoDescription: string := "Descubre este increíble juego y vive una experiencia única."
  const NoCover: string := "https://via.placeholder.com/300x200?text=Sin+Imagen"

  predicate IsGlobal(g: Game) {
    g.isGlobal
  }

  /** `fechaCreacion || 0`. */
  function CreatedKey(g: Game): int {
    g.createdAt.GetOr(0)
  }

  /** The section's games: global games only, newest first, at most four; no global
      game left out is newer than the ones shown. */
  function Newest(games: seq<Game>): (r: seq<Game>)
    ensures |r| <= Shown
    ensures multiset(r) <= multiset(games)
    ensures forall g :: g in r ==> g.isGlobal
    ensures SortedBy(r, Desc(CreatedKey))
    ensures forall x :: x in games && x.isGlobal && x !in r ==> |r| == Shown
    ensures forall x, y :: x in games && IsGlobal(x) && x !in r && y in r ==> CreatedKey(y) >= CreatedKey(x)
  {
    TopSelectionByKey(games, IsGlobal, CreatedKey, Shown);
    Take(SortBy(Filter(games, IsGlobal), Desc(CreatedKey)), Shown)
  }

  /** The card text: a present, non-empty description gives the whole characters within
      its first 90 UTF-16 code units followed by "...", whether or not anything was cut;
      otherwise a fixed invitation. */
  function Preview(description: Option<string>): (t: string)
    ensures description.None? || description.value == "" ==> t == NoDescription
    ensures description.Some? && description.value != "" ==>
      && |t| >= 3 && t[|t| - 3..] == "..."
      && LongestFit(description.value, 90, t[..|t| - 3])
  {
    if description.Some? && |description.value| > 0 then
      var p := CutUnits(description.value, 90);
      assert (p + "...")[..|p|] == p;
      p + "..."
    else NoDescription
  }

  /** Unlike a truncation, the preview marks even a short description with "...". */
  lemma PreviewAlwaysMarks(d: string)
    requires 0 < Utf16Length(d) <= 90
    ensures Preview(Some(d)) == d + "..."
    ensures Truncate(d, 90) == d
    ensures Preview(Some(d)) != Truncate(d, 90)
  {
    assert |Preview(Some(d))| == |d| + 3;
  }

  /** The cover image: the stored URL when `imagenPortada?.trim()` is non-empty, the
      placeholder otherwise. */
  function Cover(cover: Option<string>): (url: string)
    ensures cover.Some? && !IsBlank(cover.value) ==> url == cover.value
    ensures cover.None? || IsBlank(cover.value) ==> url == NoCover
  {
    if cover.Some? && !IsBlank(cover.value) then cover.value else NoCover
  }

  /** What the "add to library" button does. */
  datatype Add = SignInFirst | Post(path: string, gameId: string, authorization: string)

  /** `handleAddToLibrary`: with no access token nothing is sent and the user is sent to
      the login page; otherwise the game is posted to the library with the token. */
  function AddToLibrary(st: Storage, gameId: string): (a: Add)
    ensures a.SignInFirst? <==> !Holds(st, AccessToken)
    ensures a.Post? ==> a == Post("/mis-juegos", gameId, "Bearer " + st[AccessToken])
  {
    if !Holds(st, AccessToken) then SignInFirst
    else Post("/mis-juegos", gameId, "Bearer " + st[AccessToken])
  }
}
