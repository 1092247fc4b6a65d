/** The review record the review pages and the dashboard share, and the two small
    display mappings the review pages both define: the difficulty colour and the row
    of five stars. */
module Reviews {
  import opened Optional
  import opened Seqs
  import opened Games

  /** A review as the server returns it: `_id`, the populated `juegoId`, the author's
      `usuarioId._id`, `puntuacion`, `textoResena`, `horasJugadas`, `dificultad`,
      `recomendaria`, `esPublica`, `fechaCreacion` (a timestamp) and `isMine`. */
  datatype Review = Review(id: string, game: Option<Game>, author: Option<string>, score: int, text: string,
                           hours: Option<int>, difficulty: string, recommends: bool, isPublic: bool,
                           createdAt: int, isMine: bool)

  const Easy: string := "Fácil"
  const Normal: string := "Normal"
  const Hard: string := "Difícil"

  /** `getDifficultyColor`: "Fácil" is green, "Difícil" red, anything else amber. */
  function DifficultyColor(difficulty: string): (c: string)
    ensures difficulty == Easy <==> c == "success"
    ensures difficulty == Hard <==> c == "danger"
    ensures c == "success" || c == "danger" || c == "warning"
  {
    if difficulty == Easy then "success"
    else if difficulty == Hard then "danger"
    else "warning"
  }

  /** `renderStars`: five stars, the `i`-th (counting from 0) filled when `i < rating`. */
  function Stars(rating: int): (r: seq<bool>)
    ensures |r| == 5
  {
    seq(5, i => i < rating)
  }

  /** The first `n` stars of a rating: the filled ones come first. */
  function Row(n: nat, rating: int): seq<bool> {
    seq(n, i => i < rating)
  }

  predicate IsFilled(b: bool) {
    b
  }

  lemma {:induction false} SiftRow(n: nat, rating: int)
    ensures |Sift(Row(n, rating), IsFilled)| == if rating <= 0 then 0 else if rating >= n then n else rating
  {
    if n > 0 {
      var row := Row(n, rating);
      SiftRow(n - 1, rating - 1);
      assert row[1..] == Row(n - 1, rating - 1);
      assert row[0] == (0 < rating);
    }
  }

  /** How many of `n` stars are filled: the rating, clamped to `0..n`. */
  lemma FilledInRow(n: nat, rating: int)
    ensures Count(Row(n, rating), IsFilled) == if rating <= 0 then 0 else if rating >= n then n else rating
  {
    FilterIsSift(Row(n, rating), IsFilled);
    SiftRow(n, rating);
  }

  /** The star row shows the rating, clamped to `0..5`, as filled stars from the left;
      counting the stars from 1, as the game-review page does (`star <= rating`), gives
      the same row. */
  lemma StarsShowRating(rating: int)
    ensures Count(Stars(rating), IsFilled) == if rating <= 0 then 0 else if rating >= 5 then 5 else rating
    ensures forall i :: 0 <= i < 5 ==> (Stars(rating)[i] <==> i + 1 <= rating)
    ensures forall i, j :: 0 <= i < j < 5 && Stars(rating)[j] ==> Stars(rating)[i]
  {
    FilledInRow(5, rating);
    assert Stars(rating) == Row(5, rating);
  }
}
