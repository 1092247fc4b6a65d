/** The create/edit game form (`src/pages/GameForm.jsx`): the edit prefill, the image
    check, the required fields, the payload and the one- or two-request save. */
module GameForm {
  import opened Optional
  import opened Text
  import opened Session
  import opened AuthService

  const LibraryPath: string := "/my-library"
  const TitleRequired: string := "El título es requerido"
  const GenreRequired: string := "El género es requerido"
  const PlatformRequired: string := "La plataforma es requerida"
  const BadImage: string := "Por favor selecciona una imagen válida"
  const ImageTooLarge: string := "La imagen no debe superar 5MB"
  const SaveError: string := "Error al guardar el juego"
  const LoadError: string := "Error al cargar los datos del juego"

  /** The largest cover accepted: 5 MiB. */
  const MaxImageBytes: int := 5 * 1024 * 1024

  /** A file from the file input: its MIME type and size in bytes. */
  datatype File = File(mime: string, size: int)

  /** The form's cover: none, the URL of the stored cover, or a newly chosen file. */
  datatype Image = NoImage | StoredUrl(url: string) | Chosen(file: File)

  /** The form state. The numeric inputs are held as the integers they parse to. */
  datatype Form = Form(title: string, genre: string, platform: string, year: int, developer: string,
                       image: Image, description: string, status: string, hours: int, rating: int)

  /** A new game: empty texts, this year, no cover, "Pendiente", no hours, no rating. */
  function Blank(currentYear: int): Form {
    Form("", "", "", currentYear, "", NoImage, "", "Pendiente", 0, 0)
  }

  /** `/juegos/{id}` as the edit page reads it; any field may be missing. */
  datatype Stored = Stored(title: Option<string>, genre: Option<string>, platform: Option<string>,
                           year: Option<int>, developer: Option<string>, cover: Option<string>,
                           description: Option<string>, status: Option<string>, hours: Option<int>,
                           rating: Option<int>)

  /** `v || fallback` for a text: a missing or empty text falls back. */
  function OrText(v: Option<string>, fallback: string): (r: string)
    ensures Truthy(v) ==> r == v.value
    ensures !Truthy(v) ==> r == fallback
  {
    if Truthy(v) then v.value else fallback
  }

  /** `v || fallback` for a number: a missing or zero number falls back. */
  function OrNumber(v: Option<int>, fallback: int): (r: int)
    ensures v.Some? && v.value != 0 ==> r == v.value
    ensures v.None? || v.value == 0 ==> r == fallback
  {
    if v.Some? && v.value != 0 then v.value else fallback
  }

  /** `fetchGameData`: each present field is copied, each missing one takes the new-game
      default. */
  function Prefill(g: Stored, currentYear: int): (f: Form)
    ensures f.title == OrText(g.title, "") && f.genre == OrText(g.genre, "") && f.platform == OrText(g.platform, "")
    ensures f.year == OrNumber(g.year, currentYear)
    ensures f.developer == OrText(g.developer, "") && f.description == OrText(g.description, "")
    ensures f.image == if Truthy(g.cover) then StoredUrl(g.cover.value) else NoImage
    ensures f.status == OrText(g.status, "Pendiente")
    ensures f.hours == OrNumber(g.hours, 0) && f.rating == OrNumber(g.rating, 0)
  {
    Form(OrText(g.title, ""), OrText(g.genre, ""), OrText(g.platform, ""), OrNumber(g.year, currentYear),
         OrText(g.developer, ""), if Truthy(g.cover) then StoredUrl(g.cover.value) else NoImage,
         OrText(g.description, ""), OrText(g.status, "Pendiente"), OrNumber(g.hours, 0), OrNumber(g.rating, 0))
  }

  /** A stored game with nothing filled in prefills exactly the new-game form. */
  lemma PrefillOfNothing(currentYear: int)
    ensures Prefill(Stored(None, None, None, None, None, None, None, None, None, None), currentYear) == Blank(currentYear)
  {
  }

  /** A game saved with every field filled in comes back into the form unchanged. */
  lemma PrefillRestoresSaved(f: Form, url: string, currentYear: int)
    requires |f.title| > 0 && |f.genre| > 0 && |f.platform| > 0 && |f.developer| > 0 && |f.description| > 0
    requires |f.status| > 0 && |url| > 0 && f.year != 0 && f.hours != 0 && f.rating != 0
    requires f.image == StoredUrl(url)
    ensures Prefill(Stored(Some(f.title), Some(f.genre), Some(f.platform), Some(f.year), Some(f.developer),
                           Some(url), Some(f.description), Some(f.status), Some(f.hours), Some(f.rating)),
                    currentYear) == f
  {
  }

  /** How opening the edit page ends: the form filled from the stored game, or a toast
      and a move to another page. */
  datatype Edit = Prefilled(form: Form) | Leave(path: string, message: string)

  /** The edit page's load of `/juegos/{id}`: a loaded game fills the form; a failed
      load shows its toast and returns to the library. */
  function LoadForEdit(call: Call<Stored>, currentYear: int): (e: Edit)
    ensures e.Prefilled? <==> call.Ok?
    ensures call.Ok? ==> e.form == Prefill(call.data, currentYear)
    ensures call.Fail? ==> e == Leave(LibraryPath, LoadError)
  {
    match call
    case Ok(g) => Prefilled(Prefill(g, currentYear))
    case Fail(_) => Leave(LibraryPath, LoadError)
  }

  datatype Picked = Picked(form: Form, error: Option<string>)

  /** `handleImageChange`: a file is taken as the cover only when its type is an image
      type and it is at most 5 MiB; the type is checked first. A rejected file, or no
      file, leaves the form as it was. */
  function PickImage(f: Form, file: Option<File>): (r: Picked)
    ensures file.None? ==> r == Picked(f, None)
    ensures file.Some? ==> (r.error.None? <==> StartsWith(file.value.mime, "image/") && file.value.size <= MaxImageBytes)
    ensures file.Some? && !StartsWith(file.value.mime, "image/") ==> r.error == Some(BadImage)
    ensures file.Some? && StartsWith(file.value.mime, "image/") && file.value.size > MaxImageBytes ==> r.error == Some(ImageTooLarge)
    ensures r.error.Some? ==> r.form == f
    ensures file.Some? && r.error.None? ==> r.form == f.(image := Chosen(file.value))
  {
    match file
    case None => Picked(f, None)
    case Some(x) =>
      if !StartsWith(x.mime, "image/") then Picked(f, Some(BadImage))
      else if x.size > MaxImageBytes then Picked(f, Some(ImageTooLarge))
      else Picked(f.(image := Chosen(x)), None)
  }

  /** The validations of `handleSubmit`, in order: title, genre, platform, each non-blank. The
      first failure is the only message. */
  function Validate(f: Form): (m: Option<string>)
    ensures m.None? <==> !IsBlank(f.title) && !IsBlank(f.genre) && !IsBlank(f.platform)
    ensures m == Some(TitleRequired) <==> IsBlank(f.title)
    ensures m == Some(GenreRequired) <==> !IsBlank(f.title) && IsBlank(f.genre)
    ensures m == Some(PlatformRequired) <==> !IsBlank(f.title) && !IsBlank(f.genre) && IsBlank(f.platform)
  {
    if IsBlank(f.title) then Some(TitleRequired)
    else if IsBlank(f.genre) then Some(GenreRequired)
    else if IsBlank(f.platform) then Some(PlatformRequired)
    else None
  }

  /** The multipart body: the fields as typed, never global, and a cover file only when
      a new one was chosen. */
  datatype Payload = Payload(title: string, genre: string, platform: string, year: int, developer: string,
                             description: string, isGlobal: bool, image: Option<File>)

  function PayloadOf(f: Form): (p: Payload)
    ensures !p.isGlobal
    ensures p.image.Some? <==> f.image.Chosen?
    ensures p.image.Some? ==> p.image.value == f.image.file
    ensures p.title == f.title && p.genre == f.genre && p.platform == f.platform && p.year == f.year
    ensures p.developer == f.developer && p.description == f.description
  {
    Payload(f.title, f.genre, f.platform, f.year, f.developer, f.description, false,
            if f.image.Chosen? then Some(f.image.file) else None)
  }

  /** The requests a save sends. */
  datatype Request =
    | PutGame(id: string, payload: Payload)
    | PostGame(payload: Payload)
    | PostEntry(gameId: string, status: string, hours: int, rating: int)

  datatype Submission = Submission(requests: seq<Request>, navigateTo: Option<string>, message: Option<string>)

  /** The save of a valid form. With a route id the game is updated with one PUT.
      Without one it is created, and only once that succeeds is it added to the library
      under the id the server returned, with the form's status, hours and rating. The
      page moves to the library only when every request succeeded. */
  function Save(f: Form, p: Payload, routeId: Option<string>, first: Call<string>, second: Call<()>): (s: Submission)
    ensures routeId.Some? ==>
      && s.requests == [PutGame(routeId.value, p)]
      && (s.navigateTo.Some? <==> first.Ok?)
    ensures routeId.None? ==>
      && |s.requests| >= 1 && s.requests[0] == PostGame(p)
      && (|s.requests| == 2 <==> first.Ok?)
      && (first.Ok? ==> s.requests[1] == PostEntry(first.data, f.status, f.hours, f.rating))
      && (s.navigateTo.Some? <==> first.Ok? && second.Ok?)
    ensures s.navigateTo.Some? ==> s.navigateTo.value == LibraryPath && s.message.None?
    ensures first.Fail? ==> s.message == Some(MessageOf(first.body, SaveError))
  {
    match routeId
    case Some(id) =>
      (match first
       case Ok(_) => Submission([PutGame(id, p)], Some(LibraryPath), None)
       case Fail(b) => Submission([PutGame(id, p)], None, Some(MessageOf(b, SaveError))))
    case None =>
      match first
      case Fail(b) => Submission([PostGame(p)], None, Some(MessageOf(b, SaveError)))
      case Ok(gameId) =>
        var both := [PostGame(p), PostEntry(gameId, f.status, f.hours, f.rating)];
        match second
        case Ok(_) => Submission(both, Some(LibraryPath), None)
        case Fail(b) => Submission(both, None, Some(MessageOf(b, SaveError)))
  }

  /** `handleSubmit`: an invalid form stops with its first message and sends nothing; a
      valid one is saved with its payload. */
  function Submit(f: Form, routeId: Option<string>, first: Call<string>, second: Call<()>): (s: Submission)
    ensures Validate(f).Some? ==> s == Submission([], None, Validate(f))
    ensures Validate(f).None? ==> s == Save(f, PayloadOf(f), routeId, first, second)
  {
    match Validate(f)
    case Some(m) => Submission([], None, Some(m))
    case None => Save(f, PayloadOf(f), routeId, first, second)
  }

  /** An invalid form sends nothing; a valid one always sends its game first, with a
      PUT exactly when a route id is present. */
  lemma SubmitSendsOnlyValid(f: Form, routeId: Option<string>, first: Call<string>, second: Call<()>)
    ensures var s := Submit(f, routeId, first, second);
      && (|s.requests| == 0 <==> Validate(f).Some?)
      && (|s.requests| > 0 ==> s.requests[0] == (if routeId.Some? then PutGame(routeId.value, PayloadOf(f)) else PostGame(PayloadOf(f))))
  {
    var v := Validate(f);
    if v.None? {
      var p := PayloadOf(f);
      var s := Save(f, p, routeId, first, second);
      assert Submit(f, routeId, first, second) == s;
    }
  }
}
