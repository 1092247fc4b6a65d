/** The game record the pages share, and the two filters several pages apply to it. */
module Games {
  import opened Optional
  import opened Text

  /** A game as the server returns it: `_id`, `titulo`, `genero`, `plataforma`,
      `añoLanzamiento`, `ratingPromedio` and `promedioPuntuacion` (integers here),
      `desarrollador`, `descripcion`, `imagenPortada`, `esGlobal`, `fechaCreacion` (a
      timestamp) and `usuarioId`, the creator of a personal game. */
  datatype Game = Game(id: string, title: string, genre: Option<string>, platform: Option<string>,
                       year: Option<int>, rating: Option<int>, averageScore: Option<int>,
                       developer: Option<string>, description: Option<string>, cover: Option<string>,
                       isGlobal: bool, createdAt: Option<int>, ownerId: Option<string>)

  /** `field?.toLowerCase().includes(term.toLowerCase())`: a missing field never matches. */
  predicate Mentions(field: Option<string>, term: string) {
    field.Some? && Contains(ToLower(field.value), ToLower(term))
  }

  /** The year select: no filter, "Anteriores", or one listed year. */
  datatype YearFilter = AnyYear | Before2018 | InYear(year: int)

  /** "Anteriores" keeps known years before 2018; a listed year keeps that year exactly.
      A missing year never matches. */
  predicate InYearFilter(y: YearFilter, year: Option<int>) {
    match y
    case AnyYear => true
    case Before2018 => year.Some? && year.value < 2018
    case InYear(v) => year == Some(v)
  }

  /** `juegoId?.plataforma?.includes(p)`: case-sensitive, so "PC" also keeps "PC/PS/Xbox". */
  predicate OnPlatform(g: Option<Game>, platform: string) {
    g.Some? && g.value.platform.Some? && Contains(g.value.platform.value, platform)
  }

  /** An entry of the user's library (`/mis-juegos`): `_id`, the populated `juegoId`,
      `estado`, `calificacionPersonal`, `horasJugadas` and `fechaAgregado`. */
  datatype Entry = Entry(id: string, game: Option<Game>, status: string, personalRating: Option<int>,
                         hours: Option<int>, addedAt: int)

  /** `item.juegoId?.usuarioId` is truthy: the user created this game. */
  predicate IsPersonal(e: Entry) {
    e.game.Some? && e.game.value.ownerId.Some? && |e.game.value.ownerId.value| > 0
  }

  const Pending: string := "Pendiente"
  const InProgress: string := "En progreso"
  const Completed: string := "Completado"

  predicate IsCompleted(e: Entry) {
    e.status == Completed
  }

  predicate IsInProgress(e: Entry) {
    e.status == InProgress
  }

  predicate IsPending(e: Entry) {
    e.status == Pending
  }
}
