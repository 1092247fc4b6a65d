/** How long ago something was posted, as the forum shows it. Times are millisecond
    timestamps; the current time is a parameter. */
module RelativeTime {

  /** "Hace un momento", "Hace n min", "Hace n h", "Hace n días", or the calendar date. */
  datatype Ago = JustNow | Minutes(n: int) | Hours(n: int) | Days(n: int) | OnDate

  /** `Math.floor((now - at) / 1000)`: whole seconds elapsed, rounded down, so a
      time in the future gives a negative count. */
  function Elapsed(now: int, at: int): (s: int)
    ensures s * 1000 <= now - at < s * 1000 + 1000
  {
    (now - at) / 1000
  }

  /** The forum list's `formatearFecha`: minutes under an hour, hours under a day, days
      under 30 days, the date after that. */
  function PostAge(seconds: int): (a: Ago)
    ensures a.JustNow? <==> seconds < 60
    ensures a.Minutes? <==> 60 <= seconds < 3600
    ensures a.Hours? <==> 3600 <= seconds < 86400
    ensures a.Days? <==> 86400 <= seconds < 2592000
    ensures a.OnDate? <==> seconds >= 2592000
    ensures a.Minutes? ==> 1 <= a.n < 60 && a.n * 60 <= seconds < a.n * 60 + 60
    ensures a.Hours? ==> 1 <= a.n < 24 && a.n * 3600 <= seconds < a.n * 3600 + 3600
    ensures a.Days? ==> 1 <= a.n < 30 && a.n * 86400 <= seconds < a.n * 86400 + 86400
  {
    if seconds < 60 then JustNow
    else if seconds < 3600 then Minutes(seconds / 60)
    else if seconds < 86400 then Hours(seconds / 3600)
    else if seconds < 2592000 then Days(seconds / 86400)
    else OnDate
  }

  /** A comment's `formatearFecha`: the same minute and hour buckets, but no day
      bucket — anything a day old or more shows its date. */
  function CommentAge(seconds: int): (a: Ago)
    ensures !a.Days?
    ensures a.OnDate? <==> seconds >= 86400
    ensures seconds < 86400 ==> a == PostAge(seconds)
  {
    if seconds < 60 then JustNow
    else if seconds < 3600 then Minutes(seconds / 60)
    else if seconds < 86400 then Hours(seconds / 3600)
    else OnDate
  }

  /** The two displays part ways only between one day and thirty. */
  lemma AgesDifferOnlyInDays(seconds: int)
    ensures PostAge(seconds) != CommentAge(seconds) <==> 86400 <= seconds < 2592000
  {
  }
}

/** The forum list (`src/pages/Forum.jsx`): its filter record and pager, the content
    preview and the category colours. */
module Forum {
  import opened Optional
  import opened Text

  /** `filtros`: category, search text and page. */
  datatype Filters = Filters(category: string, search: string, page: int)

  const Initial: Filters := Filters("", "", 1)

  datatype Field = Category | Search

  /** `handleFiltroChange`: sets one filter and goes back to page 1. */
  function ChangeFilter(f: Filters, field: Field, value: string): (g: Filters)
    ensures g.page == 1
    ensures field == Category ==> g.category == value && g.search == f.search
    ensures field == Search ==> g.search == value && g.category == f.category
  {
    match field
    case Category => f.(category := value, page := 1)
    case Search => f.(search := value, page := 1)
  }

  /** `cambiarPagina`: only the page changes. */
  function ChangePage(f: Filters, page: int): (g: Filters)
    ensures g.page == page && g.category == f.category && g.search == f.search
  {
    f.(page := page)
  }

  /** Changing a filter after paging shows the first page of the new results, with the
      other filter kept. */
  lemma FilterChangeRestartsPaging(f: Filters, page: int, field: Field, value: string)
    ensures ChangeFilter(ChangePage(f, page), field, value) == ChangeFilter(f, field, value)
  {
  }

  const PreviewLength: nat := 150

  /** The card's preview: the whole characters within the first 150 UTF-16 code units,
      and "..." exactly when something was cut. */
  function ContentPreview(content: string): (t: string)
    ensures Utf16Length(content) <= PreviewLength ==> t == content
    ensures Utf16Length(content) > PreviewLength ==>
      && |t| >= 3 && t[|t| - 3..] == "..."
      && |t| - 3 < |content| && LongestFit(content, PreviewLength, t[..|t| - 3])
  {
    Truncate(content, PreviewLength)
  }

  /** For text without astral characters the preview is the first 150 characters. */
  lemma PlainContentPreview(content: string)
    requires Bmp(content)
    ensures ContentPreview(content) == if |content| > PreviewLength then content[..PreviewLength] + "..." else content
  {
    BmpTruncate(content, PreviewLength);
  }

  /** The pager's two buttons: whether each is disabled. */
  datatype Pager = Pager(previousDisabled: bool, nextDisabled: bool)

  /** The pager shows only when the answer has a page count above 1; "Anterior" is off
      on the first page and "Siguiente" on the last. */
  function PagerFor(pages: Option<int>, page: int): (p: Option<Pager>)
    ensures p.Some? <==> pages.Some? && pages.value > 1
    ensures p.Some? ==> (p.value.previousDisabled <==> page == 1)
    ensures p.Some? ==> (p.value.nextDisabled <==> page == pages.value)
  {
    if pages.Some? && pages.value > 1 then Some(Pager(page == 1, page == pages.value)) else None
  }

  /** Walking the pager from page 1 by "Siguiente" stops at the last page: on every page
      in between both buttons work. */
  lemma PagerInterior(pages: int, page: int)
    requires 1 < page < pages
    ensures PagerFor(Some(pages), page) == Some(Pager(false, false))
  {
  }

  /** The colour table's key for discussions, as the page's source file spells it: the
      UTF-8 bytes of "Discusión" read back in another encoding. */
  const DiscussionKey: string := "Discusi\U{221A}\U{2265}n"

  /** `getCategoryColor`: the six table entries, "secondary" for anything else. */
  function CategoryColor(category: string): (c: string)
    ensures category == "General" ==> c == "primary"
    ensures category == "Ayuda" ==> c == "success"
    ensures category == "Recomendaciones" ==> c == "info"
    ensures category == DiscussionKey ==> c == "warning"
    ensures category == "Noticias" ==> c == "danger"
    ensures category !in {"General", "Ayuda", "Recomendaciones", DiscussionKey, "Noticias"} ==> c == "secondary"
  {
    if category == "General" then "primary"
    else if category == "Ayuda" then "success"
    else if category == "Recomendaciones" then "info"
    else if category == DiscussionKey then "warning"
    else if category == "Noticias" then "danger"
    else "secondary"
  }

  /** A post saved from the post form under "Discusión", correctly spelled, does not
      meet the table's key and is painted "secondary", not "warning". */
  lemma DiscussionPostsAreGrey()
    ensures CategoryColor("Discusión") == "secondary"
  {
    assert "Discusión" != DiscussionKey by {
      assert "Discusión"[7] != DiscussionKey[7];
    }
  }
}
