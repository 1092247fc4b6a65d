/** The forum's tag field: a comma-separated text on the form, a list of tags on the
    post. */
module Tags {
  import opened Text
  import opened Seqs

  /** `pieces.map(t => t.trim())`. */
  function TrimAll(pieces: seq<string>): (r: seq<string>)
    ensures |r| == |pieces|
    ensures forall i :: 0 <= i < |r| ==> r[i] == Trim(pieces[i])
  {
    seq(|pieces|, i requires 0 <= i < |pieces| => Trim(pieces[i]))
  }

  predicate NonEmpty(t: string) {
    |t| > 0
  }

  /** A tag as the form can give it back: non-empty, trimmed, without a comma. */
  predicate IsTag(t: string) {
    |t| > 0 && IsTrimmed(t) && ',' !in t
  }

  /** `tags ? tags.split(',').map(t => t.trim()).filter(t => t) : []`. */
  function Parse(text: string): (tags: seq<string>)
    ensures |text| == 0 ==> tags == []
    ensures forall i :: 0 <= i < |tags| ==> IsTag(tags[i])
  {
    if |text| == 0 then []
    else
      var pieces := Split(text, ',');
      var r := Filter(TrimAll(pieces), NonEmpty);
      forall i | 0 <= i < |r| ensures IsTag(r[i]) {
        assert r[i] in multiset(TrimAll(pieces));
        var k :| 0 <= k < |pieces| && TrimAll(pieces)[k] == r[i];
        TrimKeepsMissing(pieces[k], ',');
      }
      r
  }

  /** Trimming never adds a character. */
  lemma TrimKeepsMissing(s: string, c: char)
    requires c !in s
    ensures c !in Trim(s)
  {
  }

  /** `tags.join(', ')`, the text an edit starts from. */
  function Show(tags: seq<string>): string {
    Join(tags, ", ")
  }

  lemma {:induction false} FilterAppend<T>(a: seq<T>, b: seq<T>, p: T -> bool)
    ensures Filter(a + b, p) == Filter(a, p) + Filter(b, p)
  {
    if |a| > 0 {
      assert (a + b)[1..] == a[1..] + b;
      FilterAppend(a[1..], b, p);
    } else {
      assert a + b == b;
    }
  }

  /** The space a join puts after each comma is trimmed away again. */
  lemma TrimLead(t: string, lead: string)
    requires lead == "" || lead == " "
    requires IsTag(t)
    ensures Trim(lead + t) == t
  {
    if lead == "" {
      assert lead + t == t;
      TrimOfTrimmed(t);
    } else {
      TrimDropsLeadingSpace(t);
    }
  }

  lemma TrimAllAppend(a: seq<string>, b: seq<string>)
    ensures TrimAll(a + b) == TrimAll(a) + TrimAll(b)
  {
  }

  /** Splitting a shown list on commas cuts off its first tag. */
  lemma SplitShown(tags: seq<string>, lead: string)
    requires |tags| > 1
    requires lead == "" || lead == " "
    requires IsTag(tags[0])
    ensures Split(lead + Show(tags), ',') == [lead + tags[0]] + Split(" " + Show(tags[1..]), ',')
  {
    var t := tags[0];
    assert Show(tags) == t + ", " + Show(tags[1..]);
    assert lead + Show(tags) == (lead + t) + [','] + (" " + Show(tags[1..]));
    assert ',' !in lead + t;
    SplitAtSeparator(lead + t, ',', " " + Show(tags[1..]));
  }

  /** A single shown tag parses back to itself. */
  lemma ParseShownOne(t: string, lead: string)
    requires lead == "" || lead == " "
    requires IsTag(t)
    ensures Filter(TrimAll(Split(lead + Show([t]), ',')), NonEmpty) == [t]
  {
    assert Show([t]) == t;
    assert ',' !in lead + t;
    SplitWithoutSeparator(lead + t, ',');
    TrimLead(t, lead);
    assert TrimAll([lead + t]) == [t];
    assert Filter([t], NonEmpty) == [t] + Filter([t][1..], NonEmpty);
  }

  /** Trimming the pieces of a shown list of two or more tags gives its first tag, then
      the trimmed pieces of the rest. */
  lemma TrimShownPieces(tags: seq<string>, lead: string)
    requires |tags| > 1
    requires lead == "" || lead == " "
    requires IsTag(tags[0])
    ensures TrimAll(Split(lead + Show(tags), ',')) == [tags[0]] + TrimAll(Split(" " + Show(tags[1..]), ','))
  {
    var t := tags[0];
    var rest := Split(" " + Show(tags[1..]), ',');
    SplitShown(tags, lead);
    TrimAllAppend([lead + t], rest);
    TrimLead(t, lead);
    assert TrimAll([lead + t]) == [t];
  }

  /** A non-empty first piece survives the filter. */
  lemma FilterKeepsHead(t: string, tail: seq<string>)
    requires NonEmpty(t)
    ensures Filter([t] + tail, NonEmpty) == [t] + Filter(tail, NonEmpty)
  {
    assert ([t] + tail)[0] == t;
    assert ([t] + tail)[1..] == tail;
  }

  /** A shown list of two or more tags parses back to itself once its tail does. */
  lemma ParseShownStep(tags: seq<string>, lead: string)
    requires |tags| > 1
    requires lead == "" || lead == " "
    requires IsTag(tags[0])
    requires Filter(TrimAll(Split(" " + Show(tags[1..]), ',')), NonEmpty) == tags[1..]
    ensures Filter(TrimAll(Split(lead + Show(tags), ',')), NonEmpty) == tags
  {
    TrimShownPieces(tags, lead);
    FilterKeepsHead(tags[0], TrimAll(Split(" " + Show(tags[1..]), ',')));
    assert tags == [tags[0]] + tags[1..];
  }

  /** The pieces of `lead + Show(tags)`, with `lead` either nothing or the space that
      follows a comma, parse back to the tags. */
  lemma {:induction false} ParseShown(tags: seq<string>, lead: string)
    requires |tags| > 0
    requires lead == "" || lead == " "
    requires forall i :: 0 <= i < |tags| ==> IsTag(tags[i])
    ensures Filter(TrimAll(Split(lead + Show(tags), ',')), NonEmpty) == tags
    decreases |tags|
  {
    if |tags| == 1 {
      ParseShownOne(tags[0], lead);
      assert tags == [tags[0]];
    } else {
      ParseShown(tags[1..], " ");
      ParseShownStep(tags, lead);
    }
  }

  /** An edit that leaves the tag field alone saves the same tags: showing tags and
      parsing the text back is the identity on lists of proper tags. */
  lemma ParseShowRoundTrip(tags: seq<string>)
    requires forall i :: 0 <= i < |tags| ==> IsTag(tags[i])
    ensures Parse(Show(tags)) == tags
  {
    if |tags| > 0 {
      ParseShown(tags, "");
      assert "" + Show(tags) == Show(tags);
      if |tags| == 1 {
        assert |Show(tags)| > 0;
      } else {
        assert Show(tags) == tags[0] + ", " + Show(tags[1..]);
      }
    }
  }
}

/** The forum post form (`src/pages/ForumPostForm.jsx`). */
module ForumPostForm {
  import opened Optional
  import opened Text
  import Tags
  import AuthService

  const Required: string := "Título y contenido son requeridos"
  const TitleTooLong: string := "El título no puede exceder 200 caracteres"
  const ContentTooLong: string := "El contenido no puede exceder 5000 caracteres"
  const MaxTitle: nat := 200
  const MaxContent: nat := 5000
  const LoginPath: string := "/login"
  const ForumPath: string := "/forum"
  const LoadError: string := "Error al cargar el post"

  datatype Form = Form(title: string, content: string, category: string, tags: string)

  const Empty: Form := Form("", "", "General", "")

  /** On opening the page: signed out, the user goes to the login page and no post is
      loaded; with a route id the post is loaded for editing; otherwise the form starts
      blank. */
  datatype Opening = SignInFirst | LoadPost(id: string) | StartBlank

  function Open(authenticated: bool, routeId: Option<string>): (o: Opening)
    ensures !authenticated <==> o.SignInFirst?
    ensures o.LoadPost? <==> authenticated && routeId.Some?
    ensures o.LoadPost? ==> o.id == routeId.value
  {
    if !authenticated then SignInFirst
    else if routeId.Some? then LoadPost(routeId.value)
    else StartBlank
  }

  /** A stored post, as the edit page reads it. */
  datatype Post = Post(title: string, content: string, category: string, tags: Option<seq<string>>)

  /** `cargarPost`: the post's fields, with its tags joined by ", " (or nothing). */
  function Prefill(p: Post): (f: Form)
    ensures f.title == p.title && f.content == p.content && f.category == p.category
    ensures p.tags.Some? ==> f.tags == Tags.Show(p.tags.value)
    ensures p.tags.None? ==> f.tags == ""
  {
    Form(p.title, p.content, p.category, if p.tags.Some? then Tags.Show(p.tags.value) else "")
  }

  /** How loading the post for editing ends: the form filled from it, or a toast and a
      move back to the forum. */
  datatype Edit = Prefilled(form: Form) | Leave(path: string, message: string)

  /** `cargarPost`: a loaded post fills the form; a failed load shows its toast and
      returns to the forum. */
  function LoadForEdit(call: AuthService.Call<Post>): (e: Edit)
    ensures e.Prefilled? <==> call.Ok?
    ensures call.Ok? ==> e.form == Prefill(call.data)
    ensures call.Fail? ==> e == Leave(ForumPath, LoadError)
  {
    match call
    case Ok(p) => Prefilled(Prefill(p))
    case Fail(_) => Leave(ForumPath, LoadError)
  }

  /** The validations of `handleSubmit`, in order. The limits count UTF-16 code units of the
      text as typed, surrounding white space included. */
  function Validate(f: Form): (m: Option<string>)
    ensures m == Some(Required) <==> IsBlank(f.title) || IsBlank(f.content)
    ensures m == Some(TitleTooLong) <==> !IsBlank(f.title) && !IsBlank(f.content) && Utf16Length(f.title) > MaxTitle
    ensures m == Some(ContentTooLong) <==>
      !IsBlank(f.title) && !IsBlank(f.content) && Utf16Length(f.title) <= MaxTitle && Utf16Length(f.content) > MaxContent
    ensures m.None? <==> !IsBlank(f.title) && !IsBlank(f.content) && Utf16Length(f.title) <= MaxTitle && Utf16Length(f.content) <= MaxContent
  {
    if IsBlank(f.title) || IsBlank(f.content) then Some(Required)
    else if Utf16Length(f.title) > MaxTitle then Some(TitleTooLong)
    else if Utf16Length(f.content) > MaxContent then Some(ContentTooLong)
    else None
  }

  /** The body sent: trimmed title and content, the category, the parsed tags. */
  datatype PostData = PostData(title: string, content: string, category: string, tags: seq<string>)

  function DataOf(f: Form): (d: PostData)
    ensures d.title == Trim(f.title) && d.content == Trim(f.content) && d.category == f.category
    ensures d.tags == Tags.Parse(f.tags)
    ensures forall i :: 0 <= i < |d.tags| ==> Tags.IsTag(d.tags[i])
    ensures IsTrimmed(d.title) && IsTrimmed(d.content)
  {
    PostData(Trim(f.title), Trim(f.content), f.category, Tags.Parse(f.tags))
  }

  /** A valid form sends a non-empty title and content within their limits. */
  lemma ValidDataFits(f: Form)
    requires Validate(f).None?
    ensures var d := DataOf(f); 0 < |d.title| && Utf16Length(d.title) <= MaxTitle && 0 < |d.content| && Utf16Length(d.content) <= MaxContent
  {
    TrimShortens(f.title);
    TrimShortens(f.content);
  }

  datatype Request = UpdatePost(id: string, data: PostData) | CreatePost(data: PostData)

  datatype Submission = Stopped(message: string) | Sent(request: Request, navigateTo: Option<string>)

  /** `handleSubmit`: with a route id the post is updated, otherwise created; on success
      the page opens the saved post, under the id the server returned for a new one. */
  function Submit(f: Form, routeId: Option<string>, call: AuthService.Call<string>): (s: Submission)
    ensures Validate(f).Some? <==> s.Stopped?
    ensures s.Stopped? ==> s.message == Validate(f).value
    ensures s.Sent? ==> (s.request.UpdatePost? <==> routeId.Some?) && s.request.data == DataOf(f)
    ensures s.Sent? && routeId.Some? ==> s.request.id == routeId.value
    ensures s.Sent? ==> (s.navigateTo.Some? <==> call.Ok?)
    ensures s.Sent? && call.Ok? ==>
      s.navigateTo.value == "/forum/post/" + (if routeId.Some? then routeId.value else call.data)
  {
    match Validate(f)
    case Some(m) => Stopped(m)
    case None =>
      var d := DataOf(f);
      var request := if routeId.Some? then UpdatePost(routeId.value, d) else CreatePost(d);
      var target := if routeId.Some? then routeId.value else (if call.Ok? then call.data else "");
      Sent(request, if call.Ok? then Some("/forum/post/" + target) else None)
  }

  /** Opening a post for editing and saving it untouched keeps its tags, when they are
      proper tags. */
  lemma EditKeepsTags(p: Post)
    requires p.tags.Some?
    requires forall i :: 0 <= i < |p.tags.value| ==> Tags.IsTag(p.tags.value[i])
    ensures DataOf(Prefill(p)).tags == p.tags.value
  {
    Tags.ParseShowRoundTrip(p.tags.value);
  }
}
