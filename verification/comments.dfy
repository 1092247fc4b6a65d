/** The comment thread under a forum post (`src/components/Forum/ComentariosSeccion.jsx`
    and `src/components/Forum/Comentario.jsx`): the new-comment form, the like guard,
    each comment's author and like flags, the reply form, and the recursive rendering
    of nested replies. Server calls are parameters saying whether they succeeded. */
module Comments {
  import opened Optional
  import opened Text

  /** The signed-in user as the auth context holds it; its `id` may be missing. */
  datatype User = User(id: Option<string>)

  /** A comment as the server sends it: `usuarioId._id` is `author`, missing when the
      author was not populated; `likes` lists the ids of users who liked it. */
  datatype Comment = Comment(id: string, author: Option<string>, content: string,
                             likes: Option<seq<string>>, createdAt: int, replies: seq<Comment>)

  /** The body of `createComment`: a top-level comment has no parent. */
  datatype NewComment = NewComment(postId: string, content: string, parent: Option<string>)

  const MaxLength: nat := 2000

  // ---------------------------------------------------------------- new comment

  /** The toast a submission ends with. */
  datatype Notice = MustSignIn | EmptyComment | TooLong | Published | PublishFailed

  /** What a submission sent, the text box afterwards, and the toast. */
  datatype Submission = Submission(request: Option<NewComment>, text: string, notice: Notice)

  /** `handleSubmit`: signed out, blank, then over 2000 UTF-16 code units (counted
      before trimming) stop it in that order; otherwise the trimmed text is sent, and the box
      is emptied only when the server accepted it. */
  function Submit(authenticated: bool, postId: string, text: string, accepted: bool): (s: Submission)
    ensures s.request.Some? <==> authenticated && !IsBlank(text) && Utf16Length(text) <= MaxLength
    ensures s.request.Some? ==> s.request.value == NewComment(postId, Trim(text), None)
    ensures !authenticated ==> s.notice == MustSignIn
    ensures authenticated && IsBlank(text) ==> s.notice == EmptyComment
    ensures authenticated && !IsBlank(text) && Utf16Length(text) > MaxLength ==> s.notice == TooLong
    ensures s.request.Some? ==> (s.notice == Published <==> accepted)
    ensures s.text == "" <==> text == "" || (s.request.Some? && accepted)
  {
    if !authenticated then Submission(None, text, MustSignIn)
    else if IsBlank(text) then Submission(None, text, EmptyComment)
    else if Utf16Length(text) > MaxLength then Submission(None, text, TooLong)
    else if accepted then Submission(Some(NewComment(postId, Trim(text), None)), "", Published)
    else Submission(Some(NewComment(postId, Trim(text), None)), text, PublishFailed)
  }

  /** What is sent is a non-empty, trimmed text of at most 2000 characters. */
  lemma SentCommentFits(authenticated: bool, postId: string, text: string, accepted: bool)
    ensures var s := Submit(authenticated, postId, text, accepted);
      s.request.Some? ==>
        && 0 < |s.request.value.content| && Utf16Length(s.request.value.content) <= MaxLength
        && IsTrimmed(s.request.value.content)
        && s.request.value.parent.None?
  {
    TrimShortens(text);
  }

  /** After a published comment the box is empty, so pressing submit again sends
      nothing and says the comment is empty. */
  lemma NoDoublePost(postId: string, text: string, accepted: bool, again: bool)
    requires Submit(true, postId, text, accepted).notice == Published
    ensures var s := Submit(true, postId, Submit(true, postId, text, accepted).text, again);
      s.request.None? && s.notice == EmptyComment
  {
    assert AllSpace("");
  }

  /** `handleLike`: the like request for a comment goes out only when signed in. */
  function LikeRequest(authenticated: bool, commentId: string): (r: Option<string>)
    ensures r.Some? <==> authenticated
    ensures r.Some? ==> r.value == commentId
  {
    if authenticated then Some(commentId) else None
  }

  /** What stands above the list: a closed post's notice, the form, or a sign-in prompt. */
  datatype FormArea = ClosedNotice | CommentBox | SignInPrompt

  function FormAreaFor(isClosed: bool, authenticated: bool): (a: FormArea)
    ensures a == ClosedNotice <==> isClosed
    ensures a == CommentBox <==> !isClosed && authenticated
    ensures a == SignInPrompt <==> !isClosed && !authenticated
  {
    if isClosed then ClosedNotice else if authenticated then CommentBox else SignInPrompt
  }

  // ---------------------------------------------------------------- one comment

  /** `esAutor` as written: `user.id === comentario.usuarioId?._id`, which also holds
      when both sides are `undefined`. */
  predicate IsAuthorAsWritten(user: Option<User>, c: Comment) {
    user.Some? && user.value.id == c.author
  }

  /** `esAutor` as intended: the comment has an author and it is the signed-in user. */
  predicate IsAuthor(user: Option<User>, c: Comment) {
    user.Some? && c.author.Some? && user.value.id == c.author
  }

  /** A user object without `id` owns, under the written test, every comment whose
      author is missing, and so is offered its delete button; the intended test owns
      none of them. */
  lemma AuthorlessCommentOwnedAsWritten()
    ensures var user := Some(User(None));
      var c := Comment("c1", None, "Sin autor", None, 0, []);
      IsAuthorAsWritten(user, c) && !IsAuthor(user, c)
  {
  }

  /** The two tests agree whenever the comment has an author, and the intended one
      never says yes where the written one says no. */
  lemma AuthorTestsAgreeWithAuthor(user: Option<User>, c: Comment)
    ensures c.author.Some? ==> (IsAuthorAsWritten(user, c) <==> IsAuthor(user, c))
    ensures IsAuthor(user, c) ==> IsAuthorAsWritten(user, c)
  {
  }

  /** `hasLiked`: signed in, the comment has a likes list, and the user's id is in it. */
  predicate HasLiked(user: Option<User>, c: Comment) {
    user.Some? && user.value.id.Some? && c.likes.Some? && user.value.id.value in c.likes.value
  }

  /** `likes?.length || 0`. */
  function LikeCount(c: Comment): (n: nat)
    ensures c.likes.None? ==> n == 0
    ensures c.likes.Some? ==> n == |c.likes.value|
  {
    if c.likes.Some? then |c.likes.value| else 0
  }

  /** Whoever has liked a comment has added at least one to its count. */
  lemma LikedMeansCounted(user: Option<User>, c: Comment)
    requires HasLiked(user, c)
    ensures LikeCount(c) >= 1
  {
  }

  /** The reply box under a comment: open or closed, and its text. */
  datatype ReplyBox = ReplyBox(open: bool, text: string)

  datatype ReplyNotice = ReplyNeedsSignIn | EmptyReply | ReplyPublished | ReplyFailed

  datatype ReplyOutcome = ReplyOutcome(request: Option<NewComment>, box: ReplyBox, notice: ReplyNotice)

  /** `handleReply`: a user and a non-blank text are required (there is no length
      check here); the reply carries the trimmed text and this comment's id as its
      parent. A published reply empties and closes the box; anything else leaves it. */
  function Reply(user: Option<User>, c: Comment, postId: string, box: ReplyBox, accepted: bool): (o: ReplyOutcome)
    ensures o.request.Some? <==> user.Some? && !IsBlank(box.text)
    ensures o.request.Some? ==> o.request.value == NewComment(postId, Trim(box.text), Some(c.id))
    ensures user.None? ==> o.notice == ReplyNeedsSignIn
    ensures user.Some? && IsBlank(box.text) ==> o.notice == EmptyReply
    ensures o.request.Some? && accepted ==> o.box == ReplyBox(false, "") && o.notice == ReplyPublished
    ensures !(o.request.Some? && accepted) ==> o.box == box
  {
    if user.None? then ReplyOutcome(None, box, ReplyNeedsSignIn)
    else if IsBlank(box.text) then ReplyOutcome(None, box, EmptyReply)
    else
      var request := Some(NewComment(postId, Trim(box.text), Some(c.id)));
      if accepted then ReplyOutcome(request, ReplyBox(false, ""), ReplyPublished)
      else ReplyOutcome(request, box, ReplyFailed)
  }

  /** "Responder" flips the box open or closed and keeps the text. */
  function ToggleReply(box: ReplyBox): (b: ReplyBox)
    ensures b.open == !box.open && b.text == box.text
  {
    box.(open := !box.open)
  }

  /** "Cancelar" closes the box and empties it. */
  function CancelReply(box: ReplyBox): (b: ReplyBox)
    ensures !b.open && b.text == ""
  {
    ReplyBox(false, "")
  }

  /** A published reply leaves the box as "Cancelar" would. */
  lemma PublishedReplyResetsBox(user: Option<User>, c: Comment, postId: string, box: ReplyBox)
    requires user.Some? && !IsBlank(box.text)
    ensures Reply(user, c, postId, box, true).box == CancelReply(box)
  {
  }

  /** "respuesta" for exactly one reply, "respuestas" for any other count. */
  function ReplyWord(n: int): (w: string)
    ensures w == "respuesta" + (if n != 1 then "s" else "")
    ensures (|w| == 10) <==> n != 1
  {
    if n != 1 then "respuestas" else "respuesta"
  }

  // ---------------------------------------------------------------- the tree

  /** The replies toggle: the count and its word. */
  datatype RepliesLabel = RepliesLabel(count: nat, word: string)

  /** What one rendered comment offers, with its rendered replies. */
  datatype View = View(id: string, postId: string, deletable: bool, liked: bool, likes: nat,
                       canReply: bool, toggle: Option<RepliesLabel>, replies: seq<View>)

  /** A view shows comment `c` to `user` under post `postId`, and so do its replies, all
      the way down: the flags each node shows are the ones computed for its own comment
      with the same user and post. */
  predicate Shows(v: View, c: Comment, user: Option<User>, postId: string)
    decreases c
  {
    && v.id == c.id
    && v.postId == postId
    && v.deletable == IsAuthor(user, c)
    && v.liked == HasLiked(user, c)
    && v.likes == LikeCount(c)
    && v.canReply == user.Some?
    && (v.toggle.Some? <==> |c.replies| > 0)
    && (v.toggle.Some? ==> v.toggle.value.count == |c.replies| && v.toggle.value.word == ReplyWord(|c.replies|))
    && |v.replies| == |c.replies|
    && forall i :: 0 <= i < |c.replies| ==> Shows(v.replies[i], c.replies[i], user, postId)
  }

  /** `Comentario`, rendering itself and then each reply with the same user and post. */
  function Render(c: Comment, user: Option<User>, postId: string): (v: View)
    ensures Shows(v, c, user, postId)
    decreases c
  {
    var toggle := if |c.replies| > 0 then Some(RepliesLabel(|c.replies|, ReplyWord(|c.replies|))) else None;
    View(c.id, postId, IsAuthor(user, c), HasLiked(user, c), LikeCount(c), user.Some?, toggle,
         seq(|c.replies|, i requires 0 <= i < |c.replies| => Render(c.replies[i], user, postId)))
  }
  /** On a comment that has an author, the rendered delete button is the one the
      written `esAutor` test shows; the two differ only on authorless comments. */
  lemma RenderAgreesAsWrittenWhenAuthored(c: Comment, user: Option<User>, postId: string)
    requires c.author.Some?
    ensures Render(c, user, postId).deletable == IsAuthorAsWritten(user, c)
  {
    AuthorTestsAgreeWithAuthor(user, c);
  }


  /** Every delete button in the view, at any depth, sits on a comment that has an
      author, and that author is the signed-in user. */
  predicate DeletesOnlyOwn(v: View, c: Comment, user: Option<User>)
    decreases c
  {
    && (v.deletable ==> user.Some? && c.author.Some? && user.value.id == c.author)
    && |v.replies| == |c.replies|
    && forall i :: 0 <= i < |c.replies| ==> DeletesOnlyOwn(v.replies[i], c.replies[i], user)
  }

  /** A rendered thread offers deletion only of the user's own comments and replies;
      an authorless comment is never deletable. */
  lemma {:induction false} DeleteOnlyForAuthor(v: View, c: Comment, user: Option<User>, postId: string)
    requires Shows(v, c, user, postId)
    ensures DeletesOnlyOwn(v, c, user)
    decreases c
  {
    forall i | 0 <= i < |c.replies|
      ensures DeletesOnlyOwn(v.replies[i], c.replies[i], user)
    {
      DeleteOnlyForAuthor(v.replies[i], c.replies[i], user, postId);
    }
  }

  /** Nothing in the view can be deleted or answered, at any depth. */
  predicate ReadOnly(v: View)
    decreases v
  {
    !v.deletable && !v.canReply && forall i :: 0 <= i < |v.replies| ==> ReadOnly(v.replies[i])
  }

  /** Signed out, the whole thread is read-only: no delete button and no reply button
      on any comment or reply. */
  lemma {:induction false} SignedOutThreadIsReadOnly(v: View, c: Comment, postId: string)
    requires Shows(v, c, None, postId)
    ensures ReadOnly(v)
    decreases c
  {
    forall i | 0 <= i < |v.replies|
      ensures ReadOnly(v.replies[i])
    {
      SignedOutThreadIsReadOnly(v.replies[i], c.replies[i], postId);
    }
  }

  /** The rendered thread for a signed-out visitor is read-only. */
  lemma SignedOutRenderIsReadOnly(c: Comment, postId: string)
    ensures ReadOnly(Render(c, None, postId))
  {
    SignedOutThreadIsReadOnly(Render(c, None, postId), c, postId);
  }
}
