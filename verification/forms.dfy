/** The two model forms: what a submitted post or comment may set, and when
    it is rejected. */
module Forms {
  import opened Wrappers
  import opened Models

  /** The fields `PostForm` accepts: text, group and image, nothing else.
      `image` is the path of a newly uploaded file, None when nothing was uploaded. */
  datatype PostFormData = PostFormData(text: string, group: Option<GroupId>, image: Option<string>)

  /** The one field `CommentForm` accepts. */
  datatype CommentFormData = CommentFormData(text: string)

  datatype FormError =
    | EmptyPostText      // PostForm.clean_text
    | EmptyCommentText   // CommentForm.clean_text
    | UnknownGroup       // the chosen group is not a row of the groups table

  /** `PostForm.clean_text`: the empty text is refused, any other text is kept as given. */
  function CleanPostText(text: string): (r: Result<string, FormError>)
    ensures r.Failure? <==> text == ""
    ensures r.Failure? ==> r.error == EmptyPostText
    ensures r.Success? ==> r.value == text
  {
    if text == "" then Failure(EmptyPostText) else Success(text)
  }

  /** `CommentForm.clean_text`: the empty text is refused, any other text is kept as given. */
  function CleanCommentText(text: string): (r: Result<string, FormError>)
    ensures r.Failure? <==> text == ""
    ensures r.Failure? ==> r.error == EmptyCommentText
    ensures r.Success? ==> r.value == text
  {
    if text == "" then Failure(EmptyCommentText) else Success(text)
  }

  /** Every error a bound `PostForm` reports: its text check and its group choice. */
  function PostFormErrors(s: Store, f: PostFormData): (errs: set<FormError>)
    ensures errs <= {EmptyPostText, UnknownGroup}
    ensures EmptyPostText in errs <==> f.text == ""
    ensures UnknownGroup in errs <==> f.group.Some? && f.group.value !in GroupIds(s.groups)
  {
    (if CleanPostText(f.text).Failure? then {CleanPostText(f.text).error} else {})
    + (if f.group.Some? && f.group.value !in GroupIds(s.groups) then {UnknownGroup} else {})
  }

  /** Every error a bound `CommentForm` reports. */
  function CommentFormErrors(f: CommentFormData): (errs: set<FormError>)
    ensures errs == {} <==> f.text != ""
    ensures errs <= {EmptyCommentText}
  {
    if CleanCommentText(f.text).Failure? then {CleanCommentText(f.text).error} else {}
  }

  /** `form.save()` on an existing post: the three form fields are written, an
      image is replaced only by a new upload, and the rest of the row is kept. */
  function ApplyPostForm(p: Post, f: PostFormData): (r: Post)
    ensures r.text == f.text && r.group == f.group
    ensures f.image.Some? ==> r.image == f.image
    ensures f.image.None? ==> r.image == p.image
    ensures r.id == p.id && r.author == p.author && r.pubDate == p.pubDate
  {
    p.(text := f.text, group := f.group, image := if f.image.Some? then f.image else p.image)
  }

  /** `form.save(commit=False)` for a new post, completed by the view: the form
      gives text, group and image; key, author and creation time come from the caller. */
  function NewPost(id: PostId, author: UserId, now: nat, f: PostFormData): (r: Post)
    ensures r.id == id && r.author == author && r.pubDate == now
    ensures r.text == f.text && r.group == f.group && r.image == f.image
  {
    Post(id, f.text, f.group, author, f.image, now)
  }

  /** A new comment: the form gives only the text; author, post, key and
      creation time come from the view. */
  function NewComment(id: CommentId, author: UserId, post: PostId, now: nat, f: CommentFormData): (r: Comment)
    ensures r.text == f.text
    ensures r.id == id && r.author == author && r.post == post && r.pubDate == now
  {
    Comment(id, f.text, author, post, now)
  }
}
