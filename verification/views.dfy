/** The view functions of the posts application. Read-only views return the
    context they render (or the response given instead); the views that write
    return a tagged outcome, the redirect they answer with, and the database
    afterwards. The requester is the session's user, None for a guest. */
module Views {
  import opened Wrappers
  import opened Seqs
  import opened Models
  import opened Forms
  import opened Paging
  import opened Ordering

  // ================================================================ queries

  /** What a read-only view answers: a rendered context, a 404 page, or the
      redirect to the login page that `login_required` gives a guest. */
  datatype Rendered<T> = Shown(view: T) | NotFoundPage | LoginRedirect

  /** A feed and the page of it the request asked for. */
  datatype FeedView = FeedView(feed: seq<Post>, page: Page<Post>)

  datatype GroupView = GroupView(group: Group, feed: seq<Post>, page: Page<Post>)

  /** `following` is None for a guest, otherwise whether the viewer follows the author. */
  datatype ProfileView = ProfileView(
    author: User,
    feed: seq<Post>,
    page: Page<Post>,
    authorCount: nat,
    following: Option<bool>)

  datatype DetailView = DetailView(post: Post, authorCount: nat, title: string, comments: seq<Comment>)

  /** Length of the page title `post_detail` cuts from the text. */
  const DetailTitleLength: nat := 30

  function InGroup(g: GroupId): Post -> bool { (p: Post) => p.group == Some(g) }
  function ByAuthor(u: UserId): Post -> bool { (p: Post) => p.author == u }
  function OnPost(id: PostId): Comment -> bool { (c: Comment) => c.post == id }

  /** `author.posts.count()`: how many rows of the posts table `u` wrote. */
  function AuthorCount(s: Store, u: UserId): (n: nat)
    ensures n <= |s.posts|
    ensures n == 0 <==> forall p :: p in s.posts ==> p.author != u
  {
    var mine := Filter(s.posts, ByAuthor(u));
    assert |mine| > 0 ==> mine[0] in mine;
    |mine|
  }

  /** `index`: every post, newest first, and the requested page. */
  function Index(s: Store, requested: Option<int>): (r: FeedView)
    ensures NewestFirst(r.feed)
    ensures multiset(r.feed) == multiset(s.posts)
    ensures r.page == PageView(r.feed, requested)
  {
    var feed := SortNewestFirst(s.posts);
    FeedView(feed, PageView(feed, requested))
  }

  /** `group_posts`: 404 for an unknown slug; otherwise the group's posts,
      newest first. */
  function GroupPosts(s: Store, slug: string, requested: Option<int>): (r: Rendered<GroupView>)
    ensures r.NotFoundPage? <==> forall g :: g in s.groups ==> g.slug != slug
    ensures !r.LoginRedirect?
    ensures r.Shown? ==> r.view.group in s.groups && r.view.group.slug == slug
    ensures r.Shown? ==> NewestFirst(r.view.feed)
    ensures r.Shown? ==> forall p :: p in r.view.feed <==> p in s.posts && p.group == Some(r.view.group.id)
    ensures r.Shown? ==>
      forall p :: multiset(r.view.feed)[p] ==
                    (if p.group == Some(r.view.group.id) then multiset(s.posts)[p] else 0)
    ensures r.Shown? ==> r.view.page == PageView(r.view.feed, requested)
  {
    match GroupBySlug(s, slug)
    case None => NotFoundPage
    case Some(g) =>
      FilterCount(s.posts, InGroup(g.id));
      var feed := SortNewestFirst(Filter(s.posts, InGroup(g.id)));
      Shown(GroupView(g, feed, PageView(feed, requested)))
  }

  /** Whether the profile shows "following": None for a guest, otherwise
      whether an edge from the viewer to the author exists. */
  function Following(s: Store, viewer: Option<UserId>, author: UserId): (r: Option<bool>)
    ensures r.None? <==> viewer.None?
    ensures viewer.Some? ==> (r == Some(true) <==> Follow(viewer.value, author) in s.follows)
  {
    match viewer
    case None => None
    case Some(v) => Some(Follow(v, author) in s.follows)
  }

  /** `profile`: 404 for an unknown username; otherwise the author's posts
      (in no particular order), their count and the following flag. */
  function Profile(s: Store, viewer: Option<UserId>, username: string, requested: Option<int>): (r: Rendered<ProfileView>)
    ensures r.NotFoundPage? <==> forall u :: u in s.users ==> u.username != username
    ensures !r.LoginRedirect?
    ensures r.Shown? ==> r.view.author in s.users && r.view.author.username == username
    ensures r.Shown? ==> forall p :: p in r.view.feed <==> p in s.posts && p.author == r.view.author.id
    ensures r.Shown? ==>
      forall p :: multiset(r.view.feed)[p] ==
                    (if p.author == r.view.author.id then multiset(s.posts)[p] else 0)
    ensures r.Shown? ==> r.view.authorCount == |r.view.feed| == AuthorCount(s, r.view.author.id)
    ensures r.Shown? ==> (r.view.following.None? <==> viewer.None?)
    ensures r.Shown? && viewer.Some? ==>
      (r.view.following == Some(true) <==> Follow(viewer.value, r.view.author.id) in s.follows)
    ensures r.Shown? ==> r.view.page == PageView(r.view.feed, requested)
  {
    match UserByName(s, username)
    case None => NotFoundPage
    case Some(author) =>
      var feed := Filter(s.posts, ByAuthor(author.id));
      assert forall p :: multiset(feed)[p] == (if p.author == author.id then multiset(s.posts)[p] else 0) by {
        FilterCount(s.posts, ByAuthor(author.id));
      }
      Shown(ProfileView(author, feed, PageView(feed, requested), AuthorCount(s, author.id),
                        Following(s, viewer, author.id)))
  }

  /** `post_detail`: 404 for an unknown post; otherwise the post, its author's
      post count, a title cut from its text and the comments on it. */
  function PostDetail(s: Store, id: PostId): (r: Rendered<DetailView>)
    ensures r.NotFoundPage? <==> id !in PostIds(s.posts)
    ensures !r.LoginRedirect?
    ensures r.Shown? ==> r.view.post in s.posts && r.view.post.id == id
    ensures r.Shown? ==> r.view.authorCount == AuthorCount(s, r.view.post.author)
    ensures r.Shown? ==> r.view.title <= r.view.post.text
    ensures r.Shown? ==>
      |r.view.title| == (if |r.view.post.text| <= DetailTitleLength then |r.view.post.text| else DetailTitleLength)
    ensures r.Shown? ==> forall c :: c in r.view.comments <==> c in s.comments && c.post == id
    ensures r.Shown? ==>
      forall c :: multiset(r.view.comments)[c] ==
                    (if c.post == id then multiset(s.comments)[c] else 0)
  {
    match PostById(s, id)
    case None => NotFoundPage
    case Some(p) =>
      FilterCount(s.comments, OnPost(id));
      Shown(DetailView(p, AuthorCount(s, p.author), Prefix(p.text, DetailTitleLength),
                       Filter(s.comments, OnPost(id))))
  }

  /** The authors `viewer` follows. */
  function FollowedAuthors(s: Store, viewer: UserId): set<UserId>
  {
    set f | f in s.follows && f.user == viewer :: f.author
  }

  /** `follow_index`: guests go to the login page; a user sees the posts of
      every author they follow (in no particular order). */
  function FollowIndex(s: Store, viewer: Option<UserId>, requested: Option<int>): (r: Rendered<FeedView>)
    ensures r.LoginRedirect? <==> viewer.None?
    ensures !r.NotFoundPage?
    ensures r.Shown? ==> forall p :: p in r.view.feed <==>
      p in s.posts && Follow(viewer.value, p.author) in s.follows
    ensures r.Shown? ==>
      forall p :: multiset(r.view.feed)[p] ==
                    (if Follow(viewer.value, p.author) in s.follows then multiset(s.posts)[p] else 0)
    ensures r.Shown? ==> r.view.page == PageView(r.view.feed, requested)
  {
    match viewer
    case None => LoginRedirect
    case Some(v) =>
      var authors := FollowedAuthors(s, v);
      var keep := (p: Post) => p.author in authors;
      FilterCount(s.posts, keep);
      var feed := Filter(s.posts, keep);
      assert forall a: UserId :: a in authors <==> Follow(v, a) in s.follows by {
        forall a: UserId ensures a in authors <==> Follow(v, a) in s.follows {
          if a in authors {
            var f :| f in s.follows && f.user == v && f.author == a;
            assert f == Follow(v, a);
          }
        }
      }
      Shown(FeedView(feed, PageView(feed, requested)))
  }

  // ============================================================== mutations

  /** Failures that surface as a server error. */
  datatype ServerError =
    | AnonymousAuthor          // a guest's valid post: the author column cannot hold a guest
    | FollowDoesNotExist       // `Follow.objects.get` found no edge
    | MultipleFollowsReturned  // `Follow.objects.get` found several edges

  /** Where a redirect sends the browser. */
  datatype Target = ProfileOf(username: string) | DetailOf(post: PostId) | LoginPage

  /** What a writing view did. */
  datatype Outcome =
    | Created                       // one row was stored
    | Updated                       // one post was rewritten
    | Removed                       // one follow edge was deleted
    | Unchanged                     // handled; nothing to write
    | Denied                        // not the author of the post
    | Invalid(errors: set<FormError>)  // the submitted form was rejected
    | FormShown                     // no form was submitted: the blank or pre-filled form is rendered
    | LoginRequired                 // a guest, sent to the login page
    | NotFound                      // 404
    | Error(reason: ServerError)    // 500

  /** A writing view's answer: the outcome, the redirect (None when a page is
      rendered instead) and the database afterwards. */
  datatype Response = Response(outcome: Outcome, redirect: Option<Target>, store: Store)

  /** A logged-in requester is an existing account. */
  predicate KnownRequester(s: Store, requester: Option<UserId>)
  {
    requester.Some? ==> requester.value in UserIds(s.users)
  }

  /** The username of an existing account. */
  function UsernameOf(s: Store, u: UserId): (name: string)
    requires u in UserIds(s.users)
    ensures exists x :: x in s.users && x.id == u && x.username == name
  {
    UserById(s, u).value.username
  }

  /** `post_create`. Nothing submitted: the blank form. A rejected form: the
      form again with its errors. A valid form from a guest: a server error,
      since a guest cannot be stored as an author. A valid form from a user:
      one new post by that user, then their profile. */
  function PostCreate(s: Store, requester: Option<UserId>, form: Option<PostFormData>, now: nat): (r: Response)
    requires KnownRequester(s, requester)
    ensures form.None? ==> r.outcome == FormShown
    ensures r.outcome.Invalid? <==> form.Some? && PostFormErrors(s, form.value) != {}
    ensures r.outcome.Invalid? ==> r.outcome.errors == PostFormErrors(s, form.value)
    ensures r.outcome == Error(AnonymousAuthor) <==>
      form.Some? && PostFormErrors(s, form.value) == {} && requester.None?
    ensures r.outcome == Created <==>
      form.Some? && PostFormErrors(s, form.value) == {} && requester.Some?
    ensures r.outcome != Created ==> r.store == s && r.redirect.None?
    ensures r.outcome == Created ==>
      && r.redirect == Some(ProfileOf(UsernameOf(s, requester.value)))
      && |r.store.posts| == |s.posts| + 1
      && r.store.posts[..|s.posts|] == s.posts
      && r.store.posts[|s.posts|].id == s.nextPostId
      && r.store.posts[|s.posts|].author == requester.value
      && r.store.posts[|s.posts|].pubDate == now
      && r.store.posts[|s.posts|].text == form.value.text
      && r.store.posts[|s.posts|].group == form.value.group
      && r.store.posts[|s.posts|].image == form.value.image
      && r.store.nextPostId == s.nextPostId + 1
      && r.store.users == s.users && r.store.groups == s.groups
      && r.store.comments == s.comments && r.store.follows == s.follows
      && r.store.nextCommentId == s.nextCommentId
  {
    match form
    case None => Response(FormShown, None, s)
    case Some(f) =>
      var errs := PostFormErrors(s, f);
      if errs != {} then Response(Invalid(errs), None, s)
      else match requester
        case None => Response(Error(AnonymousAuthor), None, s)
        case Some(u) =>
          var p := NewPost(s.nextPostId, u, now, f);
          Response(Created, Some(ProfileOf(UsernameOf(s, u))),
                   s.(posts := s.posts + [p], nextPostId := s.nextPostId + 1))
  }

  /** `post_edit`. Unknown post: 404. Anyone but the author, a guest
      included: back to the post, nothing written. The author with nothing
      submitted: the pre-filled form; with a rejected form: the form again;
      with a valid form: that post's text, group and image are rewritten. */
  function PostEdit(s: Store, requester: Option<UserId>, id: PostId, form: Option<PostFormData>): (r: Response)
    requires Valid(s)
    ensures PostById(s, id).None? ==> r.outcome == NotFound && r.redirect.None?
    ensures PostById(s, id).Some? ==> r.outcome != NotFound
    ensures PostById(s, id).Some? && requester == Some(PostById(s, id).value.author) && form.None? ==>
      r == Response(FormShown, None, s)
    ensures PostById(s, id).Some? && requester == Some(PostById(s, id).value.author) &&
            form.Some? && PostFormErrors(s, form.value) != {} ==>
              r == Response(Invalid(PostFormErrors(s, form.value)), None, s)
    ensures r.outcome == Denied <==>
      PostById(s, id).Some? && requester != Some(PostById(s, id).value.author)
    ensures r.outcome == Denied ==> r.redirect == Some(DetailOf(id))
    ensures r.outcome == Updated <==>
      && PostById(s, id).Some? && requester == Some(PostById(s, id).value.author)
      && form.Some? && PostFormErrors(s, form.value) == {}
    ensures r.outcome.Invalid? ==> form.Some? && r.outcome.errors == PostFormErrors(s, form.value) != {}
    ensures r.outcome != Updated ==> r.store == s
    ensures r.outcome == Updated ==>
      && r.redirect == Some(DetailOf(id))
      && |r.store.posts| == |s.posts|
      && (forall j :: 0 <= j < |s.posts| && s.posts[j].id != id ==> r.store.posts[j] == s.posts[j])
      && (forall j :: 0 <= j < |s.posts| && s.posts[j].id == id ==>
            && r.store.posts[j].id == id
            && r.store.posts[j].author == s.posts[j].author
            && r.store.posts[j].pubDate == s.posts[j].pubDate
            && r.store.posts[j].text == form.value.text
            && r.store.posts[j].group == form.value.group
            && r.store.posts[j].image == (if form.value.image.Some? then form.value.image else s.posts[j].image))
      && r.store.users == s.users && r.store.groups == s.groups
      && r.store.comments == s.comments && r.store.follows == s.follows
      && r.store.nextPostId == s.nextPostId && r.store.nextCommentId == s.nextCommentId
  {
    match PostIndex(s, id)
    case None => Response(NotFound, None, s)
    case Some(i) =>
      var post := s.posts[i];
      if requester != Some(post.author) then Response(Denied, Some(DetailOf(id)), s)
      else match form
        case None => Response(FormShown, None, s)
        case Some(f) =>
          var errs := PostFormErrors(s, f);
          if errs != {} then Response(Invalid(errs), None, s)
          else
            assert forall j :: 0 <= j < |s.posts| && j != i ==> PostKey(s.posts[j]) != PostKey(s.posts[i]);
            Response(Updated, Some(DetailOf(id)), s.(posts := s.posts[i := ApplyPostForm(post, f)]))
  }

  /** `add_comment`. Guests go to the login page. Unknown post: 404.
      Otherwise the answer is the post's page, and a non-empty text adds one
      comment by the requester on that post. */
  function AddComment(s: Store, requester: Option<UserId>, id: PostId, form: Option<CommentFormData>, now: nat): (r: Response)
    requires KnownRequester(s, requester)
    ensures requester.None? ==> r.outcome == LoginRequired && r.redirect == Some(LoginPage)
    ensures requester.Some? && id !in PostIds(s.posts) ==> r.outcome == NotFound && r.redirect.None?
    ensures requester.Some? && id in PostIds(s.posts) ==> r.redirect == Some(DetailOf(id))
    ensures r.outcome == Created <==>
      requester.Some? && id in PostIds(s.posts) && form.Some? && form.value.text != ""
    ensures r.outcome.Invalid? <==>
      requester.Some? && id in PostIds(s.posts) && form.Some? && form.value.text == ""
    ensures r.outcome.Invalid? ==> r.outcome.errors == {EmptyCommentText}
    ensures requester.Some? && id in PostIds(s.posts) && form.None? ==> r.outcome == Unchanged
    ensures r.outcome != Created ==> r.store == s
    ensures r.outcome == Created ==>
      && |r.store.comments| == |s.comments| + 1
      && r.store.comments[..|s.comments|] == s.comments
      && r.store.comments[|s.comments|].id == s.nextCommentId
      && r.store.comments[|s.comments|].author == requester.value
      && r.store.comments[|s.comments|].post == id
      && r.store.comments[|s.comments|].text == form.value.text
      && r.store.comments[|s.comments|].pubDate == now
      && r.store.nextCommentId == s.nextCommentId + 1
      && r.store.users == s.users && r.store.groups == s.groups
      && r.store.posts == s.posts && r.store.follows == s.follows
      && r.store.nextPostId == s.nextPostId
  {
    match requester
    case None => Response(LoginRequired, Some(LoginPage), s)
    case Some(u) =>
      if id !in PostIds(s.posts) then Response(NotFound, None, s)
      else match form
        case None => Response(Unchanged, Some(DetailOf(id)), s)
        case Some(f) =>
          var errs := CommentFormErrors(f);
          if errs != {} then Response(Invalid(errs), Some(DetailOf(id)), s)
          else
            var c := NewComment(s.nextCommentId, u, id, now, f);
            Response(Created, Some(DetailOf(id)),
                     s.(comments := s.comments + [c], nextCommentId := s.nextCommentId + 1))
  }

  /** `profile_follow`. Guests go to the login page; unknown username: 404.
      Otherwise the answer is the author's profile, and an edge from the
      requester to the author is added when the two differ and no such edge
      exists yet. */
  function ProfileFollow(s: Store, requester: Option<UserId>, username: string): (r: Response)
    ensures requester.None? ==> r.outcome == LoginRequired && r.redirect == Some(LoginPage)
    ensures requester.Some? && UserByName(s, username).None? ==> r.outcome == NotFound && r.redirect.None?
    ensures requester.Some? && UserByName(s, username).Some? ==> r.redirect == Some(ProfileOf(username))
    ensures r.outcome == Created <==>
      && requester.Some? && UserByName(s, username).Some?
      && requester.value != UserByName(s, username).value.id
      && Follow(requester.value, UserByName(s, username).value.id) !in s.follows
    ensures r.outcome == Created ==>
      r.store == s.(follows := s.follows + [Follow(requester.value, UserByName(s, username).value.id)])
    ensures r.outcome != Created ==> r.store == s
    ensures requester.Some? && UserByName(s, username).Some? ==> r.outcome in {Created, Unchanged}
  {
    match requester
    case None => Response(LoginRequired, Some(LoginPage), s)
    case Some(u) =>
      match UserByName(s, username)
      case None => Response(NotFound, None, s)
      case Some(author) =>
        var edge := Follow(u, author.id);
        if u != author.id && edge !in s.follows then
          Response(Created, Some(ProfileOf(username)), s.(follows := s.follows + [edge]))
        else
          Response(Unchanged, Some(ProfileOf(username)), s)
  }

  /** `profile_unfollow`. Guests go to the login page; unknown username: 404.
      Otherwise the single edge from the requester to the author is deleted;
      no edge, or more than one, is a server error (not a 404). */
  function ProfileUnfollow(s: Store, requester: Option<UserId>, username: string): (r: Response)
    ensures requester.None? ==> r.outcome == LoginRequired && r.redirect == Some(LoginPage)
    ensures requester.Some? && UserByName(s, username).None? ==> r.outcome == NotFound && r.redirect.None?
    ensures r.outcome.Error? ==> r.redirect.None?
    ensures requester.Some? && UserByName(s, username).Some? ==>
      var edge := Follow(requester.value, UserByName(s, username).value.id);
      && (r.outcome == Error(FollowDoesNotExist) <==> multiset(s.follows)[edge] == 0)
      && (r.outcome == Error(MultipleFollowsReturned) <==> multiset(s.follows)[edge] > 1)
      && (r.outcome == Removed <==> multiset(s.follows)[edge] == 1)
      && (r.outcome == Removed ==>
            && r.redirect == Some(ProfileOf(username))
            && multiset(r.store.follows) == multiset(s.follows) - multiset{edge}
            && edge !in r.store.follows)
    ensures r.outcome != Removed ==> r.store == s
    ensures r.outcome == Removed ==> r.store == s.(follows := r.store.follows)
    ensures r.outcome == Removed ==> |r.store.follows| == |s.follows| - 1
  {
    match requester
    case None => Response(LoginRequired, Some(LoginPage), s)
    case Some(u) =>
      match UserByName(s, username)
      case None => Response(NotFound, None, s)
      case Some(author) =>
        var edge := Follow(u, author.id);
        var n := multiset(s.follows)[edge];
        if n == 0 then Response(Error(FollowDoesNotExist), None, s)
        else if n > 1 then Response(Error(MultipleFollowsReturned), None, s)
        else
          var rest := RemoveFirst(s.follows, edge);
          assert multiset(rest)[edge] == 0;
          Response(Removed, Some(ProfileOf(username)), s.(follows := rest))
  }
}
