/** Properties that relate several view calls, or a view call and the
    database invariants: integrity is kept, follow is idempotent and undone
    by unfollow, writes show up in the read views. */
module ViewProperties {
  import opened Wrappers
  import opened Seqs
  import opened Models
  import opened Forms
  import opened Paging
  import opened Ordering
  import opened Views

  // ------------------------------------------------------- integrity kept

  /** Creating a post keeps the database consistent. */
  lemma PostCreateKeepsValid(s: Store, requester: Option<UserId>, form: Option<PostFormData>, now: nat)
    requires Valid(s) && KnownRequester(s, requester)
    ensures Valid(PostCreate(s, requester, form, now).store)
  {
    var r := PostCreate(s, requester, form, now);
    if r.outcome == Created {
      var p := r.store.posts[|s.posts|];
      assert r.store.posts == s.posts + [p];
      AppendKeepsUnique(s.posts, p, PostKey);
      assert PostIds(s.posts) <= PostIds(r.store.posts);
      assert PostRefsOk(r.store.users, r.store.groups, r.store.nextPostId, p);
    }
  }

  /** Editing a post keeps the database consistent. */
  lemma PostEditKeepsValid(s: Store, requester: Option<UserId>, id: PostId, form: Option<PostFormData>)
    requires Valid(s)
    ensures Valid(PostEdit(s, requester, id, form).store)
  {
  }

  /** Adding a comment keeps the database consistent. */
  lemma AddCommentKeepsValid(s: Store, requester: Option<UserId>, id: PostId, form: Option<CommentFormData>, now: nat)
    requires Valid(s) && KnownRequester(s, requester)
    ensures Valid(AddComment(s, requester, id, form, now).store)
  {
    var r := AddComment(s, requester, id, form, now);
    if r.outcome == Created {
      var c := r.store.comments[|s.comments|];
      assert r.store.comments == s.comments + [c];
      AppendKeepsUnique(s.comments, c, CommentKey);
    }
  }

  /** Following keeps the database consistent. */
  lemma ProfileFollowKeepsValid(s: Store, requester: Option<UserId>, username: string)
    requires Valid(s) && KnownRequester(s, requester)
    ensures Valid(ProfileFollow(s, requester, username).store)
  {
  }

  /** Unfollowing keeps the database consistent. */
  lemma ProfileUnfollowKeepsValid(s: Store, requester: Option<UserId>, username: string)
    requires Valid(s)
    ensures Valid(ProfileUnfollow(s, requester, username).store)
  {
    var r := ProfileUnfollow(s, requester, username);
    forall f | f in r.store.follows ensures f in s.follows {
      assert f in multiset(r.store.follows);
    }
  }

  // ------------------------------------------------ texts are never empty

  /** No successful write stores an empty post or comment text. */
  lemma WritesKeepTextsNonEmpty(
    s: Store, requester: Option<UserId>, id: PostId,
    postForm: Option<PostFormData>, commentForm: Option<CommentFormData>, now: nat)
    requires Valid(s) && KnownRequester(s, requester) && TextsNonEmpty(s)
    ensures TextsNonEmpty(PostCreate(s, requester, postForm, now).store)
    ensures TextsNonEmpty(PostEdit(s, requester, id, postForm).store)
    ensures TextsNonEmpty(AddComment(s, requester, id, commentForm, now).store)
  {
  }

  // ------------------------------------------------------ follow / unfollow

  /** Following twice is following once: the second request writes nothing. */
  lemma FollowIsIdempotent(s: Store, requester: Option<UserId>, username: string)
    ensures var once := ProfileFollow(s, requester, username);
            var twice := ProfileFollow(once.store, requester, username);
            twice.store == once.store && twice.outcome != Created
  {
  }

  /** Following never creates an edge from a user to themselves. */
  lemma FollowAddsNoSelfEdge(s: Store, requester: Option<UserId>, username: string)
    ensures forall e :: (e in ProfileFollow(s, requester, username).store.follows && e.user == e.author
                         ==> e in s.follows)
  {
  }

  /** Following keeps "at most one edge per pair". */
  lemma FollowKeepsEdgesUnique(s: Store, requester: Option<UserId>, username: string)
    requires FollowsUnique(s)
    ensures FollowsUnique(ProfileFollow(s, requester, username).store)
  {
  }

  /** Unfollowing keeps "at most one edge per pair". */
  lemma UnfollowKeepsEdgesUnique(s: Store, requester: Option<UserId>, username: string)
    requires FollowsUnique(s)
    ensures FollowsUnique(ProfileUnfollow(s, requester, username).store)
  {
  }

  /** Unfollowing right after a follow that created the edge removes it again
      and leaves the database exactly as it was before the follow. */
  lemma UnfollowUndoesFollow(s: Store, requester: Option<UserId>, username: string)
    requires ProfileFollow(s, requester, username).outcome == Created
    ensures var after := ProfileUnfollow(ProfileFollow(s, requester, username).store, requester, username);
            after.outcome == Removed && multiset(after.store.follows) == multiset(s.follows)
            && after.store == s.(follows := after.store.follows)
  {
  }

  /** With one edge per pair, a second unfollow fails with the server error. */
  lemma SecondUnfollowFails(s: Store, requester: Option<UserId>, username: string)
    requires FollowsUnique(s)
    requires ProfileUnfollow(s, requester, username).outcome == Removed
    ensures ProfileUnfollow(ProfileUnfollow(s, requester, username).store, requester, username).outcome
      == Error(FollowDoesNotExist)
  {
  }

  /** A user who follows nobody gets an empty follow feed and an empty page. */
  lemma FollowingNobodyGivesEmptyFeed(s: Store, viewer: UserId, requested: Option<int>)
    requires forall f :: f in s.follows ==> f.user != viewer
    ensures FollowIndex(s, Some(viewer), requested).Shown?
    ensures FollowIndex(s, Some(viewer), requested).view.feed == []
    ensures FollowIndex(s, Some(viewer), requested).view.page.items == []
  {
    var authors := FollowedAuthors(s, viewer);
    FilterKeepsNothing(s.posts, (p: Post) => p.author in authors);
  }

  // ------------------------------------------------- writes seen by reads

  /** A created post is counted for its author and for nobody else. */
  lemma PostCreateCountsForAuthor(s: Store, requester: Option<UserId>, form: Option<PostFormData>, now: nat, u: UserId)
    requires KnownRequester(s, requester)
    requires PostCreate(s, requester, form, now).outcome == Created
    ensures AuthorCount(PostCreate(s, requester, form, now).store, u)
      == AuthorCount(s, u) + (if u == requester.value then 1 else 0)
  {
    var r := PostCreate(s, requester, form, now);
    var p := r.store.posts[|s.posts|];
    assert r.store.posts == s.posts + [p];
    FilterAppend(s.posts, p, ByAuthor(u));
  }

  /** A created post can be opened at its new key, and it heads no feed it is
      missing from: it is in the index feed. */
  lemma CreatedPostIsShown(s: Store, requester: Option<UserId>, form: Option<PostFormData>, now: nat)
    requires Valid(s) && KnownRequester(s, requester)
    requires PostCreate(s, requester, form, now).outcome == Created
    ensures var t := PostCreate(s, requester, form, now).store;
            && PostDetail(t, s.nextPostId).Shown?
            && PostDetail(t, s.nextPostId).view.post.author == requester.value
            && PostDetail(t, s.nextPostId).view.post.text == form.value.text
            && PostDetail(t, s.nextPostId).view.post.pubDate == now
            && PostDetail(t, s.nextPostId).view.post in Index(t, None).feed
  {
  }

  /** After a comment is stored, the post's page lists exactly the earlier
      comments on it plus the new one. */
  lemma AddedCommentIsShown(s: Store, requester: Option<UserId>, id: PostId, form: Option<CommentFormData>, now: nat)
    requires KnownRequester(s, requester)
    requires AddComment(s, requester, id, form, now).outcome == Created
    ensures var t := AddComment(s, requester, id, form, now).store;
            && PostDetail(t, id).Shown?
            && forall c :: c in PostDetail(t, id).view.comments <==>
                 (c in s.comments && c.post == id) || c == t.comments[|s.comments|]
  {
  }

  /** Editing never adds or drops a post, and never moves a creation time or
      an author. */
  lemma PostEditKeepsIdentity(s: Store, requester: Option<UserId>, id: PostId, form: Option<PostFormData>)
    requires Valid(s)
    ensures var t := PostEdit(s, requester, id, form).store;
            && |t.posts| == |s.posts|
            && forall j :: 0 <= j < |s.posts| ==>
                 t.posts[j].id == s.posts[j].id
                 && t.posts[j].author == s.posts[j].author
                 && t.posts[j].pubDate == s.posts[j].pubDate
  {
  }

  /** A refused edit, by a guest or by another user, changes nothing and sends
      the requester to the post's page. */
  lemma NonAuthorEditChangesNothing(s: Store, requester: Option<UserId>, id: PostId, form: Option<PostFormData>)
    requires Valid(s)
    requires PostById(s, id).Some?
    requires requester != Some(PostById(s, id).value.author)
    ensures PostEdit(s, requester, id, form) == Response(Denied, Some(DetailOf(id)), s)
  {
  }

  // ------------------------------------------------------------ counts

  /** The post count a profile shows is the number of distinct posts the
      author wrote. */
  lemma AuthorCountIsNumberOfPosts(s: Store, u: UserId)
    requires Valid(s)
    ensures AuthorCount(s, u) == |AuthoredPostIds(s, u)|
  {
    var mine := Filter(s.posts, ByAuthor(u));
    FilterKeepsUnique(s.posts, ByAuthor(u), PostKey);
    var ids := AuthoredPostIds(s, u);
    forall k ensures k in ids <==> exists x :: x in mine && PostKey(x) == k {
      if k in ids {
        var p :| p in s.posts && p.author == u && p.id == k;
        assert p in mine && PostKey(p) == k;
      }
    }
    UniqueKeysCardinality(mine, PostKey, ids);
    assert AuthorCount(s, u) == |mine|;
  }

  // ------------------------------------------------------------ deletes

  /** After a group is deleted its page is a 404, while every post survives. */
  lemma DeletedGroupPageIsGone(s: Store, g: Group, requested: Option<int>)
    requires Valid(s)
    requires g in s.groups
    ensures GroupPosts(DeleteGroup(s, g.id), g.slug, requested).NotFoundPage?
    ensures |DeleteGroup(s, g.id).posts| == |s.posts|
  {
  }

  /** After a user is deleted nothing of theirs is visible: no posts, no
      follower sees them, and their profile is a 404. */
  lemma DeletedUserLeavesNoTrace(s: Store, u: User, viewer: UserId, requested: Option<int>)
    requires Valid(s)
    requires u in s.users
    ensures AuthorCount(DeleteUser(s, u.id), u.id) == 0
    ensures forall p :: (p in FollowIndex(DeleteUser(s, u.id), Some(viewer), requested).view.feed
                         ==> p.author != u.id)
    ensures Profile(DeleteUser(s, u.id), Some(viewer), u.username, requested).NotFoundPage?
  {
    var t := DeleteUser(s, u.id);
    assert AuthorCount(t, u.id) == 0;
    var fi := FollowIndex(t, Some(viewer), requested);
    assert fi.Shown?;
    forall p | p in fi.view.feed ensures p.author != u.id {
      assert p in t.posts;
    }
    forall x | x in t.users ensures x.username != u.username {
      var i :| 0 <= i < |s.users| && s.users[i] == x;
      var j :| 0 <= j < |s.users| && s.users[j] == u;
      assert i != j;
      assert UsernameKey(s.users[i]) != UsernameKey(s.users[j]);
    }
  }
}
