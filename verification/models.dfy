/** The blog's schema: users, groups, posts, comments and follow edges, the
    referential integrity the database keeps between them, the `__str__`
    labels, and what deleting a row does to the rows that point at it. */
module Models {
  import opened Wrappers
  import opened Seqs

  type UserId = nat
  type GroupId = nat
  type PostId = nat
  type CommentId = nat

  /** An account; accounts are created by the authentication collaborator. */
  datatype User = User(id: UserId, username: string)

  /** A category of posts, addressed by its unique slug. */
  datatype Group = Group(id: GroupId, title: string, slug: string, description: string)

  /** A post. `pubDate` is the creation time, set once when the row is stored;
      `image` is the stored path of the uploaded picture, if any. */
  datatype Post = Post(
    id: PostId,
    text: string,
    group: Option<GroupId>,
    author: UserId,
    image: Option<string>,
    pubDate: nat)

  /** A comment on one post. */
  datatype Comment = Comment(id: CommentId, text: string, author: UserId, post: PostId, pubDate: nat)

  /** A subscription of `user` (the follower) to the posts of `author`.
      The schema declares no uniqueness on the pair. */
  datatype Follow = Follow(user: UserId, author: UserId)

  /** The database. Rows are kept in storage order; the counters are the next
      primary keys the database hands out for posts and comments. */
  datatype Store = Store(
    users: seq<User>,
    groups: seq<Group>,
    posts: seq<Post>,
    comments: seq<Comment>,
    follows: seq<Follow>,
    nextPostId: PostId,
    nextCommentId: CommentId)

  // Keys of the unique columns.
  function UserKey(u: User): UserId { u.id }
  function UsernameKey(u: User): string { u.username }
  function GroupKey(g: Group): GroupId { g.id }
  function SlugKey(g: Group): string { g.slug }
  function PostKey(p: Post): PostId { p.id }
  function CommentKey(c: Comment): CommentId { c.id }

  function UserIds(users: seq<User>): set<UserId> { set u | u in users :: u.id }
  function GroupIds(groups: seq<Group>): set<GroupId> { set g | g in groups :: g.id }
  function PostIds(posts: seq<Post>): set<PostId> { set p | p in posts :: p.id }

  /** Foreign keys of a post: its author exists, its group (if any) exists,
      and its key was handed out by the database. */
  predicate PostRefsOk(users: seq<User>, groups: seq<Group>, next: PostId, p: Post)
  {
    && p.id < next
    && p.author in UserIds(users)
    && (p.group.Some? ==> p.group.value in GroupIds(groups))
  }

  /** Foreign keys of a comment: its author and its post exist. */
  predicate CommentRefsOk(users: seq<User>, posts: seq<Post>, next: CommentId, c: Comment)
  {
    && c.id < next
    && c.author in UserIds(users)
    && c.post in PostIds(posts)
  }

  /** Referential integrity and the unique columns of the schema
      (usernames, group slugs, primary keys). */
  predicate Valid(s: Store)
  {
    && UniqueBy(s.users, UserKey)
    && UniqueBy(s.users, UsernameKey)
    && UniqueBy(s.groups, GroupKey)
    && UniqueBy(s.groups, SlugKey)
    && UniqueBy(s.posts, PostKey)
    && UniqueBy(s.comments, CommentKey)
    && (forall p :: p in s.posts ==> PostRefsOk(s.users, s.groups, s.nextPostId, p))
    && (forall c :: c in s.comments ==> CommentRefsOk(s.users, s.posts, s.nextCommentId, c))
    && (forall f :: f in s.follows ==> f.user in UserIds(s.users) && f.author in UserIds(s.users))
  }

  /** The view layer's invariant: every stored post and comment has non-empty text.
      The database itself does not enforce it. */
  predicate TextsNonEmpty(s: Store)
  {
    && (forall p :: p in s.posts ==> p.text != "")
    && (forall c :: c in s.comments ==> c.text != "")
  }

  /** At most one edge per (follower, author) pair. */
  predicate FollowsUnique(s: Store)
  {
    forall e :: e in s.follows ==> multiset(s.follows)[e] == 1
  }

  // ---------------------------------------------------------------- lookups

  /** `User.objects.get(username=...)`, or None when there is no such user. */
  function UserByName(s: Store, name: string): (r: Option<User>)
    ensures r.Some? ==> r.value in s.users && r.value.username == name
    ensures r.None? <==> forall u :: u in s.users ==> u.username != name
  {
    match FindFirst(s.users, (u: User) => u.username == name)
    case None => None
    case Some(i) => Some(s.users[i])
  }

  /** The account with primary key `id`, or None. */
  function UserById(s: Store, id: UserId): (r: Option<User>)
    ensures r.Some? ==> r.value in s.users && r.value.id == id
    ensures r.None? <==> id !in UserIds(s.users)
  {
    match FindFirst(s.users, (u: User) => u.id == id)
    case None => None
    case Some(i) => Some(s.users[i])
  }

  /** `Group.objects.get(slug=...)`, or None when there is no such group. */
  function GroupBySlug(s: Store, slug: string): (r: Option<Group>)
    ensures r.Some? ==> r.value in s.groups && r.value.slug == slug
    ensures r.None? <==> forall g :: g in s.groups ==> g.slug != slug
  {
    match FindFirst(s.groups, (g: Group) => g.slug == slug)
    case None => None
    case Some(i) => Some(s.groups[i])
  }

  /** The storage position of the post with primary key `id`, or None. */
  function PostIndex(s: Store, id: PostId): (r: Option<nat>)
    ensures r.Some? ==> r.value < |s.posts| && s.posts[r.value].id == id
    ensures r.None? <==> id !in PostIds(s.posts)
  {
    FindFirst(s.posts, (p: Post) => p.id == id)
  }

  /** `Post.objects.get(pk=id)`, or None when there is no such post. */
  function PostById(s: Store, id: PostId): (r: Option<Post>)
    ensures r.Some? ==> r.value in s.posts && r.value.id == id
    ensures r.None? <==> id !in PostIds(s.posts)
  {
    match PostIndex(s, id)
    case None => None
    case Some(i) => Some(s.posts[i])
  }

  /** With unique usernames the lookup by username returns THE user of that name. */
  lemma UsernameLookupUnique(s: Store, u: User)
    requires Valid(s)
    requires u in s.users
    ensures UserByName(s, u.username) == Some(u)
  {
  }

  /** Slugs are unique, so the slug lookup returns THE group of that slug. */
  lemma SlugLookupUnique(s: Store, g: Group)
    requires Valid(s)
    requires g in s.groups
    ensures GroupBySlug(s, g.slug) == Some(g)
  {
  }

  /** Primary keys are unique, so the post lookup finds THE post of that key. */
  lemma PostLookupUnique(s: Store, i: nat)
    requires Valid(s)
    requires i < |s.posts|
    ensures PostIndex(s, s.posts[i].id) == Some(i)
  {
  }

  // ---------------------------------------------------------------- labels

  const PostLabelLength: nat := 15

  /** `Post.__str__`: the first 15 characters of the text. */
  function PostStr(p: Post): (r: string)
    ensures |r| == (if |p.text| <= PostLabelLength then |p.text| else PostLabelLength)
    ensures r <= p.text
  {
    Prefix(p.text, PostLabelLength)
  }

  /** `Group.__str__`: the title. */
  function GroupStr(g: Group): (r: string)
  {
    g.title
  }

  // ---------------------------------------------------------------- deletes

  /** `on_delete=SET_NULL` on `Post.group`: the post survives without a group. */
  function Detach(p: Post, g: GroupId): Post
  {
    if p.group == Some(g) then p.(group := None) else p
  }

  /** Deleting group `g`: the group row goes, and every post that referenced it
      stays, with its group cleared. */
  function DeleteGroup(s: Store, g: GroupId): (r: Store)
    ensures forall x :: x in r.groups <==> x in s.groups && x.id != g
    ensures |r.posts| == |s.posts|
    ensures forall i :: 0 <= i < |s.posts| ==> r.posts[i].(group := s.posts[i].group) == s.posts[i]
    ensures forall i :: 0 <= i < |s.posts| && s.posts[i].group == Some(g) ==> r.posts[i].group == None
    ensures forall i :: 0 <= i < |s.posts| && s.posts[i].group != Some(g) ==> r.posts[i] == s.posts[i]
    ensures r.users == s.users && r.comments == s.comments && r.follows == s.follows
    ensures r.nextPostId == s.nextPostId && r.nextCommentId == s.nextCommentId
  {
    s.(groups := Filter(s.groups, (x: Group) => x.id != g),
       posts := seq(|s.posts|, i requires 0 <= i < |s.posts| => Detach(s.posts[i], g)))
  }

  /** Primary keys of the posts `u` wrote. */
  function AuthoredPostIds(s: Store, u: UserId): set<PostId>
  {
    set p | p in s.posts && p.author == u :: p.id
  }

  /** Deleting user `u` cascades: their posts, their comments, the comments on
      their posts, and every follow edge they are either end of all go. */
  function DeleteUser(s: Store, u: UserId): (r: Store)
    ensures forall x :: x in r.users <==> x in s.users && x.id != u
    ensures forall p :: p in r.posts <==> p in s.posts && p.author != u
    ensures forall c :: c in r.comments <==>
      c in s.comments && c.author != u && c.post !in AuthoredPostIds(s, u)
    ensures forall f :: f in r.follows <==> f in s.follows && f.user != u && f.author != u
    ensures forall f :: multiset(r.follows)[f] ==
                        (if f.user != u && f.author != u then multiset(s.follows)[f] else 0)
    ensures r.groups == s.groups
    ensures r.nextPostId == s.nextPostId && r.nextCommentId == s.nextCommentId
  {
    var gone := AuthoredPostIds(s, u);
    var keepEdge := (f: Follow) => f.user != u && f.author != u;
    FilterCount(s.follows, keepEdge);
    s.(users := Filter(s.users, (x: User) => x.id != u),
       posts := Filter(s.posts, (p: Post) => p.author != u),
       comments := Filter(s.comments, (c: Comment) => c.author != u && c.post !in gone),
       follows := Filter(s.follows, keepEdge))
  }

  /** Deleting post `id` cascades to exactly the comments on it. */
  function DeletePost(s: Store, id: PostId): (r: Store)
    ensures forall p :: p in r.posts <==> p in s.posts && p.id != id
    ensures forall c :: c in r.comments <==> c in s.comments && c.post != id
    ensures r.users == s.users && r.groups == s.groups && r.follows == s.follows
    ensures r.nextPostId == s.nextPostId && r.nextCommentId == s.nextCommentId
  {
    s.(posts := Filter(s.posts, (p: Post) => p.id != id),
       comments := Filter(s.comments, (c: Comment) => c.post != id))
  }

  /** Deleting a group keeps the database consistent. */
  lemma DeleteGroupKeepsValid(s: Store, g: GroupId)
    requires Valid(s)
    ensures Valid(DeleteGroup(s, g))
  {
    var r := DeleteGroup(s, g);
    FilterKeepsUnique(s.groups, (x: Group) => x.id != g, GroupKey);
    FilterKeepsUnique(s.groups, (x: Group) => x.id != g, SlugKey);
    assert PostIds(r.posts) == PostIds(s.posts) by {
      forall i | 0 <= i < |s.posts| ensures r.posts[i].id == s.posts[i].id {
        assert r.posts[i].(group := s.posts[i].group) == s.posts[i];
      }
    }
    forall p | p in r.posts ensures PostRefsOk(r.users, r.groups, r.nextPostId, p) {
      var i :| 0 <= i < |r.posts| && r.posts[i] == p;
      assert r.posts[i].(group := s.posts[i].group) == s.posts[i];
      assert s.posts[i] in s.posts;
      if p.group.Some? {
        var x :| x in s.groups && x.id == p.group.value;
        assert x in r.groups;
      }
    }
  }

  /** Deleting a user keeps the database consistent. */
  lemma DeleteUserKeepsValid(s: Store, u: UserId)
    requires Valid(s)
    ensures Valid(DeleteUser(s, u))
  {
    var r := DeleteUser(s, u);
    var gone := AuthoredPostIds(s, u);
    FilterKeepsUnique(s.users, (x: User) => x.id != u, UserKey);
    FilterKeepsUnique(s.users, (x: User) => x.id != u, UsernameKey);
    FilterKeepsUnique(s.posts, (p: Post) => p.author != u, PostKey);
    FilterKeepsUnique(s.comments, (c: Comment) => c.author != u && c.post !in gone, CommentKey);
    forall p | p in r.posts ensures PostRefsOk(r.users, r.groups, r.nextPostId, p) {
      var x :| x in s.users && x.id == p.author;
      assert x in r.users;
    }
    forall c | c in r.comments ensures CommentRefsOk(r.users, r.posts, r.nextCommentId, c) {
      var x :| x in s.users && x.id == c.author;
      assert x in r.users;
      var p :| p in s.posts && p.id == c.post;
      assert p in r.posts;
    }
    forall f | f in r.follows ensures f.user in UserIds(r.users) && f.author in UserIds(r.users) {
      var x :| x in s.users && x.id == f.user;
      assert x in r.users;
      var y :| y in s.users && y.id == f.author;
      assert y in r.users;
    }
  }

  /** Deleting a post keeps the database consistent. */
  lemma DeletePostKeepsValid(s: Store, id: PostId)
    requires Valid(s)
    ensures Valid(DeletePost(s, id))
  {
    var r := DeletePost(s, id);
    FilterKeepsUnique(s.posts, (p: Post) => p.id != id, PostKey);
    FilterKeepsUnique(s.comments, (c: Comment) => c.post != id, CommentKey);
    forall c | c in r.comments ensures CommentRefsOk(r.users, r.posts, r.nextCommentId, c) {
      var p :| p in s.posts && p.id == c.post;
      assert p in r.posts;
    }
  }
}
