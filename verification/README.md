# Yatube posts: a Dafny model

Yatube is a small blogging site. Users write posts. A post may sit in a
group and may carry an image. Other users comment on posts and follow
authors to get a personal feed. This project models the posts
application's core as pure functions over an immutable database value:

- the schema and its delete rules (`yatube/posts/models.py`);
- the two forms and their validation (`yatube/posts/forms.py`);
- the view functions (`yatube/posts/views.py`), with pagination.

Modules:

- `Models` (`models.dfy`): the rows `User`, `Group`, `Post`, `Comment` and `Follow`, and the `Store` holding them.
  It also has the integrity invariant `Valid`, the lookups, `Post.__str__` and `Group.__str__` (`GroupStr`, the title), and what deleting a group, user or post does.
- `Forms` (`forms.dfy`): the fields each form may set, `clean_text`, and the rows a valid form produces.
- `Paging` (`paging.dfy`): `page_view` with `MAX_POSTS = 10`.
- `Ordering` (`ordering.dfy`): `order_by('-pub_date')`, a sort proved to be a newest-first permutation.
- `Views` (`views.dfy`): the views.
  Read-only views return the context they render, a 404, or the login redirect.
  Writing views return a tagged `Outcome`, the redirect target and the database afterwards.
  The outcomes are `Created`, `Updated`, `Removed`, `Unchanged`, `Denied`, `Invalid`, `FormShown`, `LoginRequired`, `NotFound` and `Error`.
- `ViewProperties` (`view_properties.dfy`): lemmas relating several calls.
- `Scenarios` (`scenarios.dfy`): concrete request sequences.
- `Seqs` and `Wrappers`: generic helpers (filter, prefix, search, key uniqueness, `Option`, `Result`).

The requester is an `Option<UserId>`, with None for a guest.
The creation time `pub_date` is a parameter `now` of the operations that create rows.
Image files are opaque path strings.

The model follows the code in these places, which a reader might not expect:

- `profile_unfollow` with no edge is a server error (`DoesNotExist`), not a 404.
  Two or more edges for the pair are also a server error (`MultipleObjectsReturned`).
- `profile` and `follow_index` apply no ordering.
  The model returns those feeds in storage order and states only which posts they contain.
- `post_create` is not `login_required`.
  A guest submitting a valid form reaches the assignment of the author, which cannot hold a guest.
  That is a server error (`AnonymousAuthor`).
  A guest's invalid form is shown again with its errors.
- A page number below 1 shows the last page, not the first.
  The paginator treats every out-of-range number alike.

## Model

| member | source | states |
|---|---|---|
| Models.UserByName | yatube/posts/views.py:46 | finds a user with the requested username, or reports that none exists (the 404 case) |
| Models.UsernameLookupUnique | yatube/posts/views.py:46 | with unique usernames the lookup returns the one user of that name |
| Models.GroupBySlug | yatube/posts/views.py:34 | finds a group with the slug, or reports that none exists |
| Models.SlugLookupUnique | yatube/posts/models.py:10 | slugs are unique, so the slug lookup returns the one group with that slug |
| Models.PostById | yatube/posts/views.py:66 | finds the post with the primary key, or reports that none exists |
| Models.PostLookupUnique | yatube/posts/views.py:102 | primary keys are unique, so the lookup finds the stored position of that post |
| Models.PostStr | yatube/posts/models.py:44-45 | the label is a prefix of the text of length min(15, text length) |
| Models.DeleteGroup | yatube/posts/models.py:22-30 | the group row goes; every post survives with all fields kept, and exactly the posts of that group lose their group (SET_NULL) |
| Models.DeleteGroupKeepsValid | yatube/posts/models.py:22-30 | SET_NULL keeps every foreign key valid after a group deletion |
| Models.DeleteUser | yatube/posts/models.py:31-36 | deleting a user removes their posts, their comments and the comments on their posts, and every follow edge with them at either end, while every other edge keeps its multiplicity (the cascades of models.py:52-63 and 67-78) |
| Models.DeleteUserKeepsValid | yatube/posts/models.py:31-36 | the user cascade leaves no dangling post, comment or follow reference |
| Models.DeletePost | yatube/posts/models.py:58-63 | deleting a post removes exactly the comments on it; other posts and comments stay |
| Models.DeletePostKeepsValid | yatube/posts/models.py:58-63 | the post cascade leaves no comment pointing at a missing post |
| Forms.CleanPostText | yatube/posts/forms.py:8-12 | the text is refused iff it is empty, and otherwise returned unchanged |
| Forms.CleanCommentText | yatube/posts/forms.py:25-29 | the comment text is refused iff it is empty, and otherwise returned unchanged |
| Forms.PostFormErrors | yatube/posts/forms.py:8-16 | a post form reports an empty text iff the text is empty, and an unknown group iff the chosen group is not stored |
| Forms.CommentFormErrors | yatube/posts/forms.py:25-33 | a comment form is error-free iff its text is non-empty |
| Forms.ApplyPostForm | yatube/posts/forms.py:16 | saving the form on a post writes text and group, replaces the image only on upload, and keeps id, author and pub_date |
| Forms.NewPost | yatube/posts/views.py:88-90 | a new post takes text, group and image from the form; id, author and creation time come from the view |
| Forms.NewComment | yatube/posts/views.py:127-130 | a new comment takes only its text from the form; author and post come from the view |
| Paging.NumPages | yatube/posts/views.py:11-15 | the page count is the least n >= 1 with count <= 10n |
| Paging.ResolvePage | yatube/posts/views.py:13-14 | a missing page parameter shows page 1, a valid number shows that page, any other number shows the last page |
| Paging.PageItems | yatube/posts/views.py:12 | page n holds positions 10(n-1) up to 10n of the feed, at most 10 items |
| Paging.PageView | yatube/posts/views.py:11-15 | the shown page is a valid page of the feed and holds at most 10 feed items; it is page 1 when none is asked for, the requested page when that number is valid, and the last page for any other number |
| Paging.PageSizes | yatube/posts/views.py:8 | every page but the last has exactly 10 items; the last holds the rest, at least one item for a non-empty feed |
| Paging.PagesUpToIsPrefix | yatube/posts/views.py:11-15 | pages 1..k read in order give the first 10k items of the feed |
| Paging.PagesPartitionFeed | yatube/posts/views.py:11-15 | all pages read in order give back the feed exactly |
| Paging.ThirteenItemsTwoPages | yatube/posts/tests/test_views.py:289-314 | 13 posts give 10 on page 1 and 3 on page 2; page 3 shows page 2 |
| Ordering.Insert | yatube/posts/views.py:19-20 | inserting into a newest-first sequence keeps it newest first and adds exactly that post |
| Ordering.SortNewestFirst | yatube/posts/views.py:19-20 | the result is newest first and a permutation of the input |
| Views.AuthorCount | yatube/posts/views.py:47 | the count is zero iff the user wrote no stored post |
| Views.Index | yatube/posts/views.py:18-25 | the index feed is every stored post exactly once, newest first, and the page is cut from it |
| Views.GroupPosts | yatube/posts/views.py:33-42 | 404 iff no group has the slug; otherwise the feed is newest first and holds exactly the posts of that group, each as many times as it is stored |
| Views.Following | yatube/posts/views.py:50-54 | None for a guest, otherwise whether the edge viewer->author exists |
| Views.Profile | yatube/posts/views.py:45-62 | 404 iff the username is unknown; the feed holds exactly the author's posts; author_count is their number; following is None for a guest and otherwise reports the edge; each post appears as many times as it is stored |
| Views.PostDetail | yatube/posts/views.py:65-78 | 404 iff the post is unknown; the title is the first 30 characters of the text; the comments are exactly those on the post, each as many times as it is stored; author_count counts the author's posts |
| Views.FollowIndex | yatube/posts/views.py:134-145 | a guest is sent to log in; a user sees exactly the posts whose author they follow, each as many times as it is stored |
| Views.UsernameOf | yatube/posts/views.py:91 | the redirect after creation names the requester's own username |
| Views.PostCreate | yatube/posts/views.py:81-98 | no form: form shown; errors: form shown again and nothing stored; a guest's valid form: server error; a user's valid form: exactly one new post by the requester with the form's fields and a fresh key, nothing else changes, redirect to their profile |
| Views.PostEdit | yatube/posts/views.py:101-119 | unknown post: 404, and an existing post never gives 404; not the author (guests included): Denied, redirect to the post, nothing changes; the author with no form sees the form; the author's rejected form is shown again with exactly the form's errors, nothing changing; the author's valid form rewrites only that post's text, group and image, keeping its key, author and pub_date |
| Views.AddComment | yatube/posts/views.py:122-131 | guest: login; unknown post: 404; otherwise redirect to the post; no form: Unchanged; exactly one comment by the requester on that post iff the text is non-empty; otherwise nothing changes |
| Views.ProfileFollow | yatube/posts/views.py:148-155 | an edge requester->author is appended iff they differ and no such edge exists; otherwise the outcome is Unchanged and nothing changes; redirect to the profile |
| Views.ProfileUnfollow | yatube/posts/views.py:158-163 | guest: login; unknown username: 404 with no redirect; exactly one edge: it is removed, redirect to the profile; no edge or several: server error, no redirect, nothing changes |
| ViewProperties.PostCreateKeepsValid | yatube/posts/views.py:87-90 | creating a post keeps every key unique and every foreign key valid |
| ViewProperties.PostEditKeepsValid | yatube/posts/views.py:111-112 | editing keeps every key unique and every foreign key valid |
| ViewProperties.AddCommentKeepsValid | yatube/posts/views.py:126-130 | commenting keeps every key unique and every foreign key valid |
| ViewProperties.ProfileFollowKeepsValid | yatube/posts/views.py:152-154 | following only links existing users |
| ViewProperties.ProfileUnfollowKeepsValid | yatube/posts/views.py:162 | unfollowing keeps every follow edge between existing users |
| ViewProperties.WritesKeepTextsNonEmpty | yatube/posts/forms.py:8-12 | no successful create, edit or comment stores an empty text |
| ViewProperties.FollowIsIdempotent | yatube/posts/views.py:152-154 | a second identical follow request changes nothing |
| ViewProperties.FollowAddsNoSelfEdge | yatube/posts/views.py:152 | following never creates a self-follow |
| ViewProperties.FollowKeepsEdgesUnique | yatube/posts/views.py:152-154 | following keeps at most one edge per (follower, author) pair |
| ViewProperties.UnfollowKeepsEdgesUnique | yatube/posts/views.py:162 | unfollowing keeps at most one edge per (follower, author) pair |
| ViewProperties.UnfollowUndoesFollow | yatube/posts/tests/test_views.py:235-248 | unfollow right after a follow that added the edge succeeds and restores the follow edges |
| ViewProperties.SecondUnfollowFails | yatube/posts/views.py:162 | with one edge per pair, unfollowing twice makes the second request a server error |
| ViewProperties.FollowingNobodyGivesEmptyFeed | yatube/posts/tests/test_views.py:250-262 | a user following nobody gets an empty follow feed and an empty page |
| ViewProperties.PostCreateCountsForAuthor | yatube/posts/views.py:47 | a created post adds one to its author's count and nothing to anyone else's |
| ViewProperties.CreatedPostIsShown | yatube/posts/tests/test_forms.py:59-83 | a created post opens at its new key with the requester as author, and it is in the index feed |
| ViewProperties.AddedCommentIsShown | yatube/posts/tests/test_forms.py:154-178 | after a comment is stored, the post page lists exactly the earlier comments on it plus the new one |
| ViewProperties.PostEditKeepsIdentity | yatube/posts/tests/test_forms.py:85-107 | editing keeps the number of posts and every post's key, author and pub_date |
| ViewProperties.NonAuthorEditChangesNothing | yatube/posts/views.py:103-104 | an edit by anyone but the author is Denied with a redirect to the post and an unchanged database |
| ViewProperties.AuthorCountIsNumberOfPosts | yatube/posts/views.py:47 | author_count equals the number of distinct posts the author wrote |
| ViewProperties.DeletedGroupPageIsGone | yatube/posts/models.py:22-30 | after a group is deleted its page is a 404 and no post is lost |
| ViewProperties.DeletedUserLeavesNoTrace | yatube/posts/models.py:31-36 | after a user is deleted their count is zero, no follow feed shows their posts, and their profile is a 404 |
| Scenarios.CreateThenProfileShowsPost | yatube/posts/tests/test_views.py:122-137 | after "auth" posts "hello" in group test-slug, their profile shows exactly that post in that group |
| Scenarios.DuplicateEdgesBreakUnfollow | yatube/posts/models.py:66-78 | the follow table admits two identical edges in a consistent store, and unfollowing there is a server error that changes nothing |
| Scenarios.EmptyTextIsRefused | yatube/posts/forms.py:8-11 | an empty post text is refused with the text error and nothing is stored |

## Left out

- Template rendering, HTTP responses and URL routing (`yatube/yatube/urls.py`) are left out: outcomes are tagged values and redirect targets.
- The error-page handlers (`yatube/core/views.py`) only render a template with a status code, so they are left out.
- `group_list` (`yatube/posts/views.py:28-30`) renders a template with no data, so there is nothing to model.
- The GET branch of `post_create` passes a page title and an edit flag to the template. The model has only the `FormShown` outcome.
- Session authentication is an external collaborator. The requester is a parameter.
- Users and groups are created by the authentication and admin collaborators. The model has no operation that creates them.
- Image upload and storage: an image is an opaque path. The form's "clear image" checkbox is not modelled.
- The framework's field-level form cleaning is not modelled. This covers whitespace stripping, the built-in required check and length limits. The model keeps `clean_text`'s empty-string check and the group-choice check.
- The paginator is library code. `ResolvePage` states how page numbers resolve as an assumption about it. Orphans and other paginator options are not modelled.
- The response cache in front of the index page is an external collaborator, so it is left out.
- `select_related`, transactions and the concurrent duplicate-follow race are left out. The model is sequential.
- The clock is a parameter. Nothing is assumed about times being increasing.
- Ordering.SortNewestFirst: the database fixes no order among posts with equal `pub_date`. The model keeps the earlier-stored one first, and no contract depends on that choice.
- Views.Profile: the source applies no ordering to the profile feed, so the contract states which posts it contains and not their order.
- Views.FollowIndex: the source applies no ordering to the follow feed, so the contract states which posts it contains and not their order.
- Models.GroupStr: `Group.__str__` returns the title unchanged, so the function carries no contract; any contract would only repeat that field access.
- Views.PostDetail: comments come in storage order. The source fixes none, so the contract states which comments appear and how many times, not their order.
