/** Concrete request sequences of the kind the application's own tests walk
    through, stated over the model. */
module Scenarios {
  import opened Wrappers
  import opened Models
  import opened Forms
  import opened Paging
  import opened Views

  /** One user "auth" and one group "test-slug", no posts yet. */
  function Fresh(): Store
  {
    Store([User(1, "auth")], [Group(1, "Test group", "test-slug", "Test description")], [], [], [], 1, 1)
  }

  /** "auth" writes "hello" in the group; the answer is their profile, and a
      guest opening that profile sees exactly that post, in that group. */
  lemma CreateThenProfileShowsPost()
    ensures var r := PostCreate(Fresh(), Some(1), Some(PostFormData("hello", Some(1), None)), 7);
            && r.outcome == Created
            && r.redirect == Some(ProfileOf("auth"))
            && Profile(r.store, None, "auth", None).Shown?
            && Profile(r.store, None, "auth", None).view.feed == [Post(1, "hello", Some(1), 1, None, 7)]
            && Profile(r.store, None, "auth", None).view.authorCount == 1
            && Profile(r.store, None, "auth", None).view.following.None?
  {
  }

  /** An empty text is refused and nothing is stored. */
  lemma EmptyTextIsRefused()
    ensures var r := PostCreate(Fresh(), Some(1), Some(PostFormData("", None, None)), 7);
            r.outcome == Invalid({EmptyPostText}) && r.store == Fresh()
  {
  }

  /** The schema does not forbid two identical follow edges: such a store is
      consistent, and unfollowing in it is a server error. */
  lemma DuplicateEdgesBreakUnfollow()
    ensures var s := Store([User(1, "auth"), User(2, "user2")], [], [], [],
                           [Follow(1, 2), Follow(1, 2)], 1, 1);
            && Valid(s) && !FollowsUnique(s)
            && ProfileUnfollow(s, Some(1), "user2").outcome == Error(MultipleFollowsReturned)
            && ProfileUnfollow(s, Some(1), "user2").store == s
  {
  }
}
