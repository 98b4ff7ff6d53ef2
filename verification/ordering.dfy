/** `order_by('-pub_date')`: posts newest first. */
module Ordering {
  import opened Seqs
  import opened Models

  /** Newest first: no post precedes a post created after it. */
  predicate NewestFirst(ps: seq<Post>)
  {
    forall i, j :: 0 <= i < j < |ps| ==> ps[i].pubDate >= ps[j].pubDate
  }

  /** Puts `p` into a newest-first sequence, ahead of every post not newer than it. */
  function Insert(p: Post, ps: seq<Post>): (r: seq<Post>)
    requires NewestFirst(ps)
    ensures NewestFirst(r)
    ensures multiset(r) == multiset(ps) + multiset{p}
  {
    if |ps| == 0 then [p]
    else if p.pubDate >= ps[0].pubDate then [p] + ps
    else
      var rest := Insert(p, ps[1..]);
      NotNewerThanHead(ps[0], p, ps[1..], rest);
      assert ps == [ps[0]] + ps[1..];
      [ps[0]] + rest
  }

  /** If neither `p` nor any post of `tail` is newer than `head`, then no post
      of a rearrangement of them is. */
  lemma NotNewerThanHead(head: Post, p: Post, tail: seq<Post>, rest: seq<Post>)
    requires p.pubDate < head.pubDate
    requires forall k :: 0 <= k < |tail| ==> tail[k].pubDate <= head.pubDate
    requires multiset(rest) == multiset(tail) + multiset{p}
    ensures forall k :: 0 <= k < |rest| ==> rest[k].pubDate <= head.pubDate
  {
    forall k | 0 <= k < |rest| ensures rest[k].pubDate <= head.pubDate {
      assert rest[k] in multiset(rest);
      if rest[k] != p {
        assert rest[k] in multiset(tail);
        var m :| 0 <= m < |tail| && tail[m] == rest[k];
      }
    }
  }

  /** The posts of `ps` ordered by creation time, newest first. Posts created
      at the same instant come in an order the database does not fix; this
      model keeps the earlier-stored one first. */
  function SortNewestFirst(ps: seq<Post>): (r: seq<Post>)
    ensures NewestFirst(r)
    ensures multiset(r) == multiset(ps)
    ensures forall p :: p in r <==> p in ps
  {
    if |ps| == 0 then []
    else
      assert ps == [ps[0]] + ps[1..];
      var r := Insert(ps[0], SortNewestFirst(ps[1..]));
      SameMultisetSameMembers(r, ps);
      r
  }
}
