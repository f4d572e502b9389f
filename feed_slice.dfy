/**
 * The feed slice of the store: the loaded posts, the fetch flags, whether
 * more pages may exist, and the stored feed filter.
 */
module FeedSlice {
  import opened Wrappers
  import opened Data
  import Seqs

  /** The stored filter; every field is optional. */
  datatype FeedFilter = FeedFilter(kind: Option<string>, guild: Option<string>, tag: Option<string>)

  datatype FeedState = FeedState(
    posts: seq<Post>,
    loading: bool,
    error: Option<string>,
    hasMore: bool,
    filter: FeedFilter)

  const InitialState := FeedState([], false, None, true, FeedFilter(None, None, None))

  /**
   * `updatePost` on the post list: the first post with the payload's id is
   * replaced in place and every other post keeps its index; the ids at every
   * index are unchanged, so ids that were distinct stay distinct.
   */
  lemma UpdatePostFacts(posts: seq<Post>, p: Post)
    ensures var r := Seqs.ReplaceFirst(posts, PostId, p);
      && |r| == |posts|
      && (forall j :: 0 <= j < |posts| ==> r[j].id == posts[j].id)
      && (Seqs.UniqueKeys(posts, PostId) ==> Seqs.UniqueKeys(r, PostId))
      && ((exists j :: 0 <= j < |posts| && posts[j].id == p.id) ==> p in r)
  {
    var r := Seqs.ReplaceFirst(posts, PostId, p);
    var i := Seqs.IndexOf(posts, PostId, p.id);
    if i != -1 {
      assert r[i] == p;
    }
    assert forall j :: 0 <= j < |posts| ==> PostId(r[j]) == PostId(posts[j]);
  }

  /**
   * `deletePost` keeps exactly the posts with other ids, in their order;
   * deleting a post after updating it, or right after adding it, leaves what
   * deleting alone would.
   */
  lemma DeletePostFacts(posts: seq<Post>, p: Post)
    ensures forall x :: x in Seqs.RemoveKey(posts, PostId, p.id) <==> x in posts && x.id != p.id
    ensures Seqs.IsSubsequence(Seqs.RemoveKey(posts, PostId, p.id), posts)
    ensures Seqs.RemoveKey(Seqs.ReplaceFirst(posts, PostId, p), PostId, p.id) == Seqs.RemoveKey(posts, PostId, p.id)
    ensures Seqs.RemoveKey([p] + posts, PostId, p.id) == Seqs.RemoveKey(posts, PostId, p.id)
  {
    Seqs.RemoveKeyFacts(posts, PostId, p.id);
    Seqs.RemoveAfterReplace(posts, PostId, p);
    Seqs.RemoveAfterPrepend(posts, PostId, p);
  }

  class FeedStore {
    var posts: seq<Post>
    var loading: bool
    var error: Option<string>
    var hasMore: bool
    var filter: FeedFilter

    function State(): FeedState
      reads this
    {
      FeedState(posts, loading, error, hasMore, filter)
    }

    constructor ()
      ensures State() == InitialState
    {
      posts := [];
      loading, error, hasMore := false, None, true;
      filter := FeedFilter(None, None, None);
    }

    method FetchPostsStart()
      modifies this
      ensures State() == old(State()).(loading := true, error := None)
    {
      loading := true;
      error := None;
    }

    /** The page is appended after the posts already loaded; an empty page means there is no more. */
    method FetchPostsSuccess(payload: seq<Post>)
      modifies this
      ensures State() == old(State()).(posts := old(posts) + payload, loading := false, hasMore := |payload| > 0)
      ensures posts[..|old(posts)|] == old(posts) && posts[|old(posts)|..] == payload
    {
      posts := posts + payload;
      loading := false;
      hasMore := |payload| > 0;
    }

    method FetchPostsFailure(message: string)
      modifies this
      ensures State() == old(State()).(loading := false, error := Some(message))
    {
      loading := false;
      error := Some(message);
    }

    /** `unshift`: the new post comes first and the older ones follow in order. */
    method AddPost(p: Post)
      modifies this
      ensures State() == old(State()).(posts := [p] + old(posts))
      ensures |posts| == |old(posts)| + 1 && posts[0] == p && posts[1..] == old(posts)
    {
      posts := [p] + posts;
    }

    method UpdatePost(p: Post)
      modifies this
      ensures State() == old(State()).(posts := Seqs.ReplaceFirst(old(posts), PostId, p))
    {
      var i := Seqs.FindIndex(posts, PostId, p.id);
      if i != -1 {
        posts := posts[i := p];
      }
    }

    method DeletePost(postId: string)
      modifies this
      ensures State() == old(State()).(posts := Seqs.RemoveKey(old(posts), PostId, postId))
    {
      posts := Seqs.RemoveKey(posts, PostId, postId);
    }

    /** A new filter starts the feed over: no posts, more may come. */
    method SetFilter(payload: FeedFilter)
      modifies this
      ensures State() == old(State()).(filter := payload, posts := [], hasMore := true)
    {
      filter := payload;
      posts := [];
      hasMore := true;
    }

    /** Like `setFilter` without touching the filter. */
    method ClearFeed()
      modifies this
      ensures State() == old(State()).(posts := [], hasMore := true)
    {
      posts := [];
      hasMore := true;
    }
  }
}
