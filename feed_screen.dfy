/** src/screens/FeedScreen.js: the campus feed — pages of posts with like and
    save buttons that update the list optimistically. */
module FeedScreen {
  import opened Base
  import opened JsText

  const PageSize: nat := 10

  /** A post as feed/campus.php sends it; a flag or count that is missing is None. */
  datatype RawPost = RawPost(id: int, caption: string, isLikedRaw: Option<int>, isSavedRaw: Option<int>,
                             likesRaw: Option<int>, commentsRaw: Option<int>)

  /** A post as the screen holds it: the raw row plus the derived fields. */
  datatype FeedPost = FeedPost(raw: RawPost, isLiked: bool, isSaved: bool, likesCount: int, commentsCount: int)

  /** The `map` of `fetchPosts`: `is_liked == 1`, `is_saved == 1`, and
      `parseInt(count || 0)`. */
  function Normalize(p: RawPost): (q: FeedPost)
    ensures q.raw == p
    ensures q.isLiked <==> IsOne(p.isLikedRaw)
    ensures q.isSaved <==> IsOne(p.isSavedRaw)
    ensures q.likesCount == p.likesRaw.GetOr(0) && q.commentsCount == p.commentsRaw.GetOr(0)
  {
    FeedPost(p, IsOne(p.isLikedRaw), IsOne(p.isSavedRaw), p.likesRaw.GetOr(0), p.commentsRaw.GetOr(0))
  }

  function NormalizePage(page: seq<RawPost>): (r: seq<FeedPost>)
    ensures |r| == |page|
    ensures forall i :: 0 <= i < |page| ==> r[i] == Normalize(page[i])
  {
    seq(|page|, i requires 0 <= i < |page| => Normalize(page[i]))
  }

  /** The list after a page arrives: replaced on a reset, extended otherwise. */
  function Merged(posts: seq<FeedPost>, page: seq<RawPost>, shouldReset: bool): (r: seq<FeedPost>)
    ensures shouldReset ==> r == NormalizePage(page)
    ensures !shouldReset ==> |r| == |posts| + |page| && r[..|posts|] == posts && r[|posts|..] == NormalizePage(page)
  {
    if shouldReset then NormalizePage(page) else posts + NormalizePage(page)
  }

  /** `handleLike` on post `i`: the flag flips, and the count goes up if the post
      is now liked and down otherwise; nothing else in the list changes. */
  function LikeToggled(posts: seq<FeedPost>, i: nat): (r: seq<FeedPost>)
    requires i < |posts|
    ensures |r| == |posts|
    ensures forall j :: 0 <= j < |posts| && j != i ==> r[j] == posts[j]
    ensures r[i].isLiked == !posts[i].isLiked
    ensures r[i].likesCount == posts[i].likesCount + (if r[i].isLiked then 1 else -1)
    ensures r[i].raw == posts[i].raw && r[i].isSaved == posts[i].isSaved && r[i].commentsCount == posts[i].commentsCount
  {
    var p := posts[i];
    var isLiked := !p.isLiked;
    posts[i := p.(isLiked := isLiked, likesCount := if isLiked then p.likesCount + 1 else p.likesCount - 1)]
  }

  /** `handleSave` on post `i`: only that post's saved flag flips. */
  function SaveToggled(posts: seq<FeedPost>, i: nat): (r: seq<FeedPost>)
    requires i < |posts|
    ensures |r| == |posts|
    ensures forall j :: 0 <= j < |posts| && j != i ==> r[j] == posts[j]
    ensures r[i] == posts[i].(isSaved := !posts[i].isSaved)
  {
    posts[i := posts[i].(isSaved := !posts[i].isSaved)]
  }

  /** Liking twice gives back the very same list: flag and count both. */
  lemma LikeTwiceRestores(posts: seq<FeedPost>, i: nat)
    requires i < |posts|
    ensures LikeToggled(LikeToggled(posts, i), i) == posts
  {
    var twice := LikeToggled(LikeToggled(posts, i), i);
    assert twice[i] == posts[i];
  }

  lemma SaveTwiceRestores(posts: seq<FeedPost>, i: nat)
    requires i < |posts|
    ensures SaveToggled(SaveToggled(posts, i), i) == posts
  {
    var twice := SaveToggled(SaveToggled(posts, i), i);
    assert twice[i] == posts[i];
  }

  /** The screen's state. */
  class FeedView {
    var posts: seq<FeedPost>
    var page: int
    var hasMore: bool
    var isLoadingMore: bool
    var loading: bool

    constructor ()
      ensures posts == [] && page == 1 && hasMore && !isLoadingMore && loading
    {
      posts := [];
      page := 1;
      hasMore := true;
      isLoadingMore := false;
      loading := true;
    }

    /** `fetchPosts(pageNum, shouldReset)`; `response` is what campus.php gives
        for that page. A page shorter than PageSize, or an error reply, ends the
        pagination; a thrown fetch changes nothing. */
    method FetchPosts(shouldReset: bool, response: Response<seq<RawPost>>)
      modifies this`posts, this`hasMore
      ensures response.Answer? && response.reply.Success? ==>
        && posts == Merged(old(posts), response.reply.data, shouldReset)
        && hasMore == (old(hasMore) && |response.reply.data| >= PageSize)
      ensures response.Answer? && response.reply.Error? ==> posts == old(posts) && !hasMore
      ensures response.NetworkError? ==> posts == old(posts) && hasMore == old(hasMore)
    {
      if response.Answer? {
        if response.reply.Success? {
          var newPosts := NormalizePage(response.reply.data);
          if |newPosts| < PageSize {
            hasMore := false;
          }
          if shouldReset {
            posts := newPosts;
          } else {
            posts := posts + newPosts;
          }
        } else {
          hasMore := false;
        }
      }
    }

    /** `handleRefresh`, also the core of `loadInitialData`: back to page 1 and a
        fresh list (the `isRefreshing` spinner and the stories fetch are not modelled). */
    method Refresh(response: Response<seq<RawPost>>)
      modifies this
      ensures page == 1 && loading == old(loading) && isLoadingMore == old(isLoadingMore)
      ensures response.Answer? && response.reply.Success? ==>
        && posts == NormalizePage(response.reply.data)
        && hasMore == (|response.reply.data| >= PageSize)
      ensures response.Answer? && response.reply.Error? ==> posts == old(posts) && !hasMore
      ensures response.NetworkError? ==> posts == old(posts) && hasMore
    {
      page := 1;
      hasMore := true;
      FetchPosts(true, response);
    }

    /** `loadInitialData`: the spinner is up while the first page loads. */
    method LoadInitialData(response: Response<seq<RawPost>>)
      modifies this
      ensures page == 1 && !loading && isLoadingMore == old(isLoadingMore)
      ensures response.Answer? && response.reply.Success? ==>
        && posts == NormalizePage(response.reply.data)
        && hasMore == (|response.reply.data| >= PageSize)
      ensures response.Answer? && response.reply.Error? ==> posts == old(posts) && !hasMore
      ensures response.NetworkError? ==> posts == old(posts) && hasMore
    {
      loading := true;
      Refresh(response);
      loading := false;
    }

    /** `handleLoadMore`: ignored while loading or at the end; otherwise it asks
        for the next page (returned as `requested`) and moves `page` on whatever
        the answer. */
    method HandleLoadMore(response: Response<seq<RawPost>>) returns (requested: Option<int>)
      modifies this
      ensures old(isLoadingMore || !hasMore || loading) ==>
        requested == None && posts == old(posts) && page == old(page) && hasMore == old(hasMore) && isLoadingMore == old(isLoadingMore)
      ensures !old(isLoadingMore || !hasMore || loading) ==>
        && requested == Some(old(page) + 1)
        && page == old(page) + 1
        && !isLoadingMore
        && (response.Answer? && response.reply.Success? ==> posts == old(posts) + NormalizePage(response.reply.data))
        && (!(response.Answer? && response.reply.Success?) ==> posts == old(posts))
        && hasMore == (if response.NetworkError? then true
                       else response.reply.Success? && |response.reply.data| >= PageSize)
      ensures loading == old(loading)
    {
      if isLoadingMore || !hasMore || loading {
        return None;
      }
      isLoadingMore := true;
      var nextPage := page + 1;
      FetchPosts(false, response);
      page := nextPage;
      isLoadingMore := false;
      requested := Some(nextPage);
    }

    method HandleLike(index: nat)
      requires index < |posts|
      modifies this`posts
      ensures posts == LikeToggled(old(posts), index)
    {
      var newPosts := posts;
      var isLiked := !newPosts[index].isLiked;
      newPosts := newPosts[index := newPosts[index].(isLiked := isLiked)];
      newPosts := newPosts[index := newPosts[index].(likesCount := if isLiked then newPosts[index].likesCount + 1 else newPosts[index].likesCount - 1)];
      posts := newPosts;
    }

    method HandleSave(index: nat)
      requires index < |posts|
      modifies this`posts
      ensures posts == SaveToggled(old(posts), index)
    {
      posts := posts[index := posts[index].(isSaved := !posts[index].isSaved)];
    }
  }
}
