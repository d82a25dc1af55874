/** profile/get_details.php: the caller's own profile — post count, likes
    received, a follower count that is always 0, and the caller's posts newest
    first. Read-only: it receives the tables as values. */
module ProfileDetails {
  import opened Base
  import opened Tables
  import opened PhpRequest

  datatype DetailStats = DetailStats(posts: nat, likesReceived: nat, followers: nat)
  /** The columns `id, media_url, caption, created_at` the post query selects. */
  datatype PostSummary = PostSummary(id: int, mediaUrl: Option<string>, caption: string, createdAt: int)
  datatype Details = Details(stats: DetailStats, posts: seq<PostSummary>)

  function SummaryOf(p: Post): PostSummary {
    PostSummary(p.id, p.mediaUrl, p.caption, p.createdAt)
  }

  /** The endpoint. `follows` is the follow table, which the endpoint never
      reads: its follower count is a placeholder 0. */
  method GetDetails(posts: seq<Post>, likes: seq<Like>, follows: seq<FollowEdge>,
                    auth: Option<string>, callerId: int)
    returns (r: Reply<Details>)
    ensures r.Error? <==> Falsy(TokenOf(auth))
    ensures r.Error? ==> r.message == "Unauthorized"
    ensures r.Success? ==>
      && r.data.stats.posts == |PostsBy(posts, callerId)|
      && r.data.stats.likesReceived == LikesReceived(likes, posts, callerId)
      && r.data.stats.followers == 0
    ensures var rows := NewestFirst(PostsBy(posts, callerId));
      r.Success? ==>
        && |r.data.posts| == |rows| == r.data.stats.posts
        && forall k :: 0 <= k < |rows| ==> r.data.posts[k] == SummaryOf(rows[k])
  {
    if Falsy(TokenOf(auth)) {
      return Error("Unauthorized");
    }
    var stats := DetailStats(|PostsBy(posts, callerId)|, LikesReceived(likes, posts, callerId), 0);
    var rows := NewestFirst(PostsBy(posts, callerId));
    var summaries := SummariesOf(rows);
    r := Success(Details(stats, summaries));
  }

  /** The `while` loop that fetches the post rows into `$posts`, in order. */
  method SummariesOf(rows: seq<Post>) returns (summaries: seq<PostSummary>)
    ensures |summaries| == |rows|
    ensures forall k :: 0 <= k < |rows| ==> summaries[k] == SummaryOf(rows[k])
  {
    summaries := [];
    var i := 0;
    while i < |rows|
      invariant 0 <= i <= |rows|
      invariant |summaries| == i
      invariant forall k :: 0 <= k < i ==> summaries[k] == SummaryOf(rows[k])
    {
      summaries := summaries + [SummaryOf(rows[i])];
      i := i + 1;
    }
  }
}
