/** profile/get_public_profile.php: anyone's profile as seen by an optional
    viewer — the user row, four counts, whether the viewer follows them, and
    their posts newest first. Read-only: it receives the tables as values. */
module PublicProfile {
  import opened Base
  import opened Tables
  import opened Follow
  import opened PhpRequest

  datatype PublicUser = PublicUser(id: int, email: string)
  datatype Stats = Stats(posts: nat, followers: nat, following: nat, likes: nat)
  /** The columns `media_url, caption` the post query selects. */
  datatype PostCard = PostCard(mediaUrl: Option<string>, caption: string)
  datatype Profile = Profile(user: PublicUser, isFollowing: bool, stats: Stats, posts: seq<PostCard>)

  function CardOf(p: Post): PostCard {
    PostCard(p.mediaUrl, p.caption)
  }

  /** `is_following`: only a viewer with a positive id can follow. */
  function IsFollowingFlag(edges: seq<FollowEdge>, viewer: int, target: int): bool {
    viewer > 0 && Follows(edges, viewer, target)
  }

  /** The endpoint: `userIdParam` is `$_GET['user_id']` (0 when absent), `claim`
      the id the token's payload holds. */
  method GetPublicProfile(users: seq<User>, posts: seq<Post>, likes: seq<Like>, follows: seq<FollowEdge>,
                          auth: Option<string>, claim: int, userIdParam: Option<int>)
    returns (r: Reply<Profile>)
    ensures var target := userIdParam.GetOr(0);
      r.Error? <==> forall u :: u in users ==> u.id != target
    ensures r.Error? ==> r.message == "User not found"
    ensures var target := userIdParam.GetOr(0);
      r.Success? ==>
        && r.data.user.id == target
        && (exists u :: u in users && u.id == target && r.data.user.email == u.email)
        && r.data.stats.posts == |PostsBy(posts, target)|
        && r.data.stats.likes == LikesReceived(likes, posts, target)
        && r.data.stats.followers == FollowersCount(follows, target)
        && r.data.stats.following == FollowingCount(follows, target)
        && (r.data.isFollowing <==> ViewerId(auth, claim) > 0 && Follows(follows, ViewerId(auth, claim), target))
    ensures var rows := NewestFirst(PostsBy(posts, userIdParam.GetOr(0)));
      r.Success? ==>
        && |r.data.posts| == |rows| == r.data.stats.posts
        && forall k :: 0 <= k < |rows| ==> r.data.posts[k] == CardOf(rows[k])
  {
    var viewer := ViewerId(auth, claim);
    var target := userIdParam.GetOr(0);
    var found := FindUser(users, target);
    if found.None? {
      return Error("User not found");
    }
    var user := PublicUser(found.value.id, found.value.email);
    var stats := Stats(|PostsBy(posts, target)|, FollowersCount(follows, target),
                       FollowingCount(follows, target), LikesReceived(likes, posts, target));
    var isFollowing := IsFollowingFlag(follows, viewer, target);
    // The result set of `... WHERE user_id = $target_id ORDER BY created_at DESC`,
    // fetched row by row.
    var rows := NewestFirst(PostsBy(posts, target));
    var cards := CardsOf(rows);
    r := Success(Profile(user, isFollowing, stats, cards));
  }

  /** The result set of `... WHERE user_id = $target_id ORDER BY created_at DESC`,
      fetched row by row into the `posts` array. */
  method CardsOf(rows: seq<Post>) returns (cards: seq<PostCard>)
    ensures |cards| == |rows|
    ensures forall k :: 0 <= k < |rows| ==> cards[k] == CardOf(rows[k])
  {
    cards := [];
    var i := 0;
    while i < |rows|
      invariant 0 <= i <= |rows|
      invariant |cards| == i
      invariant forall k :: 0 <= k < i ==> cards[k] == CardOf(rows[k])
    {
      cards := cards + [CardOf(rows[i])];
      i := i + 1;
    }
  }

  /** Because follow.php never inserts a self-edge, nobody is shown as following
      their own profile. */
  lemma OwnProfileNeverFollowed(edges: seq<FollowEdge>, target: int)
    requires WellFormed(edges)
    ensures !IsFollowingFlag(edges, target, target)
  {
  }

  /** A request without a usable token sees `is_following` false. */
  lemma AnonymousViewerNeverFollows(edges: seq<FollowEdge>, auth: Option<string>, claim: int, target: int)
    requires auth.None? || '.' !in TokenOf(auth)
    ensures !IsFollowingFlag(edges, ViewerId(auth, claim), target)
  {
  }
}
