/** The rows of the `users`, `posts`, `likes` and `follows` tables and the
    read-only queries the profile and search endpoints run over them. A table is
    a sequence of rows in storage order. */
module Tables {
  import opened Base
  import opened Seqs

  datatype User = User(id: int, email: string, password: string, createdAt: int)
  datatype Post = Post(id: int, userId: int, mediaUrl: Option<string>, caption: string, createdAt: int)
  datatype Like = Like(postId: int, userId: int)
  /** A row of `follows`: `follower` follows `followed`. */
  datatype FollowEdge = FollowEdge(follower: int, followed: int)

  /** `SELECT ... FROM users WHERE id = $id` followed by `fetch_assoc()`: the first
      row with that id, if any. */
  function FindUser(users: seq<User>, id: int): (r: Option<User>)
    ensures r.None? <==> forall u :: u in users ==> u.id != id
    ensures r.Some? ==> r.value in users && r.value.id == id
  {
    if users == [] then None
    else if users[0].id == id then Some(users[0])
    else FindUser(users[1..], id)
  }

  /** `SELECT ... FROM posts WHERE user_id = $uid`, in storage order. */
  function PostsBy(posts: seq<Post>, uid: int): (r: seq<Post>)
    ensures forall p :: p in r <==> p in posts && p.userId == uid
    ensures forall p: Post :: p.userId == uid ==> Count(r, p) == Count(posts, p)
    ensures |r| <= |posts|
  {
    if posts == [] then []
    else if posts[0].userId == uid then [posts[0]] + PostsBy(posts[1..], uid)
    else PostsBy(posts[1..], uid)
  }

  /** The number of rows of `posts` whose id is `postId` and whose owner is `uid`:
      the rows one like joins with. */
  function JoinedPosts(posts: seq<Post>, postId: int, uid: int): (n: nat)
    ensures n == 0 <==> forall p :: p in posts ==> !(p.id == postId && p.userId == uid)
  {
    if posts == [] then 0
    else (if posts[0].id == postId && posts[0].userId == uid then 1 else 0) + JoinedPosts(posts[1..], postId, uid)
  }

  /** `SELECT COUNT(*) FROM likes JOIN posts ON likes.post_id = posts.id WHERE
      posts.user_id = $uid`: the number of (like, post) pairs the join yields. */
  function LikesReceived(likes: seq<Like>, posts: seq<Post>, uid: int): (n: nat)
    ensures n == 0 <==> forall l :: l in likes ==> JoinedPosts(posts, l.postId, uid) == 0
  {
    if likes == [] then 0
    else
      assert forall l :: l in likes <==> l == likes[0] || l in likes[1..];
      JoinedPosts(posts, likes[0].postId, uid) + LikesReceived(likes[1..], posts, uid)
  }

  /** The post is one of `uid`'s posts. */
  predicate OwnedBy(posts: seq<Post>, postId: int, uid: int) {
    exists p :: p in posts && p.id == postId && p.userId == uid
  }

  /** The likes placed on one of `uid`'s posts. */
  function LikesOnPostsOf(likes: seq<Like>, posts: seq<Post>, uid: int): (r: seq<Like>)
    ensures forall l :: l in r <==> l in likes && OwnedBy(posts, l.postId, uid)
  {
    if likes == [] then []
    else if OwnedBy(posts, likes[0].postId, uid) then [likes[0]] + LikesOnPostsOf(likes[1..], posts, uid)
    else LikesOnPostsOf(likes[1..], posts, uid)
  }

  /** `posts.id` is the table's primary key. */
  ghost predicate UniquePostIds(posts: seq<Post>) {
    forall i, j :: 0 <= i < j < |posts| ==> posts[i].id != posts[j].id
  }

  lemma {:induction false} JoinedAtMostOne(posts: seq<Post>, postId: int, uid: int)
    requires UniquePostIds(posts)
    ensures JoinedPosts(posts, postId, uid) == if OwnedBy(posts, postId, uid) then 1 else 0
  {
    if posts != [] {
      var t := posts[1..];
      assert UniquePostIds(t) by {
        forall i, j | 0 <= i < j < |t| ensures t[i].id != t[j].id {
          assert t[i] == posts[i + 1] && t[j] == posts[j + 1];
        }
      }
      JoinedAtMostOne(t, postId, uid);
      if posts[0].id == postId && posts[0].userId == uid {
        forall p | p in t ensures p.id != postId {
          var k :| 0 <= k < |t| && t[k] == p;
          assert posts[k + 1] == p;
        }
      } else if OwnedBy(posts, postId, uid) {
        var p :| p in posts && p.id == postId && p.userId == uid;
        assert p != posts[0];
        assert p in t;
      }
    }
  }

  /** With unique post ids the join counts each like on one of `uid`'s posts
      exactly once: likes received is the number of such likes. */
  lemma {:induction false} LikesReceivedCountsLikes(likes: seq<Like>, posts: seq<Post>, uid: int)
    requires UniquePostIds(posts)
    ensures LikesReceived(likes, posts, uid) == |LikesOnPostsOf(likes, posts, uid)|
  {
    if likes != [] {
      JoinedAtMostOne(posts, likes[0].postId, uid);
      LikesReceivedCountsLikes(likes[1..], posts, uid);
    }
  }

  /** Newest first: `created_at` never increases along the sequence. */
  predicate NewestFirstOrder(s: seq<Post>) {
    forall i, j :: 0 <= i < j < |s| ==> s[i].createdAt >= s[j].createdAt
  }

  /** Inserts `p` before the first row that is not newer than it. */
  function InsertByDate(p: Post, s: seq<Post>): (r: seq<Post>)
    ensures multiset(r) == multiset(s) + multiset{p}
    ensures r[0] == if s == [] || p.createdAt >= s[0].createdAt then p else s[0]
  {
    if s == [] || p.createdAt >= s[0].createdAt then [p] + s
    else
      assert s == [s[0]] + s[1..];
      [s[0]] + InsertByDate(p, s[1..])
  }

  lemma {:induction false} InsertKeepsOrder(p: Post, s: seq<Post>)
    requires NewestFirstOrder(s)
    ensures NewestFirstOrder(InsertByDate(p, s))
  {
    if s != [] && p.createdAt < s[0].createdAt {
      var rest := InsertByDate(p, s[1..]);
      InsertKeepsOrder(p, s[1..]);
      assert s[0].createdAt >= rest[0].createdAt;
      var r := [s[0]] + rest;
      forall i, j | 0 <= i < j < |r| ensures r[i].createdAt >= r[j].createdAt {
        if i == 0 && j > 1 {
          assert rest[0].createdAt >= rest[j - 1].createdAt;
        }
      }
    }
  }

  /** `ORDER BY created_at DESC`. MySQL leaves the order of rows with equal
      timestamps open; this model keeps them in storage order. */
  function NewestFirst(s: seq<Post>): (r: seq<Post>)
    ensures NewestFirstOrder(r)
    ensures multiset(r) == multiset(s)
    ensures |r| == |s|
  {
    if s == [] then []
    else
      assert s == [s[0]] + s[1..];
      InsertKeepsOrder(s[0], NewestFirst(s[1..]));
      InsertByDate(s[0], NewestFirst(s[1..]))
  }

  /** The post list of a profile holds exactly the user's posts, each as often as
      in the table, newest first. */
  lemma ProfilePostsAreTheUsers(posts: seq<Post>, uid: int)
    ensures NewestFirstOrder(NewestFirst(PostsBy(posts, uid)))
    ensures forall p :: p in NewestFirst(PostsBy(posts, uid)) <==> p in posts && p.userId == uid
    ensures forall p: Post :: p.userId == uid ==> Count(NewestFirst(PostsBy(posts, uid)), p) == Count(posts, p)
  {
    var r := NewestFirst(PostsBy(posts, uid));
    forall p ensures p in r <==> p in PostsBy(posts, uid) {
      assert p in r <==> p in multiset(r);
    }
    forall p: Post | p.userId == uid ensures Count(r, p) == Count(posts, p) {
      CountIsMultiplicity(r, p);
      CountIsMultiplicity(PostsBy(posts, uid), p);
    }
  }
}
