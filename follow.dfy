/** The follow graph behind interaction/follow.php: the `follows` table, the
    toggle the endpoint performs on one ordered (follower, followed) pair, and the
    follower / following counts that the profile endpoints read from it. */
module Follow {
  import opened Base
  import opened Seqs
  import opened Tables
  import opened PhpRequest

  /** `SELECT id FROM follows WHERE follower_id = a AND followed_id = b` returns a row. */
  predicate Follows(edges: seq<FollowEdge>, a: int, b: int) {
    FollowEdge(a, b) in edges
  }

  /** The table as the backend intends it: no pair twice and nobody following
      themself. */
  ghost predicate WellFormed(edges: seq<FollowEdge>) {
    && Distinct(edges)
    && forall e :: e in edges ==> e.follower != e.followed
  }

  /** The check-then-act of follow.php: all rows of the pair are deleted when
      there is one, otherwise one row is inserted. */
  function Toggled(edges: seq<FollowEdge>, a: int, b: int): (r: seq<FollowEdge>)
    ensures Follows(r, a, b) <==> !Follows(edges, a, b)
    ensures Follows(r, a, b) ==> Count(r, FollowEdge(a, b)) == 1
    ensures forall e :: e != FollowEdge(a, b) ==> Count(r, e) == Count(edges, e)
  {
    var pair := FollowEdge(a, b);
    if pair in edges then Without(edges, pair)
    else
      CountSnoc(edges, pair);
      edges + [pair]
  }

  /** Toggling a pair twice gives back the same set of edges; when the pair had
      at most one row, the very same rows (as a multiset); and when it had none,
      the very same table. */
  lemma ToggleTwiceRestores(edges: seq<FollowEdge>, a: int, b: int)
    ensures forall e :: e in Toggled(Toggled(edges, a, b), a, b) <==> e in edges
    ensures Count(edges, FollowEdge(a, b)) <= 1 ==> multiset(Toggled(Toggled(edges, a, b), a, b)) == multiset(edges)
    ensures !Follows(edges, a, b) ==> Toggled(Toggled(edges, a, b), a, b) == edges
  {
    if !Follows(edges, a, b) {
      ToggleTwiceFromUnfollowed(edges, a, b);
    }
    if Count(edges, FollowEdge(a, b)) <= 1 {
      ToggleTwiceSameRows(edges, a, b);
    }
  }

  lemma ToggleTwiceFromUnfollowed(edges: seq<FollowEdge>, a: int, b: int)
    requires !Follows(edges, a, b)
    ensures Toggled(Toggled(edges, a, b), a, b) == edges
  {
    var pair := FollowEdge(a, b);
    WithoutAppend(edges, [pair], pair);
    WithoutAbsent(edges, pair);
    assert Without([pair], pair) == [];
  }

  lemma ToggleTwiceSameRows(edges: seq<FollowEdge>, a: int, b: int)
    requires Count(edges, FollowEdge(a, b)) <= 1
    ensures multiset(Toggled(Toggled(edges, a, b), a, b)) == multiset(edges)
  {
    var twice := Toggled(Toggled(edges, a, b), a, b);
    forall e ensures multiset(twice)[e] == multiset(edges)[e] {
      CountIsMultiplicity(twice, e);
      CountIsMultiplicity(edges, e);
    }
  }

  /** A legitimate toggle (a != b) keeps the table well formed. */
  lemma ToggledKeepsWellFormed(edges: seq<FollowEdge>, a: int, b: int)
    requires WellFormed(edges) && a != b
    ensures WellFormed(Toggled(edges, a, b))
  {
    var r := Toggled(edges, a, b);
    forall e ensures Count(r, e) <= 1 {
      if e != FollowEdge(a, b) {
        assert Count(r, e) == Count(edges, e);
      }
    }
  }

  /** The toggle applied `n` times to the same pair. */
  function ToggledTimes(edges: seq<FollowEdge>, a: int, b: int, n: nat): seq<FollowEdge> {
    if n == 0 then edges else Toggled(ToggledTimes(edges, a, b, n - 1), a, b)
  }

  /** After `n` toggles the pair is followed exactly when it started unfollowed
      and `n` is odd, or started followed and `n` is even. */
  lemma {:induction false} ToggleParity(edges: seq<FollowEdge>, a: int, b: int, n: nat)
    ensures Follows(ToggledTimes(edges, a, b, n), a, b) <==> (Follows(edges, a, b) <==> n % 2 == 0)
  {
    if n > 0 {
      ToggleParity(edges, a, b, n - 1);
    }
  }

  /** The rows of `follows` whose `followed_id` is `u`, as follower ids. */
  function FollowerIds(edges: seq<FollowEdge>, u: int): (r: seq<int>)
    ensures forall a :: Count(r, a) == Count(edges, FollowEdge(a, u))
    ensures |r| <= |edges|
  {
    if edges == [] then []
    else if edges[0].followed == u then
      var rest := FollowerIds(edges[1..], u);
      assert ([edges[0].follower] + rest)[1..] == rest;
      [edges[0].follower] + rest
    else FollowerIds(edges[1..], u)
  }

  /** The rows of `follows` whose `follower_id` is `u`, as followed ids. */
  function FollowingIds(edges: seq<FollowEdge>, u: int): (r: seq<int>)
    ensures forall b :: Count(r, b) == Count(edges, FollowEdge(u, b))
    ensures |r| <= |edges|
  {
    if edges == [] then []
    else if edges[0].follower == u then
      var rest := FollowingIds(edges[1..], u);
      assert ([edges[0].followed] + rest)[1..] == rest;
      [edges[0].followed] + rest
    else FollowingIds(edges[1..], u)
  }

  /** `SELECT COUNT(*) FROM follows WHERE followed_id = u`. */
  function FollowersCount(edges: seq<FollowEdge>, u: int): (n: nat)
    ensures n <= |edges|
    ensures n == 0 <==> forall a :: !Follows(edges, a, u)
  {
    var ids := FollowerIds(edges, u);
    assert ids != [] ==> Count(ids, ids[0]) > 0 && Follows(edges, ids[0], u);
    assert ids == [] ==> forall a :: Count(edges, FollowEdge(a, u)) == Count(ids, a) == 0;
    |ids|
  }

  /** `SELECT COUNT(*) FROM follows WHERE follower_id = u`. */
  function FollowingCount(edges: seq<FollowEdge>, u: int): (n: nat)
    ensures n <= |edges|
    ensures n == 0 <==> forall b :: !Follows(edges, u, b)
  {
    var ids := FollowingIds(edges, u);
    assert ids != [] ==> Count(ids, ids[0]) > 0 && Follows(edges, u, ids[0]);
    assert ids == [] ==> forall b :: Count(edges, FollowEdge(u, b)) == Count(ids, b) == 0;
    |ids|
  }

  /** The users `a` with `Follows(edges, a, u)`. */
  ghost function FollowerSet(edges: seq<FollowEdge>, u: int): set<int> {
    set e | e in edges && e.followed == u :: e.follower
  }

  /** The users `b` with `Follows(edges, u, b)`. */
  ghost function FollowedSet(edges: seq<FollowEdge>, u: int): set<int> {
    set e | e in edges && e.follower == u :: e.followed
  }

  /** On a well-formed table the follower count is the number of distinct
      followers, and the following count the number of distinct users followed. */
  lemma CountsAreCardinalities(edges: seq<FollowEdge>, u: int)
    requires WellFormed(edges)
    ensures FollowersCount(edges, u) == |FollowerSet(edges, u)|
    ensures FollowingCount(edges, u) == |FollowedSet(edges, u)|
  {
    var fs := FollowerIds(edges, u);
    forall a ensures Count(fs, a) <= 1 {
      assert Count(fs, a) == Count(edges, FollowEdge(a, u));
    }
    DistinctCard(fs);
    assert (set a | a in fs) == FollowerSet(edges, u) by {
      forall a ensures a in fs <==> a in FollowerSet(edges, u) {
        assert a in fs <==> Count(edges, FollowEdge(a, u)) > 0;
        if a in FollowerSet(edges, u) {
          var e :| e in edges && e.followed == u && e.follower == a;
          assert e == FollowEdge(a, u);
        }
      }
    }
    var gs := FollowingIds(edges, u);
    forall b ensures Count(gs, b) <= 1 {
      assert Count(gs, b) == Count(edges, FollowEdge(u, b));
    }
    DistinctCard(gs);
    assert (set b | b in gs) == FollowedSet(edges, u) by {
      forall b ensures b in gs <==> b in FollowedSet(edges, u) {
        assert b in gs <==> Count(edges, FollowEdge(u, b)) > 0;
        if b in FollowedSet(edges, u) {
          var e :| e in edges && e.follower == u && e.followed == b;
          assert e == FollowEdge(u, b);
        }
      }
    }
  }

  /** The effect of one toggle on the counts: the followed user gains a follower
      or loses one, the follower gains or loses one followed user, and every
      other count stays as it is. */
  lemma ToggleMovesCountsByOne(edges: seq<FollowEdge>, a: int, b: int)
    requires WellFormed(edges)
    ensures FollowersCount(Toggled(edges, a, b), b) == FollowersCount(edges, b) + (if Follows(edges, a, b) then -1 else 1)
    ensures FollowingCount(Toggled(edges, a, b), a) == FollowingCount(edges, a) + (if Follows(edges, a, b) then -1 else 1)
    ensures forall u :: u != b ==> FollowersCount(Toggled(edges, a, b), u) == FollowersCount(edges, u)
    ensures forall u :: u != a ==> FollowingCount(Toggled(edges, a, b), u) == FollowingCount(edges, u)
  {
    FollowersMove(edges, a, b);
    FollowingMove(edges, a, b);
  }

  lemma FollowersMove(edges: seq<FollowEdge>, a: int, b: int)
    requires WellFormed(edges)
    ensures forall u :: FollowersCount(Toggled(edges, a, b), u) == FollowersCount(edges, u) + (if u == b then (if Follows(edges, a, b) then -1 else 1) else 0)
  {
    var r := Toggled(edges, a, b);
    var step := if Follows(edges, a, b) then -1 else 1;
    forall u ensures |FollowerIds(r, u)| == |FollowerIds(edges, u)| + (if u == b then step else 0) {
      IdsLength(FollowerIds(r, u), FollowerIds(edges, u), a, if u == b then step else 0);
    }
  }

  lemma FollowingMove(edges: seq<FollowEdge>, a: int, b: int)
    requires WellFormed(edges)
    ensures forall u :: FollowingCount(Toggled(edges, a, b), u) == FollowingCount(edges, u) + (if u == a then (if Follows(edges, a, b) then -1 else 1) else 0)
  {
    var r := Toggled(edges, a, b);
    var step := if Follows(edges, a, b) then -1 else 1;
    forall u ensures |FollowingIds(r, u)| == |FollowingIds(edges, u)| + (if u == a then step else 0) {
      IdsLength(FollowingIds(r, u), FollowingIds(edges, u), b, if u == a then step else 0);
    }
  }

  /** Two id sequences whose counts agree except at `x`, where the new one has
      `delta` more copies, differ in length by `delta`. */
  lemma IdsLength(r: seq<int>, s: seq<int>, x: int, delta: int)
    requires forall y :: y != x ==> Count(r, y) == Count(s, y)
    requires Count(r, x) == Count(s, x) + delta
    ensures |r| == |s| + delta
  {
    LengthFromCounts(r, s, x);
  }

  /** The `action` of a successful follow.php reply. */
  datatype Action = Followed | Unfollowed

  /** One POST to follow.php: the Authorization header, the id the token's
      payload claims (`data.id`) and the `user_id` of the body. */
  datatype Request = Request(auth: Option<string>, callerId: int, targetId: int)

  /** The reply of follow.php to `req` and the table after it. */
  datatype Outcome = Outcome(reply: Reply<Action>, edges: seq<FollowEdge>)

  /** What follow.php does to the `follows` table and what it answers. */
  function Respond(edges: seq<FollowEdge>, req: Request): (o: Outcome)
    ensures o.reply.Error? ==> o.edges == edges
    ensures o.reply == Error("Unauthorized") <==> Falsy(TokenOf(req.auth))
    ensures o.reply == Error("Cannot follow yourself") <==> !Falsy(TokenOf(req.auth)) && req.callerId == req.targetId
    ensures o.reply.Success? <==> !Falsy(TokenOf(req.auth)) && req.callerId != req.targetId
    ensures o.reply == Success(Followed) ==> !Follows(edges, req.callerId, req.targetId) && o.edges == edges + [FollowEdge(req.callerId, req.targetId)]
    ensures o.reply == Success(Unfollowed) ==> Follows(edges, req.callerId, req.targetId) && o.edges == Without(edges, FollowEdge(req.callerId, req.targetId))
  {
    if Falsy(TokenOf(req.auth)) then Outcome(Error("Unauthorized"), edges)
    else if req.callerId == req.targetId then Outcome(Error("Cannot follow yourself"), edges)
    else
      var action := if Follows(edges, req.callerId, req.targetId) then Unfollowed else Followed;
      Outcome(Success(action), Toggled(edges, req.callerId, req.targetId))
  }

  /** The table after a sequence of requests, one after the other. */
  function Replay(edges: seq<FollowEdge>, reqs: seq<Request>): seq<FollowEdge>
    decreases |reqs|
  {
    if reqs == [] then edges else Replay(Respond(edges, reqs[0]).edges, reqs[1..])
  }

  /** Whatever requests arrive, accepted or rejected, a well-formed table stays
      well formed: never two rows for a pair, never a self-follow. */
  lemma {:induction false} ReplayKeepsWellFormed(edges: seq<FollowEdge>, reqs: seq<Request>)
    requires WellFormed(edges)
    ensures WellFormed(Replay(edges, reqs))
    decreases |reqs|
  {
    if reqs != [] {
      var o := Respond(edges, reqs[0]);
      if o.reply.Success? {
        ToggledKeepsWellFormed(edges, reqs[0].callerId, reqs[0].targetId);
      }
      ReplayKeepsWellFormed(o.edges, reqs[1..]);
    }
  }

  /** The `follows` table, owned by the follow endpoint: the only code that
      changes it. */
  class FollowStore {
    var edges: seq<FollowEdge>

    ghost predicate Valid()
      reads this
    {
      WellFormed(edges)
    }

    constructor (initial: seq<FollowEdge>)
      ensures edges == initial
    {
      edges := initial;
    }

    /** follow.php: reject a falsy token, reject a self-follow, otherwise look the
        pair up and delete its rows or insert one. */
    method Toggle(auth: Option<string>, callerId: int, targetId: int) returns (reply: Reply<Action>)
      modifies this
      ensures Outcome(reply, edges) == Respond(old(edges), Request(auth, callerId, targetId))
      ensures old(Valid()) ==> Valid()
    {
      var token := TokenOf(auth);
      if Falsy(token) {
        return Error("Unauthorized");
      }
      if callerId == targetId {
        return Error("Cannot follow yourself");
      }
      var pair := FollowEdge(callerId, targetId);
      var alreadyFollowing := pair in edges;
      if alreadyFollowing {
        edges := Without(edges, pair);
        reply := Success(Unfollowed);
      } else {
        edges := edges + [pair];
        reply := Success(Followed);
      }
      if old(Valid()) {
        ToggledKeepsWellFormed(old(edges), callerId, targetId);
      }
    }
  }
}
