/** src/screens/PublicProfileScreen.js: someone's profile with a follow button.
    The button updates the screen optimistically and then posts to follow.php. */
module PublicProfileScreen {
  import opened Base
  import opened Seqs
  import opened Tables
  import opened Follow
  import opened JsText
  import opened PhpRequest
  import PublicProfile

  /** The `user` object of the loaded profile, with the fields the screen reads;
      a field is None when the reply does not carry it. */
  datatype UserFields = UserFields(id: Option<int>, email: Option<string>, fullName: Option<string>,
                                   bio: Option<string>, avatarUrl: Option<string>)
  /** The stats as JavaScript numbers: the screen may drive them below zero. */
  datatype ShownCounts = ShownCounts(posts: int, followers: int, following: int, likes: int)
  datatype ProfileData = ProfileData(user: UserFields, stats: ShownCounts, posts: seq<PublicProfile.PostCard>)

  /** What get_public_profile.php sends: a user with only `id` and `email`. */
  function FromServer(p: PublicProfile.Profile): ProfileData {
    var s := p.stats;
    ProfileData(UserFields(Some(p.user.id), Some(p.user.email), None, None, None),
                ShownCounts(s.posts, s.followers, s.following, s.likes), p.posts)
  }

  // ---- display defaults (lines 85-90) ----

  /** `safeUser.full_name || \`Student ${safeUser.id || '?'}\``. */
  function DisplayName(u: UserFields): (name: string)
    ensures u.fullName.Some? && u.fullName.value != "" ==> name == u.fullName.value
    ensures (u.fullName.None? || u.fullName.value == "") && u.id.Some? && u.id.value != 0 ==> name == "Student " + IntToString(u.id.value)
    ensures (u.fullName.None? || u.fullName.value == "") && (u.id.None? || u.id.value == 0) ==> name == "Student ?"
  {
    var idText := if u.id.Some? && u.id.value != 0 then IntToString(u.id.value) else "?";
    OrElse(u.fullName, "Student " + idText)
  }

  /** `(safeUser.email || 'U').charAt(0).toUpperCase()`. */
  function Initial(u: UserFields): (c: string)
    ensures u.email.Some? && u.email.value != "" ==> c == [UpperChar(u.email.value[0])]
    ensures u.email.None? || u.email.value == "" ==> c == "U"
  {
    InitialOf(OrElse(u.email, "U"))
  }

  /** `safeUser.bio || 'University of Nigeria, Nsukka'`. */
  function DisplayBio(u: UserFields): (bio: string)
    ensures u.bio.Some? && u.bio.value != "" ==> bio == u.bio.value
    ensures u.bio.None? || u.bio.value == "" ==> bio == "University of Nigeria, Nsukka"
  {
    OrElse(u.bio, "University of Nigeria, Nsukka")
  }

  /** The avatar with a cache-busting `?r=` suffix; `random` stands for `Math.random()`. */
  function AvatarUrl(u: UserFields, random: string): (url: Option<string>)
    ensures url.Some? <==> u.avatarUrl.Some? && u.avatarUrl.value != ""
    ensures url.Some? ==> url.value == u.avatarUrl.value + "?r=" + random
  {
    CacheBusted(u.avatarUrl, random)
  }

  /** `profile?.stats || { posts: 0, followers: 0, following: 0, likes: 0 }`. */
  function ShownStats(profile: Option<ProfileData>): (s: ShownCounts)
    ensures profile.None? ==> s == ShownCounts(0, 0, 0, 0)
    ensures profile.Some? ==> s == profile.value.stats
  {
    if profile.Some? then profile.value.stats else ShownCounts(0, 0, 0, 0)
  }

  /** get_public_profile.php never sends `full_name`, so the screen always names a
      user "Student <id>" (or "Student ?" for id 0). */
  lemma ServerProfileShowsStudentId(p: PublicProfile.Profile)
    ensures p.user.id != 0 ==> DisplayName(FromServer(p).user) == "Student " + IntToString(p.user.id)
    ensures p.user.id == 0 ==> DisplayName(FromServer(p).user) == "Student ?"
  {
  }

  // ---- the follow button (lines 61-81) ----

  /** The part of the screen state the follow button changes. */
  datatype FollowView = FollowView(isFollowing: bool, profile: ProfileData)

  /** The optimistic count update: one more follower when going from not
      following to following, one fewer otherwise. This treats `followers` as a
      number; the reply actually carries it as a string (see `FollowedCountText`). */
  function AdjustFollowers(p: ProfileData, wasFollowing: bool): (q: ProfileData)
    ensures q.stats.followers == p.stats.followers + (if wasFollowing then -1 else 1)
    ensures q.user == p.user && q.posts == p.posts
    ensures q.stats.posts == p.stats.posts && q.stats.following == p.stats.following && q.stats.likes == p.stats.likes
  {
    p.(stats := p.stats.(followers := if !wasFollowing then p.stats.followers + 1 else p.stats.followers - 1))
  }

  /** `handleFollow` as written: without a session only an alert; otherwise the
      flag flips and the count moves, and a failed request (`fetch` throwing)
      restores the flag only. The reply of follow.php is never read. */
  function FollowStep(v: FollowView, loggedIn: bool, requestFailed: bool): (w: FollowView)
    ensures !loggedIn ==> w == v
    ensures loggedIn ==> w.isFollowing == (if requestFailed then v.isFollowing else !v.isFollowing)
    ensures loggedIn ==> w.profile == AdjustFollowers(v.profile, v.isFollowing)
  {
    if !loggedIn then v
    else
      var previousState := v.isFollowing;
      var optimistic := FollowView(!v.isFollowing, AdjustFollowers(v.profile, v.isFollowing));
      if requestFailed then optimistic.(isFollowing := previousState) else optimistic
  }

  /** The screen agrees with the server about the pair (viewer, target). */
  ghost predicate Consistent(v: FollowView, edges: seq<FollowEdge>, viewer: int, target: int) {
    && v.isFollowing == Follows(edges, viewer, target)
    && v.profile.stats.followers == FollowersCount(edges, target)
  }

  /** Refinement: starting from a screen that agrees with a well-formed table,
      one accepted press keeps it in agreement with the table follow.php leaves.
      This holds of counts as numbers; with the string count the reply carries,
      the follow direction concatenates instead (`ServedCountConcatenates`). */
  lemma FollowStepRefinesToggle(v: FollowView, edges: seq<FollowEdge>, auth: Option<string>, viewer: int, target: int)
    requires WellFormed(edges) && Consistent(v, edges, viewer, target)
    requires !Falsy(TokenOf(auth)) && viewer != target
    ensures Respond(edges, Request(auth, viewer, target)).reply.Success?
    ensures Consistent(FollowStep(v, true, false), Respond(edges, Request(auth, viewer, target)).edges, viewer, target)
  {
    ToggleMovesCountsByOne(edges, viewer, target);
    if Follows(edges, viewer, target) {
      assert FollowerIds(edges, target) != [] by {
        assert Count(FollowerIds(edges, target), viewer) == Count(edges, FollowEdge(viewer, target));
      }
    }
  }

  /** As written, a request that never reaches the server (edges unchanged)
      leaves the flag right but the follower count off by one. */
  lemma FailedFollowLeavesStaleCount(v: FollowView, edges: seq<FollowEdge>, viewer: int, target: int)
    requires WellFormed(edges) && Consistent(v, edges, viewer, target)
    ensures FollowStep(v, true, true).isFollowing == Follows(edges, viewer, target)
    ensures FollowStep(v, true, true).profile.stats.followers != FollowersCount(edges, target)
  {
    if Follows(edges, viewer, target) {
      assert Count(FollowerIds(edges, target), viewer) == Count(edges, FollowEdge(viewer, target));
    }
  }

  /** As written, viewing one's own profile: follow.php answers "Cannot follow
      yourself" and changes nothing, yet the screen flips its flag. */
  lemma SelfFollowFlipsScreenOnly(v: FollowView, edges: seq<FollowEdge>, auth: Option<string>, viewer: int)
    requires Consistent(v, edges, viewer, viewer) && !Falsy(TokenOf(auth))
    ensures Respond(edges, Request(auth, viewer, viewer)) == Outcome(Error("Cannot follow yourself"), edges)
    ensures FollowStep(v, true, false).isFollowing != Follows(Respond(edges, Request(auth, viewer, viewer)).edges, viewer, viewer)
  {
  }

  /** `handleFollow` as evidently intended: the optimistic update is kept only
      when follow.php reports success; otherwise flag and count both roll back. */
  function FollowStepChecked(v: FollowView, loggedIn: bool, attempt: Response<Action>): (w: FollowView)
    ensures !loggedIn || !(attempt.Answer? && attempt.reply.Success?) ==> w == v
    ensures loggedIn && attempt.Answer? && attempt.reply.Success? ==> w == FollowStep(v, true, false)
  {
    if loggedIn && attempt.Answer? && attempt.reply.Success? then FollowStep(v, true, false) else v
  }

  /** The attempt is one the server can produce from `edges` for `req`, and
      `after` is the table it leaves: no answer and no change, or follow.php's
      answer and effect. */
  ghost predicate ServerBehaviour(edges: seq<FollowEdge>, req: Request, attempt: Response<Action>, after: seq<FollowEdge>) {
    || (attempt == NetworkError && after == edges)
    || (attempt == Answer(Respond(edges, req).reply) && after == Respond(edges, req).edges)
  }

  /** With the corrected step the screen agrees with the server after every
      press, whatever the server or the network does, self-follows included. */
  lemma FollowStepCheckedKeepsConsistency(v: FollowView, edges: seq<FollowEdge>, auth: Option<string>,
                                          viewer: int, target: int, attempt: Response<Action>, after: seq<FollowEdge>)
    requires WellFormed(edges) && Consistent(v, edges, viewer, target)
    requires ServerBehaviour(edges, Request(auth, viewer, target), attempt, after)
    ensures Consistent(FollowStepChecked(v, true, attempt), after, viewer, target)
  {
    if attempt.Answer? && attempt.reply.Success? {
      FollowStepRefinesToggle(v, edges, auth, viewer, target);
    }
  }

  /** mysqli returns `COUNT(*)` as a string and json_encode keeps it one, so on
      the follow direction `prev.stats.followers + 1` is string concatenation:
      the served text with a "1" appended. */
  function FollowedCountText(served: string): (shown: string)
    ensures |shown| == |served| + 1
    ensures shown[..|served|] == served && shown[|served|] == '1'
  {
    served + "1"
  }

  /** A profile served with 5 followers shows "51" after a follow, not 6. */
  lemma ServedCountConcatenates()
    ensures FollowedCountText(IntToString(5)) == "51"
    ensures IntToString(AdjustFollowers(ProfileData(UserFields(None, None, None, None, None), ShownCounts(0, 5, 0, 0), []), false).stats.followers) == "6"
  {
    assert Digits(5) == "5";
    assert Digits(6) == "6";
  }

  /** What a press of the follow button does to the screen. */
  datatype Press =
    | LoginRequired        // the "Login Required" alert; nothing else changes
    | Crashed              // the `setProfile` updater reads `prev.stats` of null
    | Ignored              // the press is dropped (the corrected guard)
    | Pressed(view: FollowView)

  /** `handleFollow` as written, on a screen whose profile may be missing. The
      button is rendered as soon as `loading` is false, which a thrown
      `fetchProfile` leaves with `profile` null; a signed-in press then makes the
      updater at lines 66-72 throw a TypeError. */
  function PressFollow(isFollowing: bool, profile: Option<ProfileData>, loggedIn: bool, requestFailed: bool): (r: Press)
    ensures r == LoginRequired <==> !loggedIn
    ensures r == Crashed <==> loggedIn && profile.None?
    ensures r != Ignored
    ensures r.Pressed? ==> profile.Some? && r.view == FollowStep(FollowView(isFollowing, profile.value), true, requestFailed)
  {
    if !loggedIn then LoginRequired
    else if profile.None? then Crashed
    else Pressed(FollowStep(FollowView(isFollowing, profile.value), true, requestFailed))
  }

  /** `handleFollow` as evidently intended: no profile, no press; otherwise the
      checked optimistic update. */
  function PressFollowChecked(isFollowing: bool, profile: Option<ProfileData>, loggedIn: bool, attempt: Response<Action>): (r: Press)
    ensures r == LoginRequired <==> !loggedIn
    ensures r == Ignored <==> loggedIn && profile.None?
    ensures r != Crashed
    ensures r.Pressed? ==> profile.Some? && r.view == FollowStepChecked(FollowView(isFollowing, profile.value), true, attempt)
  {
    if !loggedIn then LoginRequired
    else if profile.None? then Ignored
    else Pressed(FollowStepChecked(FollowView(isFollowing, profile.value), true, attempt))
  }

  /** As written: a signed-in press on a screen whose profile fetch threw crashes it. */
  lemma FollowWithoutProfileCrashes(isFollowing: bool, requestFailed: bool)
    ensures PressFollow(isFollowing, None, true, requestFailed) == Crashed
  {
  }

  /** Corrected: the guarded press never crashes, and with a profile it is the
      checked step. */
  lemma CheckedPressNeverCrashes(isFollowing: bool, profile: Option<ProfileData>, loggedIn: bool, attempt: Response<Action>)
    ensures PressFollowChecked(isFollowing, profile, loggedIn, attempt) != Crashed
    ensures loggedIn && profile.None? ==> PressFollowChecked(isFollowing, profile, loggedIn, attempt) == Ignored
  {
  }

  /** The screen's state. */
  class PublicProfileView {
    var profile: Option<ProfileData>
    var isFollowing: bool
    var loggedIn: bool
    var loading: bool
    var closed: bool
    var crashed: bool

    constructor (session: bool)
      ensures profile == None && !isFollowing && loggedIn == session && loading && !closed && !crashed
    {
      profile := None;
      isFollowing := false;
      loggedIn := session;
      loading := true;
      closed := false;
      crashed := false;
    }

    /** `fetchProfile`: a success reply fills the profile and the flag; an error
        reply closes the screen; a thrown fetch is only logged. The spinner stops
        in every case. */
    method FetchProfile(response: Response<PublicProfile.Profile>)
      modifies this
      ensures response.Answer? && response.reply.Success? ==>
        profile == Some(FromServer(response.reply.data)) && isFollowing == response.reply.data.isFollowing && closed == old(closed)
      ensures response.Answer? && response.reply.Error? ==> profile == old(profile) && isFollowing == old(isFollowing) && closed
      ensures response.NetworkError? ==> profile == old(profile) && isFollowing == old(isFollowing) && closed == old(closed)
      ensures !loading && loggedIn == old(loggedIn) && crashed == old(crashed)
    {
      if response.Answer? {
        if response.reply.Success? {
          profile := Some(FromServer(response.reply.data));
          isFollowing := response.reply.data.isFollowing;
        } else {
          closed := true;
        }
      }
      loading := false;
    }

    /** `handleFollow` as written; the button exists once the spinner is gone. */
    method HandleFollow(requestFailed: bool)
      requires !loading
      modifies this
      ensures var r := PressFollow(old(isFollowing), old(profile), loggedIn, requestFailed);
        && (r == LoginRequired ==> isFollowing == old(isFollowing) && profile == old(profile) && crashed == old(crashed))
        && (r == Crashed ==> crashed && profile == old(profile))
        && (r.Pressed? ==> isFollowing == r.view.isFollowing && profile == Some(r.view.profile) && crashed == old(crashed))
      ensures loggedIn == old(loggedIn) && closed == old(closed) && loading == old(loading)
    {
      if !loggedIn {
        return;
      }
      var previousState := isFollowing;
      isFollowing := !isFollowing;
      if profile.None? {
        crashed := true;
        return;
      }
      profile := Some(AdjustFollowers(profile.value, previousState));
      if requestFailed {
        isFollowing := previousState;
      }
    }

    /** `handleFollow` with the guard and the rollback the screen evidently intends. */
    method HandleFollowChecked(attempt: Response<Action>)
      requires !loading
      modifies this
      ensures var r := PressFollowChecked(old(isFollowing), old(profile), loggedIn, attempt);
        && (r == LoginRequired || r == Ignored ==> isFollowing == old(isFollowing) && profile == old(profile))
        && (r.Pressed? ==> isFollowing == r.view.isFollowing && profile == Some(r.view.profile))
      ensures loggedIn == old(loggedIn) && closed == old(closed) && loading == old(loading) && crashed == old(crashed)
    {
      if !loggedIn || profile.None? {
        return;
      }
      var previousState := isFollowing;
      var previousProfile := profile.value;
      isFollowing := !isFollowing;
      profile := Some(AdjustFollowers(profile.value, previousState));
      if !(attempt.Answer? && attempt.reply.Success?) {
        isFollowing := previousState;
        profile := Some(previousProfile);
      }
    }
  }

  /** The press after a thrown profile fetch is reachable: a fresh screen whose
      fetch throws is off its spinner with no profile, and a signed-in press on it
      crashes. */
  method ThrownFetchThenFollow() returns (view: PublicProfileView)
    ensures view.crashed
  {
    view := new PublicProfileView(true);
    view.FetchProfile(NetworkError);
    view.HandleFollow(false);
  }
}
