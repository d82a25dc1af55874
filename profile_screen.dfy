/** src/screens/ProfileScreen.js: the signed-in user's own profile, filled from
    profile/get_details.php. */
module ProfileScreen {
  import opened Base
  import opened JsText
  import ProfileDetails

  /** The `user` object the screen reads; the fields are None when absent (the
      screen starts from `{}`). */
  datatype ProfileFields = ProfileFields(fullName: Option<string>, bio: Option<string>, avatarUrl: Option<string>)

  const NoFields := ProfileFields(None, None, None)

  /** The `stats` keys the four stat boxes read. */
  datatype StatFields = StatFields(posts: Option<int>, followers: Option<int>, following: Option<int>, likes: Option<int>)

  /** `profileData?.full_name || 'Student'`. */
  function DisplayName(p: ProfileFields): (name: string)
    ensures p.fullName.Some? && p.fullName.value != "" ==> name == p.fullName.value
    ensures p.fullName.None? || p.fullName.value == "" ==> name == "Student"
  {
    OrElse(p.fullName, "Student")
  }

  /** `profileData?.bio || 'No bio yet.'`. */
  function DisplayBio(p: ProfileFields): (bio: string)
    ensures p.bio.Some? && p.bio.value != "" ==> bio == p.bio.value
    ensures p.bio.None? || p.bio.value == "" ==> bio == "No bio yet."
  {
    OrElse(p.bio, "No bio yet.")
  }

  /** `StatBox`'s `count || 0`. */
  function StatShown(count: Option<int>): (n: int)
    ensures Truthy(count) ==> n == count.value
    ensures !Truthy(count) ==> n == 0
  {
    if Truthy(count) then count.value else 0
  }

  predicate NoSpace(s: string) {
    forall i :: 0 <= i < |s| ==> !IsSpace(s[i])
  }

  /** `s.replace(/\s+/g, '_')`: each maximal run of white space becomes one '_'. */
  function ReplaceSpaceRuns(s: string): (r: string)
    ensures NoSpace(r)
    ensures |r| <= |s|
    decreases |s|
  {
    if s == [] then []
    else if IsSpace(s[0]) then "_" + ReplaceSpaceRuns(TrimStart(s))
    else [s[0]] + ReplaceSpaceRuns(s[1..])
  }

  /** Text without white space passes through unchanged. */
  lemma {:induction false} PlainPrefix(x: string, y: string)
    requires NoSpace(x)
    ensures ReplaceSpaceRuns(x + y) == x + ReplaceSpaceRuns(y)
  {
    if x == [] {
      assert x + y == y;
    } else {
      var rest := x[1..];
      assert x + y == [x[0]] + (rest + y);
      assert NoSpace(rest) by {
        forall i | 0 <= i < |rest| ensures !IsSpace(rest[i]) {
          assert rest[i] == x[i + 1];
        }
      }
      PlainPrefix(rest, y);
      assert !IsSpace(x[0]);
      calc {
        ReplaceSpaceRuns(x + y);
        ReplaceSpaceRuns([x[0]] + (rest + y));
        { PlainHead(x[0], rest + y); }
        [x[0]] + ReplaceSpaceRuns(rest + y);
        [x[0]] + (rest + ReplaceSpaceRuns(y));
        { assert x == [x[0]] + rest; }
        x + ReplaceSpaceRuns(y);
      }
    }
  }

  lemma PlainHead(c: char, t: string)
    requires !IsSpace(c)
    ensures ReplaceSpaceRuns([c] + t) == [c] + ReplaceSpaceRuns(t)
  {
    assert ([c] + t)[0] == c && ([c] + t)[1..] == t;
  }

  lemma Unchanged(x: string)
    requires NoSpace(x)
    ensures ReplaceSpaceRuns(x) == x
  {
    PlainPrefix(x, []);
    assert x + [] == x;
  }

  lemma {:induction false} TrimBlankPrefix(w: string, q: string)
    requires Blank(w)
    requires q == [] || !IsSpace(q[0])
    ensures TrimStart(w + q) == q
  {
    if w == [] {
      assert w + q == q;
    } else {
      assert (w + q)[1..] == w[1..] + q;
      TrimBlankPrefix(w[1..], q);
    }
  }

  /** A whole run of white space, however long, becomes a single '_'. */
  lemma SpaceRunBecomesOneUnderscore(w: string, q: string)
    requires w != [] && Blank(w)
    requires q == [] || !IsSpace(q[0])
    ensures ReplaceSpaceRuns(w + q) == "_" + ReplaceSpaceRuns(q)
  {
    TrimBlankPrefix(w, q);
  }

  /** The header handle: '@', then the name with white-space runs as '_', lower-cased. */
  function Handle(displayName: string): (h: string)
    ensures |h| >= 1 && h[0] == '@' && |h| <= |displayName| + 1
  {
    "@" + ToLower(ReplaceSpaceRuns(displayName))
  }

  /** The handle is '@' and then no white space and no capital letter, and it is at
      most one character longer than the name. */
  lemma HandleShape(displayName: string)
    ensures var h := Handle(displayName);
      |h| >= 1 && h[0] == '@' &&
      (forall i :: 1 <= i < |h| ==> !IsSpace(h[i]) && !('A' <= h[i] <= 'Z')) &&
      |h| <= |displayName| + 1
  {
    var r := ReplaceSpaceRuns(displayName);
    var l := ToLower(r);
    forall i | 0 <= i < |l| ensures !IsSpace(l[i]) && !('A' <= l[i] <= 'Z') {
      assert l[i] == LowerChar(r[i]);
      assert !IsSpace(r[i]);
    }
  }

  /** Two words separated by any white space: "Ada  Lovelace" gives "@ada_lovelace". */
  lemma HandleOfTwoWords(first: string, gap: string, last: string)
    requires NoSpace(first) && NoSpace(last)
    requires gap != [] && Blank(gap)
    ensures Handle(first + gap + last) == "@" + ToLower(first + "_" + last)
  {
    assert first + gap + last == first + (gap + last);
    TwoWordsReplaced(first, gap, last);
  }

  lemma TwoWordsReplaced(first: string, gap: string, last: string)
    requires NoSpace(first) && NoSpace(last)
    requires gap != [] && Blank(gap)
    ensures ReplaceSpaceRuns(first + (gap + last)) == first + "_" + last
  {
    calc {
      ReplaceSpaceRuns(first + (gap + last));
      { PlainPrefix(first, gap + last); }
      first + ReplaceSpaceRuns(gap + last);
      { SpaceRunBecomesOneUnderscore(gap, last); Unchanged(last); }
      first + ("_" + last);
      first + "_" + last;
    }
  }

  /** The avatar, with `random` standing for `Math.random()`. */
  function AvatarUrl(p: ProfileFields, random: string): (url: Option<string>)
    ensures url.Some? <==> p.avatarUrl.Some? && p.avatarUrl.value != ""
    ensures url.Some? ==> url.value == p.avatarUrl.value + "?r=" + random
  {
    CacheBusted(p.avatarUrl, random)
  }

  /** The parameters `handleAvatarClick` passes to the story viewer. */
  datatype StoryViewerParams = StoryViewerParams(userId: int, userName: string, userAvatar: Option<string>)

  /** `handleAvatarClick`: opens the story viewer only when the user has a story. */
  function AvatarTap(hasStory: bool, userId: int, p: ProfileFields, random: string): (r: Option<StoryViewerParams>)
    ensures r.Some? <==> hasStory
    ensures r.Some? ==> r.value == StoryViewerParams(userId, DisplayName(p), AvatarUrl(p, random))
  {
    if hasStory then Some(StoryViewerParams(userId, DisplayName(p), AvatarUrl(p, random))) else None
  }

  datatype Tab = PostsTab | ReelsTab | SavedTab

  /** A tab press: the new active tab, and whether the Saved screen opens. */
  function TabPress(active: Tab, pressed: Tab): (r: (Tab, bool))
    ensures r.1 <==> pressed == SavedTab
    ensures pressed == SavedTab ==> r.0 == active
    ensures pressed != SavedTab ==> r.0 == pressed
  {
    if pressed == SavedTab then (active, true) else (pressed, false)
  }

  /** What `fetchProfileData` installs from a success reply of get_details.php:
      `user || {}`, the stats object, the posts, and `has_story`. */
  datatype Loaded = Loaded(fields: ProfileFields, stats: StatFields, posts: seq<ProfileDetails.PostSummary>, hasStory: bool)

  function FromDetails(d: ProfileDetails.Details): Loaded {
    var s := d.stats;
    Loaded(NoFields, StatFields(Some(s.posts), Some(s.followers), None, None), d.posts, false)
  }

  /** get_details.php sends neither `user`, `has_story`, `following` nor `likes`
      (it names the likes `likes_received`), so the own profile always reads
      "Student" / "@student", shows 0 for followers, following and likes, and never
      opens the story viewer. */
  lemma OwnProfileAsServed(d: ProfileDetails.Details, userId: int, random: string)
    ensures DisplayName(FromDetails(d).fields) == "Student"
    ensures Handle(DisplayName(FromDetails(d).fields)) == "@student"
    ensures DisplayBio(FromDetails(d).fields) == "No bio yet."
    ensures StatShown(FromDetails(d).stats.posts) == d.stats.posts
    ensures StatShown(FromDetails(d).stats.followers) == d.stats.followers
    ensures StatShown(FromDetails(d).stats.following) == 0 && StatShown(FromDetails(d).stats.likes) == 0
    ensures AvatarTap(FromDetails(d).hasStory, userId, FromDetails(d).fields, random) == None
  {
    StudentHandle();
  }

  /** The default name's handle. */
  lemma StudentHandle()
    ensures Handle("Student") == "@student"
  {
    StudentUnchanged();
    StudentLower();
  }

  lemma StudentLower()
    ensures ToLower("Student") == "student"
  {
    var l := ToLower("Student");
    assert LowerChar('S') == 's';
    assert l[0] == 's' && l[1..] == "tudent";
  }

  lemma StudentUnchanged()
    ensures ReplaceSpaceRuns("Student") == "Student"
  {
    assert NoSpace("Student");
    Unchanged("Student");
  }
}
