# nexstu-mobile: the follow graph, profile views and screen state, in Dafny

NexStu is a campus social app. It has a React Native client and small PHP
endpoints over a MySQL database. This project models the part of it with real
logic:

- **The follow graph.**
  - `interaction/follow.php` toggles one ordered (follower, followed) pair.
  - `profile/get_public_profile.php` and `profile/get_details.php` count posts,
    likes and follow edges, decide `is_following`, and list a user's posts newest
    first.
- **User search.** `users/search.php` validates the query, returns at most 20
  matching users, and derives a display name from the part of the email before '@'.
- **Client screens.** Their state transitions are modelled: optimistic follow,
  like, save, comment and chat updates; feed pagination; the search-history MRU
  list; the story index; notification bucketing and routing; upload file-name and
  MIME-type derivation; profile display defaults; and the community membership gate.

How the pieces are modelled:

- **Tables** are sequences of rows (`Tables`), so duplicate rows can be stated and
  excluded.
- **The follow table** is owned by a class, `Follow.FollowStore`, whose `Toggle`
  method is proved against the pure function `Follow.Respond`. The counting lemmas
  are proved about `Respond`.
- **The read-only endpoints** are methods that change nothing. They take the tables
  as values and build their post lists with the endpoint's `while` loop.
- **Screens whose handlers assign state step by step** are classes. Each handler is
  a method taking as parameters the server reply, `Date.now()`, `Math.random()`, or
  whether the request threw. Pure helpers are functions.
- **Server replies** are `Base.Reply` (status error with a message, or success with
  data). What a client `fetch` yields is `Base.Response`: a throw, or a reply.

Modules, one per file:

| module | file |
|---|---|
| `Base` | base.dfy |
| `Seqs` | seqs.dfy |
| `JsText` | js_text.dfy |
| `PhpRequest` | php_request.dfy |
| `Tables` | tables.dfy |
| `Follow` | follow.dfy |
| `PublicProfile` | public_profile.dfy |
| `ProfileDetails` | profile_details.dfy |
| `UserSearch` | user_search.dfy |
| one module per screen | `*_screen.dfy` |

## Model

| member | source | states |
|---|---|---|
| Follow.Toggled | backend/api/v1/interaction/follow.php:31-41 | The toggle flips whether the pair is followed. After a follow the pair has exactly one row. Every other pair keeps its row count. |
| Follow.ToggleTwiceRestores | backend/api/v1/interaction/follow.php:31-41 | Two toggles of one pair give back the same set of edges. With at most one row for the pair they give back the same multiset of rows. From an unfollowed pair they give back the identical table. |
| Follow.ToggledKeepsWellFormed | backend/api/v1/interaction/follow.php:23-41 | A toggle of a pair with follower ≠ followed keeps the table free of duplicate rows and self-edges. |
| Follow.ToggleParity | backend/api/v1/interaction/follow.php:31-41 | After n toggles the pair is followed iff it started followed XOR n is odd. |
| Follow.FollowerIds | backend/api/v1/profile/get_public_profile.php:32 | The follower ids of u list each a exactly as often as the row (a, u) occurs. |
| Follow.FollowingIds | backend/api/v1/profile/get_public_profile.php:33 | The followed ids of u list each b exactly as often as the row (u, b) occurs. |
| Follow.FollowersCount | backend/api/v1/profile/get_public_profile.php:32 | The follower count is at most the table size, and it is 0 iff nobody follows u. |
| Follow.FollowingCount | backend/api/v1/profile/get_public_profile.php:33 | The following count is at most the table size, and it is 0 iff u follows nobody. |
| Follow.CountsAreCardinalities | backend/api/v1/profile/get_public_profile.php:32-33 | On a well-formed table, `followers` equals the number of distinct users following u, and `following` equals the number of distinct users u follows. |
| Follow.ToggleMovesCountsByOne | backend/api/v1/interaction/follow.php:33-41 | A toggle of (a, b) moves b's follower count and a's following count by exactly ±1. Every other user's counts are unchanged. |
| Follow.Respond | backend/api/v1/interaction/follow.php:10-41 | "Unauthorized" iff the token is falsy. "Cannot follow yourself" iff the token is truthy and caller = target. Success iff neither. Errors leave the table unchanged. "followed" means the pair was absent and one row was appended. "unfollowed" means it was present and all its rows were deleted. |
| Follow.ReplayKeepsWellFormed | backend/api/v1/interaction/follow.php:23-41 | Any sequence of requests, accepted or rejected, keeps a well-formed table well formed. |
| Follow.FollowStore.Toggle | backend/api/v1/interaction/follow.php:8-41 | The method's reply and new table are exactly `Respond` of the old table. It preserves `Valid`. |
| Follow.FollowStore.constructor | backend/api/v1/interaction/follow.php:28-31 | The store starts out holding the given `follows` table. |
| PhpRequest.BearerRoundTrip | backend/api/v1/interaction/follow.php:8 | `str_replace('Bearer ', '', 'Bearer ' + t)` gives back t when t does not itself contain "Bearer ". |
| PhpRequest.StrReplace | backend/api/v1/interaction/follow.php:8 | An empty search string, or a subject shorter than it, leaves the subject unchanged. Replacing a string by itself changes nothing. A replacement no longer than the search string never lengthens the subject. |
| PhpRequest.TokenOf | backend/api/v1/interaction/follow.php:7-8 | A missing header gives the empty token. The token is never longer than the header. |
| PhpRequest.StrReplaceAbsent | backend/api/v1/interaction/follow.php:8 | `str_replace` leaves a subject without the search string unchanged. |
| PhpRequest.SegmentCount | backend/api/v1/profile/get_public_profile.php:11-12 | `explode('.')` yields at least 2 parts iff the token contains a '.'. |
| PhpRequest.ViewerId | backend/api/v1/profile/get_public_profile.php:9-16 | The viewer id is 0 for a missing or empty header or a token without a '.'. For a truthy token with a '.' it is the id the payload claims. |
| Tables.FindUser | backend/api/v1/profile/get_public_profile.php:22-24 | The user lookup finds nothing iff no row has that id. Otherwise it finds a row of the table with that id. |
| Tables.PostsBy | backend/api/v1/profile/get_public_profile.php:30 | The posts selected for u are exactly the table's posts with `user_id` = u, each with its multiplicity. |
| Tables.LikesReceived | backend/api/v1/profile/get_public_profile.php:31 | The JOIN count is 0 iff no like joins a post of u. |
| Tables.JoinedAtMostOne | backend/api/v1/profile/get_details.php:26-31 | With unique post ids, a like joins at most one post row, and it joins one iff its post belongs to u. |
| Tables.LikesReceivedCountsLikes | backend/api/v1/profile/get_details.php:26-31 | With unique post ids, the JOIN count equals the number of likes on u's posts. |
| Tables.InsertByDate | backend/api/v1/profile/get_public_profile.php:43 | One insertion step of the sort keeps the rows as a multiset and puts the newer of the two heads first. |
| Tables.InsertKeepsOrder | backend/api/v1/profile/get_public_profile.php:43 | Inserting into a newest-first list keeps it newest first. |
| Tables.NewestFirst | backend/api/v1/profile/get_details.php:34 | `ORDER BY created_at DESC` gives a permutation of its input in which `created_at` never increases. |
| Tables.ProfilePostsAreTheUsers | backend/api/v1/profile/get_public_profile.php:43-45 | The profile post list is newest first and holds exactly u's posts, each as often as in the table. |
| PublicProfile.GetPublicProfile | backend/api/v1/profile/get_public_profile.php:9-60 | "User not found" iff no user has the target id. On success the reply carries that user's id and email. `posts`, `likes`, `followers` and `following` equal the counts over the tables. `is_following` is true iff the viewer id is > 0 and the viewer follows the target. The post cards are the target's rows, newest first. |
| PublicProfile.CardsOf | backend/api/v1/profile/get_public_profile.php:44-45 | The fetch loop yields one card per row, in row order. |
| PublicProfile.OwnProfileNeverFollowed | backend/api/v1/profile/get_public_profile.php:36-40 | On a well-formed table nobody is shown as following their own profile. |
| PublicProfile.AnonymousViewerNeverFollows | backend/api/v1/profile/get_public_profile.php:9-40 | Without a header, or with a token without a '.', `is_following` is false. |
| ProfileDetails.GetDetails | backend/api/v1/profile/get_details.php:10-51 | "Unauthorized" iff the token is falsy. On success `posts` is the caller's post count and `likes_received` the JOIN count. `followers` is 0 whatever the follow table holds. The posts are the caller's, newest first. Nothing is modified. |
| ProfileDetails.SummariesOf | backend/api/v1/profile/get_details.php:36-39 | The fetch loop yields one summary per row, in row order. |
| UserSearch.MatchingUsers | backend/api/v1/users/search.php:18 | The matching rows are exactly the users whose email contains the term or whose id renders as the term, in table order. |
| UserSearch.EmailName | backend/api/v1/users/search.php:26 | The name is the prefix of the email up to its first '@' (which it does not contain), or the whole email when there is no '@'. |
| UserSearch.Search | backend/api/v1/users/search.php:7-31 | A query shorter than 2 characters, a missing one included, is the error "Type at least 2 characters". Any other query succeeds. It returns min(matches, 20) hits, the first matches in order. Each hit is a matching user's id, email, created_at and derived name, with no password. |
| UserSearch.HitsOf | backend/api/v1/users/search.php:24-28 | The fetch loop yields one hit per row, in row order. |
| PublicProfileScreen.DisplayName | src/screens/PublicProfileScreen.js:87 | The name is `full_name` when non-empty, else "Student <id>", else "Student ?". |
| PublicProfileScreen.Initial | src/screens/PublicProfileScreen.js:86 | The initial is the upper-cased first character of the email, else "U". |
| PublicProfileScreen.DisplayBio | src/screens/PublicProfileScreen.js:88 | The bio is `bio` when non-empty, else "University of Nigeria, Nsukka". |
| PublicProfileScreen.AvatarUrl | src/screens/PublicProfileScreen.js:89 | An avatar is shown iff `avatar_url` is non-empty, with `?r=` and the random value appended. |
| PublicProfileScreen.ShownStats | src/screens/PublicProfileScreen.js:90 | With no profile loaded the stats are all zeros. Otherwise they are the profile's stats. |
| PublicProfileScreen.ServerProfileShowsStudentId | src/screens/PublicProfileScreen.js:87 | The profile from get_public_profile.php has no `full_name`, so the screen always shows "Student <id>". |
| PublicProfileScreen.AdjustFollowers | src/screens/PublicProfileScreen.js:66-72 | `followers` goes up by one when going from not following to following, and down by one otherwise. No other stat or profile field changes. |
| PublicProfileScreen.FollowedCountText | src/screens/PublicProfileScreen.js:70 | The code as written on a served count: the follow direction appends "1" to the count text, since mysqli serves `COUNT(*)` as a string. |
| PublicProfileScreen.ServedCountConcatenates | src/screens/PublicProfileScreen.js:70 | A profile served with 5 followers shows "51" after a follow. The numeric update `AdjustFollowers` gives 6. |
| PublicProfileScreen.FollowStep | src/screens/PublicProfileScreen.js:61-81 | Signed out, nothing changes. Otherwise `isFollowing` flips and the count moves. On a request failure only `isFollowing` is restored. |
| PublicProfileScreen.FollowStepRefinesToggle | src/screens/PublicProfileScreen.js:63-72 | If the screen agrees with the table and follow.php accepts the toggle, the screen agrees with the new table, counting followers as numbers. |
| PublicProfileScreen.FailedFollowLeavesStaleCount | src/screens/PublicProfileScreen.js:80 | The code as written: a failed request on a consistent screen leaves `isFollowing` right but the count off by one. |
| PublicProfileScreen.SelfFollowFlipsScreenOnly | src/screens/PublicProfileScreen.js:74-80 | The code as written: the "Cannot follow yourself" reply is ignored. The table is unchanged but the screen flips to following. |
| PublicProfileScreen.FollowStepChecked | src/screens/PublicProfileScreen.js:61-81 | The corrected step: a success keeps the optimistic update; an error reply or a throw rolls back both fields. |
| PublicProfileScreen.FollowStepCheckedKeepsConsistency | src/screens/PublicProfileScreen.js:61-81 | Whatever follow.php does (answers, rejects, or the request fails before reaching it), the corrected step keeps the screen consistent with the table. |
| PublicProfileScreen.PressFollow | src/screens/PublicProfileScreen.js:61-83 | The code as written: signed out, the press only raises "Login Required". Signed in with no profile loaded, it crashes. Otherwise it is `FollowStep`. It is never ignored. |
| PublicProfileScreen.PressFollowChecked | src/screens/PublicProfileScreen.js:61-83 | The corrected press: signed out, the "Login Required" alert. Signed in with no profile, the press is ignored. Otherwise it is `FollowStepChecked`. It never crashes. |
| PublicProfileScreen.FollowWithoutProfileCrashes | src/screens/PublicProfileScreen.js:66-72 | The code as written: a signed-in press with no profile loaded crashes the screen. |
| PublicProfileScreen.CheckedPressNeverCrashes | src/screens/PublicProfileScreen.js:61-83 | The corrected press never crashes, and without a profile it is ignored. |
| PublicProfileScreen.ThrownFetchThenFollow | src/screens/PublicProfileScreen.js:26-83 | The crash is reachable: on a fresh signed-in screen whose profile fetch throws, pressing Follow crashes it. |
| PublicProfileScreen.PublicProfileView.constructor | src/screens/PublicProfileScreen.js:12-16 | No profile, not following, the spinner up, and the session as given. |
| PublicProfileScreen.PublicProfileView.FetchProfile | src/screens/PublicProfileScreen.js:26-40 | A success installs the profile and its `is_following`. An error reply leaves both as they were and closes the screen. A throw leaves everything as it was. The spinner is down afterwards in every case. |
| PublicProfileScreen.PublicProfileView.HandleFollow | src/screens/PublicProfileScreen.js:61-83 | The press follows `PressFollow`. Signed out, nothing changes. With no profile the screen crashes. Otherwise the new (isFollowing, profile) is `FollowStep` of the old one. |
| PublicProfileScreen.PublicProfileView.HandleFollowChecked | src/screens/PublicProfileScreen.js:61-83 | The press follows `PressFollowChecked`. Signed out or with no profile, nothing changes. Otherwise the new (isFollowing, profile) is `FollowStepChecked` of the old one. It never crashes. |
| FeedScreen.Normalize | src/screens/FeedScreen.js:80-86 | isLiked iff `is_liked == 1`, isSaved iff `is_saved == 1`, counts default to 0, and the raw row is kept. |
| FeedScreen.NormalizePage | src/screens/FeedScreen.js:80-86 | The page is normalised post by post, keeping its length and order. |
| FeedScreen.Merged | src/screens/FeedScreen.js:88-89 | A reset replaces the list with the new page. Otherwise the old posts stay as a prefix, followed by the page. |
| FeedScreen.LikeToggled | src/screens/FeedScreen.js:130-135 | At the index, isLiked flips and likes_count goes +1 if now liked, else −1. Nothing else at that index changes. The length and every other entry are unchanged. |
| FeedScreen.SaveToggled | src/screens/FeedScreen.js:140 | Only isSaved at the index flips. |
| FeedScreen.LikeTwiceRestores | src/screens/FeedScreen.js:132-134 | Two likes on one index restore the list, flag and count. |
| FeedScreen.SaveTwiceRestores | src/screens/FeedScreen.js:140 | Two saves on one index restore the list. |
| FeedScreen.FeedView.constructor | src/screens/FeedScreen.js:14-22 | No posts, page 1, `hasMore` true, not loading more, and the spinner up. |
| FeedScreen.FeedView.FetchPosts | src/screens/FeedScreen.js:73-92 | A success merges the page and clears `hasMore` when it holds fewer than 10 posts. An error reply clears `hasMore`. A throw changes nothing. |
| FeedScreen.FeedView.Refresh | src/screens/FeedScreen.js:55-62 | After a refresh the state is back on page 1 with `hasMore` reset before the page is merged. On success the list is the new page. |
| FeedScreen.FeedView.LoadInitialData | src/screens/FeedScreen.js:46-53 | As `Refresh`, and the spinner is down afterwards. |
| FeedScreen.FeedView.HandleLoadMore | src/screens/FeedScreen.js:64-71 | While loading, at the end, or already loading more, nothing happens. Otherwise page + 1 is requested, the page is appended on success, and `page` becomes page + 1 whatever the answer. `hasMore` stays true only for a full page of 10 or a throw; a short page or an error reply clears it. |
| FeedScreen.FeedView.HandleLike | src/screens/FeedScreen.js:130-135 | The list becomes `LikeToggled` of the old list. |
| FeedScreen.FeedView.HandleSave | src/screens/FeedScreen.js:139-140 | The list becomes `SaveToggled` of the old list. |
| SinglePostScreen.Loaded | src/screens/SinglePostScreen.js:21-22 | isLiked iff `is_liked == 1` and isSaved iff `is_saved == 1`. The server fields are kept. |
| SinglePostScreen.LikeFlipped | src/screens/SinglePostScreen.js:31 | Only isLiked flips. |
| SinglePostScreen.SaveFlipped | src/screens/SinglePostScreen.js:42 | Only isSaved flips. |
| SinglePostScreen.TogglesUndoAndCommute | src/screens/SinglePostScreen.js:31-42 | Each toggle undoes itself, and like and save commute. |
| SinglePostScreen.SinglePostView.constructor | src/screens/SinglePostScreen.js:7-9 | No post, the spinner up, and no error text. |
| SinglePostScreen.Render | src/screens/SinglePostScreen.js:75-91 | The screen shows a spinner iff loading, else the error text when there is no post, else the post. The delete button is shown iff `post.user_id` is the user's id (`isOwner`, line 78). |
| SinglePostScreen.SinglePostView.FetchPost | src/screens/SinglePostScreen.js:13-28 | A success shows the post with its flags. An error reply keeps no post and shows the message, or "Post not found". A throw shows "Network Error". Loading ends in every case. |
| SinglePostScreen.SinglePostView.HandleLike | src/screens/SinglePostScreen.js:31 | The post becomes `LikeFlipped` of the old post. |
| SinglePostScreen.SinglePostView.HandleSave | src/screens/SinglePostScreen.js:42 | The post becomes `SaveFlipped` of the old post. |
| SearchScreen.SaveToHistory | src/screens/SearchScreen.js:44 | Empty text leaves the history unchanged. Otherwise the text is first and occurs exactly once. The length is min(1 + others, 10). The rest are the other entries in their old order. |
| SearchScreen.SaveKeepsOrder | src/screens/SearchScreen.js:44 | The entries after the first are a subsequence of the old history. |
| SearchScreen.SaveIdempotent | src/screens/SearchScreen.js:44 | Saving a text twice gives the same list as saving it once. |
| SearchScreen.RemoveFromHistory | src/screens/SearchScreen.js:45 | Every copy of the text is removed. The rest keep their order and multiplicities. |
| SearchScreen.RemoveUndoesSave | src/screens/SearchScreen.js:44-45 | Removing a just-saved text leaves the surviving old entries, in order. |
| SearchScreen.HandleSearch | src/screens/SearchScreen.js:32-42 | An empty box clears the results and sends no request. Otherwise a success replaces the results and anything else keeps them. |
| SearchScreen.UserClick | src/screens/SearchScreen.js:46 | The hit's name (or the query when the name is empty) goes to the front of the history, and the hit's profile opens. |
| StoryViewerScreen.Bars | src/screens/StoryViewerScreen.js:68-70 | There is one bar per story, and bar i is active iff i ≤ currentIndex. |
| StoryViewerScreen.LitBars | src/screens/StoryViewerScreen.js:68-70 | With the index on a story, exactly currentIndex + 1 bars are active. |
| StoryViewerScreen.StoryViewer.constructor | src/screens/StoryViewerScreen.js:8-11 | The index starts at 0. The stories are the preloaded ones or empty. The spinner is shown iff none were preloaded. |
| StoryViewerScreen.StoryViewer.FetchUserStories | src/screens/StoryViewerScreen.js:19-29 | A success installs the stories. An error reply or a throw closes the viewer. The index stays in range. |
| StoryViewerScreen.StoryViewer.HandleNext | src/screens/StoryViewerScreen.js:31-37 | The index goes up by one while below length − 1. Otherwise the viewer closes with the index unchanged. The index stays in range. |
| StoryViewerScreen.StoryViewer.HandlePrev | src/screens/StoryViewerScreen.js:39-45 | The index goes down by one while above 0. Otherwise the viewer closes. The index stays in range. |
| StoryViewerScreen.StoryViewer.Render | src/screens/StoryViewerScreen.js:47-71 | The screen shows a spinner while loading and nothing for an empty list. Otherwise it shows the story at the index with its bars. |
| ActivityScreen.Grouped | src/screens/ActivityScreen.js:25-29 | There are at most three sections and none is empty. A section titled New holds items [0,2), Today [2,5) and This Week [5,n). The first section is New whenever there are items. |
| ActivityScreen.GroupedShape | src/screens/ActivityScreen.js:25-29 | The sections exactly, in order: New when there is an item, then Today iff there are more than 2, then This Week iff there are more than 5. There are no other sections. |
| ActivityScreen.GroupingLosesNothing | src/screens/ActivityScreen.js:25-29 | Concatenating the sections gives back the notification list. |
| ActivityScreen.Destination | src/screens/ActivityScreen.js:36-46 | 'follow' goes to the actor's profile. 'like' or 'comment' with a truthy post id goes to the post. Anything else with a truthy actor id goes to the actor's profile. Otherwise nothing happens; each case holds in both directions. |
| CreatePostScreen.FileName | src/screens/CreatePostScreen.js:25 | The file name is the URI's text after its last '/', or the whole URI without one. |
| CreatePostScreen.MimeType | src/screens/CreatePostScreen.js:26-27 | The type is "image", or "image/" followed by a run of word characters that follows a '.' and ends the name. |
| CreatePostScreen.MimeTypeOfExtension | src/screens/CreatePostScreen.js:26-27 | A name ending in '.' plus word characters gets "image/" plus those characters. |
| CreatePostScreen.MimeTypeWithoutExtension | src/screens/CreatePostScreen.js:26-27 | When the last '.' is followed by nothing or by a non-word character, or there is no '.', the type is "image". |
| CreatePostScreen.BuildPost | src/screens/CreatePostScreen.js:18-29 | With neither caption nor image nothing is sent. Otherwise the caption part always comes first, and a media part with the URI, file name and type follows iff there is an image. |
| CreatePostScreen.AfterPosting | src/screens/CreatePostScreen.js:35-39 | `onPostSuccess` runs iff the status is success. A throw raises "Error: " plus its message. |
| CommentsScreen.AvatarOf | src/screens/CommentsScreen.js:59-63 | The avatar shows the picture when there is one, else the upper-cased first letter of the name. |
| CommentsScreen.CommentsView.constructor | src/screens/CommentsScreen.js:7-9 | An empty thread, an empty box, and the spinner up. |
| CommentsScreen.CommentsView.FetchComments | src/screens/CommentsScreen.js:15-23 | A success replaces the thread. Anything else keeps it. |
| CommentsScreen.CommentsView.HandlePostComment | src/screens/CommentsScreen.js:25-38 | Whitespace-only text changes nothing. Otherwise the box is cleared, and exactly one comment (id now, 'Me', the untrimmed text, no avatar) is appended after the unchanged old thread. Having no avatar, it is drawn with the letter "M". |
| ChatScreen.ChatView.constructor | src/screens/ChatScreen.js:9-14 | The title is the receiver's name or 'Student'. The box holds the initial message or ''. |
| ChatScreen.ChatView.FetchMessages | src/screens/ChatScreen.js:22-31 | A success replaces the messages. Anything else keeps them. |
| ChatScreen.ChatView.SendMessage | src/screens/ChatScreen.js:33-68 | Blank text with no image does nothing. Otherwise one message (id now, the user, the old text, the image URI or none, unread) is appended and the box is cleared. The request carries the old text, as JSON without an image and as form data with one. `uploading` ends false unless the request threw. |
| ProfileScreen.StatShown | src/screens/ProfileScreen.js:63 | A stat box shows the count when it is truthy, else 0. |
| ProfileScreen.DisplayName | src/screens/ProfileScreen.js:37 | The name is `full_name` when non-empty, else "Student". |
| ProfileScreen.DisplayBio | src/screens/ProfileScreen.js:38 | The bio is `bio` when non-empty, else "No bio yet.". |
| ProfileScreen.AvatarUrl | src/screens/ProfileScreen.js:39 | An avatar is shown iff `avatar_url` is non-empty, with `?r=` and the random value appended. |
| ProfileScreen.ReplaceSpaceRuns | src/screens/ProfileScreen.js:74 | The result contains no white space and is no longer than the input. |
| ProfileScreen.PlainPrefix | src/screens/ProfileScreen.js:74 | Text without white space passes through the replacement unchanged. |
| ProfileScreen.SpaceRunBecomesOneUnderscore | src/screens/ProfileScreen.js:74 | A whole run of white space becomes a single '_'. |
| ProfileScreen.Handle | src/screens/ProfileScreen.js:74 | The handle starts with '@' and is at most one character longer than the display name. |
| ProfileScreen.HandleShape | src/screens/ProfileScreen.js:74 | The handle is '@' followed by characters that are neither white space nor ASCII upper case. |
| ProfileScreen.HandleOfTwoWords | src/screens/ProfileScreen.js:74 | Two words separated by any white space give '@' + lower(first + '_' + last). |
| JsText.CacheBusted | src/screens/ProfileScreen.js:39 | An avatar is shown iff `avatar_url` is non-empty, and its URL is `avatar_url` with the random cache-buster `?r=` appended. The public profile uses the same rule at src/screens/PublicProfileScreen.js line 89. |
| ProfileScreen.AvatarTap | src/screens/ProfileScreen.js:41-43 | Tapping the avatar opens the story viewer iff the user has a story, with the user's id, name and avatar. |
| ProfileScreen.TabPress | src/screens/ProfileScreen.js:140 | SAVED opens the Saved screen and leaves the active tab. Any other tab becomes active and opens nothing. |
| ProfileScreen.OwnProfileAsServed | src/screens/ProfileScreen.js:28-39 | On the reply get_details.php actually sends, the screen shows "Student" and "@student" with "No bio yet.". Following and likes show 0, because the reply has no `following` or `likes`. The story viewer never opens. |
| GroupsScreen.JoinLabel | src/screens/GroupsScreen.js:97 | The label is 'Joined' iff `is_member == 1`, else 'Join'. |
| GroupsScreen.OpenGroupChat | src/screens/GroupsScreen.js:72-83 | The group chat opens iff `is_member == 1`. Otherwise "Join First" is shown. |
| GroupsScreen.LabelMatchesGate | src/screens/GroupsScreen.js:73-97 | 'Joined' is shown exactly for the groups whose chat opens. |
| GroupsScreen.GroupsView.constructor | src/screens/GroupsScreen.js:8-15 | No groups, the spinner up, the modal closed, both fields empty, not creating, and no alert. |
| GroupsScreen.GroupsView.FetchGroups | src/screens/GroupsScreen.js:19-27 | A success replaces the list. Anything else keeps it. |
| GroupsScreen.GroupsView.HandleCreate | src/screens/GroupsScreen.js:29-58 | A blank name raises "Please enter a group name" and sends nothing. Otherwise the name and description are sent. A success closes the modal, empties both fields and says "Community Created!". An error reply keeps the fields and shows the message or "Failed to create group". A throw keeps them and shows "Could not connect to server". `creating` ends false. |
| JsText.TrimEmptyIffBlank | src/screens/CommentsScreen.js:26 | `!text.trim()` holds exactly for whitespace-only text. |
| Seqs.Without | src/screens/SearchScreen.js:45 | Filtering out x removes every copy of x and keeps every other element's count. |
| Seqs.WithoutIsSubsequence | src/screens/SearchScreen.js:45 | Filtering keeps the surviving elements in order. |
| Seqs.AfterLast | src/screens/CreatePostScreen.js:25 | `split(x).pop()` is the suffix after the last x, which contains no x. It is the whole sequence iff x does not occur. |

## Left out

- Network and storage:
  - HTTP, URLs, JSON, FormData, Blob and the `mysqli` connection are not modelled.
  - The tables are values, and every server reply is an input.
  - AsyncStorage and SecureStore writes are not modelled.
  - Lines 30, 44 and 45 of src/screens/SearchScreen.js store the history list computed by `SaveToHistory` and `RemoveFromHistory`.
- Token decoding:
  - The base64 and JSON decoding of the token's middle segment is not modelled.
  - The id it yields is an input (`callerId`, `claim`).
  - A truthy token without a '.' makes follow.php read an undefined segment. The model still passes the caller id in.
- Database semantics:
  - Isolation and the race between two concurrent toggles are not modelled.
  - Query interpolation and escaping are not modelled.
  - For the email match, MySQL `LIKE` wildcards and collation case rules are not modelled. It is plain substring containment.
  - `id = '$term'` is modelled as the decimal rendering of the id equalling the term. MySQL's numeric coercion of strings such as "7abc" is not modelled.
  - `LIMIT 20` without `ORDER BY` keeps the first 20 matches in table order.
  - Ties under `ORDER BY created_at DESC` are put in one fixed order. MySQL leaves their order unspecified.
- Counts as strings: mysqli returns `COUNT(*)` as a string, so `followers + 1` on the client concatenates. Outside `FollowedCountText`, the model treats every count as a number. `FollowStepRefinesToggle` and `FollowStepCheckedKeepsConsistency` hold only under that abstraction (see Findings).
- UserSearch.Search: the length test counts characters. PHP's `strlen` counts bytes, so a single two-byte character passes the server's check but not the model's.
- JsText.ToLower, JsText.UpperChar: only ASCII letters change case. JavaScript's full Unicode case mapping is not modelled.
- Loose equality:
  - `== 1` and the id comparisons are on integers.
  - The string "1" and `true`, which JavaScript also accepts, are not modelled.
  - A missing error `message` is modelled as the empty string. Both are falsy, so the default text applies in both.
- Nondeterminism: `Date.now()`, `Math.random()` and the image picker are parameters. The 3-second chat poll is not modelled; `FetchMessages` is one poll.
- Asynchronous follow-ups: the `fetchComments()`, `fetchMessages()` and `fetchGroups()` calls that handlers start without awaiting are not folded into the handlers. Each is its own method.
- Concurrency between handlers and in-flight requests of one screen is not modelled. Each handler runs to completion on the state it started from.
- FeedScreen:
  - The stories strip, story upload, unread badge and `isRefreshing` spinner are not modelled.
  - `handleLike` mutates the post objects it shares with the previous list. The model gives the new list by value, which is what the screen renders.
- FeedScreen.FeedView.HandleLike, FeedScreen.FeedView.HandleSave: require an index into the list. The screen only calls them from a rendered row.
- SinglePostScreen.SinglePostView.HandleLike, SinglePostScreen.SinglePostView.HandleSave: require a loaded post. SinglePostScreen.js renders the post's buttons only when there is a post.
- PublicProfileScreen.PublicProfileView.HandleFollow, PublicProfileScreen.PublicProfileView.HandleFollowChecked: require only that the spinner is gone (line 83). The profile may still be missing, and that case is modelled (see Findings).
- PublicProfileScreen.PublicProfileView.HandleFollow: after a crash, the model records only that the screen crashed. The follow POST that the handler still sends is not modelled.
- StoryViewerScreen.StoryViewer.HandleNext, StoryViewerScreen.StoryViewer.HandlePrev: require the index invariant. It holds from construction on.
- PublicProfileScreen: `checkStory` and the avatar's story tap are not modelled.
- SinglePostScreen: `confirmDelete` and the likes-list navigation are not modelled. They only POST and navigate.
- GroupsScreen: `handleJoin` is not modelled. It only POSTs and refetches.
- ChatScreen: which side a bubble is drawn on (line 76, sender = user) is rendering and is not modelled.
- ChatScreen.ChatView.SendMessage: the web-only fetch of the image blob is folded into `sendThrows`.
- Rendering, styles, theming, navigation wiring is not modelled, and neither are the screens outside the core. Those are InboxScreen, MarketScreen, LoginScreen, EditProfileScreen, ReelsScreen, SavedScreen, UserListScreen and SettingsScreen.
- Mismatches between client and server that the model records:
  - get_public_profile.php sends no `full_name`: see `PublicProfileScreen.ServerProfileShowsStudentId`.
  - get_details.php sends no `user`, `has_story`, `following` or `likes`: see `ProfileScreen.OwnProfileAsServed`.

## Findings

| source | as written | input that shows it | evidently intended | confidence | as-written member | corrected member |
|---|---|---|---|---|---|---|
| src/screens/PublicProfileScreen.js:80 | On a failed request, `handleFollow` restores only `isFollowing`; the follower count adjusted at lines 66-72 is not reverted. | A consistent screen (not following, 5 followers) whose follow request throws: it ends at not following with 6 followers. | Roll back both `isFollowing` and the follower count, so the screen stays consistent with the table. | medium, not executed | PublicProfileScreen.FailedFollowLeavesStaleCount | PublicProfileScreen.FollowStepCheckedKeepsConsistency |
| src/screens/PublicProfileScreen.js:74-80 | `handleFollow` never reads the reply, so an error status such as "Cannot follow yourself" keeps the optimistic flip. | A user opening their own profile and pressing Follow: follow.php rejects it and the table is unchanged, yet the screen shows "following" with one more follower. | Treat an error reply like a failure and roll the screen back. | medium, not executed | PublicProfileScreen.SelfFollowFlipsScreenOnly | PublicProfileScreen.FollowStepCheckedKeepsConsistency |
| src/screens/PublicProfileScreen.js:66-72 | The Follow button is rendered once `loading` is false (line 83), and a thrown profile fetch leaves it false with `profile` null. The updater then reads `prev.stats` of null. | A signed-in user opens a profile while the fetch throws, then presses Follow: a TypeError crashes the screen. | Ignore the press, or hide the button, until a profile is loaded. | medium, not executed | PublicProfileScreen.FollowWithoutProfileCrashes | PublicProfileScreen.CheckedPressNeverCrashes |
| src/screens/PublicProfileScreen.js:70 | mysqli serves `COUNT(*)` as a string, so `prev.stats.followers + 1` concatenates. | A profile served with `followers` "5" becomes "51" after a follow. | Add one to the number of followers, showing 6. | medium (assumes mysqli's default string results), not executed | PublicProfileScreen.ServedCountConcatenates | PublicProfileScreen.AdjustFollowers |
