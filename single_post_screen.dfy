/** src/screens/SinglePostScreen.js: one post opened from a notification or a
    profile grid, with like / save toggles and an owner-only delete button. */
module SinglePostScreen {
  import opened Base
  import opened JsText

  /** The post as feed/get_post.php sends it. */
  datatype RawPost = RawPost(id: int, userId: int, displayName: string, caption: string,
                             isLikedRaw: Option<int>, isSavedRaw: Option<int>)

  /** The post as the screen holds it: the raw fields plus the two flags. */
  datatype ShownPost = ShownPost(raw: RawPost, isLiked: bool, isSaved: bool)

  /** The flag mapping of `fetchPost`. */
  function Loaded(p: RawPost): (q: ShownPost)
    ensures q.raw == p
    ensures q.isLiked <==> IsOne(p.isLikedRaw)
    ensures q.isSaved <==> IsOne(p.isSavedRaw)
  {
    ShownPost(p, IsOne(p.isLikedRaw), IsOne(p.isSavedRaw))
  }

  /** `handleLike`'s functional update. */
  function LikeFlipped(p: ShownPost): (q: ShownPost)
    ensures q.isLiked == !p.isLiked
    ensures q.raw == p.raw && q.isSaved == p.isSaved
  {
    p.(isLiked := !p.isLiked)
  }

  /** `handleSave`'s functional update. */
  function SaveFlipped(p: ShownPost): (q: ShownPost)
    ensures q.isSaved == !p.isSaved
    ensures q.raw == p.raw && q.isLiked == p.isLiked
  {
    p.(isSaved := !p.isSaved)
  }

  /** Each toggle undoes itself, and the two commute. */
  lemma TogglesUndoAndCommute(p: ShownPost)
    ensures LikeFlipped(LikeFlipped(p)) == p
    ensures SaveFlipped(SaveFlipped(p)) == p
    ensures LikeFlipped(SaveFlipped(p)) == SaveFlipped(LikeFlipped(p))
  {
  }

  /** What the screen renders. */
  datatype Screen = Spinner | Message(text: string) | PostPage(post: ShownPost, deleteButton: bool)

  /** The render function: spinner while loading, the error text when there is no
      post, and otherwise the post with a delete button for its owner only
      (`isOwner`, the post's author being the signed-in user). */
  function Render(loading: bool, post: Option<ShownPost>, errorMsg: string, userId: int): (s: Screen)
    ensures loading <==> s == Spinner
    ensures !loading && post.None? ==> s == Message(errorMsg)
    ensures !loading && post.Some? ==> s.PostPage? && s.post == post.value
    ensures s.PostPage? ==> (s.deleteButton <==> s.post.raw.userId == userId)
  {
    if loading then Spinner
    else if post.None? then Message(errorMsg)
    else PostPage(post.value, post.value.raw.userId == userId)
  }

  class SinglePostView {
    var post: Option<ShownPost>
    var loading: bool
    var errorMsg: string

    constructor ()
      ensures post == None && loading && errorMsg == ""
    {
      post := None;
      loading := true;
      errorMsg := "";
    }

    /** `fetchPost`: a success shows the post with its flags; an error reply leaves
        no post and shows the server's message or "Post not found"; a thrown fetch
        shows "Network Error". The spinner stops in every case. */
    method FetchPost(response: Response<RawPost>)
      modifies this
      ensures !loading
      ensures response.Answer? && response.reply.Success? ==>
        post == Some(Loaded(response.reply.data)) && errorMsg == old(errorMsg)
      ensures response.Answer? && response.reply.Error? ==>
        post == old(post) && errorMsg == OrElse(Some(response.reply.message), "Post not found")
      ensures response.NetworkError? ==> post == old(post) && errorMsg == "Network Error"
    {
      if response.NetworkError? {
        errorMsg := "Network Error";
      } else if response.reply.Success? {
        post := Some(Loaded(response.reply.data));
      } else {
        errorMsg := OrElse(Some(response.reply.message), "Post not found");
      }
      loading := false;
    }

    /** The like button, on a loaded post (it is only rendered then). */
    method HandleLike()
      requires post.Some?
      modifies this`post
      ensures post == Some(LikeFlipped(old(post).value))
    {
      post := Some(post.value.(isLiked := !post.value.isLiked));
    }

    method HandleSave()
      requires post.Some?
      modifies this`post
      ensures post == Some(SaveFlipped(old(post).value))
    {
      post := Some(post.value.(isSaved := !post.value.isSaved));
    }
  }
}
