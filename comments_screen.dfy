/** src/screens/CommentsScreen.js: a post's comment thread with an input box that
    appends the new comment before the server has it. */
module CommentsScreen {
  import opened Base
  import opened JsText

  datatype Comment = Comment(id: int, displayName: string, comment: string, avatarUrl: Option<string>)

  /** The avatar circle: the picture when there is one, else the upper-cased first
      letter of the name. */
  datatype Avatar = Picture(url: string) | Letter(text: string)

  function AvatarOf(c: Comment): (a: Avatar)
    ensures c.avatarUrl.Some? && c.avatarUrl.value != "" ==> a == Picture(c.avatarUrl.value)
    ensures !(c.avatarUrl.Some? && c.avatarUrl.value != "") ==> a == Letter(InitialOf(c.displayName))
  {
    if c.avatarUrl.Some? && c.avatarUrl.value != "" then Picture(c.avatarUrl.value)
    else Letter(InitialOf(c.displayName))
  }

  class CommentsView {
    var comments: seq<Comment>
    var text: string
    var loading: bool

    constructor ()
      ensures comments == [] && text == "" && loading
    {
      comments := [];
      text := "";
      loading := true;
    }

    /** `fetchComments`: a success replaces the thread; anything else keeps it. */
    method FetchComments(response: Response<seq<Comment>>)
      modifies this`comments, this`loading
      ensures !loading
      ensures response.Answer? && response.reply.Success? ==> comments == response.reply.data
      ensures !(response.Answer? && response.reply.Success?) ==> comments == old(comments)
    {
      if response.Answer? && response.reply.Success? {
        comments := response.reply.data;
      }
      loading := false;
    }

    /** `handlePostComment`: white space only does nothing; otherwise the box is
        cleared and one comment by "Me" holding the untrimmed text, with id `now`
        (`Date.now()`) and no avatar, is appended. `sent` is the text posted. */
    method HandlePostComment(now: int) returns (sent: Option<string>)
      modifies this`comments, this`text
      ensures Blank(old(text)) ==> sent == None && comments == old(comments) && text == old(text)
      ensures !Blank(old(text)) ==>
        && sent == Some(old(text))
        && text == ""
        && comments == old(comments) + [Comment(now, "Me", old(text), None)]
        && AvatarOf(comments[|comments| - 1]) == Letter("M")
    {
      TrimEmptyIffBlank(text);
      if Trim(text) == "" {
        return None;
      }
      var commentToSend := text;
      text := "";
      var newComment := Comment(now, "Me", commentToSend, None);
      comments := comments + [newComment];
      sent := Some(commentToSend);
    }
  }
}
