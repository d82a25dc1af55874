/** src/screens/ChatScreen.js: a one-to-one (or group) conversation; a sent
    message is appended before the server has it. */
module ChatScreen {
  import opened Base
  import opened JsText

  datatype Message = Message(id: int, senderId: int, message: string, mediaUrl: Option<string>, isRead: int)

  /** The body of the send request: JSON for text, form data when there is an image. */
  datatype SendBody =
    | JsonBody(senderId: int, receiverId: int, message: string)
    | FormBody(senderId: int, receiverId: int, message: string, imageUri: string)

  class ChatView {
    const userId: int
    const receiverId: int
    /** The header title: the receiver's name, or 'Student'. */
    const displayName: string
    var messages: seq<Message>
    var text: string
    var uploading: bool

    constructor (userId: int, receiverId: int, receiverName: Option<string>, initialMessage: Option<string>)
      ensures this.userId == userId && this.receiverId == receiverId
      ensures displayName == OrElse(receiverName, "Student")
      ensures text == OrElse(initialMessage, "")
      ensures messages == [] && !uploading
    {
      this.userId := userId;
      this.receiverId := receiverId;
      displayName := OrElse(receiverName, "Student");
      messages := [];
      text := OrElse(initialMessage, "");
      uploading := false;
    }

    /** `fetchMessages` (also run by the 3-second poll): a success replaces the list. */
    method FetchMessages(response: Response<seq<Message>>)
      modifies this`messages
      ensures response.Answer? && response.reply.Success? ==> messages == response.reply.data
      ensures !(response.Answer? && response.reply.Success?) ==> messages == old(messages)
    {
      if response.Answer? && response.reply.Success? {
        messages := response.reply.data;
      }
    }

    /** `sendMessage(imageUrl)`, with `image` the picked image's URI, `now` for
        `Date.now()` and `sendThrows` for a request that throws. Blank text with no
        image does nothing. Otherwise one message is appended, the box is cleared,
        and the request carries the old text. `uploading` goes up for an image and
        comes down only after a request that did not throw. */
    method SendMessage(image: Option<string>, now: int, sendThrows: bool) returns (body: Option<SendBody>)
      modifies this`messages, this`text, this`uploading
      ensures Blank(old(text)) && image.None? ==>
        body == None && messages == old(messages) && text == old(text) && uploading == old(uploading)
      ensures !(Blank(old(text)) && image.None?) ==>
        && messages == old(messages) + [Message(now, userId, old(text), image, 0)]
        && text == ""
        && body.Some? && body.value.message == old(text)
        && (body.value.FormBody? <==> image.Some?)
        && (image.Some? ==> body.value == FormBody(userId, receiverId, old(text), image.value))
        && (image.None? ==> body.value == JsonBody(userId, receiverId, old(text)))
        && uploading == (if !sendThrows then false else if image.Some? then true else old(uploading))
    {
      TrimEmptyIffBlank(text);
      if Trim(text) == "" && image.None? {
        return None;
      }
      var newMsg := Message(now, userId, text, image, 0);
      messages := messages + [newMsg];
      var msgToSend := text;
      text := "";
      if image.Some? {
        uploading := true;
        body := Some(FormBody(userId, receiverId, msgToSend, image.value));
      } else {
        body := Some(JsonBody(userId, receiverId, msgToSend));
      }
      if !sendThrows {
        uploading := false;
      }
    }
  }
}
