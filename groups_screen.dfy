/** src/screens/GroupsScreen.js: the list of communities, the create-community
    modal, and the gate that lets only members into a group chat. */
module GroupsScreen {
  import opened Base
  import opened JsText

  datatype Group = Group(id: int, name: string, iconUrl: string, memberCount: int, isMember: Option<int>)

  /** An `Alert.alert(title, message)`. */
  datatype Alert = Alert(title: string, message: string)

  /** The join button's label. */
  function JoinLabel(g: Group): (caption: string)
    ensures caption == "Joined" <==> IsOne(g.isMember)
    ensures caption == "Join" <==> !IsOne(g.isMember)
  {
    if IsOne(g.isMember) then "Joined" else "Join"
  }

  /** Where a tap on a group leads. */
  datatype Tap = ToChat(isGroup: bool, receiverId: int, receiverName: string, receiverAvatar: string) | ShowAlert(alert: Alert)

  /** `openGroupChat`: members go to the group chat, anyone else is told to join. */
  function OpenGroupChat(g: Group): (t: Tap)
    ensures t.ToChat? <==> IsOne(g.isMember)
    ensures t.ToChat? ==> t == ToChat(true, g.id, g.name, g.iconUrl)
    ensures t.ShowAlert? ==> t.alert == Alert("Join First", "You must join this community to chat.")
  {
    if IsOne(g.isMember) then ToChat(true, g.id, g.name, g.iconUrl)
    else ShowAlert(Alert("Join First", "You must join this community to chat."))
  }

  /** The chat button and the label agree: "Joined" exactly when the chat opens. */
  lemma LabelMatchesGate(g: Group)
    ensures JoinLabel(g) == "Joined" <==> OpenGroupChat(g).ToChat?
  {
  }

  class GroupsView {
    var groups: seq<Group>
    var loading: bool
    var modalVisible: bool
    var newGroupName: string
    var newGroupDesc: string
    var creating: bool
    /** The last alert raised. */
    var alert: Option<Alert>

    constructor ()
      ensures groups == [] && loading && !modalVisible && newGroupName == "" && newGroupDesc == ""
      ensures !creating && alert == None
    {
      groups := [];
      loading := true;
      modalVisible := false;
      newGroupName := "";
      newGroupDesc := "";
      creating := false;
      alert := None;
    }

    /** `fetchGroups`: a success replaces the list. */
    method FetchGroups(response: Response<seq<Group>>)
      modifies this`groups, this`loading
      ensures !loading
      ensures response.Answer? && response.reply.Success? ==> groups == response.reply.data
      ensures !(response.Answer? && response.reply.Success?) ==> groups == old(groups)
    {
      if response.Answer? && response.reply.Success? {
        groups := response.reply.data;
      }
      loading := false;
    }

    /** `handleCreate`, with `response` what groups/create.php gives. A blank name
        raises an error and sends nothing. Otherwise the name and description are
        sent (`request`); a success closes the modal and empties both fields, an
        error reply or a thrown request keeps them; `creating` ends false. */
    method HandleCreate<T>(response: Response<T>) returns (request: Option<(string, string)>)
      modifies this`modalVisible, this`newGroupName, this`newGroupDesc, this`creating, this`alert
      ensures Blank(old(newGroupName)) ==>
        && request == None
        && alert == Some(Alert("Error", "Please enter a group name"))
        && modalVisible == old(modalVisible) && newGroupName == old(newGroupName)
        && newGroupDesc == old(newGroupDesc) && creating == old(creating)
      ensures !Blank(old(newGroupName)) ==>
        && request == Some((old(newGroupName), old(newGroupDesc)))
        && !creating
        && (response.Answer? && response.reply.Success? ==>
              && !modalVisible && newGroupName == "" && newGroupDesc == ""
              && alert == Some(Alert("Success", "Community Created!")))
        && (response.Answer? && response.reply.Error? ==>
              && modalVisible == old(modalVisible) && newGroupName == old(newGroupName) && newGroupDesc == old(newGroupDesc)
              && alert == Some(Alert("Error", OrElse(Some(response.reply.message), "Failed to create group"))))
        && (response.NetworkError? ==>
              && modalVisible == old(modalVisible) && newGroupName == old(newGroupName) && newGroupDesc == old(newGroupDesc)
              && alert == Some(Alert("Network Error", "Could not connect to server")))
    {
      TrimEmptyIffBlank(newGroupName);
      if Trim(newGroupName) == "" {
        alert := Some(Alert("Error", "Please enter a group name"));
        return None;
      }
      creating := true;
      request := Some((newGroupName, newGroupDesc));
      if response.NetworkError? {
        alert := Some(Alert("Network Error", "Could not connect to server"));
      } else if response.reply.Success? {
        modalVisible := false;
        newGroupName := "";
        newGroupDesc := "";
        alert := Some(Alert("Success", "Community Created!"));
      } else {
        alert := Some(Alert("Error", OrElse(Some(response.reply.message), "Failed to create group")));
      }
      creating := false;
    }
  }
}
