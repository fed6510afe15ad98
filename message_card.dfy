/**
 * One message bubble (src/components/messages/MessageCard.js): the deleted tombstone, the
 * avatar, the hover actions, the edited label, and the edit/delete state of the card.
 * The callbacks the card fires are returned as values.
 */
module MessageCard {
  import opened Wrappers
  import opened Strings
  import opened RichTextEditor
  import opened RichTextRenderer
  import opened Documents
  import opened ConversationCard

  /** `getInitials(name)` of the card: '?' for a missing or empty name. */
  function SenderInitials(name: Option<string>): (r: string)
    ensures name.None? || name.value == "" ==> r == "?"
    ensures name.Some? && name.value != "" ==> r == Initials(name.value)
  {
    if name.None? || name.value == "" then "?" else Initials(name.value)
  }

  datatype Action = ReplyAction | EditAction | DeleteAction

  datatype AvatarView = Spacer | Photo(url: string) | InitialsBadge(text: string)

  /** The quoted message above the text of a reply: its sender's name and its plain text. */
  datatype ReplyPreview = ReplyPreview(senderName: Option<string>, plainText: Option<string>)

  /** The bubble's body: the editor while editing, otherwise the reply preview, if any, over the rendered content. */
  datatype Body = Editor(value: Option<Doc>) | Content(reply: Option<ReplyPreview>, view: View)

  /** A live message's card; `senderLine` is the name shown above a received message. */
  datatype CardView =
    | Tombstone
    | Bubble(avatar: AvatarView, senderLine: Option<Option<string>>, body: Body, actions: seq<Action>, edited: bool)

  /** The buttons offered on hover: reply for every message, edit and delete for own messages. */
  function Actions(isOwn: bool, hovering: bool, editing: bool): (r: seq<Action>)
    ensures ReplyAction in r <==> hovering && !editing
    ensures EditAction in r <==> isOwn && hovering && !editing
    ensures DeleteAction in r <==> isOwn && hovering && !editing
    ensures r != [] ==> r[0] == ReplyAction && |r| == if isOwn then 3 else 1
  {
    if !hovering || editing then [] else [ReplyAction] + (if isOwn then [EditAction, DeleteAction] else [])
  }

  /** The avatar column: a spacer unless the avatar is shown, then the photo, or the initials without one. */
  function AvatarFor(m: Message, showAvatar: bool): (a: AvatarView)
    ensures !showAvatar <==> a == Spacer
    ensures showAvatar && m.senderPhotoURL != "" ==> a == Photo(m.senderPhotoURL)
    ensures showAvatar && m.senderPhotoURL == "" ==> a == InitialsBadge(SenderInitials(m.senderName))
  {
    if !showAvatar then Spacer
    else if m.senderPhotoURL != "" then Photo(m.senderPhotoURL)
    else InitialsBadge(SenderInitials(m.senderName))
  }

  /** What the card renders for `m`. */
  function CardFor(m: Message, isOwn: bool, showAvatar: bool, hovering: bool, editing: bool, editValue: Option<Doc>): (v: CardView)
    ensures v.Tombstone? <==> m.deletedAt.Some?
    ensures v.Bubble? ==> v.avatar == AvatarFor(m, showAvatar)
    ensures v.Bubble? ==> (v.senderLine.Some? <==> !isOwn && showAvatar)
    ensures v.Bubble? && v.senderLine.Some? ==> v.senderLine.value == m.senderName
    ensures v.Bubble? ==> (v.edited <==> m.editedAt.Some?)
    ensures v.Bubble? ==> v.actions == Actions(isOwn, hovering, editing)
    ensures v.Bubble? && editing ==> v.body == Editor(editValue)
    ensures v.Bubble? && !editing ==> v.body.Content? && v.body.view == Render(m.text)
    ensures v.Bubble? && !editing ==> (v.body.reply.Some? <==> m.replyTo.Some?)
    ensures v.Bubble? && !editing && m.replyTo.Some? ==>
              v.body.reply == Some(ReplyPreview(m.replyTo.value.senderName, m.replyTo.value.plainText))
  {
    if m.deletedAt.Some? then Tombstone
    else
      var senderLine := if !isOwn && showAvatar then Some(m.senderName) else None;
      var reply := if m.replyTo.Some? then Some(ReplyPreview(m.replyTo.value.senderName, m.replyTo.value.plainText)) else None;
      var body := if editing then Editor(editValue) else Content(reply, Render(m.text));
      Bubble(AvatarFor(m, showAvatar), senderLine, body, Actions(isOwn, hovering, editing), m.editedAt.Some?)
  }

  /** `jsonToSlate(message.text)`, where a missing field fails to parse. */
  function LoadForEdit(text: Option<Portable>): (d: Doc)
    ensures |d| >= 1
    ensures text.None? ==> d == CreateEmptySlateValue()
  {
    if text.None? then CreateEmptySlateValue() else JsonToSlate(text.value)
  }

  /** The `onSaveEdit(id, richText, plainText)` call. */
  datatype SaveCall = SaveCall(messageId: MsgId, richText: Portable, plainText: string)

  /** The `onDelete(id, deleteForEveryone)` call. */
  datatype DeleteCall = DeleteCall(messageId: MsgId, forEveryone: bool)

  /** The argument-less `onCancelEdit()` call. */
  datatype CancelCall = CancelEdit

  /** The card's local state for its message. */
  class MessageCardState {
    var editValue: Option<Doc>
    var showDeleteMenu: bool
    const message: Message

    /** The initial state: the message loaded into the editor only when the card starts in edit mode. */
    constructor (message: Message, isEditing: bool)
      ensures this.message == message && !showDeleteMenu
      ensures editValue == if isEditing then Some(LoadForEdit(message.text)) else None
    {
      this.message := message;
      showDeleteMenu := false;
      editValue := if isEditing then Some(LoadForEdit(message.text)) else None;
    }

    /** The effect run on entering edit mode. */
    method EnterEdit()
      modifies this`editValue
      ensures editValue == Some(LoadForEdit(message.text))
    {
      editValue := Some(LoadForEdit(message.text));
    }

    /** `handleSave()`: nothing without an editor value, otherwise its serialized form and its plain text. */
    method HandleSave() returns (call: Option<SaveCall>)
      ensures call.None? <==> editValue.None?
      ensures call.Some? ==> call.value.messageId == message.id
      ensures call.Some? ==> call.value.plainText == SerializeSlate(editValue.value)
      ensures call.Some? && |editValue.value| > 0 ==> JsonToSlate(call.value.richText) == editValue.value
    {
      if editValue.None? {
        return None;
      }
      var ev := editValue.value;
      call := Some(SaveCall(message.id, SlateToJson(ev), SlateToPlainText(Some(ev))));
    }

    /** `handleCancel()`: back to the stored text, then always `onCancelEdit()`. */
    method HandleCancel() returns (call: CancelCall)
      modifies this`editValue
      ensures editValue == Some(LoadForEdit(message.text))
      ensures call == CancelEdit
    {
      editValue := Some(LoadForEdit(message.text));
      call := CancelEdit;
    }

    /** `handleDelete(deleteForEveryone)`: closes the menu and forwards the flag unchanged. */
    method HandleDelete(forEveryone: bool) returns (call: DeleteCall)
      modifies this`showDeleteMenu
      ensures !showDeleteMenu && call == DeleteCall(message.id, forEveryone)
    {
      showDeleteMenu := false;
      call := DeleteCall(message.id, forEveryone);
    }

    /** The delete button toggles the menu. */
    method ToggleDeleteMenu()
      modifies this`showDeleteMenu
      ensures showDeleteMenu == !old(showDeleteMenu)
    {
      showDeleteMenu := !showDeleteMenu;
    }
  }

  // ----- Properties -----

  /** A deleted message shows only the tombstone: no content, no actions, whatever else holds. */
  lemma DeletedShowsTombstone(m: Message, isOwn: bool, showAvatar: bool, hovering: bool, editing: bool, ev: Option<Doc>)
    requires m.deletedAt.Some?
    ensures CardFor(m, isOwn, showAvatar, hovering, editing, ev) == Tombstone
  {
  }

  /** Cancelling an edit of a message saved from a non-empty document restores that document. */
  lemma CancelRestoresSaved(d: Doc)
    requires |d| > 0
    ensures LoadForEdit(Some(SlateToJson(d))) == d
  {
  }

  /** Initials of a name are at most two characters, and a named sender never shows '?' unless the name starts with it. */
  lemma SenderInitialsShape(name: string)
    requires name != "" && name[0] != ' ' && name[0] != '?'
    ensures |SenderInitials(Some(name))| >= 1 && SenderInitials(Some(name)) != "?"
  {
    InitialsAreWordStarts(name);
    var w := Upper(WordStarts(name, true));
    assert WordStarts(name, true)[0] == name[0];
  }
}
