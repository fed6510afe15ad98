/**
 * The open conversation (src/components/messages/ConversationArea.js): the loaded message
 * window and the send handler, which adds a message and then updates the conversation summary.
 */
module ConversationArea {
  import opened Wrappers
  import opened Strings
  import opened RichTextEditor
  import opened Documents
  import opened ConversationCard

  /** The order key of the messages query, `createdAt`, with an unset timestamp as 0. */
  function CreatedKey(m: Message): int {
    m.createdAt.GetOr(0)
  }

  predicate Descending(s: seq<Message>) {
    forall i, j :: 0 <= i < j < |s| ==> CreatedKey(s[j]) <= CreatedKey(s[i])
  }

  predicate Ascending(s: seq<Message>) {
    forall i, j :: 0 <= i < j < |s| ==> CreatedKey(s[i]) <= CreatedKey(s[j])
  }

  function Reverse<T>(s: seq<T>): (r: seq<T>)
    ensures |r| == |s|
    ensures forall k :: 0 <= k < |s| ==> r[k] == s[|s| - 1 - k]
  {
    if s == [] then [] else Reverse(s[1..]) + [s[0]]
  }

  /** What the snapshot of `orderBy('createdAt', 'desc'), limit(100)` over the stored messages is. */
  predicate NewestWindow(all: seq<Message>, docs: seq<Message>) {
    && Descending(docs)
    && |docs| == (if |all| < 100 then |all| else 100)
    && multiset(docs) <= multiset(all)
    && (forall m :: m in all && m !in docs ==> forall d :: d in docs ==> CreatedKey(m) <= CreatedKey(d))
  }

  /** The data `MessageInput` hands to `onSendMessage`. */
  datatype SendData = SendData(plainText: Option<string>, richText: Portable, replyTo: Option<Message>)

  /** The `replyTo` snapshot: the quoted message's fields, with its `text` falling back to its `plainText`. */
  function ReplySnapshotOf(quoted: Option<Message>): (r: Option<ReplySnapshot>)
    ensures r.None? <==> quoted.None?
    ensures r.Some? ==> var q := quoted.value;
      && r.value.messageId == q.id && r.value.plainText == q.plainText
      && r.value.senderId == q.senderId && r.value.senderName == q.senderName
      && r.value.text == (if q.text.Some? && PortableTruthy(q.text.value) then RichCopy(q.text.value) else PlainCopy(q.plainText))
  {
    match quoted
    case None => None
    case Some(q) =>
      var text := if q.text.Some? && PortableTruthy(q.text.value) then RichCopy(q.text.value) else PlainCopy(q.plainText);
      Some(ReplySnapshot(q.id, text, q.plainText, q.senderId, q.senderName))
  }

  /** The message document `handleSendMessage` adds. */
  function NewMessage(id: MsgId, data: SendData, user: AuthUser, now: Millis): (m: Message)
    requires data.plainText.Some?
    ensures m.id == id && m.kind == "text" && m.text == Some(data.richText)
    ensures m.plainText == Some(Trim(data.plainText.value))
    ensures m.senderId == user.uid && m.senderName == user.displayName && m.senderPhotoURL == user.photoURL.GetOr("")
    ensures m.createdAt == Some(now) && m.editedAt.None? && m.deletedAt.None?
    ensures m.deletedFor == [] && m.attachments == [] && m.replyTo == ReplySnapshotOf(data.replyTo)
  {
    Message(id, Some(data.richText), Some(Trim(data.plainText.value)), "text", user.uid, user.displayName,
      user.photoURL.GetOr(""), Some(now), None, None, [], ReplySnapshotOf(data.replyTo), [])
  }

  /** The conversation's `lastMessage` after a send: the trimmed text in both text fields. */
  function LastMessageOf(plainText: string, user: AuthUser, now: Millis): (l: LastMessage)
    ensures l.text == Some(Trim(plainText)) && l.plainText == l.text
    ensures l.senderId == user.uid && l.senderName == user.displayName && l.createdAt == Some(now) && l.kind == "text"
  {
    LastMessage(Some(Trim(plainText)), Some(Trim(plainText)), user.uid, user.displayName, Some(now), "text")
  }

  /** The send guard: a selected conversation and a plain text with a non-whitespace character. */
  predicate Sendable(conv: Option<Conversation>, data: SendData) {
    conv.Some? && data.plainText.Some? && !IsBlank(data.plainText.value)
  }

  /** `getConversationName()` of the header: '' with no conversation selected. */
  function HeaderName(conv: Option<Conversation>, me: UserId): (r: string)
    ensures conv.None? <==> r == ""
    ensures conv.Some? ==> r == ConversationName(conv.value, me)
  {
    if conv.None? then "" else ConversationName(conv.value, me)
  }

  /** The component's state: the loaded window and the message being replied to. */
  class ConversationArea {
    var messages: seq<Message>
    var replyTo: Option<Message>
    const db: Store

    constructor (db: Store)
      ensures this.db == db && messages == [] && replyTo == None
    {
      this.db := db;
      messages := [];
      replyTo := None;
    }

    /** The query listener: the newest-first snapshot, reversed into chronological order. */
    method OnSnapshot(docs: seq<Message>)
      modifies this`messages
      ensures messages == Reverse(docs)
    {
      messages := Reverse(docs);
    }

    method HandleReply(m: Message)
      modifies this`replyTo
      ensures replyTo == Some(m)
    {
      replyTo := Some(m);
    }

    method HandleCancelReply()
      modifies this`replyTo
      ensures replyTo == None
    {
      replyTo := None;
    }

    /**
     * `handleSendMessage(messageData)`: adds the message (id `newId`, clock `now`) when `addOk`,
     * then sets the conversation's `lastMessage`/`updatedAt` when that update succeeds; the update
     * fails on a missing conversation document, and a failed add skips it.
     */
    method HandleSendMessage(conv: Option<Conversation>, user: AuthUser, data: SendData, newId: MsgId, now: Millis, addOk: bool, updateOk: bool)
      modifies db`messages, db`conversations
      ensures !Sendable(conv, data) || !addOk ==> db.messages == old(db.messages) && db.conversations == old(db.conversations)
      ensures Sendable(conv, data) && addOk ==>
        var cid := conv.value.id;
        db.messages == old(db.messages)[cid := (if cid in old(db.messages) then old(db.messages)[cid] else []) + [NewMessage(newId, data, user, now)]]
      ensures Sendable(conv, data) && addOk ==>
        var cid := conv.value.id;
        db.conversations == if updateOk && cid in old(db.conversations)
          then old(db.conversations)[cid := old(db.conversations)[cid].(lastMessage := Some(LastMessageOf(data.plainText.value, user, now)), updatedAt := Some(now))]
          else old(db.conversations)
    {
      if conv.None? {
        return;
      }
      if data.plainText.None? || IsBlank(data.plainText.value) {
        return;
      }
      if !addOk {
        return;
      }
      var cid := conv.value.id;
      var stored := if cid in db.messages then db.messages[cid] else [];
      db.messages := db.messages[cid := stored + [NewMessage(newId, data, user, now)]];
      if updateOk && cid in db.conversations {
        var c := db.conversations[cid];
        db.conversations := db.conversations[cid := c.(lastMessage := Some(LastMessageOf(data.plainText.value, user, now)), updatedAt := Some(now))];
      }
    }
  }

  // ----- Properties -----

  lemma {:induction false} ReverseMultiset<T>(s: seq<T>)
    ensures multiset(Reverse(s)) == multiset(s)
  {
    if s != [] {
      ReverseMultiset(s[1..]);
      assert s == [s[0]] + s[1..];
    }
  }

  /** The loaded window: at most 100 of the newest messages, in ascending `createdAt` order, none added or lost from the snapshot. */
  lemma WindowIsChronological(all: seq<Message>, docs: seq<Message>)
    requires NewestWindow(all, docs)
    ensures var w := Reverse(docs);
      |w| <= 100 && Ascending(w) && multiset(w) <= multiset(all)
      && forall m :: m in all && m !in w ==> forall d :: d in w ==> CreatedKey(m) <= CreatedKey(d)
  {
    var w := Reverse(docs);
    forall i, j | 0 <= i < j < |w| ensures CreatedKey(w[i]) <= CreatedKey(w[j]) {
      assert w[i] == docs[|docs| - 1 - i] && w[j] == docs[|docs| - 1 - j];
    }
    ReverseMultiset(docs);
    forall m | m in w ensures m in docs {
      assert m in multiset(w);
    }
    forall m | m in docs ensures m in w {
      assert m in multiset(docs);
    }
  }

  /** A whitespace-only text is never sent, whatever else the message carries. */
  lemma BlankTextIsNotSendable(conv: Option<Conversation>, data: SendData)
    requires data.plainText.Some? && AllSpace(data.plainText.value)
    ensures !Sendable(conv, data)
  {
    BlankIffAllSpace(data.plainText.value);
  }

  /** After a send, the sender's list card previews the trimmed text with the "You: " prefix. */
  lemma SentMessageIsPreviewed(c: Conversation, user: AuthUser, plainText: string, now: Millis)
    requires !IsBlank(plainText)
    ensures LastMessagePreview(c.(lastMessage := Some(LastMessageOf(plainText, user, now))), user.uid) == Summary(true, Trim(plainText))
  {
  }

  /** A reply to a message with rich text quotes the rich text; a reply to one without it quotes its plain text. */
  lemma ReplyQuotesText(q: Message)
    ensures q.text.None? ==> ReplySnapshotOf(Some(q)).value.text == PlainCopy(q.plainText)
    ensures q.text.Some? && q.text.value.Json? ==> ReplySnapshotOf(Some(q)).value.text == RichCopy(q.text.value)
  {
  }
}
