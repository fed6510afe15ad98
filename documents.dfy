/**
 * The Firestore documents the client reads and writes, and the store holding them as
 * in-memory collections. Field names follow the stored documents; `null` and missing
 * fields are `None`; `serverTimestamp()` values are plain clock readings in milliseconds.
 */
module Documents {
  import opened Wrappers
  import opened RichTextEditor

  type UserId = string
  type ConvId = string
  type MsgId = string
  /** A server timestamp, read through `toMillis()`. */
  type Millis = int

  /** The signed-in Firebase Auth user. */
  datatype AuthUser = AuthUser(uid: UserId, displayName: Option<string>, photoURL: Option<string>, email: Option<string>)

  /** `users/{uid}`: the user directory searched by email. */
  datatype UserDoc = UserDoc(uid: UserId, displayName: Option<string>, email: string, photoURL: Option<string>)

  datatype Presence = Online | Offline

  /** `userStatus/{uid}`: the presence record. */
  datatype StatusRecord = StatusRecord(
    uid: UserId, displayName: Option<string>, photoURL: string, email: Option<string>,
    status: Presence, lastSeen: Millis, updatedAt: Millis)

  datatype Role = Admin | Member

  /** An entry of a conversation's `participantsData`. */
  datatype ParticipantData = ParticipantData(displayName: Option<string>, photoURL: string, role: Role)

  /** An entry of a conversation's `userPreferences`; absent flags read as false. */
  datatype Prefs = Prefs(pinned: Option<bool>, muted: Option<bool>, archived: Option<bool>)

  /** A conversation's `lastMessage` summary. */
  datatype LastMessage = LastMessage(
    text: Option<string>, plainText: Option<string>, senderId: UserId, senderName: Option<string>,
    createdAt: Option<Millis>, kind: string)

  /** An entry of a conversation's `typing` map. */
  datatype TypingEntry = TypingEntry(userId: UserId, displayName: Option<string>, timestamp: Option<Millis>)

  datatype ConvKind = Direct | Group

  /** `conversations/{id}`. A removed participant's `participantsData` entry is `null`. */
  datatype Conversation = Conversation(
    id: ConvId, kind: ConvKind, name: Option<string>, photoURL: Option<string>,
    participants: seq<UserId>, participantsData: map<UserId, Option<ParticipantData>>,
    userPreferences: map<UserId, Prefs>, lastMessage: Option<LastMessage>,
    createdBy: UserId, createdAt: Option<Millis>, updatedAt: Option<Millis>,
    typing: Option<map<UserId, Option<TypingEntry>>>)

  /** A reply snapshot's `text`: the quoted message's rich text, or its plain text when that is missing. */
  datatype ReplyText = RichCopy(rich: Portable) | PlainCopy(plain: Option<string>)

  /** A message's `replyTo` snapshot of the quoted message. */
  datatype ReplySnapshot = ReplySnapshot(
    messageId: MsgId, text: ReplyText, plainText: Option<string>, senderId: UserId, senderName: Option<string>)

  datatype Attachment = Attachment(url: string, name: string)

  /** `conversations/{id}/messages/{msgId}`. `text` holds the serialized rich text. */
  datatype Message = Message(
    id: MsgId, text: Option<Portable>, plainText: Option<string>, kind: string,
    senderId: UserId, senderName: Option<string>, senderPhotoURL: string,
    createdAt: Option<Millis>, editedAt: Option<Millis>, deletedAt: Option<Millis>,
    deletedFor: seq<UserId>, replyTo: Option<ReplySnapshot>, attachments: seq<Attachment>)

  /** JavaScript truthiness of a stored `text` value: only the empty string is falsy. */
  predicate PortableTruthy(p: Portable) {
    !(p.Malformed? && p.raw == "")
  }

  /** First element of `s` different from `x` (`s.find(id => id !== x)`). */
  function FindOther(s: seq<UserId>, x: UserId): (r: Option<UserId>)
    ensures r.None? <==> forall i :: 0 <= i < |s| ==> s[i] == x
    ensures r.Some? ==> r.value != x && exists i :: 0 <= i < |s| && s[i] == r.value && forall j :: 0 <= j < i ==> s[j] == x
  {
    if s == [] then None
    else if s[0] != x then Some(s[0])
    else
      var r := FindOther(s[1..], x);
      assert forall i :: 1 <= i < |s| ==> s[i] == s[1..][i - 1];
      r
  }

  /** `keys` enumerates the map's keys, each once: the order in which a snapshot or `Object.entries` yields them. */
  predicate Enumerates<V>(m: map<string, V>, keys: seq<string>) {
    (forall i :: 0 <= i < |keys| ==> keys[i] in m)
    && (forall k :: k in m ==> k in keys)
    && (forall i, j :: 0 <= i < j < |keys| ==> keys[i] != keys[j])
  }

  /**
   * The document store. Each collection is a map from document id to document;
   * `messages` holds each conversation's message sub-collection in stored order.
   */
  class Store {
    var users: map<UserId, UserDoc>
    var userStatus: map<UserId, StatusRecord>
    var conversations: map<ConvId, Conversation>
    var messages: map<ConvId, seq<Message>>

    constructor (users0: map<UserId, UserDoc>, conversations0: map<ConvId, Conversation>, messages0: map<ConvId, seq<Message>>)
      ensures users == users0 && conversations == conversations0 && messages == messages0 && userStatus == map[]
    {
      users := users0;
      conversations := conversations0;
      messages := messages0;
      userStatus := map[];
    }
  }
}
