/**
 * How a conversation is presented in lists and headers
 * (src/components/conversations/ConversationCard.js): its display name, photo, initials
 * and last-message preview. The same name rule is repeated verbatim in ConversationArea.js,
 * ConversationList.js and ForwardMessageModal.js; it is defined once here.
 */
module ConversationCard {
  import opened Wrappers
  import opened Strings
  import opened Documents

  /** `participantsData?.[otherUserId]`, with a missing or null entry as `None`. */
  function OtherData(c: Conversation, me: UserId): (r: Option<ParticipantData>)
    ensures r.Some? ==>
      exists i :: 0 <= i < |c.participants| && c.participants[i] != me && c.participants[i] in c.participantsData && c.participantsData[c.participants[i]] == r
  {
    match FindOther(c.participants, me)
    case None => None
    case Some(o) => if o in c.participantsData then c.participantsData[o] else None
  }

  /** `x || fallback` for an optional string: `None` and `""` fall back. */
  function OrElse(x: Option<string>, fallback: string): (r: string)
    ensures x.Some? && x.value != "" ==> r == x.value
    ensures x.None? || x.value == "" ==> r == fallback
  {
    if x.Some? && x.value != "" then x.value else fallback
  }

  /** `getConversationName()`: a group's name or 'Group Chat'; otherwise the first other participant's display name or 'Unknown User'. */
  function ConversationName(c: Conversation, me: UserId): (r: string)
    ensures r != ""
    ensures c.kind == Group ==> r == OrElse(c.name, "Group Chat")
    ensures c.kind == Direct && r != "Unknown User" ==>
      exists i :: 0 <= i < |c.participants| && c.participants[i] != me && c.participants[i] in c.participantsData
        && c.participantsData[c.participants[i]].Some? && c.participantsData[c.participants[i]].value.displayName == Some(r)
    ensures c.kind == Direct && (forall i :: 0 <= i < |c.participants| ==> c.participants[i] == me) ==> r == "Unknown User"
    ensures c.kind == Direct && OtherData(c, me).Some? && OtherData(c, me).value.displayName.Some? && OtherData(c, me).value.displayName.value != ""
      ==> r == OtherData(c, me).value.displayName.value
    ensures c.kind == Direct && (OtherData(c, me).None? || OtherData(c, me).value.displayName.None? || OtherData(c, me).value.displayName == Some(""))
      ==> r == "Unknown User"
  {
    if c.kind == Group then OrElse(c.name, "Group Chat")
    else
      match OtherData(c, me)
      case None => "Unknown User"
      case Some(d) => OrElse(d.displayName, "Unknown User")
  }

  /** `getConversationPhoto()`: the group's photo or the other participant's, `None` when absent or empty. */
  function ConversationPhoto(c: Conversation, me: UserId): (r: Option<string>)
    ensures r.Some? ==> r.value != ""
    ensures c.kind == Group ==> r == if c.photoURL.Some? && c.photoURL.value != "" then c.photoURL else None
    ensures c.kind == Direct && r.Some? ==> OtherData(c, me).Some? && OtherData(c, me).value.photoURL == r.value
    ensures c.kind == Direct && OtherData(c, me).Some? && OtherData(c, me).value.photoURL != ""
      ==> r == Some(OtherData(c, me).value.photoURL)
  {
    if c.kind == Group then (if c.photoURL.Some? && c.photoURL.value != "" then c.photoURL else None)
    else
      match OtherData(c, me)
      case None => None
      case Some(d) => if d.photoURL != "" then Some(d.photoURL) else None
  }

  /** `words.map(word => word[0]).join('')`: an empty word contributes nothing. */
  function FirstLetters(words: seq<string>): string {
    if words == [] then ""
    else (if words[0] == "" then "" else [words[0][0]]) + FirstLetters(words[1..])
  }

  /** `getInitials(name)`: first letters of the space-separated words, uppercased, at most two. */
  function Initials(name: string): (r: string)
    ensures |r| <= 2
  {
    var all := Upper(FirstLetters(Split(name, ' ')));
    if |all| <= 2 then all else all[..2]
  }

  /** Reference definition: the characters that start a word, scanning left to right. */
  function WordStarts(s: string, atStart: bool): string {
    if s == [] then ""
    else if s[0] == ' ' then WordStarts(s[1..], true)
    else (if atStart then [s[0]] else "") + WordStarts(s[1..], false)
  }

  /** What the card shows under the name. */
  datatype Preview = NoPreview | DeletedPreview | Summary(fromMe: bool, text: string)

  /** The last-message line: nothing without a last message, a fixed text for a deleted one, else an optional "You: " and the text. */
  function LastMessagePreview(c: Conversation, me: UserId): (p: Preview)
    ensures p == NoPreview <==> c.lastMessage.None?
    ensures p == DeletedPreview <==> c.lastMessage.Some? && c.lastMessage.value.kind == "deleted"
    ensures p.Summary? ==> (p.fromMe <==> c.lastMessage.value.senderId == me)
    ensures p.Summary? ==> p.text != ""
    ensures p.Summary? && c.lastMessage.value.plainText.Some? && c.lastMessage.value.plainText.value != ""
      ==> p.text == c.lastMessage.value.plainText.value
    ensures p.Summary? && (c.lastMessage.value.plainText.None? || c.lastMessage.value.plainText == Some(""))
        && c.lastMessage.value.text.Some? && c.lastMessage.value.text.value != ""
      ==> p.text == c.lastMessage.value.text.value
    ensures p.Summary? && (c.lastMessage.value.plainText.None? || c.lastMessage.value.plainText == Some(""))
        && (c.lastMessage.value.text.None? || c.lastMessage.value.text == Some(""))
      ==> p.text == "New message"
  {
    match c.lastMessage
    case None => NoPreview
    case Some(m) =>
      if m.kind == "deleted" then DeletedPreview
      else Summary(m.senderId == me, if m.plainText.Some? && m.plainText.value != "" then m.plainText.value else OrElse(m.text, "New message"))
  }

  // ----- Properties -----

  /** The initials are the uppercased word-start characters of the name, cut to two. */
  lemma InitialsAreWordStarts(name: string)
    ensures var w := Upper(WordStarts(name, true)); Initials(name) == if |w| <= 2 then w else w[..2]
  {
    FirstLettersOfSplit(name);
  }

  lemma {:induction false} FirstLettersOfSplit(s: string)
    ensures FirstLetters(Split(s, ' ')) == WordStarts(s, true)
    ensures FirstLetters(Split(s, ' ')[1..]) == WordStarts(s, false)
  {
    if s != [] {
      FirstLettersOfSplit(s[1..]);
      var rest := Split(s[1..], ' ');
      if s[0] != ' ' {
        var parts := Split(s, ' ');
        assert parts == [[s[0]] + rest[0]] + rest[1..];
        assert parts[1..] == rest[1..];
        assert FirstLetters(parts) == [s[0]] + FirstLetters(rest[1..]);
      } else {
        assert Split(s, ' ')[1..] == rest;
      }
    }
  }

  /** In a two-party direct conversation each side sees the other's display name. */
  lemma DirectNamesAreSymmetric(c: Conversation, a: UserId, b: UserId, na: string, nb: string)
    requires c.kind == Direct && c.participants == [a, b] && a != b
    requires a in c.participantsData && c.participantsData[a].Some? && c.participantsData[a].value.displayName == Some(na)
    requires b in c.participantsData && c.participantsData[b].Some? && c.participantsData[b].value.displayName == Some(nb)
    requires na != "" && nb != ""
    ensures ConversationName(c, a) == nb && ConversationName(c, b) == na
  {
    assert c.participants[1..] == [b];
    assert FindOther(c.participants, a) == Some(b);
    assert FindOther(c.participants, b) == Some(a);
  }

  /** A removed (nulled) other participant reads as 'Unknown User'. */
  lemma NulledOtherIsUnknown(c: Conversation, me: UserId, o: UserId)
    requires c.kind == Direct && c.participants == [me, o] && o != me
    requires o in c.participantsData && c.participantsData[o].None?
    ensures ConversationName(c, me) == "Unknown User"
  {
    assert c.participants[1..] == [o];
    assert FindOther(c.participants, me) == Some(o);
  }
}
