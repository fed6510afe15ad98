# Chat client core — a Dafny model

This project models the decision logic of a React + Firebase chat client. The client has:

- a rich-text message codec and renderer;
- delivery-status, presence and typing derivation;
- message sending and message-list rules;
- reaction grouping;
- the conversation aggregate: creation, member management, per-user preferences, list sorting and filtering, and card display rules;
- small UI state machines (the pinned-messages bar, image viewer, search bar, forward modal and login form);
- two text utilities (search-term highlighting and URL extraction);
- a one-shot database cleaning pass.

The model has one module per source file. Three modules are shared:

- `Wrappers` holds `Option`.
- `Strings` holds the ECMAScript white-space set, `trim`, `split`, `join`, ASCII case folding and `includes`.
- `Documents` holds the Firestore document shapes. Its `Store` class is an in-memory document store with `users`, `userStatus`, `conversations` and `messages` keyed by conversation.

Component state becomes the fields of a class such as `PinnedMessagesBar.PinnedMessagesBar` or `ConversationDetails.ConversationDetails`. The handlers become methods whose `modifies` clauses name exactly the fields and store collections they write. Pure helpers become functions and predicates, and the promised properties are lemmas.

I/O is turned into parameters:

- **Store writes and auth calls.** Whether each one succeeds is a `bool` or `AuthOutcome` parameter.
- **`serverTimestamp()` and `Date.now()`.** These are a `now: Millis` value.
- **`Object.entries` / `getDocs` enumeration order.** This is a key sequence `keys` with `Documents.Enumerates(m, keys)`: every key once, each present.
- **`JSON.parse` / `JSON.stringify`.** These are an abstract pair `RichTextEditor.Portable = Json(value) | Malformed(raw)`.
- **`fetchLinkPreview`.** This is a function parameter.
- **Callbacks.** `onSearch`, `onUnpin`, `onForward`, `onSaveEdit`, `onDelete` and the reaction callbacks become returned call records. Whether a callback is present is a `bool` parameter.

`Documents.Message.createdAt` and similar server timestamps are `Option<Millis>`. A missing `updatedAt` or typing `timestamp` reads as 0, as the source's `?.toMillis() || 0` does.

## Model

| member | source | states |
|---|---|---|
| RichTextEditor.LeafTexts | src/components/messages/RichTextEditor.js:136-141 | one text per leaf, a missing `text` read as '' |
| RichTextEditor.NodeStrings | src/components/messages/RichTextEditor.js:108-109 | one string per node, each `Node.string` of that node |
| RichTextEditor.NodeString | src/components/messages/RichTextEditor.js:108-109 | a node with an empty child list gives '' |
| RichTextEditor.CreateEmptySlateValue | src/components/messages/RichTextEditor.js:123-125 | one paragraph, which counts as empty and serializes to '' |
| RichTextEditor.SerializeSlate | src/components/messages/RichTextEditor.js:108-110 | [] gives ''; otherwise splitting the result at '\n' gives back the node strings, whenever none of them holds a '\n' |
| Strings.SplitJoin | src/components/messages/RichTextEditor.js:108-121 | splitting a join at its one-character separator gives back the parts, when no part holds the separator |
| RichTextEditor.SlateToPlainText | src/components/messages/RichTextEditor.js:136-141 | null gives ''; otherwise the same text as serializeSlate for every document |
| RichTextEditor.SlateToJson | src/components/messages/RichTextEditor.js:145-147 | jsonToSlate(slateToJSON(d)) == d for every non-empty document |
| RichTextEditor.DeserializeSlate | src/components/messages/RichTextEditor.js:112-121 | always at least one paragraph, each with exactly one leaf; null or all-blank text gives the empty value; otherwise one paragraph per '\n'-separated line |
| RichTextEditor.IsSlateEmpty | src/components/messages/RichTextEditor.js:127-133 | empty iff null, [], or one node whose single leaf has text ''; the source raises (None) exactly when a single node has no children |
| RichTextEditor.JsonToSlate | src/components/messages/RichTextEditor.js:150-157 | never raises and always returns a non-empty document |
| RichTextEditor.JoinSingletonTexts | src/components/messages/RichTextEditor.js:108-109 | a one-leaf paragraph serializes to its own text |
| RichTextEditor.SerializeDeserialize | src/components/messages/RichTextEditor.js:108-121 | serializeSlate(deserializeSlate(t)) == t for every text with a non-blank character |
| RichTextEditor.DeserializeBlank | src/components/messages/RichTextEditor.js:112-115 | null or white-space-only text deserializes to createEmptySlateValue() |
| RichTextEditor.EmptyValuesAreEmpty | src/components/messages/RichTextEditor.js:123-133 | the empty value, null and [] are all empty |
| RichTextEditor.NonEmptyLeafIsNotEmpty | src/components/messages/RichTextEditor.js:127-133 | a single paragraph with a non-empty leaf is not empty |
| RichTextEditor.StructureDecidesEmptiness | src/components/messages/RichTextEditor.js:127-133 | two or more nodes, or one node with two or more leaves, is not empty whatever the texts |
| RichTextEditor.JsonToSlateFallback | src/components/messages/RichTextEditor.js:150-157 | unparsable, non-array or empty-array input gives the empty value |
| RichTextRenderer.RenderElement | src/components/messages/RichTextRenderer.js:27-42 | a node renders nothing iff it has no children, otherwise one paragraph with one span per leaf, whatever its type |
| RichTextRenderer.RenderLeaf | src/components/messages/RichTextRenderer.js:44-60 | definition of `Leaf`; its mark order and missing-text rule are stated by MarksNestInFixedOrder and MissingTextRendersEmpty |
| RichTextRenderer.Render | src/components/messages/RichTextRenderer.js:4-25 | blocks iff the content parses to an array, one block per node; anything else is shown verbatim |
| RichTextRenderer.UnparseableIsVerbatim | src/components/messages/RichTextRenderer.js:6-12 | content that fails to parse is shown verbatim |
| RichTextRenderer.NonArrayIsVerbatim | src/components/messages/RichTextRenderer.js:14-16 | content that parses to a non-array is shown verbatim |
| RichTextRenderer.OneParagraphPerNode | src/components/messages/RichTextRenderer.js:19-42 | block i is a paragraph iff node i has children, and its spans are the rendered leaves in order |
| RichTextRenderer.MissingTextRendersEmpty | src/components/messages/RichTextRenderer.js:45 | a leaf without text renders '' |
| RichTextRenderer.MarksNestInFixedOrder | src/components/messages/RichTextRenderer.js:44-60 | marks read outside-in are underline, italic, bold, each present iff its flag is set, around the leaf text |
| MessageStatusIndicator.StatusBadge | src/components/common/MessageStatusIndicator.js:10-12 | nothing is shown iff status is missing or '' |
| MessageStatusIndicator.IconFor | src/components/common/MessageStatusIndicator.js:24-67 | read icon iff read; delivered iff not read and delivered (flag or status); sent iff neither and status sent; failed iff neither and status failed |
| MessageStatusIndicator.StatusText | src/components/common/MessageStatusIndicator.js:76-82 | 'Read' iff read; 'Delivered' iff not read and the delivered flag; 'Sending...' iff neither and status is not sent or failed |
| MessageStatusIndicator.OwnReceiptsIgnored | src/components/common/MessageStatusIndicator.js:15-18 | adding or removing the sender's own read and delivered keys changes nothing |
| MessageStatusIndicator.ReadWins | src/components/common/MessageStatusIndicator.js:24-32 | any foreign readBy key gives the read state with title 'Read' |
| MessageStatusIndicator.DeliveredIff | src/components/common/MessageStatusIndicator.js:33-41 | when not read: delivered icon iff a foreign deliveredTo key exists or status is 'delivered' |
| MessageStatusIndicator.LowerStatuses | src/components/common/MessageStatusIndicator.js:42-67 | below delivered: 'sent' iff sent, 'failed' iff failed, anything else iff sending |
| MessageStatusIndicator.MoreReceiptsNeverDemote | src/components/common/MessageStatusIndicator.js:15-41 | with status fixed, more receipt keys never lower the read > delivered > rest rank |
| MessageStatusIndicator.TextDisagreesOnDeliveredStatus | src/components/common/MessageStatusIndicator.js:33-82 | status 'delivered' with no foreign receipt shows the delivered icon titled 'Sending...' |
| MessageStatusIndicator.TextFollowsIcon | src/components/common/MessageStatusIndicator.js:76-82 | for any other status the title names the chosen icon |
| PresenceService.OnlineRecord | src/services/presenceService.js:21-29 | the online record carries the user's uid, name and email, status online, photoURL defaulting to '', lastSeen and updatedAt now |
| PresenceService.AfterOffline | src/services/presenceService.js:43-58 | only the given user's record changes, to offline with fresh lastSeen and updatedAt, and only for a non-empty id and a successful write |
| PresenceService.AfterHeartbeat | src/services/presenceService.js:66-78 | nothing changes unless signed in, the write succeeds and the record exists; then only that user's record changes, to itself with lastSeen and updatedAt now, so its status never changes |
| PresenceService.OfflineAll | src/services/presenceService.js:90-92 | definition: each registered handler's offline write in order; its properties are stated by OfflineAllMarksOffline and OfflineAllFrame |
| PresenceService.UserPresence | src/services/presenceService.js:108-120 | a missing record is reported as the offline default, otherwise the record itself |
| PresenceService.TypingWrite | src/services/presenceService.js:131-144 | only the current user's typing entry is written; other entries are kept |
| PresenceService.PresenceService.constructor | src/services/presenceService.js:5-8 | starts with no current user and no registered handlers |
| PresenceService.PresenceService.SetUserOnline | src/services/presenceService.js:13-38 | null user is a no-op; otherwise sets the current user, writes the online record and registers handlers on success |
| PresenceService.PresenceService.SetUserOffline | src/services/presenceService.js:43-58 | the status collection becomes AfterOffline of the old one |
| PresenceService.PresenceService.Heartbeat | src/services/presenceService.js:66-78 | the status collection becomes AfterHeartbeat of the old one |
| PresenceService.PresenceService.BeforeUnload | src/services/presenceService.js:90-92 | every registered handler marks its user offline |
| PresenceService.PresenceService.VisibilityChange | src/services/presenceService.js:81-87 | hidden marks every handler's user offline; visible sets the current user online again and registers more handlers |
| PresenceService.PresenceService.SetTypingStatus | src/services/presenceService.js:125-152 | no current user, a failed write or a missing conversation changes nothing; otherwise writes the entry {uid, name, now} or null |
| PresenceService.TypingUsers | src/services/presenceService.js:157-184 | a missing document or typing map gives []; otherwise the live entries in key order |
| PresenceService.LiveTyping | src/services/presenceService.js:168-177 | definition: the live entries in key order; its properties are stated by LiveTypingMembers and LiveTypingLength |
| PresenceService.LiveTypingMembers | src/services/presenceService.js:168-177 | an entry is listed iff it is non-null, not the current user's, and younger than 5000 ms with a missing timestamp read as 0 |
| PresenceService.LiveTypingLength | src/services/presenceService.js:168-177 | at most one entry per key |
| PresenceService.MissingPresenceIsOffline | src/services/presenceService.js:111-117 | the reported status is the record's, or offline when no record exists |
| PresenceService.OfflineAllMarksOffline | src/services/presenceService.js:90-92 | after unload every registered user with a record is offline |
| PresenceService.OfflineKeepsOffline | src/services/presenceService.js:43-53 | an offline user stays offline through any sequence of offline writes |
| PresenceService.OfflineAllFrame | src/services/presenceService.js:43-53 | users without a handler are untouched and no record is created |
| TypingIndicator.TypingText | src/components/common/TypingIndicator.js:7-20 | empty shows nothing; one name 'is typing'; two names in list order 'are typing'; three or more 'N people are typing' |
| TypingIndicator.Shown | src/components/common/TypingIndicator.js:14-16 | definition: a name interpolated into the template, null printing as 'null'; used by TypingText |
| TypingIndicator.CrowdTextDependsOnCount | src/components/common/TypingIndicator.js:17-18 | with three or more typists the text depends only on their number |
| TypingIndicator.PairTextKeepsOrder | src/components/common/TypingIndicator.js:15-16 | the two-name text starts with the first name and ends with the second |
| ConversationArea.Reverse | src/components/messages/ConversationArea.js:22-27 | reversal keeps the length, and element k is element n-1-k of the input |
| ConversationArea.ReverseMultiset | src/components/messages/ConversationArea.js:22-27 | reversal is a permutation |
| ConversationArea.WindowIsChronological | src/components/messages/ConversationArea.js:19-27 | the loaded window holds at most 100 messages, the newest ones, in ascending createdAt order |
| ConversationArea.ReplySnapshotOf | src/components/messages/ConversationArea.js:58-64 | null when not replying; otherwise copies id, plainText, sender id and name, with text falling back to plainText |
| ConversationArea.NewMessage | src/components/messages/ConversationArea.js:47-66 | trimmed plainText, type 'text', null editedAt and deletedAt, empty deletedFor and attachments, photo defaulting to '' |
| ConversationArea.LastMessageOf | src/components/messages/ConversationArea.js:72-80 | lastMessage text and plainText are both the trimmed text, from the sender, at now |
| ConversationArea.HeaderName | src/components/messages/ConversationArea.js:97-107 | '' with no conversation, otherwise the shared conversation-name rule |
| ConversationArea.ConversationArea.OnSnapshot | src/components/messages/ConversationArea.js:22-27 | the message list is the reversed snapshot |
| ConversationArea.ConversationArea.HandleReply | src/components/messages/ConversationArea.js:89-91 | replyTo becomes the message |
| ConversationArea.ConversationArea.HandleCancelReply | src/components/messages/ConversationArea.js:93-95 | replyTo becomes null |
| ConversationArea.ConversationArea.HandleSendMessage | src/components/messages/ConversationArea.js:37-87 | no conversation or blank text writes nothing; the message is appended; lastMessage and updatedAt move only after a successful add |
| ConversationArea.BlankTextIsNotSendable | src/components/messages/ConversationArea.js:42 | white-space-only text is never sent |
| ConversationArea.SentMessageIsPreviewed | src/components/messages/ConversationArea.js:72-80 | after sending, the card preview is the trimmed text marked as the sender's own |
| ConversationArea.ReplyQuotesText | src/components/messages/ConversationArea.js:58-64 | a quoted message without rich text is quoted by its plainText, one with rich text by that text |
| MessageList.MessageListView | src/components/messages/MessageList.js:15-46 | placeholder iff empty; one card per message in order, own iff the sender is the current user, avatar by ShowAvatar |
| MessageList.ShowAvatar | src/components/messages/MessageList.js:31 | definition: received, and first or after a message from another sender; its properties are stated by OwnMessagesHaveNoAvatar and OneAvatarPerRun |
| MessageList.OwnMessagesHaveNoAvatar | src/components/messages/MessageList.js:31 | own messages never show an avatar |
| MessageList.OneAvatarPerRun | src/components/messages/MessageList.js:31-34 | in a run of received messages from one sender only the first shows an avatar |
| MessageCard.SenderInitials | src/components/messages/MessageCard.js:33-41 | a falsy name gives '?', otherwise the shared initials rule |
| MessageCard.Actions | src/components/messages/MessageCard.js:163-220 | no buttons while editing or not hovering; otherwise reply first, then edit and delete iff the message is one's own: 3 buttons for own messages, 1 for others |
| MessageCard.CardFor | src/components/messages/MessageCard.js:62-234 | tombstone iff deletedAt is set; otherwise the avatar by AvatarFor, the sender line iff received with an avatar, 'Edited' iff editedAt, the actions, the editor when editing, else the rendered text with a reply preview iff replyTo, showing its sender and plain text |
| MessageCard.AvatarFor | src/components/messages/MessageCard.js:80-95 | a spacer iff no avatar is shown; the photo iff there is a sender photo URL; otherwise a badge with the sender's initials |
| MessageCard.LoadForEdit | src/components/messages/MessageCard.js:14-23 | the edit value is never empty, and is the empty value for a missing text |
| MessageCard.MessageCardState.constructor | src/components/messages/MessageCard.js:11-16 | the edit value is loaded iff editing starts out on |
| MessageCard.MessageCardState.EnterEdit | src/components/messages/MessageCard.js:19-23 | entering edit mode loads jsonToSlate(message.text) |
| MessageCard.MessageCardState.HandleSave | src/components/messages/MessageCard.js:43-49 | no call without an edit value; otherwise saves text that parses back to the edit value, and its plain text |
| MessageCard.MessageCardState.HandleCancel | src/components/messages/MessageCard.js:51-54 | cancel reloads the same value as entering edit mode, then always calls onCancelEdit() |
| MessageCard.MessageCardState.HandleDelete | src/components/messages/MessageCard.js:56-59 | closes the menu and forwards the for-everyone flag unchanged |
| MessageCard.MessageCardState.ToggleDeleteMenu | src/components/messages/MessageCard.js:193 | the delete menu flips |
| MessageCard.DeletedShowsTombstone | src/components/messages/MessageCard.js:62-70 | a deleted message shows only the tombstone, whatever the other flags |
| MessageCard.CancelRestoresSaved | src/components/messages/MessageCard.js:43-54 | cancelling after a save restores the saved document |
| MessageCard.SenderInitialsShape | src/components/messages/MessageCard.js:33-41 | a real name gives at least one initial and never '?' |
| MessageReactions.GroupReactions | src/components/messages/MessageReactions.js:16-35 | one group per emoji used, in the order each emoji is first used; each group lists exactly its users in key order, counts them, and flags the current user iff their reaction is that emoji; counts sum to the number of reactions |
| MessageReactions.GroupAllSpec | src/components/messages/MessageReactions.js:16-35 | the grouping function the loop follows has every one of those properties: emojis distinct and in first-use order, exactly the users of each emoji, counts summing to the number of reactions |
| MessageReactions.FirstUse | src/components/messages/MessageReactions.js:17-20 | the position of the first reaction with that emoji, or the number of reactions when none has it |
| MessageReactions.GroupAllOrder | src/components/messages/MessageReactions.js:17-20 | groups appear in the order their emojis are first used |
| MessageReactions.OrderStep | src/components/messages/MessageReactions.js:17-20 | one reaction keeps the first-use order: a new emoji goes last, a known one changes nothing |
| MessageReactions.FirstUseExtend | src/components/messages/MessageReactions.js:17-20 | one more reaction leaves every earlier first use where it was |
| MessageReactions.UserInOwnGroup | src/components/messages/MessageReactions.js:17-31 | a user is listed in an emoji's group iff their reaction is that emoji |
| MessageReactions.UsersWithMembers | src/components/messages/MessageReactions.js:27-30 | every listed user reacted with that emoji under that name |
| MessageReactions.ReactionClick | src/components/messages/MessageReactions.js:37-45 | clicking removes iff the group holds the current user, otherwise adds, with the same emoji |
| MessageReactions.Visible | src/components/messages/MessageReactions.js:11-13 | definition: a missing or empty reactions map renders no chips |
| PinnedMessagesBar.PinnedMessagesBar.constructor | src/components/messages/PinnedMessagesBar.js:8-9 | starts at index 0 |
| PinnedMessagesBar.PinnedMessagesBar.View | src/components/messages/PinnedMessagesBar.js:11-113 | hidden iff no pins; crashed iff there are pins and the index is past the last one; otherwise shows pin i with counter i+1, previous enabled iff i>0, next enabled iff i<len-1 |
| PinnedMessagesBar.PinnedMessagesBar.HandlePrevious | src/components/messages/PinnedMessagesBar.js:19-23 | on a shown bar: steps back unless at 0; the index stays in range |
| PinnedMessagesBar.PinnedMessagesBar.HandleNext | src/components/messages/PinnedMessagesBar.js:25-29 | on a shown bar: steps forward unless at the last pin; the index stays in range |
| PinnedMessagesBar.PinnedMessagesBar.HandleUnpin | src/components/messages/PinnedMessagesBar.js:31-40 | without onUnpin nothing happens; with it, calls onUnpin(current id, false) and moves the index back only when unpinning the last pin at index > 0 |
| PinnedMessagesBar.PinnedMessagesBar.HandleClick | src/components/messages/PinnedMessagesBar.js:42-46 | on a shown bar: jumps to the current pin when a callback is given |
| PinnedMessagesBar.PinnedMessagesBar.PinsChanged | src/components/messages/PinnedMessagesBar.js:8-9 | the pin list becomes the new one and the index is kept, even past the new end |
| PinnedMessagesBar.ShrinkPastIndexCrashes | src/components/messages/PinnedMessagesBar.js:8-15 | three pins, next twice, then the list shrinks to two: the render crashes |
| PinnedMessagesBar.UnpinIndex | src/components/messages/PinnedMessagesBar.js:36-38 | definition of the index after unpinning; its properties are stated by UnpinKeepsIndexValid and UnpinMovesOnlyAtEnd |
| PinnedMessagesBar.UnpinKeepsIndexValid | src/components/messages/PinnedMessagesBar.js:31-40 | after the list shrinks by one the index is still valid, or the list is empty |
| PinnedMessagesBar.UnpinMovesOnlyAtEnd | src/components/messages/PinnedMessagesBar.js:36-38 | the index changes iff it was the last of two or more pins |
| ForwardMessageModal.Toggled | src/components/messages/ForwardMessageModal.js:44-52 | a present id is removed (and nothing else); an absent id is appended |
| ForwardMessageModal.Without | src/components/messages/ForwardMessageModal.js:47 | keeps exactly the other ids |
| ForwardMessageModal.ForwardMessageModal.constructor | src/components/messages/ForwardMessageModal.js:13 | starts with no selection |
| ForwardMessageModal.ForwardMessageModal.HandleToggleConversation | src/components/messages/ForwardMessageModal.js:44-52 | the selection becomes Toggled of the old one |
| ForwardMessageModal.ForwardMessageModal.HandleClose | src/components/messages/ForwardMessageModal.js:61-64 | the selection is emptied |
| ForwardMessageModal.ForwardMessageModal.HandleForward | src/components/messages/ForwardMessageModal.js:54-59 | forwards the unchanged selection only when non-empty and a callback exists, then empties it; otherwise nothing happens |
| ForwardMessageModal.ForwardMessageModal.ForwardButton | src/components/messages/ForwardMessageModal.js:182-191 | disabled iff nothing is selected; the label is 'Forward (n)' for n > 0 |
| ForwardMessageModal.WithoutAbsent | src/components/messages/ForwardMessageModal.js:47 | removing an absent id changes nothing |
| ForwardMessageModal.WithoutPreservesNoDuplicates | src/components/messages/ForwardMessageModal.js:47 | removal keeps a duplicate-free selection duplicate-free |
| ForwardMessageModal.ToggleTwiceRestores | src/components/messages/ForwardMessageModal.js:44-52 | toggling an unselected id twice restores the selection |
| ForwardMessageModal.WithoutAppend | src/components/messages/ForwardMessageModal.js:46-49 | removing a just-appended id gives back the old selection |
| ForwardMessageModal.ToggledPreservesNoDuplicates | src/components/messages/ForwardMessageModal.js:44-52 | toggling never creates duplicates |
| ConversationList.SortByUpdatedAt | src/components/conversations/ConversationList.js:29-33 | sorts in place, newest updatedAt first with missing read as 0, as a permutation that keeps equal keys in input order |
| ConversationList.InsertAt | src/components/conversations/ConversationList.js:29-33 | one insertion step of the sort: the first i+1 entries end newest first, and the array is a permutation of itself with equal keys in their old order |
| ConversationList.WithKey | src/components/conversations/ConversationList.js:29-33 | the entries with a given key, in order: never more than given |
| ConversationList.WithKeyAppend | src/components/conversations/ConversationList.js:29-33 | selecting one key distributes over concatenation |
| ConversationList.SwapKeepsTies | src/components/conversations/ConversationList.js:29-33 | swapping two neighbours with different keys keeps every key's entries in order |
| ConversationList.SearchName | src/components/conversations/ConversationList.js:52 | the name searched is never '' and is the conversation's own name when it has one |
| ConversationList.KeepMatching | src/components/conversations/ConversationList.js:50-54 | keeps only matching conversations, never more than given |
| ConversationList.FilterConversations | src/components/conversations/ConversationList.js:50-54 | an empty query keeps everything |
| ConversationList.KeepMatchingMembers | src/components/conversations/ConversationList.js:50-54 | a conversation is kept iff it was given and its name contains the query case-insensitively |
| ConversationList.KeepMatchingAppend | src/components/conversations/ConversationList.js:50 | filtering distributes over concatenation, so order is preserved |
| ConversationList.FilterAsWritten | src/components/conversations/ConversationList.js:50-56 | as written: with a non-empty query the filter raises iff some conversation has no name |
| ConversationList.FilterAsWrittenRaises | src/components/conversations/ConversationList.js:50-58 | an unnamed direct conversation with query 'a' raises as written, while the intended filter returns [] |
| ConversationList.FilterAsWrittenAgreesOnNamed | src/components/conversations/ConversationList.js:50-54 | as written and intended agree when the query is empty or every conversation is named |
| ConversationList.DerivedNameIsSearched | src/components/conversations/ConversationList.js:50-58 | an unnamed group is found by the query 'group' through its derived name |
| ConversationCard.OtherData | src/components/conversations/ConversationCard.js:11-12 | the data found belongs to a participant other than the current user |
| ConversationCard.OrElse | src/components/conversations/ConversationCard.js:8 | the value exactly when it is present and non-empty, otherwise the fallback |
| ConversationCard.ConversationName | src/components/conversations/ConversationCard.js:6-14 | never ''; group gives name or 'Group Chat'; direct gives the first other participant's non-empty displayName, and 'Unknown User' exactly when there is none |
| ConversationCard.ConversationPhoto | src/components/conversations/ConversationCard.js:16-24 | never ''; group gives its photoURL; direct gives the first other participant's non-empty photoURL, and only that; null when absent or empty |
| ConversationCard.Initials | src/components/conversations/ConversationCard.js:26-33 | at most 2 characters |
| ConversationCard.InitialsAreWordStarts | src/components/conversations/ConversationCard.js:26-33 | initials are the upper-cased first letters of space-separated words, cut to 2 |
| ConversationCard.FirstLettersOfSplit | src/components/conversations/ConversationCard.js:27-30 | the first letters of the split words are the word starts |
| ConversationCard.LastMessagePreview | src/components/conversations/ConversationCard.js:87-98 | none iff no lastMessage; 'Message deleted' iff type deleted; 'You: ' iff own; text is plainText, else text, else 'New message' |
| ConversationCard.DirectNamesAreSymmetric | src/components/conversations/ConversationCard.js:6-14 | in a two-person direct conversation each side sees the other's name |
| ConversationCard.NulledOtherIsUnknown | src/components/conversations/ConversationCard.js:12-13 | a nulled other participant shows as 'Unknown User' |
| UserSearch.FirstMatch | src/components/conversations/NewConversationModal.js:35-51 | not found iff no user has that email; otherwise the first user in key order with it |
| UserSearch.QueryEmail | src/components/conversations/NewConversationModal.js:40 | definition: the typed address trimmed and lower-cased, as both search handlers query it |
| UserSearch.MemberData | src/components/conversations/NewConversationModal.js:132-136 | role member; the name is the user's displayName when non-empty, else 'User'; the photo is the user's photoURL when non-empty, else '' |
| NewConversationModal.Ids | src/components/conversations/NewConversationModal.js:139 | the selected ids, in selection order |
| NewConversationModal.RemoveUser | src/components/conversations/NewConversationModal.js:86-88 | filters out exactly that id |
| NewConversationModal.ExistingDirect | src/components/conversations/NewConversationModal.js:107-119 | found iff some direct conversation contains the other user, and it is one |
| NewConversationModal.CreateDisabled | src/components/conversations/NewConversationModal.js:405-410 | enabled iff not creating, someone selected, a group has a name, and a direct chat has exactly one user |
| NewConversationModal.CreatorData | src/components/conversations/NewConversationModal.js:124-128 | the creator's own name; the creator's photoURL when non-empty, else ''; admin iff the conversation is a group |
| NewConversationModal.ParticipantsData | src/components/conversations/NewConversationModal.js:123-137 | definition of the `forEach` result; its keys and entries are stated by ParticipantsDataKeys and ParticipantsDataEntries |
| NewConversationModal.NewConversation | src/components/conversations/NewConversationModal.js:139-151 | the new id, type and creator; a name iff group, trimmed; participants the creator then the selection; created and updated now; no last message, photo, preferences or typing |
| NewConversationModal.NewConversationModal.constructor | src/components/conversations/NewConversationModal.js:6-14 | starts at the type step, direct, with nothing selected |
| NewConversationModal.NewConversationModal.ResetModal | src/components/conversations/NewConversationModal.js:16-23 | restores the initial step, type and details with an empty selection |
| NewConversationModal.NewConversationModal.ChooseType | src/components/conversations/NewConversationModal.js:210-242 | sets the type and moves to the details step |
| NewConversationModal.NewConversationModal.Back | src/components/conversations/NewConversationModal.js:398 | returns to the type step |
| NewConversationModal.NewConversationModal.SetSearchEmail | src/components/conversations/NewConversationModal.js:11 | sets the search field |
| NewConversationModal.NewConversationModal.SetGroupName | src/components/conversations/NewConversationModal.js:10 | sets the group name |
| NewConversationModal.NewConversationModal.HandleSearchUser | src/components/conversations/NewConversationModal.js:30-76 | blank is skipped; otherwise looks up the trimmed lower-cased email and refuses unknown users, the creator and already-selected users, keeping no self and no duplicates |
| NewConversationModal.NewConversationModal.HandleAddUser | src/components/conversations/NewConversationModal.js:78-84 | appends the search result and clears the search; nothing without a result |
| NewConversationModal.NewConversationModal.HandleRemoveUser | src/components/conversations/NewConversationModal.js:86-88 | the selection becomes RemoveUser of the old one |
| NewConversationModal.NewConversationModal.BuildParticipantsData | src/components/conversations/NewConversationModal.js:123-137 | the loop builds exactly ParticipantsData |
| NewConversationModal.NewConversationModal.HandleCreateConversation | src/components/conversations/NewConversationModal.js:90-169 | rejects an empty selection and a nameless group; reuses an existing direct chat without writing; otherwise creates iff the write succeeds, writing exactly NewConversation; reuse and creation both reset the step, type, selection, name and search; a failure writes nothing and keeps the state |
| NewConversationModal.RemoveKeepsDistinct | src/components/conversations/NewConversationModal.js:86-88 | removal keeps the selection duplicate-free and within the old one |
| NewConversationModal.ParticipantsDataKeys | src/components/conversations/NewConversationModal.js:123-137 | the keys are the creator and the selected ids |
| NewConversationModal.IdsAppend | src/components/conversations/NewConversationModal.js:139 | adding a user adds its id at the end |
| NewConversationModal.ParticipantsDataEntries | src/components/conversations/NewConversationModal.js:123-137 | the creator gets CreatorData and each selected user MemberData ('User' and '' defaults, role member) |
| NewConversationModal.CreatedGroupShape | src/components/conversations/NewConversationModal.js:123-151 | a group lists the creator then the selection, the creator as admin and everyone else as member |
| NewConversationModal.EnabledCreatePassesValidation | src/components/conversations/NewConversationModal.js:405-410 | an enabled Create button always passes the creation checks |
| ConversationDetails.CurrentRole | src/components/conversations/ConversationDetails.js:13-15 | the current user's role, when their data entry exists |
| ConversationDetails.IsAdmin | src/components/conversations/ConversationDetails.js:15 | definition: the current role is admin; used by the admin-only handlers |
| ConversationDetails.MembersAsWritten | src/components/conversations/ConversationDetails.js:16-19 | as written: one row per data key, nulled entries included |
| ConversationDetails.Members | src/components/conversations/ConversationDetails.js:16-19 | corrected: never more rows than keys |
| ConversationDetails.MemberCountText | src/components/conversations/ConversationDetails.js:215 | the count in decimal, which reads back as n, then ' member', with a final 's' iff n is not 1 |
| Strings.NatToStringRoundTrip | src/components/conversations/ConversationDetails.js:215 | the decimal text of n is all digits and reads back as n |
| ConversationDetails.ArrayUnion | src/components/conversations/ConversationDetails.js:64 | adds the id once, only when absent |
| ConversationDetails.ArrayRemove | src/components/conversations/ConversationDetails.js:98 | keeps exactly the other ids |
| ConversationDetails.AddMember | src/components/conversations/ConversationDetails.js:62-69 | participants are the old ones plus the user; the user's data becomes MemberData; updatedAt is now; nothing else changes |
| ConversationDetails.DropMember | src/components/conversations/ConversationDetails.js:97-104 | participants are the old ones without the id; its data is nulled, other entries kept, the key set grows by at most that id; updatedAt is now; nothing else changes |
| ConversationDetails.WithFlag | src/components/conversations/ConversationDetails.js:134-171 | sets the chosen flag and no other |
| ConversationDetails.FlagOf | src/components/conversations/ConversationDetails.js:134-171 | a flag is on iff the user's preference for it is true; absent reads as off |
| ConversationDetails.SetFlag | src/components/conversations/ConversationDetails.js:134-171 | only the current user's chosen flag changes; other flags, users and the participant lists stay |
| ConversationDetails.ConversationDetails.constructor | src/components/conversations/ConversationDetails.js:5-9 | starts not adding, with an empty search |
| ConversationDetails.ConversationDetails.ToggleAdding | src/components/conversations/ConversationDetails.js:228 | the add panel flips |
| ConversationDetails.ConversationDetails.SetSearchEmail | src/components/conversations/ConversationDetails.js:7 | sets the search field |
| ConversationDetails.ConversationDetails.HandleSearchUser | src/components/conversations/ConversationDetails.js:21-55 | blank is skipped; otherwise looks up the trimmed lower-cased email and refuses unknown users and existing participants |
| ConversationDetails.ConversationDetails.HandleAddMember | src/components/conversations/ConversationDetails.js:57-82 | only an admin with a search result adds; the id joins participants as a set and gets member data |
| ConversationDetails.ConversationDetails.HandleRemoveMember | src/components/conversations/ConversationDetails.js:84-111 | non-admins and self-removal are refused; a confirmed removal drops the id and nulls its data |
| ConversationDetails.ConversationDetails.HandleLeaveGroup | src/components/conversations/ConversationDetails.js:113-132 | a confirmed leave drops the current user and nulls their data, whatever the role |
| ConversationDetails.ConversationDetails.HandleToggle | src/components/conversations/ConversationDetails.js:134-181 | flips only the current user's chosen flag; archiving closes the panel |
| ConversationDetails.ToggleTwiceRestores | src/components/conversations/ConversationDetails.js:134-171 | toggling twice restores every flag |
| ConversationDetails.DropMemberParticipants | src/components/conversations/ConversationDetails.js:97-101 | removal drops exactly that id from participants |
| ConversationDetails.RemoveAbsent | src/components/conversations/ConversationDetails.js:98 | removal changes the list iff the id is present |
| ConversationDetails.AddedMemberIsParticipant | src/components/conversations/ConversationDetails.js:62-69 | the added user is a participant with member data, and participants stay duplicate-free |
| ConversationDetails.RemovedMemberStillListed | src/components/conversations/ConversationDetails.js:16-104 | as written, a removed member is still listed as an empty row and counted |
| ConversationDetails.RemovedMemberMiscounted | src/components/conversations/ConversationDetails.js:16-215 | as written the header reads '2 members' after removing one of two; corrected it reads '1 member' |
| ConversationDetails.MembersAreLiveEntries | src/components/conversations/ConversationDetails.js:16-19 | corrected: the rows are exactly the non-null entries |
| ConversationDetails.RemovedMemberNotListed | src/components/conversations/ConversationDetails.js:16-104 | corrected: a removed member is not listed |
| ConversationDetails.NoSelfRemoval | src/components/conversations/ConversationDetails.js:319 | the remove button never shows for one's own row |
| SearchBar.ResultsCounter | src/components/messages/SearchBar.js:101-143 | no counter without text; 'No results' iff nothing found; 'i+1 of n' with previous disabled at 0 and next at n-1 |
| SearchBar.SearchBar.constructor | src/components/messages/SearchBar.js:8-10 | starts empty and collapsed |
| SearchBar.SearchBar.Expand | src/components/messages/SearchBar.js:46 | expands the bar |
| SearchBar.SearchBar.HandleSubmit | src/components/messages/SearchBar.js:12-17 | searches the trimmed text unless blank |
| SearchBar.SearchBar.HandleChange | src/components/messages/SearchBar.js:27-37 | stores the text; searches trimmed text, or clears when blank |
| SearchBar.SearchBar.HandleClear | src/components/messages/SearchBar.js:19-25 | empties the text, collapses and calls onClear |
| SearchBar.SearchQueriesAreTrimmed | src/components/messages/SearchBar.js:12-33 | onSearch only receives trimmed non-empty text |
| SearchBar.WhitespaceClears | src/components/messages/SearchBar.js:32-36 | white-space-only input takes the clear branch |
| SearchBar.NavigationBounds | src/components/messages/SearchBar.js:101-143 | with results the position is within 1..n |
| HighlightedText.SplitMatches | src/components/messages/HighlightedText.js:12 | the split always has an odd number of parts |
| HighlightedText.Highlight | src/components/messages/HighlightedText.js:7-31 | empty query or text gives one plain part; otherwise one part per split piece, marked iff it equals the query case-insensitively |
| HighlightedText.SplitRestores | src/components/messages/HighlightedText.js:12 | the parts concatenate back to the text |
| HighlightedText.OddPartsMatch | src/components/messages/HighlightedText.js:12 | every odd part is a match |
| HighlightedText.EvenPartsDoNotMatch | src/components/messages/HighlightedText.js:12 | no even part contains a match, so matches are leftmost and non-overlapping |
| HighlightedText.MarkedIffOdd | src/components/messages/HighlightedText.js:16-21 | a part is highlighted iff it is a match |
| HighlightedText.HighlightShowsText | src/components/messages/HighlightedText.js:8-31 | the rendered parts spell out the text |
| ImageViewerModal.ImageViewerModal.constructor | src/components/messages/ImageViewerModal.js:7-8 | starts at the initial index |
| ImageViewerModal.ImageViewerModal.InitialIndexChanged | src/components/messages/ImageViewerModal.js:10-12 | the index follows the initial index |
| ImageViewerModal.ImageViewerModal.ImagesChanged | src/components/messages/ImageViewerModal.js:7-8 | the image list becomes the new one and the index is kept |
| ImageViewerModal.ImageViewerModal.View | src/components/messages/ImageViewerModal.js:48-121 | closed iff not open or no images; crashed iff open with images and the index out of range; otherwise the index is in range; counter and arrows only for more than one image |
| ImageViewerModal.ImageViewerModal.HandleNext | src/components/messages/ImageViewerModal.js:38-40 | next with wrap-around |
| ImageViewerModal.ImageViewerModal.HandlePrevious | src/components/messages/ImageViewerModal.js:34-36 | previous with wrap-around |
| ImageViewerModal.ImageViewerModal.KeyDown | src/components/messages/ImageViewerModal.js:14-32 | ignored when closed; Escape closes, ArrowLeft previous, ArrowRight next; other keys are ignored |
| ImageViewerModal.NextPrevAreInverse | src/components/messages/ImageViewerModal.js:34-40 | both stay in range and undo each other |
| ImageViewerModal.EndsWrapAround | src/components/messages/ImageViewerModal.js:34-40 | next wraps the last image to 0 and previous wraps 0 to the last |
| ImageViewerModal.NextIndex | src/components/messages/ImageViewerModal.js:38-40 | an index in range stays in range |
| ImageViewerModal.PrevIndex | src/components/messages/ImageViewerModal.js:34-36 | an index in range stays in range |
| ImageViewerModal.ShrinkPastIndexCrashes | src/components/messages/ImageViewerModal.js:48-52 | open at the second of two images, then one image: the render crashes |
| LinkPreview.NonSpaceRunStops | src/utils/linkPreview.js:12 | the run stops at the first white space or the end |
| LinkPreview.ExtractUrls | src/utils/linkPreview.js:8-16 | falsy text gives [] |
| LinkPreview.ExtractedAreUrls | src/utils/linkPreview.js:12 | every URL starts with http:// or https://, has a character after '//', and has no white space |
| LinkPreview.ExtractedAreSpanTexts | src/utils/linkPreview.js:12-15 | the URLs are the texts of non-overlapping spans in left-to-right order |
| LinkPreview.SpansOrdered | src/utils/linkPreview.js:12-15 | spans are well formed and ordered |
| LinkPreview.SpansAreMaximal | src/utils/linkPreview.js:12 | each match runs to the next white space or the end |
| LinkPreview.NoMatchOutsideSpans | src/utils/linkPreview.js:12-15 | no URL starts at a position outside the spans |
| LinkPreview.Present | src/utils/linkPreview.js:92 | keeps exactly the non-null previews; with no null, every preview in the same order |
| LinkPreview.FetchAll | src/utils/linkPreview.js:87-90 | one fetch per URL, in order |
| LinkPreview.PreviewsAreCapped | src/utils/linkPreview.js:81-93 | at most min(3, #urls) previews, each fetched for one of the first 3 URLs |
| LinkPreview.GenerateLinkPreviews | src/utils/linkPreview.js:81-93 | at most 3 previews and never more than the URLs found; every successful fetch of the first three URLs is kept; when all of them succeed, the previews are those fetches in URL order |
| LinkPreview.PresentOfAppend | src/utils/linkPreview.js:92 | filtering distributes over concatenation |
| CleanupDatabase.Cleanup | src/utils/cleanupDatabase.js:9-54 | the store is the snapshot with exactly the planned writes before the failure applied; any failing write or read, including a read after the last write or in a clean store, gives Failure and keeps the earlier writes; success reports the number of writes |
| CleanupDatabase.ApplyAllShape | src/utils/cleanupDatabase.js:17-48 | the cleaning writes create and delete no documents |
| CleanupDatabase.ApplyAllUsers | src/utils/cleanupDatabase.js:22-24 | a user's photoURL is '' after the pass iff it was written |
| CleanupDatabase.ApplyAllMessages | src/utils/cleanupDatabase.js:42-44 | a message's attachments are [] after the pass iff it was written |
| CleanupDatabase.UserWritesIff | src/utils/cleanupDatabase.js:17-27 | a user is written iff its photoURL starts with 'data:' |
| CleanupDatabase.MessageWritesIff | src/utils/cleanupDatabase.js:37-47 | a message is written iff it has attachments |
| CleanupDatabase.ConvWritesIff | src/utils/cleanupDatabase.js:33-48 | over all conversations, exactly the messages with attachments are written |
| CleanupDatabase.WritesAreDirtyDocuments | src/utils/cleanupDatabase.js:17-48 | the write list is exactly the dirty users and messages, so cleanedCount counts them |
| CleanupDatabase.FullPassCleansAll | src/utils/cleanupDatabase.js:17-48 | after a full pass no listed user or message is dirty |
| CleanupDatabase.SecondPassWritesNothing | src/utils/cleanupDatabase.js:17-48 | a second pass writes nothing and reports 0 |
| CleanupDatabase.CleanDocumentsUntouched | src/utils/cleanupDatabase.js:21 | a clean user document is untouched |
| LoginForm.ErrorMessage | src/components/auth/LoginForm.js:65-86 | the six known codes get their fixed messages; any other code gets the error's own message |
| LoginForm.LoginForm.constructor | src/components/auth/LoginForm.js:13-19 | starts in sign-in mode with empty fields and no error |
| LoginForm.LoginForm.SetFields | src/components/auth/LoginForm.js:142-179 | stores the entered fields |
| LoginForm.LoginForm.HandleEmailPasswordAuth | src/components/auth/LoginForm.js:36-90 | a blank sign-up name sets the fixed error with no auth call; sign-up creates the account and updates the profile with the trimmed name only after a successful creation; sign-in makes one call; errors are mapped; loading ends false |
| LoginForm.LoginForm.SignInWithGoogle | src/components/auth/LoginForm.js:21-34 | the error is the failure's message, else cleared; loading ends false |
| LoginForm.LoginForm.ToggleMode | src/components/auth/LoginForm.js:92-98 | flips the mode and clears email, password, name and error |
| LoginForm.FriendlyMessagesAreDistinct | src/components/auth/LoginForm.js:65-86 | distinct known codes give distinct messages, none the blank-name one |
| LoginForm.FailureShowsError | src/components/auth/LoginForm.js:65-86 | a failure with a message always shows a non-empty error |

The conversation-name rule is one copy of the same code in four places: ConversationCard.js:6-14, ConversationList.js:56-64, ConversationArea.js:97-107 and ForwardMessageModal.js:66-75. `ConversationCard.ConversationName` models it once and the other modules use it. The initials rule of ConversationCard.js:26-33 is reused by MessageCard.js:33-41.

## Left out

- Firestore and Firebase Auth: every call (`addDoc`, `updateDoc`, `setDoc`, `getDocs`, `onSnapshot`, `signInWith*`, `updateProfile`) is replaced by the in-memory `Store` plus a success flag or outcome parameter. Network failure is not modelled beyond that flag.
- Real time, `setInterval`, and listener registration and removal in presenceService.js: the heartbeat, visibility and unload events are explicit methods, and registering a handler is modelled as recording its user id.
- The `this.cleanup` field set at presenceService.js:98 shadows the `cleanup()` method of line 190. That method, and so the whole service tear-down, is not modelled.
- Concurrency and the interleaving of asynchronous writes: each handler runs to completion in one step.
- Slate editor internals (`toggleMark`, `isMarkActive`, `Editable`) and all JSX/DOM markup; what is shown is modelled as data.
- `JSON.parse`/`JSON.stringify` are an abstract pair. A parsed array's elements are taken to be node-shaped objects.
- HighlightedText.SplitMatches treats the query as a literal string: regex metacharacters in the query, which the source passes to `new RegExp` unescaped (HighlightedText.js:12), are not modelled.
- Case folding is ASCII only, and white space is the ECMAScript WhiteSpace and LineTerminator set; Unicode case mappings are not modelled.
- `fetchLinkPreview`, `getDomain` and URL parsing in linkPreview.js; the fetch is a function parameter.
- Date formatting with `date-fns` in MessageCard.js and ConversationCard.js.
- `Array.prototype.sort` with the comparator of ConversationList.js:29-33 is modelled by an insertion sort on the same key. Its order, permutation and stability (equal keys keep their input order, as ECMAScript 2019 requires of `sort`) are all stated; the sequence of comparator calls is not.
- Strings are sequences of Dafny `char`, while JavaScript strings are UTF-16 code units. `word[0]` and `.slice(0, 2)` in the initials rule (ConversationCard.js:26-33), and `.length` wherever it is used, count code units, so a character outside the Basic Multilingual Plane is one `char` here and two units there. ConversationCard.Initials and MessageCard.SenderInitials can then differ from the source by cutting a surrogate pair in half.
- A render that throws because the index is past the end of a shrunk list (PinnedMessagesBar.js:15-63, ImageViewerModal.js:52-114) is the `Crashed` view; what React does after a render throws (error boundaries, unmounting) is not modelled.
- Loading and spinner flags (`loading`, `searching`, `creating`) are kept only where a handler's contract states them (LoginForm); elsewhere they are left out as pure UI.
- The cleanup pass takes the snapshot key orders as given. Where it fails is a parameter: the number of writes done before the throw. A throwing `getDocs` or `updateDoc` is named only by that count, so two failing reads with no write between them are one outcome.
- PresenceService.PresenceService.BeforeUnload and PresenceService.PresenceService.VisibilityChange take one outcome flag per event, shared by all handlers: the independent `updateDoc` of each handler (presenceService.js:90-92) either all succeed or all fail, and mixed outcomes are not modelled.
- The callbacks `onSaveEdit`, `onCancelEdit`, `onDelete`, `onAddReaction`/`onRemoveReaction`, `onUnpin` and `onForward` are implemented elsewhere; they are returned as call records.
- ProfileSettings.js, the settings screens, App.js, Layout.js, Button.js, EmojiPicker.js, Channel.js, Message.js, testFirebase.js, LinkPreview.js, OnlineStatusIndicator.js and MessageInput.js are outside this model: they are forms, layout, canvas image work or legacy I/O.

## Findings

| source | as written | input that shows it | evidently intended | confidence | as-written member | corrected member |
|---|---|---|---|---|---|---|
| src/components/conversations/ConversationList.js:50-58 | the filter calls `getConversationName`, a `const` declared after it, so the call is in its temporal dead zone and raises a ReferenceError | a non-empty search query and any conversation without `name` | unnamed conversations are matched by their derived name | high, not executed | ConversationList.FilterAsWritten (ConversationList.FilterAsWrittenRaises) | ConversationList.FilterConversations (ConversationList.KeepMatchingMembers) |
| src/components/conversations/ConversationDetails.js:16-123 | members are built from every `participantsData` entry, but removing or leaving sets the entry to null, so a removed member stays listed as a nameless 'User' row and is counted | remove member 'b' from a group of 'a' and 'b': 2 rows, 'b' with no data | only members with live data are listed and counted | medium, not executed | ConversationDetails.MembersAsWritten (ConversationDetails.RemovedMemberStillListed, ConversationDetails.RemovedMemberMiscounted) | ConversationDetails.Members (ConversationDetails.MembersAreLiveEntries, ConversationDetails.RemovedMemberNotListed) |
