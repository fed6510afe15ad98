/** The list of message cards (src/components/messages/MessageList.js). */
module MessageList {
  import opened Documents

  /** The props the list passes to each card. */
  datatype CardProps = CardProps(message: Message, isOwnMessage: bool, showAvatar: bool)

  datatype ListView = Placeholder | Cards(cards: seq<CardProps>)

  /** `showAvatar` for the message at `i`: received, and first or after a message from someone else. */
  predicate ShowAvatar(msgs: seq<Message>, i: nat, me: UserId)
    requires i < |msgs|
  {
    msgs[i].senderId != me && (i == 0 || msgs[i - 1].senderId != msgs[i].senderId)
  }

  /** The rendered list: the placeholder for no messages, otherwise one card per message in order. */
  function MessageListView(msgs: seq<Message>, me: UserId): (v: ListView)
    ensures v.Placeholder? <==> |msgs| == 0
    ensures v.Cards? ==> |v.cards| == |msgs| && forall i :: 0 <= i < |msgs| ==> v.cards[i].message == msgs[i]
    ensures v.Cards? ==> forall i :: 0 <= i < |msgs| ==> (v.cards[i].isOwnMessage <==> msgs[i].senderId == me)
    ensures v.Cards? ==> forall i :: 0 <= i < |msgs| ==> (v.cards[i].showAvatar <==> ShowAvatar(msgs, i, me))
  {
    if |msgs| == 0 then Placeholder
    else Cards(seq(|msgs|, i requires 0 <= i < |msgs| => CardProps(msgs[i], msgs[i].senderId == me, ShowAvatar(msgs, i, me))))
  }

  // ----- Properties -----

  /** Own messages never carry an avatar. */
  lemma OwnMessagesHaveNoAvatar(msgs: seq<Message>, me: UserId, i: nat)
    requires i < |msgs| && msgs[i].senderId == me
    ensures !MessageListView(msgs, me).cards[i].showAvatar
  {
  }

  /** Within a run of consecutive messages from one other sender, only the first shows the avatar. */
  lemma {:induction false} OneAvatarPerRun(msgs: seq<Message>, me: UserId, lo: nat, hi: nat)
    requires lo <= hi < |msgs|
    requires forall k :: lo <= k <= hi ==> msgs[k].senderId == msgs[lo].senderId
    requires msgs[lo].senderId != me
    requires lo == 0 || msgs[lo - 1].senderId != msgs[lo].senderId
    ensures forall k :: lo <= k <= hi ==> (ShowAvatar(msgs, k, me) <==> k == lo)
  {
    forall k | lo <= k <= hi ensures ShowAvatar(msgs, k, me) <==> k == lo {
      if k > lo {
        assert msgs[k - 1].senderId == msgs[lo].senderId;
      }
    }
  }
}
