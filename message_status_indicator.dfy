/**
 * The delivery-status badge of an own message (src/components/common/MessageStatusIndicator.js).
 * The `readBy` and `deliveredTo` receipt maps are seen through their key sets.
 */
module MessageStatusIndicator {
  import opened Wrappers

  datatype Icon = ReadIcon | DeliveredIcon | SentIcon | FailedIcon | SendingIcon

  /** What the component renders: nothing, or an icon with its tooltip text. */
  datatype Badge = Hidden | Shown(icon: Icon, title: string)

  /** `Object.keys(m).some(id => id !== currentUserId)`: a receipt from someone other than the viewer. */
  predicate ForeignReceipt(keys: set<string>, currentUserId: string) {
    exists k :: k in keys && k != currentUserId
  }

  /** The if/else chain choosing the icon. */
  function IconFor(status: string, isRead: bool, isDelivered: bool): (r: Icon)
    ensures r == ReadIcon <==> isRead
    ensures r == DeliveredIcon <==> !isRead && (isDelivered || status == "delivered")
    ensures r == SentIcon <==> !isRead && !isDelivered && status == "sent"
    ensures r == FailedIcon <==> !isRead && !isDelivered && status == "failed"
  {
    if isRead then ReadIcon
    else if isDelivered || status == "delivered" then DeliveredIcon
    else if status == "sent" then SentIcon
    else if status == "failed" then FailedIcon
    else SendingIcon
  }

  /** `getStatusText(status, isRead, isDelivered)`. */
  function StatusText(status: string, isRead: bool, isDelivered: bool): (r: string)
    ensures r == "Read" <==> isRead
    ensures r == "Delivered" <==> !isRead && isDelivered
    ensures r == "Sending..." <==> !isRead && !isDelivered && status != "sent" && status != "failed"
  {
    if isRead then "Read"
    else if isDelivered then "Delivered"
    else if status == "sent" then "Sent"
    else if status == "failed" then "Failed to send"
    else "Sending..."
  }

  /** The component for `status` (`None` or `""` is falsy), the two key sets and the viewer. */
  function StatusBadge(status: Option<string>, readBy: set<string>, deliveredTo: set<string>, currentUserId: string): (b: Badge)
    ensures b.Hidden? <==> status.None? || status.value == ""
  {
    if status.None? || status.value == "" then Hidden
    else
      var isRead := ForeignReceipt(readBy, currentUserId);
      var isDelivered := ForeignReceipt(deliveredTo, currentUserId);
      Shown(IconFor(status.value, isRead, isDelivered), StatusText(status.value, isRead, isDelivered))
  }

  /** A rank for the precedence order: read above delivered above the rest. */
  function Rank(i: Icon): nat {
    match i
    case ReadIcon => 2
    case DeliveredIcon => 1
    case _ => 0
  }

  // ----- Properties -----

  /** The viewer's own receipt entries never matter. */
  lemma OwnReceiptsIgnored(status: Option<string>, readBy: set<string>, deliveredTo: set<string>, me: string)
    ensures StatusBadge(status, readBy + {me}, deliveredTo + {me}, me) == StatusBadge(status, readBy - {me}, deliveredTo - {me}, me)
  {
    assert ForeignReceipt(readBy + {me}, me) == ForeignReceipt(readBy - {me}, me) by {
      if ForeignReceipt(readBy + {me}, me) {
        var k :| k in readBy + {me} && k != me;
        assert k in readBy - {me};
      }
    }
    assert ForeignReceipt(deliveredTo + {me}, me) == ForeignReceipt(deliveredTo - {me}, me) by {
      if ForeignReceipt(deliveredTo + {me}, me) {
        var k :| k in deliveredTo + {me} && k != me;
        assert k in deliveredTo - {me};
      }
    }
  }

  /** Read wins: a foreign read receipt gives the read icon whatever the other inputs. */
  lemma ReadWins(status: string, readBy: set<string>, deliveredTo: set<string>, me: string, other: string)
    requires status != "" && other in readBy && other != me
    ensures StatusBadge(Some(status), readBy, deliveredTo, me) == Shown(ReadIcon, "Read")
  {
  }

  /** Without a foreign read receipt, the icon is delivered iff a foreign delivery receipt exists or the status says so. */
  lemma DeliveredIff(status: string, readBy: set<string>, deliveredTo: set<string>, me: string)
    requires status != "" && readBy <= {me}
    ensures StatusBadge(Some(status), readBy, deliveredTo, me).icon == DeliveredIcon
        <==> (exists k :: k in deliveredTo && k != me) || status == "delivered"
  {
  }

  /** Below delivered, the status string alone decides: sent, failed, or sending for anything else. */
  lemma LowerStatuses(status: string, readBy: set<string>, deliveredTo: set<string>, me: string)
    requires status != "" && status != "delivered" && readBy <= {me} && deliveredTo <= {me}
    ensures var i := StatusBadge(Some(status), readBy, deliveredTo, me).icon;
      && (status == "sent" <==> i == SentIcon)
      && (status == "failed" <==> i == FailedIcon)
      && (status != "sent" && status != "failed" <==> i == SendingIcon)
  {
  }

  /** With the status fixed, more receipts never lower the icon out of read, nor from delivered below delivered. */
  lemma MoreReceiptsNeverDemote(status: string, r1: set<string>, d1: set<string>, r2: set<string>, d2: set<string>, me: string)
    requires status != "" && r1 <= r2 && d1 <= d2
    ensures Rank(StatusBadge(Some(status), r1, d1, me).icon) <= Rank(StatusBadge(Some(status), r2, d2, me).icon)
  {
    if ForeignReceipt(r1, me) {
      var k :| k in r1 && k != me;
      assert k in r2;
    }
    if ForeignReceipt(d1, me) {
      var k :| k in d1 && k != me;
      assert k in d2;
    }
  }

  /** The tooltip ignores `status == 'delivered'`: with no foreign receipt the icon says delivered, the text 'Sending...'. */
  lemma TextDisagreesOnDeliveredStatus(me: string)
    ensures StatusBadge(Some("delivered"), {}, {me}, me) == Shown(DeliveredIcon, "Sending...")
  {
  }

  /** Apart from that status, tooltip and icon follow the same order. */
  lemma TextFollowsIcon(status: string, isRead: bool, isDelivered: bool)
    requires status != "delivered"
    ensures StatusText(status, isRead, isDelivered) ==
      match IconFor(status, isRead, isDelivered)
      case ReadIcon => "Read"
      case DeliveredIcon => "Delivered"
      case SentIcon => "Sent"
      case FailedIcon => "Failed to send"
      case SendingIcon => "Sending..."
  {
  }
}
