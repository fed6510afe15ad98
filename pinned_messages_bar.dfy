/** The carousel of pinned messages above a conversation (src/components/messages/PinnedMessagesBar.js). */
module PinnedMessagesBar {
  import opened Wrappers
  import opened Documents

  /** The index after unpinning at `idx` in a list of `len`: one back when the last item is unpinned, if there is one before it. */
  function UnpinIndex(idx: int, len: nat): int {
    if idx > 0 && idx == len - 1 then idx - 1 else idx
  }

  /** The `onUnpin(messageId, false)` call. */
  datatype UnpinCall = UnpinCall(messageId: MsgId, forEveryone: bool)

  /**
   * The bar as rendered: hidden for no pins; otherwise the current pin, and the counter and arrows for several.
   * `Crashed` is the render that reads `senderName` of the missing pin when the index has fallen off the list.
   */
  datatype BarView = Hidden | Bar(current: Message, counter: int, navShown: bool, previousEnabled: bool, nextEnabled: bool) | Crashed

  class PinnedMessagesBar {
    var currentIndex: int
    var pinned: seq<Message>

    /** The index never goes below the first pin; it can pass the last one when the list shrinks under it. */
    predicate Valid()
      reads this
    {
      0 <= currentIndex
    }

    /** The bar is on screen, so its handlers exist and read the pin at the index. */
    predicate Shown()
      reads this
    {
      0 <= currentIndex < |pinned|
    }

    constructor (pins: seq<Message>)
      ensures pinned == pins && currentIndex == 0 && Valid()
    {
      pinned := pins;
      currentIndex := 0;
    }

    function View(): (v: BarView)
      reads this
      requires Valid()
      ensures v.Hidden? <==> pinned == []
      ensures v.Crashed? <==> pinned != [] && currentIndex >= |pinned|
      ensures v.Bar? <==> Shown()
      ensures v.Bar? ==> v.current == pinned[currentIndex] && v.counter == currentIndex + 1 && (v.navShown <==> |pinned| > 1)
      ensures v.Bar? ==> (v.previousEnabled <==> currentIndex > 0) && (v.nextEnabled <==> currentIndex < |pinned| - 1)
    {
      if pinned == [] then Hidden
      else if currentIndex >= |pinned| then Crashed
      else Bar(pinned[currentIndex], currentIndex + 1, |pinned| > 1, currentIndex > 0, currentIndex < |pinned| - 1)
    }

    /** `handlePrevious()`: one back, or nothing at the first pin. */
    method HandlePrevious()
      requires Valid() && Shown()
      modifies this`currentIndex
      ensures Valid() && Shown()
      ensures currentIndex == if old(currentIndex) > 0 then old(currentIndex) - 1 else old(currentIndex)
    {
      if currentIndex > 0 {
        currentIndex := currentIndex - 1;
      }
    }

    /** `handleNext()`: one forward, or nothing at the last pin. */
    method HandleNext()
      requires Valid() && Shown()
      modifies this`currentIndex
      ensures Valid() && Shown()
      ensures currentIndex == if old(currentIndex) < |pinned| - 1 then old(currentIndex) + 1 else old(currentIndex)
    {
      if currentIndex < |pinned| - 1 {
        currentIndex := currentIndex + 1;
      }
    }

    /** `handleUnpin(e)`: reachable only while a pin is shown; fires nothing when no `onUnpin` is given. */
    method HandleUnpin(hasCallback: bool) returns (call: Option<UnpinCall>)
      requires Valid() && Shown()
      modifies this`currentIndex
      ensures Valid() && Shown()
      ensures call == if hasCallback then Some(UnpinCall(pinned[old(currentIndex)].id, false)) else None
      ensures currentIndex == if hasCallback then UnpinIndex(old(currentIndex), |pinned|) else old(currentIndex)
    {
      call := None;
      if hasCallback {
        call := Some(UnpinCall(pinned[currentIndex].id, false));
        if currentIndex > 0 && currentIndex == |pinned| - 1 {
          currentIndex := currentIndex - 1;
        }
      }
    }

    /** `handleClick()`: asks to scroll to the pin shown, when a callback is given. */
    method HandleClick(hasCallback: bool) returns (target: Option<MsgId>)
      requires Valid() && Shown()
      ensures target == if hasCallback then Some(pinned[currentIndex].id) else None
    {
      target := if hasCallback then Some(pinned[currentIndex].id) else None;
    }

    /** The parent re-renders with a new list of pins; the index is kept as it is. */
    method PinsChanged(pins: seq<Message>)
      requires Valid()
      modifies this`pinned
      ensures Valid()
      ensures pinned == pins
    {
      pinned := pins;
    }
  }

  /**
   * The crash is reachable: on the third of three pins, another client unpins the first,
   * the list shrinks to two and the kept index points past its end.
   */
  method ShrinkPastIndexCrashes(a: Message, b: Message, c: Message) returns (v: BarView)
    ensures v == Crashed
  {
    var bar := new PinnedMessagesBar([a, b, c]);
    bar.HandleNext();
    bar.HandleNext();
    assert bar.currentIndex == 2;
    bar.PinsChanged([b, c]);
    v := bar.View();
  }

  // ----- Properties -----

  /** Unpinning, when the list then shrinks by one, leaves an index valid for the new list or an empty, hidden bar. */
  lemma UnpinKeepsIndexValid(idx: int, len: nat)
    requires 0 <= idx < len
    ensures len - 1 == 0 || 0 <= UnpinIndex(idx, len) < len - 1
  {
  }

  /** Only unpinning the last of several pins moves the index. */
  lemma UnpinMovesOnlyAtEnd(idx: int, len: nat)
    requires 0 <= idx < len
    ensures UnpinIndex(idx, len) != idx <==> idx == len - 1 && len > 1
  {
  }
}
