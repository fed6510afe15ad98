/** Choosing target conversations to forward a message to (src/components/messages/ForwardMessageModal.js). */
module ForwardMessageModal {
  import opened Wrappers
  import opened Strings
  import opened Documents

  /** The updater in `handleToggleConversation`: drop the id if selected, append it otherwise. */
  function Toggled(selected: seq<ConvId>, id: ConvId): (r: seq<ConvId>)
    ensures id in selected ==> id !in r && forall x :: x in r <==> x in selected && x != id
    ensures id !in selected ==> r == selected + [id]
  {
    if id in selected then Without(selected, id) else selected + [id]
  }

  /** `selected.filter(x => x !== id)`. */
  function Without(s: seq<ConvId>, id: ConvId): (r: seq<ConvId>)
    ensures forall x :: x in r <==> x in s && x != id
    ensures |r| <= |s|
  {
    if s == [] then [] else (if s[0] == id then [] else [s[0]]) + Without(s[1..], id)
  }

  predicate NoDuplicates(s: seq<ConvId>) {
    forall i, j :: 0 <= i < j < |s| ==> s[i] != s[j]
  }

  /** The `onForward(message, selectedConversations)` call. */
  datatype ForwardCall = ForwardCall(message: Message, targets: seq<ConvId>)

  class ForwardMessageModal {
    var selected: seq<ConvId>
    const message: Message

    constructor (message: Message)
      ensures selected == [] && this.message == message
    {
      selected := [];
      this.message := message;
    }

    method HandleToggleConversation(id: ConvId)
      modifies this`selected
      ensures selected == Toggled(old(selected), id)
    {
      selected := Toggled(selected, id);
    }

    /** `handleClose()`: empties the selection (and closes). */
    method HandleClose()
      modifies this`selected
      ensures selected == []
    {
      selected := [];
    }

    /** `handleForward()`: with a selection and a callback, forwards it unchanged and closes. */
    method HandleForward(hasOnForward: bool) returns (call: Option<ForwardCall>)
      modifies this`selected
      ensures old(selected) != [] && hasOnForward ==> call == Some(ForwardCall(message, old(selected))) && selected == []
      ensures old(selected) == [] || !hasOnForward ==> call == None && selected == old(selected)
    {
      if |selected| > 0 && hasOnForward {
        call := Some(ForwardCall(message, selected));
        HandleClose();
      } else {
        call := None;
      }
    }

    /** The Forward button: disabled with nothing selected, labelled with the count otherwise. */
    function ForwardButton(): (r: (bool, string))
      reads this
      ensures r.0 <==> selected == []
      ensures selected == [] ==> r.1 == "Forward "
      ensures selected != [] ==> r.1 == "Forward (" + NatToString(|selected|) + ")"
    {
      (|selected| == 0, "Forward " + if |selected| > 0 then "(" + NatToString(|selected|) + ")" else "")
    }
  }

  // ----- Properties -----

  lemma {:induction false} WithoutAbsent(s: seq<ConvId>, id: ConvId)
    requires id !in s
    ensures Without(s, id) == s
  {
    if s != [] {
      WithoutAbsent(s[1..], id);
    }
  }

  lemma {:induction false} WithoutPreservesNoDuplicates(s: seq<ConvId>, id: ConvId)
    requires NoDuplicates(s)
    ensures NoDuplicates(Without(s, id))
  {
    if s != [] {
      WithoutPreservesNoDuplicates(s[1..], id);
      assert s[0] !in s[1..];
      assert s[0] !in Without(s[1..], id);
    }
  }

  /** Toggling an id on and off again restores the selection. */
  lemma ToggleTwiceRestores(selected: seq<ConvId>, id: ConvId)
    requires id !in selected
    ensures Toggled(Toggled(selected, id), id) == selected
  {
    assert Toggled(selected, id) == selected + [id];
    WithoutAppend(selected, id);
  }

  lemma {:induction false} WithoutAppend(s: seq<ConvId>, id: ConvId)
    requires id !in s
    ensures Without(s + [id], id) == s
  {
    if s == [] {
      assert Without([id], id) == [] + Without([], id);
    } else {
      assert (s + [id])[1..] == s[1..] + [id];
      WithoutAppend(s[1..], id);
    }
  }

  /** Toggling never creates a duplicate, so a selection built from empty has none. */
  lemma ToggledPreservesNoDuplicates(selected: seq<ConvId>, id: ConvId)
    requires NoDuplicates(selected)
    ensures NoDuplicates(Toggled(selected, id))
  {
    if id in selected {
      WithoutPreservesNoDuplicates(selected, id);
    }
  }
}
