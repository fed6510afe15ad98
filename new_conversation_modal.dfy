/** Starting a direct or group conversation (src/components/conversations/NewConversationModal.js). */
module NewConversationModal {
  import opened Wrappers
  import opened Strings
  import opened Documents
  import opened ConversationCard
  import opened UserSearch

  datatype Step = TypeStep | DetailsStep

  /** What the search button ends in; every outcome except `Skipped` and `Result` raises an alert. */
  datatype SearchOutcome = Skipped | NotFound | IsSelf | AlreadyAdded | Result(found: Found) | SearchFailed

  /** What the create button ends in. */
  datatype CreateOutcome = NeedUser | NeedName | Existing(existing: Conversation) | Created(created: Conversation) | CreateFailed

  /** The ids of the selected users, in selection order. */
  function Ids(s: seq<Found>): (r: seq<UserId>)
    ensures |r| == |s| && forall i :: 0 <= i < |s| ==> r[i] == s[i].id
  {
    if s == [] then [] else [s[0].id] + Ids(s[1..])
  }

  /** `selectedUsers.filter(u => u.id !== userId)`. */
  function RemoveUser(s: seq<Found>, userId: UserId): (r: seq<Found>)
    ensures forall u :: u in r <==> u in s && u.id != userId
  {
    if s == [] then [] else (if s[0].id == userId then [] else [s[0]]) + RemoveUser(s[1..], userId)
  }

  /** `conversations.find(conv => conv.type === 'direct' && conv.participants.includes(otherUserId))`. */
  function ExistingDirect(cs: seq<Conversation>, other: UserId): (r: Option<Conversation>)
    ensures r.None? <==> forall i :: 0 <= i < |cs| ==> !(cs[i].kind == Direct && other in cs[i].participants)
    ensures r.Some? ==> r.value in cs && r.value.kind == Direct && other in r.value.participants
  {
    if cs == [] then None
    else if cs[0].kind == Direct && other in cs[0].participants then Some(cs[0])
    else
      assert forall i :: 1 <= i < |cs| ==> cs[i] == cs[1..][i - 1];
      ExistingDirect(cs[1..], other)
  }

  /** The creator's entry of `participantsData`: admin of a group, member of a direct chat. */
  function CreatorData(me: AuthUser, kind: ConvKind): (d: ParticipantData)
    ensures d.displayName == me.displayName
    ensures d.photoURL == "" || Some(d.photoURL) == me.photoURL
    ensures me.photoURL.Some? && me.photoURL.value != "" ==> d.photoURL == me.photoURL.value
    ensures d.role == Admin <==> kind == Group
  {
    ParticipantData(me.displayName, OrElse(me.photoURL, ""), if kind == Group then Admin else Member)
  }

  /** `participantsData` after the `forEach` over the first users of the selection: later entries overwrite earlier ones. */
  function ParticipantsData(me: AuthUser, kind: ConvKind, s: seq<Found>): map<UserId, Option<ParticipantData>>
  {
    if s == [] then map[me.uid := Some(CreatorData(me, kind))]
    else ParticipantsData(me, kind, s[..|s| - 1])[s[|s| - 1].id := Some(MemberData(s[|s| - 1]))]
  }

  /** The conversation document written by `addDoc`, with its new id and the server time. */
  function NewConversation(id: ConvId, me: AuthUser, kind: ConvKind, groupName: string, s: seq<Found>, now: Millis): (c: Conversation)
    ensures c.id == id && c.kind == kind && c.createdBy == me.uid
    ensures c.name.Some? <==> kind == Group
    ensures c.name.Some? ==> c.name.value == Trim(groupName)
    ensures |c.participants| == |s| + 1 && c.participants[0] == me.uid
    ensures forall i :: 0 <= i < |s| ==> c.participants[i + 1] == s[i].id
    ensures c.createdAt == Some(now) && c.updatedAt == Some(now) && c.lastMessage.None?
    ensures c.photoURL.None? && c.userPreferences == map[] && c.typing.None?
  {
    Conversation(id, kind, if kind == Group then Some(Trim(groupName)) else None, None,
      [me.uid] + Ids(s), ParticipantsData(me, kind, s), map[], None, me.uid, Some(now), Some(now), None)
  }

  /** The Create button's `disabled` condition. */
  function CreateDisabled(creating: bool, kind: ConvKind, s: seq<Found>, groupName: string): (r: bool)
    ensures !r <==> !creating && s != [] && (kind == Group ==> !IsBlank(groupName)) && (kind == Direct ==> |s| == 1)
  {
    creating || |s| == 0 || (kind == Group && IsBlank(groupName)) || (kind == Direct && |s| != 1)
  }

  class NewConversationModal {
    var step: Step
    var kind: ConvKind
    var selected: seq<Found>
    var groupName: string
    var searchEmail: string
    var searchResult: Option<Found>
    const user: AuthUser
    const db: Store

    /** Neither the current user nor anyone twice is ever selected, and neither can be the pending search result. */
    predicate Valid()
      reads this
    {
      (forall i :: 0 <= i < |selected| ==> selected[i].id != user.uid)
      && (forall i, j :: 0 <= i < j < |selected| ==> selected[i].id != selected[j].id)
      && (searchResult.Some? ==> searchResult.value.id != user.uid)
      && (searchResult.Some? ==> forall i :: 0 <= i < |selected| ==> selected[i].id != searchResult.value.id)
    }

    constructor (user: AuthUser, db: Store)
      ensures Valid() && this.user == user && this.db == db
      ensures step == TypeStep && kind == Direct && selected == [] && groupName == "" && searchEmail == "" && searchResult == None
    {
      this.user := user;
      this.db := db;
      step := TypeStep;
      kind := Direct;
      selected := [];
      groupName := "";
      searchEmail := "";
      searchResult := None;
    }

    /** `resetModal()` (also run by `handleClose`). */
    method ResetModal()
      modifies this
      ensures Valid()
      ensures step == TypeStep && kind == Direct && selected == [] && groupName == "" && searchEmail == "" && searchResult == None
    {
      step := TypeStep;
      kind := Direct;
      selected := [];
      groupName := "";
      searchEmail := "";
      searchResult := None;
    }

    /** A type button: choose the kind and go on to the details step. */
    method ChooseType(k: ConvKind)
      modifies this`kind, this`step
      ensures kind == k && step == DetailsStep
    {
      kind := k;
      step := DetailsStep;
    }

    /** The Back button. */
    method Back()
      modifies this`step
      ensures step == TypeStep
    {
      step := TypeStep;
    }

    method SetSearchEmail(value: string)
      modifies this`searchEmail
      ensures searchEmail == value
    {
      searchEmail := value;
    }

    method SetGroupName(value: string)
      modifies this`groupName
      ensures groupName == value
    {
      groupName := value;
    }

    /**
     * `handleSearchUser()`: nothing for a blank address; otherwise the query (whose failure is `ok == false`)
     * for the trimmed, lower-cased address, refusing oneself and someone already added. "Blank" is
     * `AllSpace`, which `Strings.BlankIffAllSpace` shows to be the same as an empty `trim()`.
     */
    method HandleSearchUser(keys: seq<UserId>, ok: bool) returns (outcome: SearchOutcome)
      requires Valid() && Enumerates(db.users, keys)
      modifies this`searchResult
      ensures Valid()
      ensures AllSpace(searchEmail) ==> outcome == Skipped && searchResult == old(searchResult)
      ensures !AllSpace(searchEmail) && !ok ==> outcome == SearchFailed && searchResult == None
      ensures !AllSpace(searchEmail) && ok ==>
        var f := FirstMatch(db.users, keys, QueryEmail(searchEmail));
        outcome == (if f.None? then NotFound
                    else if f.value.id == user.uid then IsSelf
                    else if f.value.id in Ids(selected) then AlreadyAdded
                    else Result(f.value))
      ensures !AllSpace(searchEmail) ==> (outcome.Result? <==> searchResult.Some?)
      ensures outcome.Result? ==> searchResult == Some(outcome.found)
    {
      if AllSpace(searchEmail) {
        return Skipped;
      }
      searchResult := None;
      if !ok {
        return SearchFailed;
      }
      var f := FirstMatch(db.users, keys, QueryEmail(searchEmail));
      if f.None? {
        outcome := NotFound;
      } else if f.value.id == user.uid {
        outcome := IsSelf;
      } else if f.value.id in Ids(selected) {
        outcome := AlreadyAdded;
      } else {
        searchResult := f;
        outcome := Result(f.value);
      }
    }

    /** `handleAddUser()`: moves the search result into the selection. */
    method HandleAddUser()
      requires Valid()
      modifies this`selected, this`searchEmail, this`searchResult
      ensures Valid()
      ensures old(searchResult).None? ==> selected == old(selected) && searchEmail == old(searchEmail) && searchResult == None
      ensures old(searchResult).Some? ==> selected == old(selected) + [old(searchResult).value] && searchEmail == "" && searchResult == None
    {
      if searchResult.Some? {
        selected := selected + [searchResult.value];
        searchEmail := "";
        searchResult := None;
      }
    }

    method HandleRemoveUser(userId: UserId)
      requires Valid()
      modifies this`selected
      ensures Valid()
      ensures selected == RemoveUser(old(selected), userId)
    {
      RemoveKeepsDistinct(selected, userId);
      selected := RemoveUser(selected, userId);
    }

    /** The `forEach` that fills `participantsData`. */
    method BuildParticipantsData() returns (pd: map<UserId, Option<ParticipantData>>)
      ensures pd == ParticipantsData(user, kind, selected)
    {
      pd := map[user.uid := Some(CreatorData(user, kind))];
      var i := 0;
      while i < |selected|
        invariant 0 <= i <= |selected|
        invariant pd == ParticipantsData(user, kind, selected[..i])
      {
        assert selected[..i + 1][..i] == selected[..i];
        pd := pd[selected[i].id := Some(MemberData(selected[i]))];
        i := i + 1;
      }
      assert selected[..i] == selected;
    }

    /**
     * `handleCreateConversation()`: validates, reuses an existing direct chat with the one selected user,
     * or adds a new conversation document (`ok == false` is a failing write). Success of either kind resets the modal.
     */
    method HandleCreateConversation(conversations: seq<Conversation>, newId: ConvId, now: Millis, ok: bool)
      returns (outcome: CreateOutcome)
      requires Valid()
      modifies this, db`conversations
      ensures Valid()
      ensures old(selected) == [] ==> outcome == NeedUser
      ensures old(selected) != [] && old(kind) == Group && IsBlank(old(groupName)) ==> outcome == NeedName
      ensures old(selected) != [] && old(kind) == Direct && |old(selected)| == 1
                && ExistingDirect(conversations, old(selected)[0].id).Some? ==>
                  outcome == Existing(ExistingDirect(conversations, old(selected)[0].id).value)
      ensures outcome.Created? ==> outcome.created == NewConversation(newId, user, old(kind), old(groupName), old(selected), now)
      ensures outcome.Created? ==> db.conversations == old(db.conversations)[newId := outcome.created]
      ensures !outcome.Created? ==> db.conversations == old(db.conversations)
      ensures outcome.Existing? || outcome.Created? ==>
        selected == [] && step == TypeStep && kind == Direct && groupName == "" && searchEmail == "" && searchResult == None
      ensures outcome.Created? <==>
                (old(selected) != [] && (old(kind) == Group ==> !IsBlank(old(groupName)))
                 && !(old(kind) == Direct && |old(selected)| == 1 && ExistingDirect(conversations, old(selected)[0].id).Some?)
                 && ok)
      ensures outcome == CreateFailed <==>
                (old(selected) != [] && (old(kind) == Group ==> !IsBlank(old(groupName)))
                 && !(old(kind) == Direct && |old(selected)| == 1 && ExistingDirect(conversations, old(selected)[0].id).Some?)
                 && !ok)
      ensures outcome.NeedUser? || outcome.NeedName? || outcome.CreateFailed? ==>
        selected == old(selected) && kind == old(kind) && groupName == old(groupName) && step == old(step)
        && searchEmail == old(searchEmail) && searchResult == old(searchResult)
    {
      if |selected| == 0 {
        return NeedUser;
      }
      if kind == Group && IsBlank(groupName) {
        return NeedName;
      }
      if kind == Direct && |selected| == 1 {
        var existing := ExistingDirect(conversations, selected[0].id);
        if existing.Some? {
          outcome := Existing(existing.value);
          ResetModal();
          return;
        }
      }
      var pd := BuildParticipantsData();
      var conv := Conversation(newId, kind, if kind == Group then Some(Trim(groupName)) else None, None,
        [user.uid] + Ids(selected), pd, map[], None, user.uid, Some(now), Some(now), None);
      if !ok {
        return CreateFailed;
      }
      db.conversations := db.conversations[newId := conv];
      outcome := Created(conv);
      ResetModal();
    }
  }

  // ----- Properties -----

  lemma {:induction false} RemoveKeepsDistinct(s: seq<Found>, userId: UserId)
    requires forall i, j :: 0 <= i < j < |s| ==> s[i].id != s[j].id
    ensures forall i, j :: 0 <= i < j < |RemoveUser(s, userId)| ==> RemoveUser(s, userId)[i].id != RemoveUser(s, userId)[j].id
    ensures forall i :: 0 <= i < |RemoveUser(s, userId)| ==> RemoveUser(s, userId)[i] in s
  {
    if s != [] {
      RemoveKeepsDistinct(s[1..], userId);
      var r := RemoveUser(s[1..], userId);
      forall k | 0 <= k < |r|
        ensures r[k].id != s[0].id
      {
        assert r[k] in s[1..];
        var m :| 0 <= m < |s[1..]| && s[1..][m] == r[k];
        assert s[m + 1] == r[k];
      }
    }
  }

  /** The entry map has a key for the creator and for each selected user, and no other. */
  lemma {:induction false} ParticipantsDataKeys(me: AuthUser, kind: ConvKind, s: seq<Found>)
    ensures forall k :: k in ParticipantsData(me, kind, s) <==> k == me.uid || k in Ids(s)
  {
    if s != [] {
      var t := s[..|s| - 1];
      ParticipantsDataKeys(me, kind, t);
      IdsAppend(t, s[|s| - 1]);
      assert t + [s[|s| - 1]] == s;
    }
  }

  lemma IdsAppend(s: seq<Found>, u: Found)
    ensures Ids(s + [u]) == Ids(s) + [u.id]
  {
    var a := Ids(s + [u]);
    var b := Ids(s) + [u.id];
    assert |a| == |b|;
    assert forall i :: 0 <= i < |a| ==> a[i] == b[i];
  }

  /** Every selected user's entry is a member entry made from their user document; the creator's is the creator entry. */
  lemma {:induction false} ParticipantsDataEntries(me: AuthUser, kind: ConvKind, s: seq<Found>)
    requires forall i :: 0 <= i < |s| ==> s[i].id != me.uid
    requires forall i, j :: 0 <= i < j < |s| ==> s[i].id != s[j].id
    ensures me.uid in ParticipantsData(me, kind, s) && ParticipantsData(me, kind, s)[me.uid] == Some(CreatorData(me, kind))
    ensures forall i :: 0 <= i < |s| ==>
                s[i].id in ParticipantsData(me, kind, s) && ParticipantsData(me, kind, s)[s[i].id] == Some(MemberData(s[i]))
  {
    if s != [] {
      var t := s[..|s| - 1];
      ParticipantsDataEntries(me, kind, t);
    }
  }

  /** `u` has a live `participantsData` entry with role `role`. */
  predicate HasRole(pd: map<UserId, Option<ParticipantData>>, u: UserId, role: Role) {
    u in pd && pd[u].Some? && pd[u].value.role == role
  }

  /** A created group lists its creator first and makes them its one admin; every participant has an entry and nobody else. */

  lemma CreatedGroupShape(id: ConvId, me: AuthUser, groupName: string, s: seq<Found>, now: Millis)
    requires forall i :: 0 <= i < |s| ==> s[i].id != me.uid
    requires forall i, j :: 0 <= i < j < |s| ==> s[i].id != s[j].id
    ensures NewConversation(id, me, Group, groupName, s, now).participants == [me.uid] + Ids(s)
    ensures HasRole(ParticipantsData(me, Group, s), me.uid, Admin)
    ensures var pd, ids := ParticipantsData(me, Group, s), Ids(s);
      |ids| == |s| && forall i :: 0 <= i < |ids| ==> HasRole(pd, ids[i], Member)
    ensures var pd := ParticipantsData(me, Group, s);
      forall k :: k in pd <==> k in [me.uid] + Ids(s)
  {
    ParticipantsDataKeys(me, Group, s);
    ParticipantsDataEntries(me, Group, s);
    var pd, ids := ParticipantsData(me, Group, s), Ids(s);
    assert HasRole(pd, me.uid, Admin);
    forall i | 0 <= i < |ids| ensures HasRole(pd, ids[i], Member) {
      assert ids[i] == s[i].id && pd[s[i].id] == Some(MemberData(s[i]));
    }
  }

  /** The Create button is enabled only when the create handler passes its own validation. */
  lemma EnabledCreatePassesValidation(kind: ConvKind, s: seq<Found>, groupName: string)
    requires !CreateDisabled(false, kind, s, groupName)
    ensures s != [] && (kind == Group ==> !IsBlank(groupName))
  {
  }
}
