/** The side panel with a conversation's members and the current user's settings (src/components/conversations/ConversationDetails.js). */
module ConversationDetails {
  import opened Wrappers
  import opened Strings
  import opened Documents
  import opened ConversationCard
  import opened UserSearch

  /** The role of `me` in the conversation, if they have a live `participantsData` entry. */
  function CurrentRole(c: Conversation, me: UserId): (r: Option<Role>)
    ensures r.Some? <==> me in c.participantsData && c.participantsData[me].Some?
    ensures r.Some? ==> r.value == c.participantsData[me].value.role
  {
    if me in c.participantsData && c.participantsData[me].Some? then Some(c.participantsData[me].value.role) else None
  }

  predicate IsAdmin(c: Conversation, me: UserId) {
    CurrentRole(c, me) == Some(Admin)
  }

  /** A row of the member list: `{ uid, ...data }`, which for a nulled entry is the uid alone. */
  datatype MemberRow = MemberRow(uid: UserId, displayName: Option<string>, photoURL: Option<string>, role: Option<Role>)

  function Row(uid: UserId, d: Option<ParticipantData>): MemberRow {
    match d
    case None => MemberRow(uid, None, None, None)
    case Some(p) => MemberRow(uid, p.displayName, Some(p.photoURL), Some(p.role))
  }

  /** The member list as written: one row per `participantsData` key, nulled entries included. */
  function MembersAsWritten(pd: map<UserId, Option<ParticipantData>>, keys: seq<UserId>): (r: seq<MemberRow>)
    requires forall i :: 0 <= i < |keys| ==> keys[i] in pd
    ensures |r| == |keys| && forall i :: 0 <= i < |keys| ==> r[i] == Row(keys[i], pd[keys[i]])
  {
    if keys == [] then [] else [Row(keys[0], pd[keys[0]])] + MembersAsWritten(pd, keys[1..])
  }

  /** The member list as intended: one row per live entry, in key order. */
  function Members(pd: map<UserId, Option<ParticipantData>>, keys: seq<UserId>): (r: seq<MemberRow>)
    requires forall i :: 0 <= i < |keys| ==> keys[i] in pd
    ensures |r| <= |keys|
  {
    if keys == [] then []
    else (if pd[keys[0]].Some? then [Row(keys[0], pd[keys[0]])] else []) + Members(pd, keys[1..])
  }

  /** "N member(s)" under a group's name: the count in decimal, then "member", plural unless the count is one. */
  function MemberCountText(n: nat): (r: string)
    ensures |NatToString(n)| + 7 <= |r| && r[..|NatToString(n)|] == NatToString(n)
    ensures DigitsValue(r[..|NatToString(n)|]) == n
    ensures r[|NatToString(n)|..|NatToString(n)| + 7] == " member"
    ensures n == 1 ==> |r| == |NatToString(n)| + 7
    ensures n != 1 ==> |r| == |NatToString(n)| + 8 && r[|r| - 1] == 's'
  {
    NatToStringRoundTrip(n);
    var digits := NatToString(n);
    var tail: string := if n == 1 then " member" else " members";
    assert (digits + tail)[..|digits|] == digits;
    assert (digits + tail)[|digits|..|digits| + 7] == tail[..7];
    digits + tail
  }

  /** A row shows a remove button only in a group an admin views, and never on the admin's own row. */
  predicate RemoveButtonShown(c: Conversation, me: UserId, row: MemberRow) {
    c.kind == Group && IsAdmin(c, me) && row.uid != me
  }

  /** `arrayUnion(x)`: appended unless already there. */
  function ArrayUnion(s: seq<UserId>, x: UserId): (r: seq<UserId>)
    ensures x in s ==> r == s
    ensures x !in s ==> r == s + [x]
  {
    if x in s then s else s + [x]
  }

  /** `arrayRemove(x)`: every occurrence dropped, the rest in order. */
  function ArrayRemove(s: seq<UserId>, x: UserId): (r: seq<UserId>)
    ensures forall y :: y in r <==> y in s && y != x
    ensures |r| <= |s|
  {
    if s == [] then [] else (if s[0] == x then [] else [s[0]]) + ArrayRemove(s[1..], x)
  }

  /** The three per-user flags and their `|| false` reading. */
  datatype PrefField = Pinned | Muted | Archived

  function Flag(p: Prefs, f: PrefField): Option<bool> {
    match f
    case Pinned => p.pinned
    case Muted => p.muted
    case Archived => p.archived
  }

  function WithFlag(p: Prefs, f: PrefField, b: bool): (r: Prefs)
    ensures Flag(r, f) == Some(b)
    ensures forall g :: g != f ==> Flag(r, g) == Flag(p, g)
  {
    match f
    case Pinned => p.(pinned := Some(b))
    case Muted => p.(muted := Some(b))
    case Archived => p.(archived := Some(b))
  }

  /** `conversation.userPreferences?.[me]?.<flag> || false`. */
  function FlagOf(c: Conversation, me: UserId, f: PrefField): (r: bool)
    ensures r <==> me in c.userPreferences && Flag(c.userPreferences[me], f) == Some(true)
  {
    me in c.userPreferences && Flag(c.userPreferences[me], f) == Some(true)
  }

  /** The conversation after `updateDoc({ 'userPreferences.<me>.<flag>': b })`: the nested entry is created if missing. */
  function SetFlag(c: Conversation, me: UserId, f: PrefField, b: bool, now: Millis): (r: Conversation)
    ensures me in r.userPreferences && FlagOf(r, me, f) == b
    ensures forall g :: g != f ==> FlagOf(r, me, g) == FlagOf(c, me, g)
    ensures forall u :: u != me ==> (u in r.userPreferences <==> u in c.userPreferences)
    ensures forall u :: u != me && u in c.userPreferences ==> r.userPreferences[u] == c.userPreferences[u]
    ensures r.updatedAt == Some(now) && r.participants == c.participants && r.participantsData == c.participantsData
  {
    var p := if me in c.userPreferences then c.userPreferences[me] else Prefs(None, None, None);
    c.(userPreferences := c.userPreferences[me := WithFlag(p, f, b)], updatedAt := Some(now))
  }

  /** The conversation after a member is added: in the participants once, with a member entry. */
  function AddMember(c: Conversation, u: Found, now: Millis): (r: Conversation)
    ensures forall x :: x in r.participants <==> x in c.participants || x == u.id
    ensures r.participantsData == c.participantsData[u.id := Some(MemberData(u))]
    ensures r.updatedAt == Some(now) && r == c.(participants := r.participants, participantsData := r.participantsData, updatedAt := r.updatedAt)
  {
    c.(participants := ArrayUnion(c.participants, u.id),
       participantsData := c.participantsData[u.id := Some(MemberData(u))],
       updatedAt := Some(now))
  }

  /** The conversation after `uid` leaves or is removed: out of the participants, its entry nulled (not deleted). */
  function DropMember(c: Conversation, uid: UserId, now: Millis): (r: Conversation)
    ensures forall x :: x in r.participants <==> x in c.participants && x != uid
    ensures uid in r.participantsData && r.participantsData[uid].None?
    ensures forall k :: k in c.participantsData && k != uid ==> k in r.participantsData && r.participantsData[k] == c.participantsData[k]
    ensures r.participantsData.Keys == c.participantsData.Keys + {uid}
    ensures r.updatedAt == Some(now) && r == c.(participants := r.participants, participantsData := r.participantsData, updatedAt := r.updatedAt)
  {
    c.(participants := ArrayRemove(c.participants, uid),
       participantsData := c.participantsData[uid := None],
       updatedAt := Some(now))
  }

  datatype SearchOutcome = Skipped | NotFound | AlreadyInConversation | Result(found: Found) | SearchFailed
  datatype AddOutcome = AddIgnored | Added(name: string) | AddFailed
  datatype RemoveOutcome = NotAdmin | CannotRemoveSelf | RemoveCancelled | Removed(name: Option<string>) | RemoveFailed
  datatype LeaveOutcome = LeaveCancelled | Left | LeaveFailed

  class ConversationDetails {
    var isAddingMember: bool
    var searchEmail: string
    var searchResult: Option<Found>
    const convId: ConvId
    const me: AuthUser
    const db: Store

    constructor (convId: ConvId, me: AuthUser, db: Store)
      ensures this.convId == convId && this.me == me && this.db == db
      ensures !isAddingMember && searchEmail == "" && searchResult == None
    {
      this.convId := convId;
      this.me := me;
      this.db := db;
      isAddingMember := false;
      searchEmail := "";
      searchResult := None;
    }

    /** The add-member form's toggle button. */
    method ToggleAdding()
      modifies this`isAddingMember
      ensures isAddingMember == !old(isAddingMember)
    {
      isAddingMember := !isAddingMember;
    }

    method SetSearchEmail(value: string)
      modifies this`searchEmail
      ensures searchEmail == value
    {
      searchEmail := value;
    }

    /** `handleSearchUser()`: as in the new-conversation modal, but refusing someone already a participant. */
    method HandleSearchUser(keys: seq<UserId>, ok: bool) returns (outcome: SearchOutcome)
      requires convId in db.conversations && Enumerates(db.users, keys)
      modifies this`searchResult
      ensures AllSpace(searchEmail) ==> outcome == Skipped && searchResult == old(searchResult)
      ensures !AllSpace(searchEmail) && !ok ==> outcome == SearchFailed && searchResult == None
      ensures !AllSpace(searchEmail) && ok ==>
        var f := FirstMatch(db.users, keys, QueryEmail(searchEmail));
        outcome == (if f.None? then NotFound
                    else if f.value.id in db.conversations[convId].participants then AlreadyInConversation
                    else Result(f.value))
      ensures !AllSpace(searchEmail) ==> (outcome.Result? <==> searchResult.Some?)
      ensures outcome.Result? ==> searchResult == Some(outcome.found)
    {
      if AllSpace(searchEmail) {
        return Skipped;
      }
      searchResult := None;
      if !ok {
        return SearchFailed;
      }
      var f := FirstMatch(db.users, keys, QueryEmail(searchEmail));
      if f.None? {
        outcome := NotFound;
      } else if f.value.id in db.conversations[convId].participants {
        outcome := AlreadyInConversation;
      } else {
        searchResult := f;
        outcome := Result(f.value);
      }
    }

    /** `handleAddMember()`: an admin adds the search result; success clears and closes the form. */
    method HandleAddMember(now: Millis, ok: bool) returns (outcome: AddOutcome)
      requires convId in db.conversations
      modifies this`searchEmail, this`searchResult, this`isAddingMember, db`conversations
      ensures old(searchResult).None? || !IsAdmin(old(db.conversations[convId]), me.uid) ==>
        outcome == AddIgnored && db.conversations == old(db.conversations)
      ensures old(searchResult).Some? && IsAdmin(old(db.conversations[convId]), me.uid) && !ok ==>
        outcome == AddFailed && db.conversations == old(db.conversations)
      ensures old(searchResult).Some? && IsAdmin(old(db.conversations[convId]), me.uid) && ok ==>
        outcome == Added(OrElse(old(searchResult).value.doc.displayName, "User"))
        && db.conversations == old(db.conversations)[convId := AddMember(old(db.conversations[convId]), old(searchResult).value, now)]
        && searchEmail == "" && searchResult == None && !isAddingMember
      ensures !outcome.Added? ==>
        searchEmail == old(searchEmail) && searchResult == old(searchResult) && isAddingMember == old(isAddingMember)
    {
      if searchResult.None? || !IsAdmin(db.conversations[convId], me.uid) {
        return AddIgnored;
      }
      if !ok {
        return AddFailed;
      }
      var u := searchResult.value;
      db.conversations := db.conversations[convId := AddMember(db.conversations[convId], u, now)];
      searchEmail := "";
      searchResult := None;
      isAddingMember := false;
      outcome := Added(OrElse(u.doc.displayName, "User"));
    }

    /** `handleRemoveMember(memberId, memberName)`: admins only, never themselves, after confirmation. */
    method HandleRemoveMember(memberId: UserId, memberName: Option<string>, confirmed: bool, now: Millis, ok: bool)
      returns (outcome: RemoveOutcome)
      requires convId in db.conversations
      modifies db`conversations
      ensures var c := old(db.conversations[convId]);
        outcome == (if !IsAdmin(c, me.uid) then NotAdmin
                    else if memberId == me.uid then CannotRemoveSelf
                    else if !confirmed then RemoveCancelled
                    else if !ok then RemoveFailed
                    else Removed(memberName))
      ensures outcome.Removed? ==>
        db.conversations == old(db.conversations)[convId := DropMember(old(db.conversations[convId]), memberId, now)]
      ensures !outcome.Removed? ==> db.conversations == old(db.conversations)
    {
      var c := db.conversations[convId];
      if !IsAdmin(c, me.uid) {
        return NotAdmin;
      }
      if memberId == me.uid {
        return CannotRemoveSelf;
      }
      if !confirmed {
        return RemoveCancelled;
      }
      if !ok {
        return RemoveFailed;
      }
      db.conversations := db.conversations[convId := DropMember(c, memberId, now)];
      outcome := Removed(memberName);
    }

    /** `handleLeaveGroup()`: after confirmation the current user drops out and the panel closes. */
    method HandleLeaveGroup(confirmed: bool, now: Millis, ok: bool) returns (outcome: LeaveOutcome)
      requires convId in db.conversations
      modifies db`conversations
      ensures outcome == (if !confirmed then LeaveCancelled else if !ok then LeaveFailed else Left)
      ensures outcome == Left ==>
        db.conversations == old(db.conversations)[convId := DropMember(old(db.conversations[convId]), me.uid, now)]
      ensures outcome != Left ==> db.conversations == old(db.conversations)
    {
      if !confirmed {
        return LeaveCancelled;
      }
      if !ok {
        return LeaveFailed;
      }
      db.conversations := db.conversations[convId := DropMember(db.conversations[convId], me.uid, now)];
      outcome := Left;
    }

    /**
     * `handleTogglePin`, `handleToggleMute` and `handleToggleArchive`: write the negation of the flag as read.
     * The result says whether the panel closes, which only archiving does.
     */
    method HandleToggle(f: PrefField, now: Millis, ok: bool) returns (closes: bool)
      requires convId in db.conversations
      modifies db`conversations
      ensures var c := old(db.conversations[convId]);
        db.conversations == if ok then old(db.conversations)[convId := SetFlag(c, me.uid, f, !FlagOf(c, me.uid, f), now)]
                            else old(db.conversations)
      ensures closes <==> ok && f == Archived && !FlagOf(old(db.conversations[convId]), me.uid, Archived)
    {
      var c := db.conversations[convId];
      var current := FlagOf(c, me.uid, f);
      if !ok {
        return false;
      }
      db.conversations := db.conversations[convId := SetFlag(c, me.uid, f, !current, now)];
      closes := f == Archived && !current;
    }
  }

  // ----- Properties -----

  /** Toggling a flag twice gives it back its value as read, and the other flags are never touched. */
  lemma ToggleTwiceRestores(c: Conversation, me: UserId, f: PrefField, t1: Millis, t2: Millis)
    ensures var c1 := SetFlag(c, me, f, !FlagOf(c, me, f), t1);
      var c2 := SetFlag(c1, me, f, !FlagOf(c1, me, f), t2);
      FlagOf(c2, me, f) == FlagOf(c, me, f) && forall g :: FlagOf(c2, me, g) == FlagOf(c, me, g)
  {
  }

  /** Admin removal and leaving take the user out of the participants and leave everyone else in, in order. */
  lemma {:induction false} DropMemberParticipants(c: Conversation, uid: UserId, now: Millis)
    ensures uid !in DropMember(c, uid, now).participants
    ensures forall u :: u != uid ==> (u in DropMember(c, uid, now).participants <==> u in c.participants)
    ensures ArrayRemove(c.participants, uid) == c.participants <==> uid !in c.participants
  {
    RemoveAbsent(c.participants, uid);
  }

  lemma {:induction false} RemoveAbsent(s: seq<UserId>, x: UserId)
    ensures ArrayRemove(s, x) == s <==> x !in s
  {
    if s != [] {
      RemoveAbsent(s[1..], x);
      if s[0] == x {
        assert |ArrayRemove(s, x)| < |s| by { assert ArrayRemove(s, x) == ArrayRemove(s[1..], x); }
      }
    }
  }

  /** An added member is a participant exactly once and gets a member entry, whoever they were before. */
  lemma AddedMemberIsParticipant(c: Conversation, u: Found, now: Millis)
    requires forall i, j :: 0 <= i < j < |c.participants| ==> c.participants[i] != c.participants[j]
    ensures var c2 := AddMember(c, u, now);
      u.id in c2.participants && c2.participantsData[u.id] == Some(MemberData(u))
      && c2.participantsData[u.id].value.role == Member
      && forall i, j :: 0 <= i < j < |c2.participants| ==> c2.participants[i] != c2.participants[j]
  {
  }

  /** The list the panel shows keeps a removed member's key: it still lists them, as a nameless "User" row with no role. */
  lemma RemovedMemberStillListed()
    ensures var c := Conversation("c", Group, Some("team"), None, ["a", "b"],
                                  map["a" := Some(ParticipantData(Some("Ann"), "", Admin)),
                                      "b" := Some(ParticipantData(Some("Bob"), "", Member))],
                                  map[], None, "a", None, None, None);
      var d := DropMember(c, "b", 0);
      d.participants == ["a"] && MembersAsWritten(d.participantsData, ["a", "b"])[1] == MemberRow("b", None, None, None)
      && |MembersAsWritten(d.participantsData, ["a", "b"])| == 2 && |Members(d.participantsData, ["a", "b"])| == 1
  {
    var c := Conversation("c", Group, Some("team"), None, ["a", "b"],
                          map["a" := Some(ParticipantData(Some("Ann"), "", Admin)),
                              "b" := Some(ParticipantData(Some("Bob"), "", Member))],
                          map[], None, "a", None, None, None);
    var d := DropMember(c, "b", 0);
    assert ["a", "b"][1..] == ["b"];
    assert ArrayRemove(["b"], "b") == [];
    assert ArrayRemove(["a", "b"], "b") == ["a"];
  }

  /** The count under the group's name follows the list: after the removal above it reads "2 members" where one member is left. */
  lemma RemovedMemberMiscounted()
    ensures var c := Conversation("c", Group, Some("team"), None, ["a", "b"],
                                  map["a" := Some(ParticipantData(Some("Ann"), "", Admin)),
                                      "b" := Some(ParticipantData(Some("Bob"), "", Member))],
                                  map[], None, "a", None, None, None);
      var d := DropMember(c, "b", 0);
      MemberCountText(|MembersAsWritten(d.participantsData, ["a", "b"])|) == "2 members"
      && MemberCountText(|Members(d.participantsData, ["a", "b"])|) == "1 member"
  {
    RemovedMemberStillListed();
  }

  /** The intended list shows exactly the users with a live entry, each once, in key order. */
  lemma {:induction false} MembersAreLiveEntries(pd: map<UserId, Option<ParticipantData>>, keys: seq<UserId>)
    requires forall i :: 0 <= i < |keys| ==> keys[i] in pd
    ensures forall r :: r in Members(pd, keys) <==> exists i :: 0 <= i < |keys| && pd[keys[i]].Some? && r == Row(keys[i], pd[keys[i]])
  {
    if keys != [] {
      MembersAreLiveEntries(pd, keys[1..]);
      assert forall i :: 1 <= i < |keys| ==> keys[i] == keys[1..][i - 1];
      forall r | r in Members(pd, keys)
        ensures exists i :: 0 <= i < |keys| && pd[keys[i]].Some? && r == Row(keys[i], pd[keys[i]])
      {
        if r !in Members(pd, keys[1..]) {
          assert pd[keys[0]].Some? && r == Row(keys[0], pd[keys[0]]);
        } else {
          var i :| 0 <= i < |keys[1..]| && pd[keys[1..][i]].Some? && r == Row(keys[1..][i], pd[keys[1..][i]]);
          assert pd[keys[i + 1]].Some? && r == Row(keys[i + 1], pd[keys[i + 1]]);
        }
      }
      forall r | exists i :: 0 <= i < |keys| && pd[keys[i]].Some? && r == Row(keys[i], pd[keys[i]])
        ensures r in Members(pd, keys)
      {
        var i :| 0 <= i < |keys| && pd[keys[i]].Some? && r == Row(keys[i], pd[keys[i]]);
        if i > 0 {
          assert keys[1..][i - 1] == keys[i];
        }
      }
    }
  }

  /** A removed member is no longer in the intended list. */
  lemma RemovedMemberNotListed(c: Conversation, uid: UserId, now: Millis, keys: seq<UserId>)
    requires forall i :: 0 <= i < |keys| ==> keys[i] in DropMember(c, uid, now).participantsData
    ensures forall r :: r in Members(DropMember(c, uid, now).participantsData, keys) ==> r.uid != uid
  {
    var pd := DropMember(c, uid, now).participantsData;
    MembersAreLiveEntries(pd, keys);
  }

  /** The admin never sees a remove button on their own row, and the handler refuses it too. */
  lemma NoSelfRemoval(c: Conversation, me: UserId, row: MemberRow)
    requires row.uid == me
    ensures !RemoveButtonShown(c, me, row)
  {
  }
}
