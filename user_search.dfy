/** Looking a user up by e-mail address, as both the new-conversation modal and the details panel do. */
module UserSearch {
  import opened Wrappers
  import opened Strings
  import opened Documents
  import opened ConversationCard

  /** A user found by e-mail: the user document id and the document. */
  datatype Found = Found(id: UserId, doc: UserDoc)

  /** The key the e-mail query matches: the typed address trimmed and lower-cased. */
  function QueryEmail(searchEmail: string): string {
    Lower(Trim(searchEmail))
  }

  /** The first document, in key order, whose `email` equals `email`: `docs[0]` of the query. */
  function FirstMatch(users: map<UserId, UserDoc>, keys: seq<UserId>, email: string): (r: Option<Found>)
    requires forall i :: 0 <= i < |keys| ==> keys[i] in users
    ensures r.None? <==> forall i :: 0 <= i < |keys| ==> users[keys[i]].email != email
    ensures r.Some? ==> r.value.doc.email == email
    ensures r.Some? ==> exists i :: 0 <= i < |keys| && keys[i] == r.value.id && users[keys[i]] == r.value.doc
                                    && forall j :: 0 <= j < i ==> users[keys[j]].email != email
  {
    if keys == [] then None
    else if users[keys[0]].email == email then Some(Found(keys[0], users[keys[0]]))
    else
      var r := FirstMatch(users, keys[1..], email);
      assert forall i :: 1 <= i < |keys| ==> keys[i] == keys[1..][i - 1];
      if r.Some? then
        ghost var i :| 0 <= i < |keys[1..]| && keys[1..][i] == r.value.id && users[keys[1..][i]] == r.value.doc
          && r.value.doc.email == email && forall j :: 0 <= j < i ==> users[keys[1..][j]].email != email;
        assert keys[i + 1] == r.value.id && forall j :: 0 <= j < i + 1 ==> users[keys[j]].email != email;
        r
      else r
  }

  /** The `participantsData` entry a found user gets on joining: a member, named "User" when nameless. */
  function MemberData(u: Found): (d: ParticipantData)
    ensures d.role == Member
    ensures d.displayName.Some? && (d.displayName.value == "User" || (u.doc.displayName == d.displayName && d.displayName.value != ""))
    ensures d.photoURL == "" || Some(d.photoURL) == u.doc.photoURL
    ensures u.doc.displayName.Some? && u.doc.displayName.value != "" ==> d.displayName == u.doc.displayName
    ensures u.doc.photoURL.Some? && u.doc.photoURL.value != "" ==> d.photoURL == u.doc.photoURL.value
  {
    ParticipantData(Some(OrElse(u.doc.displayName, "User")), OrElse(u.doc.photoURL, ""), Member)
  }
}
