/**
 * The one-shot pass that strips inline image data from the store (src/utils/cleanupDatabase.js):
 * `data:` photo URLs of users are blanked and message attachments are emptied, one write per document.
 */
module CleanupDatabase {
  import opened Wrappers
  import opened Strings
  import opened Documents

  /** A user whose `photoURL` is a non-empty `data:` URL. */
  predicate UserDirty(u: UserDoc) {
    u.photoURL.Some? && u.photoURL.value != "" && StartsWith(u.photoURL.value, "data:")
  }

  /** A message with a non-empty `attachments` array. */
  predicate MessageDirty(m: Message) {
    |m.attachments| > 0
  }

  /** The collections the pass reads and writes. */
  datatype Snapshot = Snapshot(users: map<UserId, UserDoc>, messages: map<ConvId, seq<Message>>)

  /** One `updateDoc` of the pass: a user's photo, or the message at an index of a conversation. */
  datatype Write = UserWrite(uid: UserId) | MessageWrite(convId: ConvId, index: nat)

  /** The user writes, in the order of `keys`. */
  function UserWrites(users: map<UserId, UserDoc>, keys: seq<UserId>): seq<Write> {
    if keys == [] then []
    else (if keys[0] in users && UserDirty(users[keys[0]]) then [UserWrite(keys[0])] else []) + UserWrites(users, keys[1..])
  }

  /** The message writes of one conversation, from index `from` on. */
  function MessageWrites(c: ConvId, msgs: seq<Message>, from: nat): seq<Write>
    decreases |msgs| - from
  {
    if from >= |msgs| then []
    else (if MessageDirty(msgs[from]) then [MessageWrite(c, from)] else []) + MessageWrites(c, msgs, from + 1)
  }

  /** A conversation's message list; one without a `messages` sub-collection has none. */
  function MessagesOf(messages: map<ConvId, seq<Message>>, c: ConvId): seq<Message> {
    if c in messages then messages[c] else []
  }

  /** The message writes of the conversations, in the order of `keys`. */
  function ConvWrites(messages: map<ConvId, seq<Message>>, keys: seq<ConvId>): seq<Write> {
    if keys == [] then []
    else MessageWrites(keys[0], MessagesOf(messages, keys[0]), 0) + ConvWrites(messages, keys[1..])
  }

  /** Every write of a full pass, in the order the pass makes them: users first, then conversation by conversation. */
  function AllWrites(s: Snapshot, userKeys: seq<UserId>, convKeys: seq<ConvId>): seq<Write> {
    UserWrites(s.users, userKeys) + ConvWrites(s.messages, convKeys)
  }

  function Apply(s: Snapshot, w: Write): Snapshot {
    match w
    case UserWrite(k) =>
      if k in s.users then s.(users := s.users[k := s.users[k].(photoURL := Some(""))]) else s
    case MessageWrite(c, j) =>
      if c in s.messages && j < |s.messages[c]|
      then s.(messages := s.messages[c := s.messages[c][j := s.messages[c][j].(attachments := [])]])
      else s
  }

  /** The store after the writes, in order. */
  function ApplyAll(s: Snapshot, ws: seq<Write>): Snapshot {
    if ws == [] then s else Apply(ApplyAll(s, ws[..|ws| - 1]), ws[|ws| - 1])
  }

  /** The store has the same documents as `s0`: the pass never adds or removes one. */
  predicate SameShape(s: Snapshot, s0: Snapshot) {
    s.users.Keys == s0.users.Keys && s.messages.Keys == s0.messages.Keys
    && forall c :: c in s0.messages ==> |s.messages[c]| == |s0.messages[c]|
  }

  /** Whether a pass of `total` writes throws, when it is set to throw after `failAt` writes. */
  predicate Fails(total: nat, failAt: Option<nat>) {
    failAt.Some? && failAt.value <= total
  }

  /** How many of the `total` writes are made before the pass ends or throws. */
  function Performed(total: nat, failAt: Option<nat>): (n: nat)
    ensures n <= total
    ensures Fails(total, failAt) ==> Some(n) == failAt
  {
    if Fails(total, failAt) then failAt.value else total
  }

  /** `{ success: true, cleanedCount }` or `{ success: false, error }`. */
  datatype CleanupResult = Success(cleanedCount: nat) | Failure

  /**
   * `cleanupDatabase()` over the documents `userKeys` and `convKeys` of the store, in snapshot order.
   * `failAt == Some(n)` makes the pass throw after its first `n` writes: at the next write, or at a
   * `getDocs` before it, or, when `n` is the number of writes, at a `getDocs` after the last one
   * (for a store that needs no writes, any failing read). Earlier writes stay.
   */
  method Cleanup(db: Store, userKeys: seq<UserId>, convKeys: seq<ConvId>, failAt: Option<nat>) returns (result: CleanupResult)
    requires Enumerates(db.users, userKeys) && Enumerates(db.conversations, convKeys)
    modifies db`users, db`messages
    ensures var ws := AllWrites(Snapshot(old(db.users), old(db.messages)), userKeys, convKeys);
      result == if Fails(|ws|, failAt) then Failure else Success(|ws|)
    ensures var s0 := Snapshot(old(db.users), old(db.messages));
      var ws := AllWrites(s0, userKeys, convKeys);
      Snapshot(db.users, db.messages) == ApplyAll(s0, ws[..Performed(|ws|, failAt)])
  {
    var messages0 := db.messages;
    ghost var s0 := Snapshot(db.users, messages0);
    ghost var ws := AllWrites(s0, userKeys, convKeys);
    var count, failed;
    ghost var done;
    count, failed, done := CleanUsers(db, userKeys, failAt, s0, ConvWrites(messages0, convKeys), ws);
    if failed {
      assert Fails(|ws|, failAt) && Performed(|ws|, failAt) == count;
      return Failure;
    }

    count, failed, done := CleanConversations(db, messages0, convKeys, failAt, s0, done, ws, count);
    if failed {
      assert Fails(|ws|, failAt) && Performed(|ws|, failAt) == count;
      return Failure;
    }
    assert done == ws;
    assert ws[..|ws|] == ws;
    assert Performed(|ws|, failAt) == count;
    if failAt == Some(count) {
      return Failure;
    }
    assert !Fails(|ws|, failAt);
    result := Success(count);
  }

  /** The loop over the user documents: blank every `data:` photo, in key order, until a write fails. */
  method CleanUsers(db: Store, userKeys: seq<UserId>, failAt: Option<nat>, ghost s0: Snapshot, ghost rest: seq<Write>, ghost ws: seq<Write>)
    returns (count: nat, failed: bool, ghost done: seq<Write>)
    requires s0 == Snapshot(db.users, db.messages) && forall i :: 0 <= i < |userKeys| ==> userKeys[i] in s0.users
    requires UserWrites(s0.users, userKeys) + rest == ws
    modifies db`users
    ensures count == |done| && Snapshot(db.users, db.messages) == ApplyAll(s0, done)
    ensures failed ==> failAt == Some(count) && count < |ws| && ws[..count] == done
    ensures !failed ==> done + rest == ws && (failAt.Some? ==> count <= failAt.value)
  {
    var users0 := db.users;
    done := [];
    count := 0;
    var i := 0;
    while i < |userKeys|
      invariant 0 <= i <= |userKeys| && count == |done|
      invariant done + UserWrites(s0.users, userKeys[i..]) + rest == ws
      invariant Snapshot(db.users, db.messages) == ApplyAll(s0, done)
      invariant failAt.Some? ==> count <= failAt.value
    {
      var k := userKeys[i];
      UserLoopStep(s0, userKeys, i, done, rest, ws, Snapshot(db.users, db.messages));
      if UserDirty(users0[k]) {
        if failAt == Some(count) {
          return count, true, done;
        }
        assert failAt.Some? ==> count < failAt.value;
        db.users := db.users[k := db.users[k].(photoURL := Some(""))];
        done := done + [UserWrite(k)];
        count := count + 1;
      }
      i := i + 1;
    }
    failed := false;
  }

  /** The loop over the conversations: clean each one's messages in key order, until a write fails. */
  method CleanConversations(db: Store, messages0: map<ConvId, seq<Message>>, convKeys: seq<ConvId>, failAt: Option<nat>,
                            ghost s0: Snapshot, ghost done0: seq<Write>, ghost ws: seq<Write>, count0: nat)
    returns (count: nat, failed: bool, ghost done: seq<Write>)
    requires messages0 == s0.messages
    requires count0 == |done0| && done0 + ConvWrites(s0.messages, convKeys) == ws
    requires Snapshot(db.users, db.messages) == ApplyAll(s0, done0)
    requires failAt.Some? ==> count0 <= failAt.value
    modifies db`messages
    ensures count == |done| && Snapshot(db.users, db.messages) == ApplyAll(s0, done)
    ensures failed ==> failAt == Some(count) && count < |ws| && ws[..count] == done
    ensures !failed ==> done == ws && (failAt.Some? ==> count <= failAt.value)
  {
    done := done0;
    count := count0;
    var ci := 0;
    while ci < |convKeys|
      invariant 0 <= ci <= |convKeys| && count == |done|
      invariant done + ConvWrites(s0.messages, convKeys[ci..]) == ws
      invariant Snapshot(db.users, db.messages) == ApplyAll(s0, done)
      invariant failAt.Some? ==> count <= failAt.value
    {
      var c := convKeys[ci];
      ConvStep(s0.messages, convKeys, ci);
      count, failed, done := CleanConversation(db, c, MessagesOf(messages0, c), failAt,
                                               s0, done, ConvWrites(s0.messages, convKeys[ci + 1..]), ws, count);
      if failed {
        return;
      }
      ci := ci + 1;
    }
    failed := false;
  }

  /** The loop over one conversation's messages: empty every non-empty `attachments`, in order, until a write fails. */
  method CleanConversation(db: Store, c: ConvId, msgs: seq<Message>, failAt: Option<nat>, ghost s0: Snapshot,
                           ghost done0: seq<Write>, ghost rest: seq<Write>, ghost ws: seq<Write>, count0: nat)
    returns (count: nat, failed: bool, ghost done: seq<Write>)
    requires msgs == MessagesOf(s0.messages, c) && count0 == |done0|
    requires Snapshot(db.users, db.messages) == ApplyAll(s0, done0)
    requires done0 + MessageWrites(c, msgs, 0) + rest == ws
    requires failAt.Some? ==> count0 <= failAt.value
    modifies db`messages
    ensures count == |done| && Snapshot(db.users, db.messages) == ApplyAll(s0, done)
    ensures failed ==> failAt == Some(count) && count < |ws| && ws[..count] == done
    ensures !failed ==> done + rest == ws && (failAt.Some? ==> count <= failAt.value)
  {
    done := done0;
    count := count0;
    var j := 0;
    while j < |msgs|
      invariant 0 <= j <= |msgs| && count == |done|
      invariant done + MessageWrites(c, msgs, j) + rest == ws
      invariant Snapshot(db.users, db.messages) == ApplyAll(s0, done)
      invariant failAt.Some? ==> count <= failAt.value
    {
      MessageLoopStep(s0, c, msgs, j, done, rest, ws, Snapshot(db.users, db.messages));
      if MessageDirty(msgs[j]) {
        if failAt == Some(count) {
          return count, true, done;
        }
        assert failAt.Some? ==> count < failAt.value;
        db.messages := db.messages[c := db.messages[c][j := db.messages[c][j].(attachments := [])]];
        done := done + [MessageWrite(c, j)];
        count := count + 1;
      }
      j := j + 1;
    }
    failed := false;
  }

  // ----- Properties -----

  lemma UserStep(users: map<UserId, UserDoc>, keys: seq<UserId>, i: nat)
    requires i < |keys|
    ensures keys[i] in users && UserDirty(users[keys[i]]) ==>
      UserWrites(users, keys[i..]) == [UserWrite(keys[i])] + UserWrites(users, keys[i + 1..])
    ensures !(keys[i] in users && UserDirty(users[keys[i]])) ==> UserWrites(users, keys[i..]) == UserWrites(users, keys[i + 1..])
  {
    assert keys[i..][0] == keys[i] && keys[i..][1..] == keys[i + 1..];
  }

  lemma ConvStep(messages: map<ConvId, seq<Message>>, keys: seq<ConvId>, i: nat)
    requires i < |keys|
    ensures ConvWrites(messages, keys[i..]) == MessageWrites(keys[i], MessagesOf(messages, keys[i]), 0) + ConvWrites(messages, keys[i + 1..])
  {
    assert keys[i..][1..] == keys[i + 1..];
  }

  lemma MessageStep(c: ConvId, msgs: seq<Message>, j: nat)
    requires j < |msgs|
    ensures MessageDirty(msgs[j]) ==> MessageWrites(c, msgs, j) == [MessageWrite(c, j)] + MessageWrites(c, msgs, j + 1)
    ensures !MessageDirty(msgs[j]) ==> MessageWrites(c, msgs, j) == MessageWrites(c, msgs, j + 1)
  {
  }

  lemma Prefix(done: seq<Write>, rest: seq<Write>, ws: seq<Write>)
    requires done + rest == ws && rest != []
    ensures ws[..|done|] == done && |done| < |ws|
  {
    assert ws[..|done|] == (done + rest)[..|done|];
  }

  /** The next planned write `w` follows the writes made so far, and making it extends them. */
  lemma NextWrite(done: seq<Write>, w: Write, more: seq<Write>, rest: seq<Write>, ws: seq<Write>)
    requires done + ([w] + more) + rest == ws
    ensures |done| < |ws| && ws[..|done|] == done
    ensures (done + [w]) + more + rest == ws
  {
    Prefix(done, [w] + more + rest, ws);
  }

  lemma StepApplied(s0: Snapshot, done: seq<Write>, w: Write)
    ensures ApplyAll(s0, done + [w]) == Apply(ApplyAll(s0, done), w)
  {
    assert (done + [w])[..|done|] == done;
  }

  /**
   * One turn of the user loop: the writes still planned start with this user's write exactly when it is
   * dirty, and applying that write to the store reached so far gives the store of the longer prefix.
   */
  lemma UserLoopStep(s0: Snapshot, keys: seq<UserId>, i: nat, done: seq<Write>, rest: seq<Write>, ws: seq<Write>, s: Snapshot)
    requires i < |keys| && keys[i] in s0.users && s == ApplyAll(s0, done)
    requires done + UserWrites(s0.users, keys[i..]) + rest == ws
    ensures !UserDirty(s0.users[keys[i]]) ==> done + UserWrites(s0.users, keys[i + 1..]) + rest == ws
    ensures UserDirty(s0.users[keys[i]]) ==>
      && |done| < |ws| && ws[..|done|] == done && keys[i] in s.users
      && (done + [UserWrite(keys[i])]) + UserWrites(s0.users, keys[i + 1..]) + rest == ws
      && ApplyAll(s0, done + [UserWrite(keys[i])]) == s.(users := s.users[keys[i] := s.users[keys[i]].(photoURL := Some(""))])
  {
    var k := keys[i];
    UserStep(s0.users, keys, i);
    if UserDirty(s0.users[k]) {
      NextWrite(done, UserWrite(k), UserWrites(s0.users, keys[i + 1..]), rest, ws);
      assert k in s.users by {
        ApplyAllShape(s0, done);
      }
      StepApplied(s0, done, UserWrite(k));
    }
  }

  /** One turn of the message loop of conversation `c`, in the same terms as `UserLoopStep`. */
  lemma MessageLoopStep(s0: Snapshot, c: ConvId, msgs: seq<Message>, j: nat, done: seq<Write>, rest: seq<Write>, ws: seq<Write>,
                        s: Snapshot)
    requires j < |msgs| && msgs == MessagesOf(s0.messages, c) && s == ApplyAll(s0, done)
    requires done + MessageWrites(c, msgs, j) + rest == ws
    ensures !MessageDirty(msgs[j]) ==> done + MessageWrites(c, msgs, j + 1) + rest == ws
    ensures MessageDirty(msgs[j]) ==>
      && |done| < |ws| && ws[..|done|] == done && c in s.messages && j < |s.messages[c]|
      && (done + [MessageWrite(c, j)]) + MessageWrites(c, msgs, j + 1) + rest == ws
      && ApplyAll(s0, done + [MessageWrite(c, j)])
         == s.(messages := s.messages[c := s.messages[c][j := s.messages[c][j].(attachments := [])]])
  {
    MessageStep(c, msgs, j);
    if MessageDirty(msgs[j]) {
      NextWrite(done, MessageWrite(c, j), MessageWrites(c, msgs, j + 1), rest, ws);
      assert c in s.messages && j < |s.messages[c]| by {
        ApplyAllShape(s0, done);
      }
      StepApplied(s0, done, MessageWrite(c, j));
    }
  }

  /** Writes never add or remove a document or change a conversation's number of messages. */
  lemma {:induction false} ApplyAllShape(s: Snapshot, ws: seq<Write>)
    ensures SameShape(ApplyAll(s, ws), s)
  {
    if ws != [] {
      ApplyAllShape(s, ws[..|ws| - 1]);
    }
  }

  /** After any writes a user document is its photo-blanked self if it was written, and untouched otherwise. */
  lemma {:induction false} ApplyAllUsers(s: Snapshot, ws: seq<Write>, k: UserId)
    requires k in s.users
    ensures k in ApplyAll(s, ws).users
    ensures ApplyAll(s, ws).users[k] == if UserWrite(k) in ws then s.users[k].(photoURL := Some("")) else s.users[k]
  {
    if ws != [] {
      var ws' := ws[..|ws| - 1];
      ApplyAllUsers(s, ws', k);
      assert ws == ws' + [ws[|ws| - 1]];
    }
  }

  /** After any writes a message is its attachment-free self if it was written, and untouched otherwise. */
  lemma {:induction false} ApplyAllMessages(s: Snapshot, ws: seq<Write>, c: ConvId, j: nat)
    requires c in s.messages && j < |s.messages[c]|
    ensures c in ApplyAll(s, ws).messages && j < |ApplyAll(s, ws).messages[c]|
    ensures ApplyAll(s, ws).messages[c][j]
      == if MessageWrite(c, j) in ws then s.messages[c][j].(attachments := []) else s.messages[c][j]
  {
    if ws != [] {
      var ws' := ws[..|ws| - 1];
      ApplyAllMessages(s, ws', c, j);
      ApplyAllShape(s, ws');
      assert ws == ws' + [ws[|ws| - 1]];
    }
  }

  /** A user is written exactly when it is among the keys, exists and is dirty. */
  lemma {:induction false} UserWritesIff(users: map<UserId, UserDoc>, keys: seq<UserId>, w: Write)
    ensures w in UserWrites(users, keys) <==> w.UserWrite? && w.uid in keys && w.uid in users && UserDirty(users[w.uid])
  {
    if keys != [] {
      UserWritesIff(users, keys[1..], w);
    }
  }

  lemma {:induction false} MessageWritesIff(c: ConvId, msgs: seq<Message>, from: nat, w: Write)
    ensures w in MessageWrites(c, msgs, from) <==>
      w.MessageWrite? && w.convId == c && from <= w.index < |msgs| && MessageDirty(msgs[w.index])
    decreases |msgs| - from
  {
    if from < |msgs| {
      MessageWritesIff(c, msgs, from + 1, w);
      var head := if MessageDirty(msgs[from]) then [MessageWrite(c, from)] else [];
      assert MessageWrites(c, msgs, from) == head + MessageWrites(c, msgs, from + 1);
      assert w in head <==> w == MessageWrite(c, from) && MessageDirty(msgs[from]);
    }
  }

  /** A message is written exactly when its conversation is among the keys and it is dirty. */
  lemma {:induction false} ConvWritesIff(messages: map<ConvId, seq<Message>>, keys: seq<ConvId>, w: Write)
    ensures w in ConvWrites(messages, keys) <==>
      w.MessageWrite? && w.convId in keys && w.convId in messages
      && w.index < |messages[w.convId]| && MessageDirty(messages[w.convId][w.index])
  {
    if keys != [] {
      MessageWritesIff(keys[0], MessagesOf(messages, keys[0]), 0, w);
      ConvWritesIff(messages, keys[1..], w);
    }
  }

  /** `cleanedCount` counts one per cleared user and one per cleared message: the writes are exactly the dirty documents. */
  lemma WritesAreDirtyDocuments(s: Snapshot, userKeys: seq<UserId>, convKeys: seq<ConvId>, w: Write)
    ensures w in AllWrites(s, userKeys, convKeys) <==>
      (w.UserWrite? && w.uid in userKeys && w.uid in s.users && UserDirty(s.users[w.uid]))
      || (w.MessageWrite? && w.convId in convKeys && w.convId in s.messages
          && w.index < |s.messages[w.convId]| && MessageDirty(s.messages[w.convId][w.index]))
  {
    UserWritesIff(s.users, userKeys, w);
    ConvWritesIff(s.messages, convKeys, w);
  }

  /** After a full pass no listed user or message is dirty. */
  lemma FullPassCleansAll(s0: Snapshot, userKeys: seq<UserId>, convKeys: seq<ConvId>, s1: Snapshot)
    requires s1 == ApplyAll(s0, AllWrites(s0, userKeys, convKeys))
    ensures forall k :: k in userKeys && k in s1.users ==> !UserDirty(s1.users[k])
    ensures forall c, j :: c in convKeys && c in s1.messages && 0 <= j < |s1.messages[c]| ==> !MessageDirty(s1.messages[c][j])
  {
    var ws := AllWrites(s0, userKeys, convKeys);
    ApplyAllShape(s0, ws);
    forall k | k in userKeys && k in s1.users
      ensures !UserDirty(s1.users[k])
    {
      ApplyAllUsers(s0, ws, k);
      WritesAreDirtyDocuments(s0, userKeys, convKeys, UserWrite(k));
    }
    forall c, j | c in convKeys && c in s1.messages && 0 <= j < |s1.messages[c]|
      ensures !MessageDirty(s1.messages[c][j])
    {
      ApplyAllMessages(s0, ws, c, j);
      WritesAreDirtyDocuments(s0, userKeys, convKeys, MessageWrite(c, j));
    }
  }

  /** Running the pass again on a cleaned store writes nothing and reports 0. */
  lemma SecondPassWritesNothing(s0: Snapshot, userKeys: seq<UserId>, convKeys: seq<ConvId>)
    ensures AllWrites(ApplyAll(s0, AllWrites(s0, userKeys, convKeys)), userKeys, convKeys) == []
  {
    var s1 := ApplyAll(s0, AllWrites(s0, userKeys, convKeys));
    FullPassCleansAll(s0, userKeys, convKeys, s1);
    var ws1 := AllWrites(s1, userKeys, convKeys);
    if ws1 != [] {
      WritesAreDirtyDocuments(s1, userKeys, convKeys, ws1[0]);
      assert false;
    }
  }

  /** Documents that are not dirty are never written, so the pass leaves them as they were. */
  lemma CleanDocumentsUntouched(s0: Snapshot, userKeys: seq<UserId>, convKeys: seq<ConvId>, k: UserId)
    requires k in s0.users && !UserDirty(s0.users[k])
    ensures k in ApplyAll(s0, AllWrites(s0, userKeys, convKeys)).users
    ensures ApplyAll(s0, AllWrites(s0, userKeys, convKeys)).users[k] == s0.users[k]
  {
    ApplyAllUsers(s0, AllWrites(s0, userKeys, convKeys), k);
    WritesAreDirtyDocuments(s0, userKeys, convKeys, UserWrite(k));
  }
}
