/**
 * Presence and typing state (src/services/presenceService.js).
 * The timers and browser events that drive the service are explicit event methods; every
 * registration of the disconnect handlers is kept, so repeated registrations stay visible.
 * A write's success is a parameter `ok`; an `updateDoc` also fails when its document is missing.
 */
module PresenceService {
  import opened Wrappers
  import opened Documents

  /** The record `setUserOnline` merges into `userStatus/{uid}`. */
  function OnlineRecord(user: AuthUser, now: Millis): (r: StatusRecord)
    ensures r.uid == user.uid && r.status == Online && r.lastSeen == now && r.updatedAt == now
    ensures r.photoURL == (if user.photoURL.Some? then user.photoURL.value else "")
    ensures r.displayName == user.displayName && r.email == user.email
  {
    StatusRecord(user.uid, user.displayName, user.photoURL.GetOr(""), user.email, Online, now, now)
  }

  /** The status collection after `setUserOffline(uid)`: nothing for an empty id, a failed write or a missing record. */
  function AfterOffline(st: map<UserId, StatusRecord>, uid: UserId, now: Millis, ok: bool): (r: map<UserId, StatusRecord>)
    ensures r.Keys == st.Keys
    ensures forall k :: k in st && k != uid ==> r[k] == st[k]
    ensures uid in st ==> r[uid] == if uid != "" && ok then st[uid].(status := Offline, lastSeen := now, updatedAt := now) else st[uid]
  {
    if uid != "" && ok && uid in st then st[uid := st[uid].(status := Offline, lastSeen := now, updatedAt := now)] else st
  }

  /** The status collection after one heartbeat for `uid`: only `lastSeen`/`updatedAt` move, and only while signed in. */
  function AfterHeartbeat(st: map<UserId, StatusRecord>, uid: UserId, signedIn: bool, now: Millis, ok: bool): (r: map<UserId, StatusRecord>)
    ensures r.Keys == st.Keys
    ensures forall k :: k in st ==> r[k].status == st[k].status && r[k].uid == st[k].uid
    ensures forall k :: k in st && (k != uid || !signedIn || !ok) ==> r[k] == st[k]
    ensures signedIn && ok && uid in st ==> r[uid] == st[uid].(lastSeen := now, updatedAt := now)
  {
    if signedIn && ok && uid in st then st[uid := st[uid].(lastSeen := now, updatedAt := now)] else st
  }

  /** Every registered handler's `setUserOffline`, in registration order. */
  function OfflineAll(st: map<UserId, StatusRecord>, hs: seq<UserId>, now: Millis, ok: bool): map<UserId, StatusRecord> {
    if hs == [] then st else OfflineAll(AfterOffline(st, hs[0], now, ok), hs[1..], now, ok)
  }

  /** `n` copies of `x`: the handler registrations added when `n` handlers each re-register. */
  function Repeat(x: UserId, n: nat): (r: seq<UserId>)
    ensures |r| == n && forall i :: 0 <= i < n ==> r[i] == x
  {
    if n == 0 then [] else [x] + Repeat(x, n - 1)
  }

  /** What `subscribeToUserPresence` reports: the stored record, or `{status: 'offline'}` when there is none. */
  datatype PresenceReport = Record(rec: StatusRecord) | OfflineDefault {
    function Status(): Presence {
      match this
      case Record(r) => r.status
      case OfflineDefault => Offline
    }
  }

  function UserPresence(st: map<UserId, StatusRecord>, uid: UserId): (r: PresenceReport)
    ensures uid !in st <==> r == OfflineDefault
    ensures uid in st ==> r == Record(st[uid])
  {
    if uid in st then Record(st[uid]) else OfflineDefault
  }

  /** The typing map after `setTypingStatus`: only `uid`'s entry is written, to an entry or to null. */
  function TypingWrite(typing: Option<map<UserId, Option<TypingEntry>>>, uid: UserId, entry: Option<TypingEntry>): (r: map<UserId, Option<TypingEntry>>)
    ensures uid in r && r[uid] == entry
    ensures typing.Some? ==> r.Keys == typing.value.Keys + {uid} && forall k :: k in typing.value && k != uid ==> r[k] == typing.value[k]
    ensures typing.None? ==> r.Keys == {uid}
  {
    typing.GetOr(map[])[uid := entry]
  }

  /** The presence service singleton; `handlers` lists the user id of each registered disconnect handler. */
  class PresenceService {
    var currentUser: Option<AuthUser>
    var handlers: seq<UserId>
    const db: Store

    constructor (db: Store)
      ensures this.db == db && currentUser == None && handlers == []
    {
      this.db := db;
      currentUser := None;
      handlers := [];
    }

    /** `setUserOnline(user)`: remembers the user first, then merges the online record and registers handlers if the write succeeds. */
    method SetUserOnline(user: Option<AuthUser>, now: Millis, ok: bool)
      modifies this, db`userStatus
      ensures user.None? ==> currentUser == old(currentUser) && handlers == old(handlers) && db.userStatus == old(db.userStatus)
      ensures user.Some? ==> currentUser == user
      ensures user.Some? ==> db.userStatus == if ok then old(db.userStatus)[user.value.uid := OnlineRecord(user.value, now)] else old(db.userStatus)
      ensures user.Some? ==> handlers == if ok then old(handlers) + [user.value.uid] else old(handlers)
    {
      if user.None? {
        return;
      }
      currentUser := user;
      if ok {
        db.userStatus := db.userStatus[user.value.uid := OnlineRecord(user.value, now)];
        handlers := handlers + [user.value.uid];
      }
    }

    /** `setUserOffline(userId)`. */
    method SetUserOffline(userId: UserId, now: Millis, ok: bool)
      modifies db`userStatus
      ensures db.userStatus == AfterOffline(old(db.userStatus), userId, now, ok)
    {
      if userId == "" {
        return;
      }
      if ok && userId in db.userStatus {
        db.userStatus := db.userStatus[userId := db.userStatus[userId].(status := Offline, lastSeen := now, updatedAt := now)];
      }
    }

    /** The 30-second interval of the `k`-th registered handler. */
    method Heartbeat(k: nat, now: Millis, ok: bool)
      requires k < |handlers|
      modifies db`userStatus
      ensures db.userStatus == AfterHeartbeat(old(db.userStatus), handlers[k], currentUser.Some?, now, ok)
    {
      if currentUser.Some? {
        var uid := handlers[k];
        if ok && uid in db.userStatus {
          db.userStatus := db.userStatus[uid := db.userStatus[uid].(lastSeen := now, updatedAt := now)];
        }
      }
    }

    /** `beforeunload`: every registered handler sets its user offline. */
    method BeforeUnload(now: Millis, ok: bool)
      modifies db`userStatus
      ensures db.userStatus == OfflineAll(old(db.userStatus), handlers, now, ok)
    {
      var i := 0;
      while i < |handlers|
        invariant 0 <= i <= |handlers|
        invariant OfflineAll(old(db.userStatus), handlers, now, ok) == OfflineAll(db.userStatus, handlers[i..], now, ok)
      {
        assert handlers[i..][1..] == handlers[i + 1..];
        SetUserOffline(handlers[i], now, ok);
        i := i + 1;
      }
    }

    /**
     * `visibilitychange`: when hidden, every registered handler sets its user offline; when visible,
     * every one calls `setUserOnline(currentUser)`, which registers a further handler each time it succeeds.
     */
    method VisibilityChange(hidden: bool, now: Millis, ok: bool)
      modifies this, db`userStatus
      ensures hidden ==>
        db.userStatus == OfflineAll(old(db.userStatus), old(handlers), now, ok) && handlers == old(handlers) && currentUser == old(currentUser)
      ensures !hidden && (currentUser.None? || !ok || |old(handlers)| == 0) ==>
        db.userStatus == old(db.userStatus) && handlers == old(handlers) && currentUser == old(currentUser)
      ensures !hidden && old(currentUser).Some? && ok && |old(handlers)| > 0 ==>
        && db.userStatus == old(db.userStatus)[old(currentUser).value.uid := OnlineRecord(old(currentUser).value, now)]
        && handlers == old(handlers) + Repeat(old(currentUser).value.uid, |old(handlers)|)
        && currentUser == old(currentUser)
    {
      if hidden {
        BeforeUnload(now, ok);
        return;
      }
      var n := |handlers|;
      var i := 0;
      while i < n
        invariant 0 <= i <= n
        invariant currentUser == old(currentUser)
        invariant currentUser.None? || !ok ==> db.userStatus == old(db.userStatus) && handlers == old(handlers)
        invariant currentUser.Some? && ok ==> handlers == old(handlers) + Repeat(currentUser.value.uid, i)
        invariant currentUser.Some? && ok && i > 0 ==>
          db.userStatus == old(db.userStatus)[currentUser.value.uid := OnlineRecord(currentUser.value, now)]
        invariant currentUser.Some? && ok && i == 0 ==> db.userStatus == old(db.userStatus)
      {
        SetUserOnline(currentUser, now, ok);
        if currentUser.Some? && ok {
          assert Repeat(currentUser.value.uid, i + 1) == Repeat(currentUser.value.uid, i) + [currentUser.value.uid];
        }
        i := i + 1;
      }
    }

    /** `setTypingStatus(conversationId, isTyping)`: nothing without a signed-in user, a missing conversation or a failed write. */
    method SetTypingStatus(convId: ConvId, isTyping: bool, now: Millis, ok: bool)
      modifies db`conversations
      ensures currentUser.None? || !ok || convId !in old(db.conversations) ==> db.conversations == old(db.conversations)
      ensures currentUser.Some? && ok && convId in old(db.conversations) ==>
        var c := old(db.conversations)[convId];
        var u := currentUser.value;
        db.conversations == old(db.conversations)[convId := c.(typing := Some(TypingWrite(c.typing, u.uid,
          if isTyping then Some(TypingEntry(u.uid, u.displayName, Some(now))) else None)))]
    {
      if currentUser.None? {
        return;
      }
      if ok && convId in db.conversations {
        var c := db.conversations[convId];
        var u := currentUser.value;
        var entry := if isTyping then Some(TypingEntry(u.uid, u.displayName, Some(now))) else None;
        db.conversations := db.conversations[convId := c.(typing := Some(TypingWrite(c.typing, u.uid, entry)))];
      }
    }
  }

  // ----- The typing filter of `subscribeToTypingIndicators` -----

  /** `typingData.timestamp?.toMillis?.() || 0`. */
  function TypingTime(e: TypingEntry): int {
    e.timestamp.GetOr(0)
  }

  /** Whether the entry stored under `key` is reported: present, not the viewer's, and under 5000 ms old. */
  predicate Live(key: UserId, entry: Option<TypingEntry>, me: UserId, now: Millis) {
    entry.Some? && key != me && now - TypingTime(entry.value) < 5000
  }

  /** Reference definition of the reported list, over the keys in enumeration order. */
  function LiveTyping(typing: map<UserId, Option<TypingEntry>>, keys: seq<UserId>, me: UserId, now: Millis): seq<TypingEntry>
    requires forall i :: 0 <= i < |keys| ==> keys[i] in typing
  {
    if keys == [] then []
    else
      var k := keys[|keys| - 1];
      LiveTyping(typing, keys[..|keys| - 1], me, now) + (if Live(k, typing[k], me, now) then [typing[k].value] else [])
  }

  /**
   * The snapshot callback of `subscribeToTypingIndicators`: `[]` for a missing conversation or
   * typing map, otherwise the live entries in the map's enumeration order `keys`.
   */
  method TypingUsers(snapshot: Option<Conversation>, me: UserId, keys: seq<UserId>, now: Millis) returns (users: seq<TypingEntry>)
    requires snapshot.Some? && snapshot.value.typing.Some? ==> Enumerates(snapshot.value.typing.value, keys)
    ensures snapshot.None? || snapshot.value.typing.None? ==> users == []
    ensures snapshot.Some? && snapshot.value.typing.Some? ==> users == LiveTyping(snapshot.value.typing.value, keys, me, now)
  {
    users := [];
    if snapshot.None? || snapshot.value.typing.None? {
      return;
    }
    var typing := snapshot.value.typing.value;
    var i := 0;
    while i < |keys|
      invariant 0 <= i <= |keys|
      invariant users == LiveTyping(typing, keys[..i], me, now)
    {
      var entry := typing[keys[i]];
      if entry.Some? && keys[i] != me {
        var t := entry.value.timestamp.GetOr(0);
        if now - t < 5000 {
          users := users + [entry.value];
        }
      }
      assert keys[..i + 1][..i] == keys[..i];
      i := i + 1;
    }
    assert keys[..i] == keys;
  }

  // ----- Properties -----

  /** An entry is reported iff some key other than the viewer's holds it, non-null, with a timestamp under 5000 ms old. */
  lemma {:induction false} LiveTypingMembers(typing: map<UserId, Option<TypingEntry>>, keys: seq<UserId>, me: UserId, now: Millis, e: TypingEntry)
    requires forall i :: 0 <= i < |keys| ==> keys[i] in typing
    ensures e in LiveTyping(typing, keys, me, now) <==>
      exists i :: 0 <= i < |keys| && Live(keys[i], typing[keys[i]], me, now) && typing[keys[i]] == Some(e)
  {
    if keys != [] {
      var init := keys[..|keys| - 1];
      LiveTypingMembers(typing, init, me, now, e);
      assert forall i :: 0 <= i < |init| ==> init[i] == keys[i];
    }
  }

  /** At most one reported entry per key. */
  lemma {:induction false} LiveTypingLength(typing: map<UserId, Option<TypingEntry>>, keys: seq<UserId>, me: UserId, now: Millis)
    requires forall i :: 0 <= i < |keys| ==> keys[i] in typing
    ensures |LiveTyping(typing, keys, me, now)| <= |keys|
  {
    if keys != [] {
      LiveTypingLength(typing, keys[..|keys| - 1], me, now);
    }
  }

  /** A missing presence record reads as offline; a stored one reports its own status. */
  lemma MissingPresenceIsOffline(st: map<UserId, StatusRecord>, uid: UserId)
    ensures UserPresence(st, uid).Status() == if uid in st then st[uid].status else Offline
  {
  }

  /** After going offline on every handler, each handler's stored record is offline, provided the writes succeed. */
  lemma {:induction false} OfflineAllMarksOffline(st: map<UserId, StatusRecord>, hs: seq<UserId>, now: Millis, uid: UserId)
    requires uid in hs && uid in st && uid != ""
    ensures uid in OfflineAll(st, hs, now, true) && OfflineAll(st, hs, now, true)[uid].status == Offline
  {
    var st1 := AfterOffline(st, hs[0], now, true);
    if hs[0] == uid {
      assert st1[uid].status == Offline;
      OfflineKeepsOffline(st1, hs[1..], now, uid);
    } else {
      assert uid in hs[1..];
      OfflineAllMarksOffline(st1, hs[1..], now, uid);
    }
  }

  lemma {:induction false} OfflineKeepsOffline(st: map<UserId, StatusRecord>, hs: seq<UserId>, now: Millis, uid: UserId)
    requires uid in st && st[uid].status == Offline
    ensures uid in OfflineAll(st, hs, now, true) && OfflineAll(st, hs, now, true)[uid].status == Offline
  {
    if hs != [] {
      OfflineKeepsOffline(AfterOffline(st, hs[0], now, true), hs[1..], now, uid);
    }
  }

  /** Going offline never adds or drops a record, and touches only the handlers' users. */
  lemma {:induction false} OfflineAllFrame(st: map<UserId, StatusRecord>, hs: seq<UserId>, now: Millis, ok: bool, k: UserId)
    requires k in st && k !in hs
    ensures OfflineAll(st, hs, now, ok).Keys == st.Keys
    ensures OfflineAll(st, hs, now, ok)[k] == st[k]
  {
    if hs != [] {
      OfflineAllFrame(AfterOffline(st, hs[0], now, ok), hs[1..], now, ok, k);
    }
  }
}
