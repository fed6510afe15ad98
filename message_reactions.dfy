/**
 * The reaction chips under a message (src/components/messages/MessageReactions.js).
 * `reactions` maps each reacting user to their one reaction; the chips group them by emoji.
 */
module MessageReactions {
  import opened Wrappers
  import opened Documents

  datatype Reaction = Reaction(emoji: string, userName: Option<string>)

  datatype ReactionUser = ReactionUser(userId: UserId, userName: Option<string>)

  /** An entry of `groupedReactions`. */
  datatype ReactionGroup = ReactionGroup(emoji: string, users: seq<ReactionUser>, count: nat, hasCurrentUser: bool)

  /** The users among `keys` who reacted with `e`, in enumeration order. */
  function UsersWith(m: map<UserId, Reaction>, keys: seq<UserId>, e: string): seq<ReactionUser>
    requires forall i :: 0 <= i < |keys| ==> keys[i] in m
  {
    if keys == [] then []
    else
      var k := keys[|keys| - 1];
      UsersWith(m, keys[..|keys| - 1], e) + (if m[k].emoji == e then [ReactionUser(k, m[k].userName)] else [])
  }

  /** The position of the first key of the enumeration that reacted with `e`, or `|keys|` when none did. */
  function FirstUse(m: map<UserId, Reaction>, keys: seq<UserId>, e: string): (r: nat)
    requires forall i :: 0 <= i < |keys| ==> keys[i] in m
    ensures r <= |keys|
    ensures r < |keys| ==> m[keys[r]].emoji == e
    ensures forall a :: 0 <= a < r ==> m[keys[a]].emoji != e
  {
    if keys == [] then 0
    else if m[keys[0]].emoji == e then 0
    else
      assert forall a :: 1 <= a < |keys| ==> keys[a] == keys[1..][a - 1];
      1 + FirstUse(m, keys[1..], e)
  }

  /** `order` lists emojis by the position of their first use. */
  predicate FirstSeenOrder(m: map<UserId, Reaction>, keys: seq<UserId>, order: seq<string>)
    requires forall i :: 0 <= i < |keys| ==> keys[i] in m
  {
    forall i, j :: 0 <= i < j < |order| ==> FirstUse(m, keys, order[i]) < FirstUse(m, keys, order[j])
  }

  function SumCounts(order: seq<string>, g: map<string, ReactionGroup>): int
    requires forall i :: 0 <= i < |order| ==> order[i] in g
  {
    if order == [] then 0 else SumCounts(order[..|order| - 1], g) + g[order[|order| - 1]].count
  }

  /** An empty or missing reactions map renders no chips. */
  predicate Visible(reactions: Option<map<UserId, Reaction>>) {
    reactions.Some? && |reactions.value| > 0
  }

  /** One step of the grouping `forEach`: create the emoji's group if new, then add the user and count it. */
  function Step(g: map<string, ReactionGroup>, order: seq<string>, userId: UserId, r: Reaction, me: UserId): (map<string, ReactionGroup>, seq<string>) {
    var g1 := if r.emoji in g then g else g[r.emoji := ReactionGroup(r.emoji, [], 0, false)];
    var o1 := if r.emoji in g then order else order + [r.emoji];
    var grp := g1[r.emoji];
    (g1[r.emoji := grp.(users := grp.users + [ReactionUser(userId, r.userName)], count := grp.count + 1,
                        hasCurrentUser := grp.hasCurrentUser || userId == me)], o1)
  }

  /** The grouping over the first keys of the enumeration. */
  function GroupAll(m: map<UserId, Reaction>, keys: seq<UserId>, me: UserId): (map<string, ReactionGroup>, seq<string>)
    requires forall i :: 0 <= i < |keys| ==> keys[i] in m
  {
    if keys == [] then (map[], [])
    else
      var k := keys[|keys| - 1];
      var prev := GroupAll(m, keys[..|keys| - 1], me);
      Step(prev.0, prev.1, k, m[k], me)
  }

  /**
   * The grouping `forEach`: returns `groupedReactions` and the order its emojis were first seen,
   * which is the order the chips are rendered in.
   */
  method GroupReactions(m: map<UserId, Reaction>, keys: seq<UserId>, me: UserId) returns (g: map<string, ReactionGroup>, order: seq<string>)
    requires Enumerates(m, keys)
    ensures forall i, j :: 0 <= i < j < |order| ==> order[i] != order[j]
    ensures forall e :: e in g <==> e in order
    ensures forall e :: e in g <==> exists k :: k in m && m[k].emoji == e
    ensures forall e :: e in g ==> g[e].emoji == e && g[e].users == UsersWith(m, keys, e) && g[e].count == |g[e].users|
    ensures forall e :: e in g ==> (g[e].hasCurrentUser <==> me in m && m[me].emoji == e)
    ensures SumCounts(order, g) == |m|
    ensures FirstSeenOrder(m, keys, order)
  {
    g, order := map[], [];
    var i := 0;
    while i < |keys|
      invariant 0 <= i <= |keys|
      invariant (g, order) == GroupAll(m, keys[..i], me)
    {
      var userId := keys[i];
      var reaction := m[userId];
      var emoji := reaction.emoji;
      assert keys[..i + 1][..i] == keys[..i];
      if emoji !in g {
        g := g[emoji := ReactionGroup(emoji, [], 0, false)];
        order := order + [emoji];
      }
      var grp := g[emoji];
      grp := grp.(users := grp.users + [ReactionUser(userId, reaction.userName)]);
      grp := grp.(count := grp.count + 1);
      if userId == me {
        grp := grp.(hasCurrentUser := true);
      }
      g := g[emoji := grp];
      i := i + 1;
    }
    assert keys[..i] == keys;
    assert (g, order) == GroupAll(m, keys, me);
    GroupAllSpec(m, keys, me, g, order);
  }

  /** What the whole grouping yields: one group per emoji in use, in first-seen order, holding exactly its users. */
  lemma GroupAllSpec(m: map<UserId, Reaction>, keys: seq<UserId>, me: UserId, g: map<string, ReactionGroup>, order: seq<string>)
    requires Enumerates(m, keys) && (g, order) == GroupAll(m, keys, me)
    ensures forall i, j :: 0 <= i < j < |order| ==> order[i] != order[j]
    ensures forall e :: e in g <==> e in order
    ensures forall e :: e in g <==> exists k :: k in m && m[k].emoji == e
    ensures forall e :: e in g ==> g[e].emoji == e && g[e].users == UsersWith(m, keys, e) && g[e].count == |g[e].users|
    ensures forall e :: e in g ==> (g[e].hasCurrentUser <==> me in m && m[me].emoji == e)
    ensures SumCounts(order, g) == |m|
    ensures FirstSeenOrder(m, keys, order)
  {
    GroupAllOrder(m, keys, me);
    GroupAllShape(m, keys, me);
    GroupAllGroups(m, keys, me);
    GroupAllSum(m, keys, me);
    KeysCount(m, keys);
    forall e ensures e in g <==> exists k :: k in m && m[k].emoji == e {
      if e in g {
        var k :| 0 <= k < |keys| && m[keys[k]].emoji == e;
        assert keys[k] in m;
      }
      if exists k :: k in m && m[k].emoji == e {
        var k :| k in m && m[k].emoji == e;
        var j :| 0 <= j < |keys| && keys[j] == k;
      }
    }
  }

  lemma StepFacts(g: map<string, ReactionGroup>, order: seq<string>, userId: UserId, r: Reaction, me: UserId)
    ensures var st := Step(g, order, userId, r, me);
      var u := ReactionUser(userId, r.userName);
      && st.0.Keys == g.Keys + {r.emoji}
      && st.1 == (if r.emoji in g then order else order + [r.emoji])
      && (forall f :: f in g && f != r.emoji ==> st.0[f] == g[f])
      && (r.emoji in g ==> st.0[r.emoji] == g[r.emoji].(users := g[r.emoji].users + [u], count := g[r.emoji].count + 1,
                                                        hasCurrentUser := g[r.emoji].hasCurrentUser || userId == me))
      && (r.emoji !in g ==> st.0[r.emoji] == ReactionGroup(r.emoji, [u], 1, userId == me))
  {
  }

  lemma {:induction false} GroupAllShape(m: map<UserId, Reaction>, keys: seq<UserId>, me: UserId)
    requires forall i :: 0 <= i < |keys| ==> keys[i] in m
    ensures forall i, j :: 0 <= i < j < |GroupAll(m, keys, me).1| ==> GroupAll(m, keys, me).1[i] != GroupAll(m, keys, me).1[j]
    ensures forall e :: e in GroupAll(m, keys, me).0 <==> e in GroupAll(m, keys, me).1
    ensures forall e :: e in GroupAll(m, keys, me).0 <==> exists k :: 0 <= k < |keys| && m[keys[k]].emoji == e
  {
    if keys != [] {
      var init := keys[..|keys| - 1];
      GroupAllShape(m, init, me);
      var k := keys[|keys| - 1];
      var st0 := GroupAll(m, init, me);
      var st := GroupAll(m, keys, me);
      var e := m[k].emoji;
      StepFacts(st0.0, st0.1, k, m[k], me);
      assert st == Step(st0.0, st0.1, k, m[k], me);
      if e !in st0.0 {
        assert e !in st0.1;
        assert st.1 == st0.1 + [e];
        forall i, j | 0 <= i < j < |st.1| ensures st.1[i] != st.1[j] {
          if j == |st0.1| {
            assert st.1[i] == st0.1[i];
          }
        }
      }
      forall f ensures f in st.0 <==> exists i :: 0 <= i < |keys| && m[keys[i]].emoji == f {
        if exists i :: 0 <= i < |init| && m[init[i]].emoji == f {
          var i :| 0 <= i < |init| && m[init[i]].emoji == f;
          assert keys[i] == init[i];
        }
        if f == e {
          assert m[keys[|keys| - 1]].emoji == f;
        }
        if exists i :: 0 <= i < |keys| && m[keys[i]].emoji == f {
          var i :| 0 <= i < |keys| && m[keys[i]].emoji == f;
          if i < |init| {
            assert keys[i] == init[i];
          }
        }
      }
    }
  }

  lemma {:induction false} GroupAllOrder(m: map<UserId, Reaction>, keys: seq<UserId>, me: UserId)
    requires forall i :: 0 <= i < |keys| ==> keys[i] in m
    ensures FirstSeenOrder(m, keys, GroupAll(m, keys, me).1)
  {
    if keys != [] {
      var init := keys[..|keys| - 1];
      GroupAllOrder(m, init, me);
      GroupAllShape(m, init, me);
      var st0 := GroupAll(m, init, me);
      var k := keys[|keys| - 1];
      StepFacts(st0.0, st0.1, k, m[k], me);
      forall x ensures x in st0.1 <==> FirstUse(m, init, x) < |init| {
        if x in st0.1 {
          var a :| 0 <= a < |init| && m[init[a]].emoji == x;
        }
      }
      OrderStep(m, keys, st0.1, GroupAll(m, keys, me).1);
    }
  }

  /** Appending a key moves no first use that already happened; an emoji not used before is first used there. */
  lemma FirstUseExtend(m: map<UserId, Reaction>, keys: seq<UserId>, e: string)
    requires keys != [] && forall i :: 0 <= i < |keys| ==> keys[i] in m
    ensures var n := |keys| - 1;
      && (FirstUse(m, keys[..n], e) < n ==> FirstUse(m, keys, e) == FirstUse(m, keys[..n], e))
      && (FirstUse(m, keys[..n], e) == n && m[keys[n]].emoji == e ==> FirstUse(m, keys, e) == n)
  {
    var n := |keys| - 1;
    assert forall a :: 0 <= a < n ==> keys[..n][a] == keys[a];
  }

  /** Appending a key keeps the order by first use: a new emoji goes last, a known one changes nothing. */
  lemma OrderStep(m: map<UserId, Reaction>, keys: seq<UserId>, order0: seq<string>, order: seq<string>)
    requires keys != [] && forall i :: 0 <= i < |keys| ==> keys[i] in m
    requires FirstSeenOrder(m, keys[..|keys| - 1], order0)
    requires forall x :: x in order0 <==> FirstUse(m, keys[..|keys| - 1], x) < |keys| - 1
    requires var e := m[keys[|keys| - 1]].emoji; order == if e in order0 then order0 else order0 + [e]
    ensures FirstSeenOrder(m, keys, order)
  {
    var n := |keys| - 1;
    var e := m[keys[n]].emoji;
    forall x ensures
      && (FirstUse(m, keys[..n], x) < n ==> FirstUse(m, keys, x) == FirstUse(m, keys[..n], x))
      && (FirstUse(m, keys[..n], x) == n && m[keys[n]].emoji == x ==> FirstUse(m, keys, x) == n)
    {
      FirstUseExtend(m, keys, x);
    }
    forall i, j | 0 <= i < j < |order| ensures FirstUse(m, keys, order[i]) < FirstUse(m, keys, order[j]) {
      assert order0[i] in order0;
      if j < |order0| {
        assert order0[j] in order0 && order[i] == order0[i] && order[j] == order0[j];
      } else {
        assert order[i] == order0[i] && order[j] == e && e !in order0;
      }
    }
  }

  lemma {:induction false} UsersWithNone(m: map<UserId, Reaction>, keys: seq<UserId>, e: string)
    requires forall i :: 0 <= i < |keys| ==> keys[i] in m && m[keys[i]].emoji != e
    ensures UsersWith(m, keys, e) == []
  {
    if keys != [] {
      UsersWithNone(m, keys[..|keys| - 1], e);
    }
  }

  lemma {:induction false} GroupAllGroups(m: map<UserId, Reaction>, keys: seq<UserId>, me: UserId)
    requires forall i :: 0 <= i < |keys| ==> keys[i] in m
    requires forall i, j :: 0 <= i < j < |keys| ==> keys[i] != keys[j]
    ensures forall e :: e in GroupAll(m, keys, me).0 ==>
      && GroupAll(m, keys, me).0[e].emoji == e
      && GroupAll(m, keys, me).0[e].users == UsersWith(m, keys, e)
      && GroupAll(m, keys, me).0[e].count == |UsersWith(m, keys, e)|
      && (GroupAll(m, keys, me).0[e].hasCurrentUser <==> me in keys && m[me].emoji == e)
  {
    if keys != [] {
      var init := keys[..|keys| - 1];
      GroupAllGroups(m, init, me);
      GroupAllShape(m, init, me);
      UsersWithStep(m, keys);
      var k := keys[|keys| - 1];
      assert forall x :: x in keys <==> x in init || x == k;
      var st0 := GroupAll(m, init, me);
      var g0 := st0.0;
      var g := GroupAll(m, keys, me).0;
      var e := m[k].emoji;
      StepFacts(st0.0, st0.1, k, m[k], me);
      assert GroupAll(m, keys, me) == Step(st0.0, st0.1, k, m[k], me);
      forall f | f in g
        ensures g[f].emoji == f && g[f].users == UsersWith(m, keys, f) && g[f].count == |g[f].users|
        ensures g[f].hasCurrentUser <==> me in keys && m[me].emoji == f
      {
        if f != e {
          assert g[f] == g0[f];
        } else if e !in g0 {
          assert forall i :: 0 <= i < |init| ==> init[i] in m && m[init[i]].emoji != e;
          UsersWithNone(m, init, e);
          assert me in init ==> m[me].emoji != e;
        }
      }
    }
  }

  lemma {:induction false} GroupAllSum(m: map<UserId, Reaction>, keys: seq<UserId>, me: UserId)
    requires forall i :: 0 <= i < |keys| ==> keys[i] in m
    ensures forall i :: 0 <= i < |GroupAll(m, keys, me).1| ==> GroupAll(m, keys, me).1[i] in GroupAll(m, keys, me).0
    ensures SumCounts(GroupAll(m, keys, me).1, GroupAll(m, keys, me).0) == |keys|
  {
    if keys != [] {
      var init := keys[..|keys| - 1];
      GroupAllSum(m, init, me);
      GroupAllShape(m, init, me);
      var (g0, o0) := GroupAll(m, init, me);
      var k := keys[|keys| - 1];
      var e := m[k].emoji;
      var g1 := if e in g0 then g0 else g0[e := ReactionGroup(e, [], 0, false)];
      var o1 := if e in g0 then o0 else o0 + [e];
      if e !in g0 {
        SumAppend(o0, g0, e, ReactionGroup(e, [], 0, false));
        assert o1[|o1| - 1] == e;
      }
      assert forall a, b :: 0 <= a < b < |o1| ==> o1[a] != o1[b];
      var (g, order) := GroupAll(m, keys, me);
      SumBump(o1, g1, e, g);
    }
  }

  // ----- Helper facts -----

  lemma UsersWithStep(m: map<UserId, Reaction>, keys: seq<UserId>)
    requires |keys| > 0 && forall i :: 0 <= i < |keys| ==> keys[i] in m
    ensures forall f ::
              UsersWith(m, keys, f) == UsersWith(m, keys[..|keys| - 1], f)
                + (if m[keys[|keys| - 1]].emoji == f then [ReactionUser(keys[|keys| - 1], m[keys[|keys| - 1]].userName)] else [])
  {
  }

  lemma {:induction false} SumAgree(order: seq<string>, g: map<string, ReactionGroup>, h: map<string, ReactionGroup>)
    requires forall i :: 0 <= i < |order| ==> order[i] in g && order[i] in h && g[order[i]].count == h[order[i]].count
    ensures SumCounts(order, g) == SumCounts(order, h)
  {
    if order != [] {
      SumAgree(order[..|order| - 1], g, h);
    }
  }

  lemma SumAppend(order: seq<string>, g: map<string, ReactionGroup>, e: string, grp: ReactionGroup)
    requires forall i :: 0 <= i < |order| ==> order[i] in g && order[i] != e
    requires grp.count == 0
    ensures SumCounts(order + [e], g[e := grp]) == SumCounts(order, g)
  {
    assert (order + [e])[..|order|] == order;
    SumAgree(order, g, g[e := grp]);
  }

  lemma {:induction false} SumBump(order: seq<string>, g: map<string, ReactionGroup>, e: string, h: map<string, ReactionGroup>)
    requires forall i :: 0 <= i < |order| ==> order[i] in g
    requires forall a, b :: 0 <= a < b < |order| ==> order[a] != order[b]
    requires e in order && e in h && h == g[e := h[e]] && h[e].count == g[e].count + 1
    ensures SumCounts(order, h) == SumCounts(order, g) + 1
  {
    var init := order[..|order| - 1];
    if order[|order| - 1] == e {
      assert forall i :: 0 <= i < |init| ==> init[i] != e;
      SumAgree(init, g, h);
    } else {
      assert e in init by {
        var j :| 0 <= j < |order| && order[j] == e;
        assert init[j] == e;
      }
      SumBump(init, g, e, h);
    }
  }

  lemma {:induction false} KeysCount(m: map<UserId, Reaction>, keys: seq<UserId>)
    requires Enumerates(m, keys)
    ensures |m| == |keys|
  {
    if keys == [] {
      assert m.Keys == {};
    } else {
      var k := keys[|keys| - 1];
      EnumeratesInit(m, keys);
      KeysCount(m - {k}, keys[..|keys| - 1]);
      assert m.Keys == (m - {k}).Keys + {k} && k !in (m - {k}).Keys;
    }
  }

  /** Dropping the last key from the enumeration enumerates the map without it. */
  lemma EnumeratesInit(m: map<UserId, Reaction>, keys: seq<UserId>)
    requires Enumerates(m, keys) && keys != []
    ensures Enumerates(m - {keys[|keys| - 1]}, keys[..|keys| - 1])
  {
    var k := keys[|keys| - 1];
    var init := keys[..|keys| - 1];
    assert forall i :: 0 <= i < |init| ==> init[i] == keys[i] && init[i] != k;
    forall x | x in m - {k}
      ensures x in init
    {
      var j :| 0 <= j < |keys| && keys[j] == x;
      assert init[j] == x;
    }
  }

  // ----- Properties -----

  /** Each reacting user lands in exactly the group of their emoji, once. */
  lemma {:induction false} UserInOwnGroup(m: map<UserId, Reaction>, keys: seq<UserId>, u: UserId, e: string)
    requires Enumerates(m, keys)
    ensures ReactionUser(u, if u in m then m[u].userName else None) in UsersWith(m, keys, e) <==> u in m && m[u].emoji == e
  {
    UsersWithMembers(m, keys, u, e);
    if u in m && m[u].emoji == e {
      var j :| 0 <= j < |keys| && keys[j] == u;
    }
  }

  lemma {:induction false} UsersWithMembers(m: map<UserId, Reaction>, keys: seq<UserId>, u: UserId, e: string)
    requires forall i :: 0 <= i < |keys| ==> keys[i] in m
    ensures forall x :: x in UsersWith(m, keys, e) ==> x.userId in m && m[x.userId].emoji == e && x.userName == m[x.userId].userName
    ensures u in m && m[u].emoji == e && u in keys ==> ReactionUser(u, m[u].userName) in UsersWith(m, keys, e)
  {
    if keys != [] {
      var init := keys[..|keys| - 1];
      UsersWithMembers(m, init, u, e);
      if u in keys && u != keys[|keys| - 1] {
        var j :| 0 <= j < |keys| && keys[j] == u;
        assert init[j] == u;
      }
    }
  }

  /** `handleReactionClick`: the call fired for a chip. */
  datatype ReactionCall = RemoveReaction(emoji: string) | AddReaction(emoji: string)

  function ReactionClick(emoji: string, hasCurrentUser: bool): (c: ReactionCall)
    ensures c.emoji == emoji && (c.RemoveReaction? <==> hasCurrentUser)
  {
    if hasCurrentUser then RemoveReaction(emoji) else AddReaction(emoji)
  }
}
