/**
 * The sidebar list of the user's conversations (src/components/conversations/ConversationList.js):
 * the snapshot is sorted in place by `updatedAt`, newest first, and filtered by the search box.
 */
module ConversationList {
  import opened Wrappers
  import opened Strings
  import opened Documents
  import opened ConversationCard

  /** `conv.updatedAt?.toMillis() || 0`. */
  function SortKey(c: Conversation): int {
    c.updatedAt.GetOr(0)
  }

  predicate NewestFirst(s: seq<Conversation>) {
    forall i, j :: 0 <= i < j < |s| ==> SortKey(s[j]) <= SortKey(s[i])
  }

  /** Every ordered pair within `s[..hi+1]` that avoids position `j` is newest first. */
  predicate SortedExcept(s: seq<Conversation>, j: nat, hi: nat)
    requires hi < |s|
  {
    forall k, l :: 0 <= k < l <= hi && k != j && l != j ==> SortKey(s[l]) <= SortKey(s[k])
  }

  /** The element at `j` is at least as new as everything after it up to `hi`. */
  predicate NewestFrom(s: seq<Conversation>, j: nat, hi: nat)
    requires j <= hi < |s|
  {
    forall l :: j < l <= hi ==> SortKey(s[l]) <= SortKey(s[j])
  }

  lemma InsertStart(s: seq<Conversation>, i: nat)
    requires 0 < i < |s| && NewestFirst(s[..i])
    ensures SortedExcept(s, i, i) && NewestFrom(s, i, i)
  {
    forall k, l | 0 <= k < l <= i && k != i && l != i ensures SortKey(s[l]) <= SortKey(s[k]) {
      assert s[..i][k] == s[k] && s[..i][l] == s[l];
    }
  }

  lemma InsertSwap(s: seq<Conversation>, j: nat, hi: nat)
    requires 0 < j <= hi < |s| && SortedExcept(s, j, hi) && NewestFrom(s, j, hi)
    requires SortKey(s[j - 1]) < SortKey(s[j])
    ensures SortedExcept(s[j - 1 := s[j]][j := s[j - 1]], j - 1, hi)
    ensures NewestFrom(s[j - 1 := s[j]][j := s[j - 1]], j - 1, hi)
  {
  }

  lemma SwapKeepsMultiset(s: seq<Conversation>, j: nat)
    requires 0 < j < |s|
    ensures multiset(s[j - 1 := s[j]][j := s[j - 1]]) == multiset(s)
  {
  }

  /** The conversations of `s` whose sort key is `k`, in their order in `s`. */
  function WithKey(s: seq<Conversation>, k: int): (r: seq<Conversation>)
    ensures |r| <= |s|
  {
    if s == [] then [] else (if SortKey(s[0]) == k then [s[0]] else []) + WithKey(s[1..], k)
  }

  /** Conversations that tie on the sort key appear in the same relative order in both sequences. */
  ghost predicate SameTies(s: seq<Conversation>, t: seq<Conversation>) {
    forall k :: WithKey(s, k) == WithKey(t, k)
  }

  lemma {:induction false} WithKeyAppend(xs: seq<Conversation>, ys: seq<Conversation>, k: int)
    ensures WithKey(xs + ys, k) == WithKey(xs, k) + WithKey(ys, k)
  {
    if xs == [] {
      assert xs + ys == ys;
    } else {
      assert (xs + ys)[0] == xs[0] && (xs + ys)[1..] == xs[1..] + ys;
      WithKeyAppend(xs[1..], ys, k);
      AppendAssoc(if SortKey(xs[0]) == k then [xs[0]] else [], WithKey(xs[1..], k), WithKey(ys, k));
    }
  }

  /** Swapping two neighbours with different keys reorders no tie. */
  lemma SwapKeepsTies(s: seq<Conversation>, j: nat)
    requires 0 < j < |s| && SortKey(s[j - 1]) != SortKey(s[j])
    ensures SameTies(s[j - 1 := s[j]][j := s[j - 1]], s)
  {
    var t := s[j - 1 := s[j]][j := s[j - 1]];
    var p, q := s[..j - 1], s[j + 1..];
    assert s == p + ([s[j - 1]] + ([s[j]] + q));
    assert t == p + ([s[j]] + ([s[j - 1]] + q));
    forall k ensures WithKey(t, k) == WithKey(s, k) {
      WithKeyAppend(p, [s[j - 1]] + ([s[j]] + q), k);
      WithKeyAppend([s[j - 1]], [s[j]] + q, k);
      WithKeyAppend([s[j]], q, k);
      WithKeyAppend(p, [s[j]] + ([s[j - 1]] + q), k);
      WithKeyAppend([s[j]], [s[j - 1]] + q, k);
      WithKeyAppend([s[j - 1]], q, k);
    }
  }

  lemma InsertStop(s: seq<Conversation>, j: nat, hi: nat)
    requires j <= hi < |s| && SortedExcept(s, j, hi) && NewestFrom(s, j, hi)
    requires j == 0 || SortKey(s[j]) <= SortKey(s[j - 1])
    ensures NewestFirst(s[..hi + 1])
  {
    var t := s[..hi + 1];
    forall k, l | 0 <= k < l < |t| ensures SortKey(t[l]) <= SortKey(t[k]) {
      if l == j && k < j - 1 {
        assert SortKey(s[j - 1]) <= SortKey(s[k]);
      }
    }
  }

  /** `conversationData.sort((a, b) => bTime - aTime)`: an in-place insertion sort, newest first. */
  method SortByUpdatedAt(a: array<Conversation>)
    modifies a
    ensures NewestFirst(a[..])
    ensures multiset(a[..]) == multiset(old(a[..]))
    ensures SameTies(a[..], old(a[..]))
  {
    if a.Length <= 1 {
      return;
    }
    var i := 1;
    while i < a.Length
      invariant 1 <= i <= a.Length
      invariant NewestFirst(a[..i])
      invariant multiset(a[..]) == multiset(old(a[..]))
      invariant SameTies(a[..], old(a[..]))
    {
      InsertAt(a, i);
      i := i + 1;
    }
    assert a[..a.Length] == a[..];
  }

  /** One pass of the insertion sort: the element at `i` moves left past every older one. */
  method InsertAt(a: array<Conversation>, i: nat)
    requires 0 < i < a.Length && NewestFirst(a[..i])
    modifies a
    ensures NewestFirst(a[..i + 1])
    ensures multiset(a[..]) == multiset(old(a[..]))
    ensures SameTies(a[..], old(a[..]))
  {
    InsertStart(a[..], i);
    var j := i;
    while j > 0 && SortKey(a[j - 1]) < SortKey(a[j])
      invariant 0 <= j <= i
      invariant SortedExcept(a[..], j, i) && NewestFrom(a[..], j, i)
      invariant multiset(a[..]) == multiset(old(a[..]))
      invariant SameTies(a[..], old(a[..]))
    {
      ghost var s := a[..];
      InsertSwap(s, j, i);
      SwapKeepsMultiset(s, j);
      SwapKeepsTies(s, j);
      a[j - 1], a[j] := a[j], a[j - 1];
      assert a[..] == s[j - 1 := s[j]][j := s[j - 1]];
      j := j - 1;
    }
    InsertStop(a[..], j, i);
  }

  /** The text the filter searches: the stored name if truthy, else the derived display name. */
  function SearchName(c: Conversation, me: UserId): (r: string)
    ensures r != ""
    ensures c.name.Some? && c.name.value != "" ==> r == c.name.value
  {
    if c.name.Some? && c.name.value != "" then c.name.value else ConversationName(c, me)
  }

  /** `name.toLowerCase().includes(searchQuery.toLowerCase())`. */
  predicate NameMatches(c: Conversation, me: UserId, query: string) {
    Contains(Lower(SearchName(c, me)), Lower(query))
  }

  function KeepMatching(cs: seq<Conversation>, me: UserId, query: string): (r: seq<Conversation>)
    ensures |r| <= |cs|
    ensures forall i :: 0 <= i < |r| ==> NameMatches(r[i], me, query)
  {
    if cs == [] then []
    else (if NameMatches(cs[0], me, query) then [cs[0]] else []) + KeepMatching(cs[1..], me, query)
  }

  /** `filteredConversations`, with the name lookup working as evidently intended. */
  function FilterConversations(cs: seq<Conversation>, me: UserId, query: string): (r: seq<Conversation>)
    ensures query == "" ==> r == cs
  {
    if query == "" then cs else KeepMatching(cs, me, query)
  }

  /** A conversation whose `name` is missing or empty, where the filter consults the derived name. */
  predicate Unnamed(c: Conversation) {
    c.name.None? || c.name.value == ""
  }

  /**
   * `filteredConversations` as written: the callback reads `getConversationName` before its
   * `const` declaration has run, so with a non-empty query the first unnamed conversation raises
   * a ReferenceError (`None`); named conversations are matched on their own name.
   */
  function FilterAsWritten(cs: seq<Conversation>, me: UserId, query: string): (r: Option<seq<Conversation>>)
    ensures query == "" ==> r == Some(cs)
    ensures query != "" ==> (r.None? <==> exists i :: 0 <= i < |cs| && Unnamed(cs[i]))
  {
    if query == "" then Some(cs)
    else if exists i :: 0 <= i < |cs| && Unnamed(cs[i]) then None
    else Some(KeepMatching(cs, me, query))
  }

  // ----- Properties -----

  /** The filter keeps exactly the conversations whose search name contains the query, ignoring ASCII case. */
  lemma {:induction false} KeepMatchingMembers(cs: seq<Conversation>, me: UserId, query: string, x: Conversation)
    ensures x in KeepMatching(cs, me, query) <==> x in cs && NameMatches(x, me, query)
  {
    if cs != [] {
      KeepMatchingMembers(cs[1..], me, query, x);
      assert x in cs <==> x == cs[0] || x in cs[1..];
    }
  }

  lemma AppendAssoc(a: seq<Conversation>, b: seq<Conversation>, c: seq<Conversation>)
    ensures a + (b + c) == (a + b) + c
  {
  }

  lemma KeepMatchingCons(x: Conversation, rest: seq<Conversation>, me: UserId, query: string)
    ensures KeepMatching([x] + rest, me, query) == (if NameMatches(x, me, query) then [x] else []) + KeepMatching(rest, me, query)
  {
    assert ([x] + rest)[0] == x && ([x] + rest)[1..] == rest;
  }

  /** Filtering keeps the input order: it distributes over concatenation. */
  lemma {:induction false} KeepMatchingAppend(xs: seq<Conversation>, ys: seq<Conversation>, me: UserId, query: string)
    ensures KeepMatching(xs + ys, me, query) == KeepMatching(xs, me, query) + KeepMatching(ys, me, query)
  {
    if xs != [] {
      var x, tail := xs[0], xs[1..];
      assert xs == [x] + tail && xs + ys == [x] + (tail + ys);
      KeepMatchingCons(x, tail + ys, me, query);
      KeepMatchingCons(x, tail, me, query);
      KeepMatchingAppend(tail, ys, me, query);
      AppendAssoc(if NameMatches(x, me, query) then [x] else [], KeepMatching(tail, me, query), KeepMatching(ys, me, query));
    } else {
      assert xs + ys == ys;
    }
  }

  /** The finding: one nameless direct conversation and any non-empty query make the as-written filter raise. */
  lemma FilterAsWrittenRaises(me: UserId)
    ensures var c := Conversation("c1", Direct, None, None, [me, "u2"], map[], map[], None, me, None, None, None);
      FilterAsWritten([c], me, "a").None? && FilterConversations([c], me, "a") == []
  {
    var c := Conversation("c1", Direct, None, None, [me, "u2"], map[], map[], None, me, None, None, None);
    assert SearchName(c, me) == "Unknown User";
    var n := Lower("Unknown User");
    assert Lower("a") == "a";
    forall i | 0 <= i <= |n| - 1 ensures !OccursAt(n, "a", i) {
      assert n[i..i + 1][0] == n[i] == LowerChar("Unknown User"[i]);
    }
    assert !NameMatches(c, me, "a");
  }

  /** Where no unnamed conversation is consulted, the as-written filter agrees with the intended one. */
  lemma FilterAsWrittenAgreesOnNamed(cs: seq<Conversation>, me: UserId, query: string)
    requires query == "" || forall i :: 0 <= i < |cs| ==> !Unnamed(cs[i])
    ensures FilterAsWritten(cs, me, query) == Some(FilterConversations(cs, me, query))
  {
  }

  /** The intended filter also finds conversations through their derived name. */
  lemma DerivedNameIsSearched(c: Conversation, me: UserId)
    requires c.kind == Group && Unnamed(c)
    ensures c in FilterConversations([c], me, "group")
  {
    assert SearchName(c, me) == "Group Chat";
    assert Lower("Group Chat") == "group chat";
    assert Lower("group") == "group";
    assert OccursAt("group chat", "group", 0);
  }
}
