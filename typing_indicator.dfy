/** The "… is typing" line under the message list (src/components/common/TypingIndicator.js). */
module TypingIndicator {
  import opened Wrappers
  import opened Strings
  import opened Documents

  /** A display name interpolated into a template string: a null name prints as "null". */
  function Shown(name: Option<string>): string {
    name.GetOr("null")
  }

  /** `getTypingText()`, or `None` where the component renders nothing. */
  function TypingText(users: seq<TypingEntry>): (r: Option<string>)
    ensures r.None? <==> |users| == 0
    ensures |users| == 1 ==> r == Some(Shown(users[0].displayName) + " is typing")
    ensures |users| == 2 ==> r == Some(Shown(users[0].displayName) + " and " + Shown(users[1].displayName) + " are typing")
    ensures |users| >= 3 ==> r == Some(NatToString(|users|) + " people are typing")
  {
    if |users| == 0 then None
    else if |users| == 1 then Some(Shown(users[0].displayName) + " is typing")
    else if |users| == 2 then Some(Shown(users[0].displayName) + " and " + Shown(users[1].displayName) + " are typing")
    else Some(NatToString(|users|) + " people are typing")
  }

  // ----- Properties -----

  /** With three or more typists only their number matters, not who they are. */
  lemma CrowdTextDependsOnCount(a: seq<TypingEntry>, b: seq<TypingEntry>)
    requires |a| >= 3 && |a| == |b|
    ensures TypingText(a) == TypingText(b)
  {
  }

  /** Two typists are named in list order: the text opens with the first name and ends with the second. */
  lemma PairTextKeepsOrder(x: TypingEntry, y: TypingEntry)
    ensures var t := TypingText([x, y]).value;
      var sx, sy := Shown(x.displayName), Shown(y.displayName);
      |t| == |sx| + |sy| + 16 && t[..|sx|] == sx && t[|sx|..|sx| + 5] == " and " && t[|t| - |sy| - 11..] == sy + " are typing"
  {
    var sx, sy := Shown(x.displayName), Shown(y.displayName);
    var t := sx + " and " + sy + " are typing";
    assert TypingText([x, y]).value == t;
    assert t == sx + (" and " + (sy + " are typing"));
    assert t[|t| - |sy| - 11..] == sy + " are typing";
  }
}
