/**
 * Marking the occurrences of a search query in a message (src/components/messages/HighlightedText.js).
 * The query is taken literally; `split` with a capturing group yields the text between matches at even
 * indices and the matched text itself at odd indices.
 */
module HighlightedText {
  import opened Strings

  /** A case-insensitive occurrence of `q` starting at `i` in `s`. */
  predicate MatchAt(s: string, q: string, i: int) {
    0 <= i && i + |q| <= |s| && Lower(s[i..i + |q|]) == Lower(q)
  }

  predicate NoMatch(s: string, q: string) {
    forall i :: 0 <= i < |s| ==> !MatchAt(s, q, i)
  }

  /** `text.split(new RegExp('(' + q + ')', 'gi'))` for a literal, non-empty `q`: leftmost matches, never overlapping. */
  function SplitMatches(t: string, q: string): (r: seq<string>)
    requires q != ""
    ensures |r| % 2 == 1
    decreases |t|
  {
    if |t| < |q| then [t]
    else if Lower(t[..|q|]) == Lower(q) then ["", t[..|q|]] + SplitMatches(t[|q|..], q)
    else
      var rest := SplitMatches(t[1..], q);
      [[t[0]] + rest[0]] + rest[1..]
  }

  function Concat(parts: seq<string>): string {
    if parts == [] then "" else parts[0] + Concat(parts[1..])
  }

  /** A part as rendered: `<mark>` for a match, `<span>` otherwise. */
  datatype Segment = Plain(text: string) | Marked(text: string)

  function SegmentText(s: Segment): string {
    match s
    case Plain(t) => t
    case Marked(t) => t
  }

  /** The component: the whole text unmarked when query or text is empty; otherwise each part, marked when it equals the query ignoring case. */
  function Highlight(text: string, q: string): (r: seq<Segment>)
    ensures q == "" || text == "" ==> r == [Plain(text)]
    ensures q != "" && text != "" ==> |r| == |SplitMatches(text, q)|
    ensures q != "" && text != "" ==>
              forall i :: 0 <= i < |r| ==>
                SegmentText(r[i]) == SplitMatches(text, q)[i] && (r[i].Marked? <==> Lower(SplitMatches(text, q)[i]) == Lower(q))
  {
    if q == "" || text == "" then [Plain(text)]
    else
      var parts := SplitMatches(text, q);
      seq(|parts|, i requires 0 <= i < |parts| => if Lower(parts[i]) == Lower(q) then Marked(parts[i]) else Plain(parts[i]))
  }

  function Texts(r: seq<Segment>): string {
    if r == [] then "" else SegmentText(r[0]) + Texts(r[1..])
  }

  // ----- Properties -----

  /** The parts put back together are the text. */
  lemma {:induction false} SplitRestores(t: string, q: string)
    requires q != ""
    ensures Concat(SplitMatches(t, q)) == t
    decreases |t|
  {
    if |t| < |q| {
      assert Concat([t]) == t + Concat([]);
    } else if Lower(t[..|q|]) == Lower(q) {
      var rest := SplitMatches(t[|q|..], q);
      SplitRestores(t[|q|..], q);
      calc {
        Concat(["", t[..|q|]] + rest);
        "" + Concat([t[..|q|]] + rest);
        { assert ([t[..|q|]] + rest)[1..] == rest; }
        t[..|q|] + Concat(rest);
        t[..|q|] + t[|q|..];
      }
      assert t[..|q|] + t[|q|..] == t;
    } else {
      var rest := SplitMatches(t[1..], q);
      SplitRestores(t[1..], q);
      assert rest == [rest[0]] + rest[1..];
      assert Concat(rest) == rest[0] + Concat(rest[1..]);
      assert Concat([[t[0]] + rest[0]] + rest[1..]) == ([t[0]] + rest[0]) + Concat(rest[1..]);
      assert [t[0]] + t[1..] == t;
    }
  }

  /** A part without a match, behind a first character where none starts, still has none. */
  lemma ExtendNoMatch(t: string, q: string, p0: string)
    requires q != "" && |t| >= |q| && Lower(t[..|q|]) != Lower(q)
    requires NoMatch(p0, q) && |p0| < |t| && p0 == t[1..][..|p0|]
    ensures NoMatch([t[0]] + p0, q)
  {
    var p := [t[0]] + p0;
    assert p == t[..|p|];
    forall i | 0 <= i < |p|
      ensures !MatchAt(p, q, i)
    {
      if i == 0 {
        if |q| <= |p| {
          assert p[..|q|] == t[..|q|];
        }
      } else if MatchAt(p, q, i) {
        assert p[i..i + |q|] == p0[i - 1..i - 1 + |q|];
        assert MatchAt(p0, q, i - 1);
      }
    }
  }

  lemma ConcatFirst(parts: seq<string>)
    requires parts != []
    ensures |parts[0]| <= |Concat(parts)| && parts[0] == Concat(parts)[..|parts[0]|]
  {
  }

  /** Every odd part is a case-insensitive occurrence of the query. */
  lemma {:induction false} OddPartsMatch(t: string, q: string)
    requires q != ""
    ensures forall i :: 0 <= i < |SplitMatches(t, q)| && i % 2 == 1 ==> Lower(SplitMatches(t, q)[i]) == Lower(q)
    decreases |t|
  {
    var r := SplitMatches(t, q);
    if |t| < |q| {
    } else if Lower(t[..|q|]) == Lower(q) {
      var rest := SplitMatches(t[|q|..], q);
      OddPartsMatch(t[|q|..], q);
      forall i | 0 <= i < |r| && i % 2 == 1
        ensures Lower(r[i]) == Lower(q)
      {
        if i >= 2 {
          assert r[i] == rest[i - 2];
        }
      }
    } else {
      var rest := SplitMatches(t[1..], q);
      OddPartsMatch(t[1..], q);
      forall i | 0 <= i < |r| && i % 2 == 1
        ensures Lower(r[i]) == Lower(q)
      {
        assert r[i] == rest[i];
      }
    }
  }

  /** No even part holds an occurrence of the query: matches are taken leftmost. */
  lemma {:induction false} EvenPartsDoNotMatch(t: string, q: string)
    requires q != ""
    ensures forall i :: 0 <= i < |SplitMatches(t, q)| && i % 2 == 0 ==> NoMatch(SplitMatches(t, q)[i], q)
    decreases |t|
  {
    var r := SplitMatches(t, q);
    if |t| < |q| {
      assert r == [t];
    } else if Lower(t[..|q|]) == Lower(q) {
      var rest := SplitMatches(t[|q|..], q);
      EvenPartsDoNotMatch(t[|q|..], q);
      forall i | 0 <= i < |r| && i % 2 == 0
        ensures NoMatch(r[i], q)
      {
        if i >= 2 {
          assert r[i] == rest[i - 2];
        }
      }
    } else {
      var rest := SplitMatches(t[1..], q);
      EvenPartsDoNotMatch(t[1..], q);
      SplitRestores(t[1..], q);
      ConcatFirst(rest);
      ExtendNoMatch(t, q, rest[0]);
      forall i | 0 <= i < |r| && i % 2 == 0
        ensures NoMatch(r[i], q)
      {
        if i > 0 {
          assert r[i] == rest[i];
        }
      }
    }
  }

  /** A part is marked exactly when it has an odd index: matches and the text between them alternate, beginning and ending with the latter. */
  lemma MarkedIffOdd(text: string, q: string)
    requires q != "" && text != ""
    ensures forall i :: 0 <= i < |Highlight(text, q)| ==> (Highlight(text, q)[i].Marked? <==> i % 2 == 1)
  {
    var parts := SplitMatches(text, q);
    EvenPartsDoNotMatch(text, q);
    OddPartsMatch(text, q);
    forall i | 0 <= i < |parts| && i % 2 == 0
      ensures Lower(parts[i]) != Lower(q)
    {
      if Lower(parts[i]) == Lower(q) {
        assert |parts[i]| == |q|;
        assert parts[i][0..|q|] == parts[i];
        assert MatchAt(parts[i], q, 0);
      }
    }
  }

  /** The rendered segments show the message text in full, in order. */
  lemma HighlightShowsText(text: string, q: string)
    ensures Texts(Highlight(text, q)) == text
  {
    if q == "" || text == "" {
      assert Texts([Plain(text)]) == text + Texts([]);
    } else {
      SplitRestores(text, q);
      TextsOfParts(Highlight(text, q), SplitMatches(text, q));
    }
  }

  lemma {:induction false} TextsOfParts(r: seq<Segment>, parts: seq<string>)
    requires |r| == |parts| && forall i :: 0 <= i < |r| ==> SegmentText(r[i]) == parts[i]
    ensures Texts(r) == Concat(parts)
  {
    if r != [] {
      TextsOfParts(r[1..], parts[1..]);
    }
  }
}
