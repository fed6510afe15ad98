/** Finding the links in a message and turning the first few into previews (src/utils/linkPreview.js). */
module LinkPreview {
  import opened Wrappers
  import opened Strings

  /** The number of leading characters of `s` that are not whitespace: how far `[^\s]+` runs. */
  function NonSpaceRun(s: string): (n: nat)
    ensures n <= |s|
  {
    if s == [] || IsSpace(s[0]) then 0 else 1 + NonSpaceRun(s[1..])
  }

  /** The run covers only non-whitespace and stops at whitespace or the end. */
  lemma {:induction false} NonSpaceRunStops(s: string)
    ensures forall j :: 0 <= j < NonSpaceRun(s) ==> !IsSpace(s[j])
    ensures NonSpaceRun(s) == |s| || IsSpace(s[NonSpaceRun(s)])
  {
    if s != [] && !IsSpace(s[0]) {
      NonSpaceRunStops(s[1..]);
      assert forall j :: 1 <= j < |s| ==> s[j] == s[1..][j - 1];
    }
  }

  /** The length of the match of `https?:\/\/[^\s]+` at the start of `s`, or 0 when there is none. */
  function MatchLen(s: string): (n: nat)
    ensures n <= |s|
  {
    var p := if StartsWith(s, "https://") then 8 else if StartsWith(s, "http://") then 7 else 0;
    if p == 0 then 0
    else
      var r := NonSpaceRun(s[p..]);
      if r == 0 then 0 else p + r
  }

  /** The (start, length) of each match found by the global scan from `i` on: a match is taken whole and the scan resumes behind it. */
  function Spans(t: string, i: nat): seq<(nat, nat)>
    requires i <= |t|
    decreases |t| - i
  {
    if i == |t| then []
    else
      var n := MatchLen(t[i..]);
      if n > 0 then [(i, n)] + Spans(t, i + n) else Spans(t, i + 1)
  }

  function Texts(t: string, spans: seq<(nat, nat)>): (r: seq<string>)
    requires forall k :: 0 <= k < |spans| ==> spans[k].0 + spans[k].1 <= |t|
    ensures |r| == |spans| && forall k :: 0 <= k < |spans| ==> r[k] == t[spans[k].0..spans[k].0 + spans[k].1]
  {
    if spans == [] then [] else [t[spans[0].0..spans[0].0 + spans[0].1]] + Texts(t, spans[1..])
  }

  /** A span as the scan leaves it: inside the text, non-empty, and exactly the match at its start. */
  predicate GoodSpan(t: string, sp: (nat, nat)) {
    sp.1 > 0 && sp.0 + sp.1 <= |t| && MatchLen(t[sp.0..]) == sp.1
  }

  /** The spans are good, start at or after `i`, and follow each other without overlap. */
  predicate Ordered(t: string, i: nat, spans: seq<(nat, nat)>) {
    StartFrom(i, spans) && AllGood(t, spans) && Disjoint(spans)
  }

  predicate StartFrom(i: nat, spans: seq<(nat, nat)>) {
    forall k :: 0 <= k < |spans| ==> i <= spans[k].0
  }

  predicate AllGood(t: string, spans: seq<(nat, nat)>) {
    forall k :: 0 <= k < |spans| ==> GoodSpan(t, spans[k])
  }

  predicate Disjoint(spans: seq<(nat, nat)>) {
    forall j, k :: 0 <= j < k < |spans| ==> spans[j].0 + spans[j].1 <= spans[k].0
  }

  /** `extractUrls(text)`: nothing for a missing or empty text, otherwise every match in order. */
  function ExtractUrls(text: Option<string>): (r: seq<string>)
    ensures text.None? || text == Some("") ==> r == []
  {
    if text.None? || text.value == "" then []
    else
      var t := text.value;
      SpansOrdered(t, 0);
      Texts(t, Spans(t, 0))
  }

  /** A URL as extracted: the scheme, at least one more character, and no whitespace. */
  predicate IsUrl(u: string) {
    ((StartsWith(u, "https://") && |u| > 8) || (StartsWith(u, "http://") && |u| > 7))
    && forall j :: 0 <= j < |u| ==> !IsSpace(u[j])
  }

  /** The preview record `fetchLinkPreview` resolves to. */
  datatype Preview = Preview(url: string, title: string, description: string, image: Option<string>, favicon: string)

  /** The values of the present entries, in order: `filter(preview => preview !== null)`. */
  function Present<T>(s: seq<Option<T>>): (r: seq<T>)
    ensures |r| <= |s|
    ensures forall x :: x in r ==> Some(x) in s
    ensures forall k :: 0 <= k < |s| && s[k].Some? ==> s[k].value in r
    ensures (forall k :: 0 <= k < |s| ==> s[k].Some?) ==> |r| == |s| && forall k :: 0 <= k < |s| ==> r[k] == s[k].value
  {
    if s == [] then [] else (if s[0].Some? then [s[0].value] else []) + Present(s[1..])
  }

  function FetchAll(urls: seq<string>, fetch: string -> Option<Preview>): (r: seq<Option<Preview>>)
    ensures |r| == |urls| && forall k :: 0 <= k < |urls| ==> r[k] == fetch(urls[k])
  {
    if urls == [] then [] else [fetch(urls[0])] + FetchAll(urls[1..], fetch)
  }

  /** `generateLinkPreviews(text)`, with `fetch` standing for `fetchLinkPreview` (null on failure). */
  function GenerateLinkPreviews(text: Option<string>, fetch: string -> Option<Preview>): (r: seq<Preview>)
    ensures |r| <= 3 && |r| <= |ExtractUrls(text)|
    ensures var urls := ExtractUrls(text);
      forall k :: 0 <= k < |urls| && k < 3 && fetch(urls[k]).Some? ==> fetch(urls[k]).value in r
    ensures var urls := ExtractUrls(text);
      (forall k :: 0 <= k < |urls| && k < 3 ==> fetch(urls[k]).Some?)
        ==> |r| == (if |urls| < 3 then |urls| else 3) && forall k :: 0 <= k < |r| ==> r[k] == fetch(urls[k]).value
  {
    var urls := ExtractUrls(text);
    var m := if |urls| < 3 then |urls| else 3;
    if |urls| == 0 then []
    else
      var f := FetchAll(urls[..m], fetch);
      assert forall k :: 0 <= k < m ==> f[k] == fetch(urls[k]);
      Present(f)
  }

  // ----- Properties -----

  /** The scan's spans are good and in order. */
  lemma {:induction false} SpansOrdered(t: string, i: nat)
    requires i <= |t|
    ensures Ordered(t, i, Spans(t, i))
    decreases |t| - i
  {
    if i < |t| {
      var n := MatchLen(t[i..]);
      if n > 0 {
        SpansOrdered(t, i + n);
        MatchStep(t, i, n);
      } else {
        SpansOrdered(t, i + 1);
        SkipStep(t, i);
      }
    }
  }

  /** A match at `i` puts its span in front of the ordered spans that follow it. */
  lemma MatchStep(t: string, i: nat, n: nat)
    requires i < |t| && n == MatchLen(t[i..]) && n > 0 && Ordered(t, i + n, Spans(t, i + n))
    ensures Ordered(t, i, Spans(t, i))
  {
    var rest := Spans(t, i + n);
    FirstSpanIsGood(t, i);
    ConsOrdered(t, i, (i, n), rest);
    assert Spans(t, i) == [(i, n)] + rest by {
      SpansUnfold(t, i);
    }
  }

  /** No match at `i`: the scan moves on by one character. */
  lemma SkipStep(t: string, i: nat)
    requires i < |t| && MatchLen(t[i..]) == 0 && Ordered(t, i + 1, Spans(t, i + 1))
    ensures Ordered(t, i, Spans(t, i))
  {
    LaterOrdered(t, i, Spans(t, i + 1));
    SpansUnfold(t, i);
  }

  lemma SpansUnfold(t: string, i: nat)
    requires i < |t|
    ensures var n := MatchLen(t[i..]);
      Spans(t, i) == if n > 0 then [(i, n)] + Spans(t, i + n) else Spans(t, i + 1)
  {
  }

  lemma LaterOrdered(t: string, i: nat, spans: seq<(nat, nat)>)
    requires Ordered(t, i + 1, spans)
    ensures Ordered(t, i, spans)
  {
  }

  lemma FirstSpanIsGood(t: string, i: nat)
    requires i < |t| && MatchLen(t[i..]) > 0
    ensures GoodSpan(t, (i, MatchLen(t[i..])))
  {
  }

  /** A match runs up to whitespace or the end of the text. */
  lemma SpanIsMaximal(t: string, sp: (nat, nat))
    requires GoodSpan(t, sp)
    ensures sp.0 + sp.1 == |t| || IsSpace(t[sp.0 + sp.1])
  {
    MatchIsMaximal(t[sp.0..]);
    if sp.0 + sp.1 < |t| {
      assert t[sp.0..][sp.1] == t[sp.0 + sp.1];
    }
  }

  lemma ConsOrdered(t: string, i: nat, sp: (nat, nat), rest: seq<(nat, nat)>)
    requires i <= sp.0 && GoodSpan(t, sp) && Ordered(t, sp.0 + sp.1, rest)
    ensures Ordered(t, i, [sp] + rest)
  {
    ConsStartFrom(i, sp, rest);
    ConsAllGood(t, sp, rest);
    ConsDisjoint(sp, rest);
  }

  lemma ConsStartFrom(i: nat, sp: (nat, nat), rest: seq<(nat, nat)>)
    requires i <= sp.0 && StartFrom(sp.0 + sp.1, rest)
    ensures StartFrom(i, [sp] + rest)
  {
    var r := [sp] + rest;
    assert forall k :: 1 <= k < |r| ==> r[k] == rest[k - 1];
  }

  lemma ConsAllGood(t: string, sp: (nat, nat), rest: seq<(nat, nat)>)
    requires GoodSpan(t, sp) && AllGood(t, rest)
    ensures AllGood(t, [sp] + rest)
  {
    var r := [sp] + rest;
    forall k | 0 <= k < |r|
      ensures GoodSpan(t, r[k])
    {
      if k > 0 {
        assert r[k] == rest[k - 1];
      }
    }
  }

  lemma ConsDisjoint(sp: (nat, nat), rest: seq<(nat, nat)>)
    requires StartFrom(sp.0 + sp.1, rest) && Disjoint(rest)
    ensures Disjoint([sp] + rest)
  {
    var r := [sp] + rest;
    assert forall k :: 1 <= k < |r| ==> r[k] == rest[k - 1];
  }

  lemma MatchIsMaximal(s: string)
    requires MatchLen(s) > 0
    ensures MatchLen(s) == |s| || IsSpace(s[MatchLen(s)])
  {
    var p := if StartsWith(s, "https://") then 8 else 7;
    var r := NonSpaceRun(s[p..]);
    NonSpaceRunStops(s[p..]);
    if p + r < |s| {
      assert s[p..][r] == s[p + r];
    }
  }

  /** What the scan finds at a position is a URL. */
  lemma MatchIsUrl(s: string)
    requires MatchLen(s) > 0
    ensures IsUrl(s[..MatchLen(s)])
  {
    var p := if StartsWith(s, "https://") then 8 else 7;
    var n := MatchLen(s);
    var u := s[..n];
    NonSpaceRunStops(s[p..]);
    assert u[..p] == s[..p];
    forall j | 0 <= j < |u|
      ensures !IsSpace(u[j])
    {
      if j >= p {
        assert u[j] == s[p..][j - p];
      } else {
        assert u[j] == s[..p][j];
      }
    }
  }

  /** A good span's text is a URL. */
  lemma SpanIsUrl(t: string, sp: (nat, nat))
    requires GoodSpan(t, sp)
    ensures IsUrl(t[sp.0..sp.0 + sp.1])
  {
    MatchIsUrl(t[sp.0..]);
    assert t[sp.0..][..sp.1] == t[sp.0..sp.0 + sp.1];
  }

  /** The texts of good spans are URLs. */
  lemma {:induction false} TextsAreUrls(t: string, spans: seq<(nat, nat)>)
    requires AllGood(t, spans) && forall k :: 0 <= k < |spans| ==> spans[k].0 + spans[k].1 <= |t|
    ensures forall u :: u in Texts(t, spans) ==> IsUrl(u)
  {
    if spans != [] {
      SpanIsUrl(t, spans[0]);
      TextsAreUrls(t, spans[1..]);
      assert Texts(t, spans) == [t[spans[0].0..spans[0].0 + spans[0].1]] + Texts(t, spans[1..]);
    }
  }

  /** Every extracted URL begins with `http://` or `https://`, goes on for at least one character, and holds no whitespace. */
  lemma ExtractedAreUrls(text: Option<string>)
    ensures forall u :: u in ExtractUrls(text) ==> IsUrl(u)
  {
    if text.Some? && text.value != "" {
      SpansOrdered(text.value, 0);
      TextsAreUrls(text.value, Spans(text.value, 0));
    }
  }

  /** The extracted URLs are the texts of the spans, which lie in order without overlap. */
  lemma ExtractedAreSpanTexts(t: string)
    requires t != ""
    ensures forall k :: 0 <= k < |Spans(t, 0)| ==> Spans(t, 0)[k].0 + Spans(t, 0)[k].1 <= |t|
    ensures ExtractUrls(Some(t)) == Texts(t, Spans(t, 0))
    ensures forall j, k :: 0 <= j < k < |Spans(t, 0)| ==> Spans(t, 0)[j].0 + Spans(t, 0)[j].1 <= Spans(t, 0)[k].0
  {
    SpansOrdered(t, 0);
  }

  /** Every span, and so every extracted URL, runs up to whitespace or the end of the text. */
  lemma SpansAreMaximal(t: string)
    ensures forall k :: 0 <= k < |Spans(t, 0)| ==> Spans(t, 0)[k].0 + Spans(t, 0)[k].1 <= |t|
    ensures forall k :: 0 <= k < |Spans(t, 0)| ==>
              Spans(t, 0)[k].0 + Spans(t, 0)[k].1 == |t| || IsSpace(t[Spans(t, 0)[k].0 + Spans(t, 0)[k].1])
  {
    var sp := Spans(t, 0);
    SpansOrdered(t, 0);
    forall k | 0 <= k < |sp|
      ensures sp[k].0 + sp[k].1 == |t| || IsSpace(t[sp[k].0 + sp[k].1])
    {
      SpanIsMaximal(t, sp[k]);
    }
  }

  /** `p` lies inside none of the spans. */
  predicate Uncovered(spans: seq<(nat, nat)>, p: nat) {
    forall k :: 0 <= k < |spans| ==> !(spans[k].0 <= p < spans[k].0 + spans[k].1)
  }

  /** No match is missed: at a position outside every span, the pattern does not match. */
  lemma {:induction false} NoMatchOutsideSpans(t: string, i: nat, p: nat)
    requires i <= p < |t| && Uncovered(Spans(t, i), p)
    ensures MatchLen(t[p..]) == 0
    decreases |t| - i
  {
    var n := MatchLen(t[i..]);
    var sp := Spans(t, i);
    if n > 0 {
      assert sp == [(i, n)] + Spans(t, i + n);
      assert sp[0] == (i, n);
      UncoveredTail((i, n), Spans(t, i + n), p);
      NoMatchOutsideSpans(t, i + n, p);
    } else if p > i {
      assert sp == Spans(t, i + 1);
      NoMatchOutsideSpans(t, i + 1, p);
    }
  }

  lemma UncoveredTail(sp: (nat, nat), rest: seq<(nat, nat)>, p: nat)
    requires Uncovered([sp] + rest, p)
    ensures Uncovered(rest, p) && !(sp.0 <= p < sp.0 + sp.1)
  {
    assert ([sp] + rest)[0] == sp;
    forall k | 0 <= k < |rest|
      ensures !(rest[k].0 <= p < rest[k].0 + rest[k].1)
    {
      assert ([sp] + rest)[k + 1] == rest[k];
    }
  }

  /** At most the first three URLs are fetched; failed fetches are dropped and the rest keep their order. */
  lemma PreviewsAreCapped(text: Option<string>, fetch: string -> Option<Preview>)
    ensures var urls := ExtractUrls(text);
      |GenerateLinkPreviews(text, fetch)| <= (if |urls| < 3 then |urls| else 3)
      && forall x :: x in GenerateLinkPreviews(text, fetch) ==>
           exists k :: 0 <= k < |urls| && k < 3 && fetch(urls[k]) == Some(x)
  {
    var urls := ExtractUrls(text);
    if |urls| > 0 {
      var m := if |urls| < 3 then |urls| else 3;
      var f := FetchAll(urls[..m], fetch);
      forall x | x in Present(f)
        ensures exists k :: 0 <= k < |urls| && k < 3 && fetch(urls[k]) == Some(x)
      {
        assert Some(x) in f;
        var k :| 0 <= k < |f| && f[k] == Some(x);
        assert urls[..m][k] == urls[k];
      }
    }
  }

  /** The order of previews follows the order of the links. */
  lemma {:induction false} PresentOfAppend<T>(a: seq<Option<T>>, b: seq<Option<T>>)
    ensures Present(a + b) == Present(a) + Present(b)
  {
    if a != [] {
      var h := if a[0].Some? then [a[0].value] else [];
      assert (a + b)[0] == a[0] && (a + b)[1..] == a[1..] + b;
      PresentOfAppend(a[1..], b);
      calc {
        Present(a + b);
        h + Present(a[1..] + b);
        h + (Present(a[1..]) + Present(b));
        (h + Present(a[1..])) + Present(b);
        Present(a) + Present(b);
      }
    } else {
      assert a + b == b;
    }
  }
}
