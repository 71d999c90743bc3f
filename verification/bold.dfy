/** `renderBold`: the achievement text is cut with
    `text.split` on the global pattern `\*\*(.*?)\*\*` and the parts are rendered alternately as
    plain spans and bold runs. */
module Bold {
  import opened Wrappers
  import opened Text

  /** `**` stands at position `k` of `s`. */
  predicate StarsAt(s: string, k: int) {
    0 <= k && k + 1 < |s| && s[k] == '*' && s[k + 1] == '*'
  }

  /** Position `j` of `s` can be passed over by the lazy capture: no `**`
      starts there and it is no line terminator. */
  predicate Unmarked(s: string, j: int)
    requires 0 <= j < |s|
  {
    !StarsAt(s, j) && !IsLineTerminator(s[j])
  }

  /** The lazy `(.*?)\*\*` tried from position `k`: the first `**` reached
      without crossing a line terminator (which `.` does not match). */
  function CloseFrom(s: string, k: nat): (r: Option<nat>)
    requires k <= |s|
    ensures r.Some? ==> k <= r.value && StarsAt(s, r.value)
    decreases |s| - k
  {
    if StarsAt(s, k) then Some(k)
    else if k < |s| && !IsLineTerminator(s[k]) then CloseFrom(s, k + 1)
    else None
  }

  /** The closing `**` found is the first one from `k`, and no line
      terminator lies before it. */
  lemma {:induction false} CloseFromIsFirst(s: string, k: nat)
    requires k <= |s|
    ensures CloseFrom(s, k).Some? ==> forall j | k <= j < CloseFrom(s, k).value :: Unmarked(s, j)
    decreases |s| - k
  {
    if !StarsAt(s, k) && k < |s| && !IsLineTerminator(s[k]) {
      CloseFromIsFirst(s, k + 1);
    }
  }

  /** The whole pattern tried at position `q`; on success, where the capture ends. */
  function MatchAt(s: string, q: nat): (r: Option<nat>)
    requires q <= |s|
    ensures r.Some? ==> StarsAt(s, q) && q + 2 <= r.value && StarsAt(s, r.value)
  {
    if StarsAt(s, q) then CloseFrom(s, q + 2) else None
  }

  /** The loop of `String.prototype.split` with a regular expression
      (section 22.2.6.14 of ECMA-262): `p` is where the last match ended, `q`
      the position being tried. Each match contributes the text before it and
      its capture. */
  function SplitFrom(s: string, p: nat, q: nat): seq<string>
    requires p <= q <= |s|
    decreases |s| - q
  {
    if q == |s| then [s[p..]]
    else match MatchAt(s, q)
      case None => SplitFrom(s, p, q + 1)
      case Some(e) => [s[p..q], s[q + 2..e]] + SplitFrom(s, e + 2, e + 2)
  }

  /** `text.split` on the global pattern `\*\*(.*?)\*\*`. */
  function Split(text: string): seq<string> {
    SplitFrom(text, 0, 0)
  }

  /** The inverse of `Split`: plain parts as they are, every odd part wrapped in `**`. */
  function Join(parts: seq<string>): string
    decreases |parts|
  {
    if |parts| == 0 then ""
    else if |parts| == 1 then parts[0]
    else parts[0] + "**" + parts[1] + "**" + Join(parts[2..])
  }

  /** What a bold capture can hold: no line terminator, and every `*` is
      followed by a character other than `*` inside the capture (so no `**`
      and no trailing `*`), because the capture is the shortest one. */
  predicate BoldText(t: string) {
    forall j | 0 <= j < |t| :: !IsLineTerminator(t[j]) && (t[j] == '*' ==> j + 1 < |t| && t[j + 1] != '*')
  }

  lemma {:induction false} SplitFromOdd(s: string, p: nat, q: nat)
    requires p <= q <= |s|
    ensures |SplitFrom(s, p, q)| % 2 == 1
    decreases |s| - q
  {
    if q < |s| {
      match MatchAt(s, q)
      case None => SplitFromOdd(s, p, q + 1);
      case Some(e) => SplitFromOdd(s, e + 2, e + 2);
    }
  }

  /** A capture ending at a match's closing `**` is bold text. */
  lemma CaptureIsBoldText(s: string, q: nat, e: nat)
    requires q <= |s| && MatchAt(s, q) == Some(e)
    ensures BoldText(s[q + 2..e])
  {
    CloseFromIsFirst(s, q + 2);
    forall j | q + 2 <= j < e
      ensures !IsLineTerminator(s[j]) && (s[j] == '*' ==> j + 1 < e && s[j + 1] != '*')
    {
      assert Unmarked(s, j);
    }
    var t := s[q + 2..e];
    assert forall j | 0 <= j < |t| :: t[j] == s[q + 2 + j];
  }

  lemma {:induction false} SplitFromBold(s: string, p: nat, q: nat)
    requires p <= q <= |s|
    ensures forall i | 0 <= i < |SplitFrom(s, p, q)| && i % 2 == 1 :: BoldText(SplitFrom(s, p, q)[i])
    decreases |s| - q
  {
    if q < |s| {
      match MatchAt(s, q)
      case None => SplitFromBold(s, p, q + 1);
      case Some(e) =>
        var rest := SplitFrom(s, e + 2, e + 2);
        var parts := [s[p..q], s[q + 2..e]] + rest;
        assert SplitFrom(s, p, q) == parts;
        SplitFromBold(s, e + 2, e + 2);
        CaptureIsBoldText(s, q, e);
        forall i | 0 <= i < |parts| && i % 2 == 1
          ensures BoldText(parts[i])
        {
          if i >= 2 {
            assert parts[i] == rest[i - 2];
          }
        }
    }
  }

  /** A string with `**` at `q` and at `e` is the text before `q`, the text
      between the two markers and the text after `e`, glued with `**`. */
  lemma GlueSlices(s: string, p: nat, q: nat, e: nat)
    requires p <= q && q + 2 <= e && StarsAt(s, q) && StarsAt(s, e)
    ensures s[p..] == s[p..q] + "**" + s[q + 2..e] + "**" + s[e + 2..]
  {
    assert s[q..q + 2] == "**" && s[e..e + 2] == "**";
    assert s[p..] == s[p..q] + s[q..q + 2] + s[q + 2..e] + s[e..e + 2] + s[e + 2..];
  }

  /** `Join` takes a plain part and a bold part off the front. */
  lemma JoinCons(plain: string, bold: string, rest: seq<string>)
    ensures Join([plain, bold] + rest) == plain + "**" + bold + "**" + Join(rest)
  {
    assert ([plain, bold] + rest)[2..] == rest;
  }

  /** One match: if the parts after it join back to the rest of the string,
      the parts from `p` join back to the string from `p`. */
  lemma JoinMatch(s: string, p: nat, q: nat, e: nat)
    requires p <= q < |s| && MatchAt(s, q) == Some(e)
    requires Join(SplitFrom(s, e + 2, e + 2)) == s[e + 2..]
    ensures Join(SplitFrom(s, p, q)) == s[p..]
  {
    var rest := SplitFrom(s, e + 2, e + 2);
    assert SplitFrom(s, p, q) == [s[p..q], s[q + 2..e]] + rest;
    JoinCons(s[p..q], s[q + 2..e], rest);
    GlueSlices(s, p, q, e);
  }

  lemma {:induction false} SplitFromJoin(s: string, p: nat, q: nat)
    requires p <= q <= |s|
    ensures Join(SplitFrom(s, p, q)) == s[p..]
    decreases |s| - q
  {
    if q < |s| {
      match MatchAt(s, q)
      case None => SplitFromJoin(s, p, q + 1);
      case Some(e) =>
        SplitFromJoin(s, e + 2, e + 2);
        JoinMatch(s, p, q, e);
    }
  }

  /** `split` yields an odd number of parts, its odd parts are bold text, and
      joining the parts back gives the text. */
  lemma SplitProperties(text: string)
    ensures |Split(text)| % 2 == 1
    ensures forall i | 0 <= i < |Split(text)| && i % 2 == 1 :: BoldText(Split(text)[i])
    ensures Join(Split(text)) == text
  {
    SplitFromOdd(text, 0, 0);
    SplitFromBold(text, 0, 0);
    SplitFromJoin(text, 0, 0);
    assert text[0..] == text;
  }

  /** Positions where the pattern does not match are skipped. */
  lemma {:induction false} SplitFromSkip(s: string, p: nat, q: nat, q': nat)
    requires p <= q <= q' <= |s|
    requires forall j | q <= j < q' :: MatchAt(s, j).None?
    ensures SplitFrom(s, p, q) == SplitFrom(s, p, q')
    decreases q' - q
  {
    if q < q' {
      SplitFromSkip(s, p, q + 1, q');
    }
  }

  /** Where the pattern matches nowhere from `p` on, the rest of the text
      is one plain part. */
  lemma SplitFromNoMatch(s: string, p: nat)
    requires p <= |s|
    requires forall q | p <= q <= |s| :: MatchAt(s, q).None?
    ensures SplitFrom(s, p, p) == [s[p..]]
  {
    SplitFromSkip(s, p, p, |s|);
  }

  /** At the leftmost match `q` from `p` on, the parts are the text from `p`
      to the match, the capture, and the split resumed after the closing `**`. */
  lemma SplitFromFirstMatch(s: string, p: nat, q: nat, e: nat)
    requires p <= q <= |s| && MatchAt(s, q) == Some(e)
    requires forall j | p <= j < q :: MatchAt(s, j).None?
    ensures SplitFrom(s, p, p) == [s[p..q], s[q + 2..e]] + SplitFrom(s, e + 2, e + 2)
  {
    SplitFromSkip(s, p, p, q);
  }

  /** One bold run between two plain ones, and a text without a closing
      marker, which stays plain. */
  lemma SplitExamples()
    ensures Split("a **b** c") == ["a ", "b", " c"]
    ensures Split("**x") == ["**x"]
  {
    var s := "a **b** c";
    assert MatchAt(s, 0).None? && MatchAt(s, 1).None?;
    assert CloseFrom(s, 5) == Some(5);
    assert CloseFrom(s, 4) == Some(5);
    SplitFromFirstMatch(s, 0, 2, 5);
    forall q | 7 <= q <= |s|
      ensures MatchAt(s, q).None?
    {
      assert !StarsAt(s, q);
    }
    SplitFromNoMatch(s, 7);
    assert s[0..2] == "a " && s[4..5] == "b" && s[7..] == " c";
    var u := "**x";
    assert CloseFrom(u, 2).None? by {
      assert CloseFrom(u, 3).None?;
    }
    forall q | 0 <= q <= |u|
      ensures MatchAt(u, q).None?
    {
      if q > 0 {
        assert !StarsAt(u, q);
      }
    }
    SplitFromNoMatch(u, 0);
    assert u[0..] == u;
  }

  /** A rendered part: `<strong>` for bold, `<span>` for plain. */
  datatype Fragment = Strong(content: string) | Span(content: string)

  /** Odd-indexed parts in bold, even-indexed parts plain. */
  function RenderParts(parts: seq<string>): seq<Fragment> {
    seq(|parts|, i requires 0 <= i < |parts| => if i % 2 == 1 then Strong(parts[i]) else Span(parts[i]))
  }

  /** `renderBold(text)`: the text's parts, alternately plain and bold,
      beginning and ending with a plain one. */
  function RenderBold(text: string): (r: seq<Fragment>)
    ensures |r| % 2 == 1 && |r| == |Split(text)|
    ensures forall i | 0 <= i < |r| :: r[i].Strong? <==> i % 2 == 1
    ensures forall i | 0 <= i < |r| :: r[i].content == Split(text)[i]
  {
    SplitProperties(text);
    RenderParts(Split(text))
  }

  /** A bold run between two plain ones becomes a `<strong>` between two `<span>`s. */
  lemma RenderBoldExample()
    ensures RenderBold("a **b** c") == [Span("a "), Strong("b"), Span(" c")]
  {
    SplitExamples();
  }

  /** The markup a fragment list stands for. */
  function Markup(frags: seq<Fragment>): string
    decreases |frags|
  {
    if |frags| == 0 then ""
    else
      (match frags[0]
       case Strong(c) => "**" + c + "**"
       case Span(c) => c)
      + Markup(frags[1..])
  }

  lemma {:induction false} MarkupOfParts(parts: seq<string>)
    requires |parts| % 2 == 1
    ensures Markup(RenderParts(parts)) == Join(parts)
    decreases |parts|
  {
    if |parts| == 1 {
      assert RenderParts(parts)[1..] == [];
    } else {
      var frags := RenderParts(parts);
      var rest := RenderParts(parts[2..]);
      assert frags[1..][1..] == rest;
      MarkupOfParts(parts[2..]);
      calc {
        Markup(frags);
        parts[0] + Markup(frags[1..]);
        parts[0] + ("**" + parts[1] + "**" + Markup(frags[1..][1..]));
        parts[0] + "**" + parts[1] + "**" + Join(parts[2..]);
      }
    }
  }

  /** Round trip: writing each bold fragment back as `**…**` reproduces the
      text, and every bold fragment is bold text. */
  lemma RenderBoldRoundTrip(text: string)
    ensures Markup(RenderBold(text)) == text
    ensures forall i | 0 <= i < |RenderBold(text)| && RenderBold(text)[i].Strong? :: BoldText(RenderBold(text)[i].content)
  {
    SplitProperties(text);
    MarkupOfParts(Split(text));
  }
}
