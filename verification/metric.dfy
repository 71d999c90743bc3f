/** `extractMetric`: `text.match(/(\d+)%/)`, whole match or null. The same
    function appears in the experience and both projects components. */
module Metric {
  import opened Wrappers
  import opened Text

  /** Where the run of digits starting at `i` ends (greedy `\d+`). */
  function DigitRunEnd(s: string, i: nat): (e: nat)
    requires i <= |s|
    ensures i <= e <= |s|
    ensures forall k | i <= k < e :: IsDigit(s[k])
    ensures e == |s| || !IsDigit(s[e])
    decreases |s| - i
  {
    if i < |s| && IsDigit(s[i]) then DigitRunEnd(s, i + 1) else i
  }

  /** `(\d+)%` matches starting at `q`. A shorter digit run is followed by a
      digit, never by `%`, so backtracking adds no match. */
  predicate MatchesAt(s: string, q: nat)
    requires q <= |s|
  {
    q < |s| && IsDigit(s[q]) && DigitRunEnd(s, q) < |s| && s[DigitRunEnd(s, q)] == '%'
  }

  /** Trying start positions from `q` on, left to right. */
  function MatchFrom(s: string, q: nat): (r: Option<string>)
    requires q <= |s|
    decreases |s| - q
  {
    if q == |s| then None
    else if MatchesAt(s, q) then Some(s[q..DigitRunEnd(s, q) + 1])
    else MatchFrom(s, q + 1)
  }

  /** `extractMetric(text)`: a run of digits followed by `%`, or none. */
  function ExtractMetric(text: string): (r: Option<string>)
    ensures r.Some? ==> |r.value| >= 2 && r.value[|r.value| - 1] == '%'
    ensures r.Some? ==> forall k | 0 <= k < |r.value| - 1 :: IsDigit(r.value[k])
  {
    MatchFromShape(text, 0);
    MatchFrom(text, 0)
  }

  lemma {:induction false} MatchFromShape(s: string, q: nat)
    requires q <= |s|
    ensures MatchFrom(s, q).Some? ==> |MatchFrom(s, q).value| >= 2 && MatchFrom(s, q).value[|MatchFrom(s, q).value| - 1] == '%'
    ensures MatchFrom(s, q).Some? ==> forall k | 0 <= k < |MatchFrom(s, q).value| - 1 :: IsDigit(MatchFrom(s, q).value[k])
    decreases |s| - q
  {
    if q < |s| && !MatchesAt(s, q) {
      MatchFromShape(s, q + 1);
    }
  }

  // An independent description of the result, read from the left of the
  // first `%` that has a digit before it.

  /** Position `k` holds a `%` with a digit right before it. */
  predicate PercentAfterDigit(s: string, k: int) {
    0 < k < |s| && s[k] == '%' && IsDigit(s[k - 1])
  }

  /** Where the maximal run of digits that ends just before `k` begins. */
  function RunStart(s: string, k: nat): (a: nat)
    requires k <= |s|
    ensures a <= k
    ensures forall j | a <= j < k :: IsDigit(s[j])
    ensures a == 0 || !IsDigit(s[a - 1])
  {
    if k > 0 && IsDigit(s[k - 1]) then RunStart(s, k - 1) else k
  }

  /** A digit run that starts at `a` and ends at `k` is what `\d+` consumes from `a`. */
  lemma {:induction false} RunEndsAt(s: string, a: nat, k: nat)
    requires a <= k < |s| && !IsDigit(s[k])
    requires forall j | a <= j < k :: IsDigit(s[j])
    ensures DigitRunEnd(s, a) == k
    decreases k - a
  {
    if a < k {
      RunEndsAt(s, a + 1, k);
    }
  }

  /** Every match start lies on a `%` with a digit before it... */
  lemma MatchGivesPercent(s: string, q: nat)
    requires q <= |s| && MatchesAt(s, q)
    ensures PercentAfterDigit(s, DigitRunEnd(s, q)) && RunStart(s, DigitRunEnd(s, q)) <= q
  {
    var k := DigitRunEnd(s, q);
    assert IsDigit(s[k - 1]);
    RunStartBelow(s, k, q);
  }

  lemma {:induction false} RunStartBelow(s: string, k: nat, q: nat)
    requires q <= k <= |s|
    requires forall j | q <= j < k :: IsDigit(s[j])
    ensures RunStart(s, k) <= q
    decreases k
  {
    if k > q {
      RunStartBelow(s, k - 1, q);
    }
  }

  /** ...and every `%` with a digit before it is reached from the start of its run. */
  lemma PercentGivesMatch(s: string, k: nat)
    requires PercentAfterDigit(s, k)
    ensures RunStart(s, k) < k && MatchesAt(s, RunStart(s, k)) && DigitRunEnd(s, RunStart(s, k)) == k
  {
    var a := RunStart(s, k);
    RunEndsAt(s, a, k);
  }

  /** The start position the scan from `q` stops at. */
  lemma {:induction false} MatchFromWitness(s: string, q: nat) returns (p: nat)
    requires q <= |s| && MatchFrom(s, q).Some?
    ensures q <= p < |s| && MatchesAt(s, p)
    ensures MatchFrom(s, q).value == s[p..DigitRunEnd(s, p) + 1]
    ensures forall p' | q <= p' < p :: !MatchesAt(s, p')
    decreases |s| - q
  {
    if MatchesAt(s, q) {
      p := q;
    } else {
      p := MatchFromWitness(s, q + 1);
    }
  }

  lemma {:induction false} MatchFromNone(s: string, q: nat)
    requires q <= |s| && MatchFrom(s, q).None?
    ensures forall p | q <= p < |s| :: !MatchesAt(s, p)
    decreases |s| - q
  {
    if q < |s| {
      MatchFromNone(s, q + 1);
    }
  }

  /** The regular expression finds the first `%` that has a digit right
      before it, and returns the whole digit run in front of it with the `%`;
      there is no match exactly when no `%` follows a digit. */
  lemma ExtractMetricIsFirstPercentRun(text: string)
    ensures ExtractMetric(text).None? <==> forall k | 0 <= k < |text| :: !PercentAfterDigit(text, k)
    ensures ExtractMetric(text).Some? ==> exists k | 0 <= k < |text| ::
      && PercentAfterDigit(text, k)
      && (forall j | 0 <= j < k :: !PercentAfterDigit(text, j))
      && ExtractMetric(text).value == text[RunStart(text, k)..k + 1]
  {
    if ExtractMetric(text).None? {
      MatchFromNone(text, 0);
      forall k | 0 <= k < |text|
        ensures !PercentAfterDigit(text, k)
      {
        if PercentAfterDigit(text, k) {
          PercentGivesMatch(text, k);
        }
      }
    } else {
      var k := FirstPercentOfMatch(text);
    }
  }

  /** When there is a match, the `%` it ends on is the first one after a
      digit, and the match begins where that `%`'s digit run begins. */
  lemma FirstPercentOfMatch(text: string) returns (k: nat)
    requires ExtractMetric(text).Some?
    ensures PercentAfterDigit(text, k)
    ensures forall j | 0 <= j < k :: !PercentAfterDigit(text, j)
    ensures ExtractMetric(text).value == text[RunStart(text, k)..k + 1]
  {
    var p := MatchFromWitness(text, 0);
    k := DigitRunEnd(text, p);
    MatchGivesPercent(text, p);
    if RunStart(text, k) < p {
      PercentGivesMatch(text, k);
    }
    assert RunStart(text, k) == p;
    forall j | 0 <= j < k
      ensures !PercentAfterDigit(text, j)
    {
      if PercentAfterDigit(text, j) {
        if j < p {
          PercentGivesMatch(text, j);
        }
      }
    }
  }

  /** The scan from `q` skips every position before the first one that matches. */
  lemma {:induction false} MatchFromSkips(s: string, q: nat, p: nat)
    requires q <= p < |s| && MatchesAt(s, p)
    requires forall j | q <= j < p :: !MatchesAt(s, j)
    ensures MatchFrom(s, q) == Some(s[p..DigitRunEnd(s, p) + 1])
    decreases p - q
  {
    if q < p {
      MatchFromSkips(s, q + 1, p);
    }
  }

  /** Examples: the leftmost metric wins, and a `%` with no digit before it is skipped. */
  lemma ExtractMetricExamples()
    ensures ExtractMetric("cut 70% of 85% runs") == Some("70%")
    ensures ExtractMetric("% and 5%") == Some("5%")
    ensures ExtractMetric("no metric") == None
  {
    var s := "cut 70% of 85% runs";
    assert DigitRunEnd(s, 5) == 6;
    assert DigitRunEnd(s, 4) == 6;
    MatchFromSkips(s, 0, 4);
    assert s[4..7] == "70%";
    assert ExtractMetric(s) == MatchFrom(s, 0);
    var t := "% and 5%";
    assert DigitRunEnd(t, 6) == 7;
    MatchFromSkips(t, 0, 6);
    assert t[6..8] == "5%";
    assert ExtractMetric(t) == MatchFrom(t, 0);
  }
}
