/** The experience timeline (components/Experience.tsx): which job cards are
    expanded, how many achievements a card lists, the show-more button, and
    each card's side and accent colour. Achievement text goes through
    `Bold.RenderBold` and `Metric.ExtractMetric`. */
module Experience {
  import opened Palette

  /** The set after toggling `index`: it leaves if it was there, joins if it was not. */
  function Toggle(s: set<int>, index: int): (r: set<int>)
    ensures index in r <==> index !in s
    ensures forall j | j != index :: j in r <==> j in s
  {
    if index in s then s - {index} else s + {index}
  }

  /** Toggling the same card twice restores the set. */
  lemma ToggleTwice(s: set<int>, index: int)
    ensures Toggle(Toggle(s, index), index) == s
  {
  }

  /** Toggles of different cards commute. */
  lemma ToggleCommutes(s: set<int>, i: int, j: int)
    ensures Toggle(Toggle(s, i), j) == Toggle(Toggle(s, j), i)
  {
  }

  /** The number of achievements a collapsed card lists. */
  const CollapsedLimit := 6

  /** `hasMany`: the card has more achievements than a collapsed card lists. */
  predicate HasMany(achievements: seq<string>) {
    |achievements| > CollapsedLimit
  }

  /** `visibleAchievements`: all of them when expanded, else the first six
      (`slice(0, 6)` keeps all of a shorter list). */
  function VisibleAchievements(achievements: seq<string>, expanded: bool): (r: seq<string>)
    ensures expanded ==> r == achievements
    ensures !expanded ==> |r| == if HasMany(achievements) then CollapsedLimit else |achievements|
    ensures r == achievements[..|r|]
  {
    if expanded || !HasMany(achievements) then achievements else achievements[..CollapsedLimit]
  }

  /** A card without many achievements lists them all, expanded or not. */
  lemma FewAreAllVisible(achievements: seq<string>, expanded: bool)
    requires !HasMany(achievements)
    ensures VisibleAchievements(achievements, expanded) == achievements
  {
  }

  /** The show-more/show-less button. */
  datatype ToggleButton = Hidden | ShowLess | ShowMore(count: nat)

  /** No button for six achievements or fewer; "Show Less" on an expanded
      card; otherwise "Show {n} More". */
  function Button(achievements: seq<string>, expanded: bool): (r: ToggleButton)
    ensures r.Hidden? <==> !HasMany(achievements)
    ensures r.ShowLess? <==> HasMany(achievements) && expanded
    ensures r.ShowMore? ==> r.count >= 1
  {
    if !HasMany(achievements) then Hidden
    else if expanded then ShowLess
    else ShowMore(|achievements| - CollapsedLimit)
  }

  /** "Show {n} More" counts exactly the achievements the collapsed card hides. */
  lemma ShowMoreCountsHidden(achievements: seq<string>)
    requires Button(achievements, false).ShowMore?
    ensures |VisibleAchievements(achievements, false)| + Button(achievements, false).count == |achievements|
  {
  }

  /** `isLeft`: even-numbered cards sit on the left of the timeline. */
  predicate IsLeft(index: nat) {
    index % 2 == 0
  }

  /** The glow colour of card `index`: blue, purple, cyan, green, repeating. */
  function CardColor(index: nat): (r: Color)
    ensures index % 4 == 0 <==> r == Blue
    ensures index % 4 == 1 <==> r == Purple
    ensures index % 4 == 2 <==> r == Cyan
    ensures index % 4 == 3 <==> r == Green
  {
    if index % 4 == 0 then Blue
    else if index % 4 == 1 then Purple
    else if index % 4 == 2 then Cyan
    else Green
  }

  /** Card positions modulo 4 advance by one from each card to the next. */
  lemma Successor4(n: nat)
    ensures (n + 1) % 4 == if n % 4 == 3 then 0 else n % 4 + 1
    ensures (n + 4) % 4 == n % 4
  {
    var q, m := n / 4, n % 4;
    assert n == 4 * q + m;
    assert n + 4 == 4 * (q + 1) + m;
    if m == 3 {
      assert n + 1 == 4 * (q + 1);
    } else {
      assert n + 1 == 4 * q + (m + 1);
    }
  }

  /** Card sides alternate. */
  lemma Successor2(n: nat)
    ensures (n + 1) % 2 != n % 2
  {
    var q, m := n / 2, n % 2;
    assert n == 2 * q + m;
    if m == 1 {
      assert n + 1 == 2 * (q + 1);
    } else {
      assert n + 1 == 2 * q + 1;
    }
  }

  /** Consecutive cards alternate sides and never share a colour; the
      pattern repeats every four cards. */
  lemma NeighbourCards(index: nat)
    ensures IsLeft(index) != IsLeft(index + 1)
    ensures CardColor(index) != CardColor(index + 1)
    ensures CardColor(index + 4) == CardColor(index)
  {
    Successor4(index);
    Successor2(index);
  }

  /** The timeline's expansion state. */
  class ExperienceView {
    var expandedJobs: set<int>

    /** `useState(new Set([0]))`: only the first job starts expanded. */
    constructor()
      ensures expandedJobs == {0}
      ensures IsExpanded(0) && forall j | j != 0 :: !IsExpanded(j)
    {
      expandedJobs := {0};
    }

    predicate IsExpanded(index: int)
      reads this
    {
      index in expandedJobs
    }

    /** `toggleJob(index)`: copy the set, add or delete `index`, store the copy. */
    method ToggleJob(index: int)
      modifies this`expandedJobs
      ensures expandedJobs == Toggle(old(expandedJobs), index)
      ensures IsExpanded(index) <==> !old(IsExpanded(index))
    {
      var newExpanded := expandedJobs;
      if index in newExpanded {
        newExpanded := newExpanded - {index};
      } else {
        newExpanded := newExpanded + {index};
      }
      expandedJobs := newExpanded;
    }

    /** The achievements card `index` lists right now. */
    function Visible(index: int, achievements: seq<string>): (r: seq<string>)
      reads this
      ensures IsExpanded(index) ==> r == achievements
      ensures !IsExpanded(index) ==> |r| <= CollapsedLimit && |r| <= |achievements| && r == achievements[..|r|]
    {
      VisibleAchievements(achievements, IsExpanded(index))
    }
  }
}
