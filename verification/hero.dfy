/** The hero banner (components/Hero.tsx): the typewriter that types and
    deletes each role in turn, and the location and social links read from
    the about and contact sections. */
module Hero {
  import opened Wrappers
  import opened Schema
  import Seqs

  /** The three state variables of the typewriter effect. */
  datatype TypewriterState = TypewriterState(displayText: string, isDeleting: bool, roleIndex: nat)

  /** `useState(0)`, `useState("")`, `useState(false)`. */
  const Initial := TypewriterState("", false, 0)

  /** The shown text is a prefix of the current role, which exists. */
  predicate Inv(roles: seq<string>, st: TypewriterState) {
    && st.roleIndex < |roles|
    && |st.displayText| <= |roles[st.roleIndex]|
    && st.displayText == roles[st.roleIndex][..|st.displayText|]
  }

  /** `s.substring(0, end)`: the end index is clamped to the string. */
  function Prefix(s: string, end: int): (r: string)
    ensures |r| == if end < 0 then 0 else if end > |s| then |s| else end
    ensures r == s[..|r|]
  {
    if end < 0 then "" else if end > |s| then s else s[..end]
  }

  /** One timer callback of the effect (lines 61-88). `roles[currentRoleIndex]`
      must exist; the schema's at-least-one-role rule and `Inv` ensure it. */
  function Next(roles: seq<string>, st: TypewriterState): (r: TypewriterState)
    requires st.roleIndex < |roles|
    ensures r.roleIndex < |roles|
    ensures Inv(roles, st) ==> Inv(roles, r)
  {
    var role := roles[st.roleIndex];
    if !st.isDeleting then
      if |st.displayText| < |role| then st.(displayText := Prefix(role, |st.displayText| + 1))
      else st.(isDeleting := true)
    else
      if |st.displayText| > 0 then st.(displayText := Prefix(role, |st.displayText| - 1))
      else TypewriterState(st.displayText, false, (st.roleIndex + 1) % |roles|)
  }

  /** The delay in milliseconds before that callback runs. */
  function Delay(roles: seq<string>, st: TypewriterState): (ms: nat)
    requires st.roleIndex < |roles|
    ensures ms in {80, 2000, 40, 100}
  {
    var role := roles[st.roleIndex];
    if !st.isDeleting then (if |st.displayText| < |role| then 80 else 2000)
    else (if |st.displayText| > 0 then 40 else 100)
  }

  /** The four kinds of step, each stated on its own. */
  lemma NextCases(roles: seq<string>, st: TypewriterState)
    requires Inv(roles, st)
    ensures var role := roles[st.roleIndex]; var n := |st.displayText|;
      && (!st.isDeleting && n < |role| ==> Next(roles, st) == st.(displayText := role[..n + 1]))
      && (!st.isDeleting && n == |role| ==> Next(roles, st) == st.(isDeleting := true) && st.displayText == role)
      && (st.isDeleting && n > 0 ==> Next(roles, st) == st.(displayText := st.displayText[..n - 1]))
      && (st.isDeleting && n == 0 ==> Next(roles, st) == TypewriterState("", false, (st.roleIndex + 1) % |roles|))
  {
  }

  /** `n` callbacks in a row. */
  function Run(roles: seq<string>, st: TypewriterState, n: nat): (r: TypewriterState)
    requires Inv(roles, st)
    ensures Inv(roles, r)
    decreases n
  {
    if n == 0 then st else Run(roles, Next(roles, st), n - 1)
  }

  /** The time `n` callbacks take. */
  function Elapsed(roles: seq<string>, st: TypewriterState, n: nat): nat
    requires Inv(roles, st)
    decreases n
  {
    if n == 0 then 0 else Delay(roles, st) + Elapsed(roles, Next(roles, st), n - 1)
  }

  /** Every callback waits between 40 ms and 2 s. */
  lemma {:induction false} ElapsedBounds(roles: seq<string>, st: TypewriterState, n: nat)
    requires Inv(roles, st)
    ensures 40 * n <= Elapsed(roles, st, n) <= 2000 * n
    decreases n
  {
    if n > 0 {
      ElapsedBounds(roles, Next(roles, st), n - 1);
    }
  }

  /** Running `a` then `b` steps is running `a + b` steps, and takes as long. */
  lemma RunAdd(roles: seq<string>, st: TypewriterState, a: nat, b: nat)
    requires Inv(roles, st)
    ensures Run(roles, Run(roles, st, a), b) == Run(roles, st, a + b)
    ensures Elapsed(roles, st, a) + Elapsed(roles, Run(roles, st, a), b) == Elapsed(roles, st, a + b)
  {
    RunCompose(roles, st, a, b);
    ElapsedCompose(roles, st, a, b);
  }

  lemma {:induction false} RunCompose(roles: seq<string>, st: TypewriterState, a: nat, b: nat)
    requires Inv(roles, st)
    ensures Run(roles, Run(roles, st, a), b) == Run(roles, st, a + b)
    decreases a
  {
    if a > 0 {
      var next := Next(roles, st);
      RunCompose(roles, next, a - 1, b);
      assert Run(roles, st, a) == Run(roles, next, a - 1);
      assert Run(roles, st, a + b) == Run(roles, next, a - 1 + b);
    }
  }

  lemma {:induction false} ElapsedCompose(roles: seq<string>, st: TypewriterState, a: nat, b: nat)
    requires Inv(roles, st)
    ensures Elapsed(roles, st, a) + Elapsed(roles, Run(roles, st, a), b) == Elapsed(roles, st, a + b)
    decreases a
  {
    if a > 0 {
      var next := Next(roles, st);
      ElapsedCompose(roles, next, a - 1, b);
      assert Run(roles, st, a) == Run(roles, next, a - 1);
    }
  }

  /** Typing from any prefix reaches the whole role, one 80 ms step per character. */
  lemma {:induction false} TypingPhase(roles: seq<string>, i: nat, k: nat)
    requires i < |roles| && k <= |roles[i]|
    ensures Inv(roles, TypewriterState(roles[i][..k], false, i))
    ensures Run(roles, TypewriterState(roles[i][..k], false, i), |roles[i]| - k) == TypewriterState(roles[i], false, i)
    ensures Elapsed(roles, TypewriterState(roles[i][..k], false, i), |roles[i]| - k) == 80 * (|roles[i]| - k)
    decreases |roles[i]| - k
  {
    var st := TypewriterState(roles[i][..k], false, i);
    if k < |roles[i]| {
      assert Next(roles, st) == TypewriterState(roles[i][..k + 1], false, i);
      TypingPhase(roles, i, k + 1);
    } else {
      assert roles[i][..k] == roles[i];
    }
  }

  /** Deleting from any prefix reaches the empty text, one 40 ms step per character. */
  lemma {:induction false} DeletingPhase(roles: seq<string>, i: nat, k: nat)
    requires i < |roles| && k <= |roles[i]|
    ensures Inv(roles, TypewriterState(roles[i][..k], true, i))
    ensures Run(roles, TypewriterState(roles[i][..k], true, i), k) == TypewriterState("", true, i)
    ensures Elapsed(roles, TypewriterState(roles[i][..k], true, i), k) == 40 * k
    decreases k
  {
    var st := TypewriterState(roles[i][..k], true, i);
    if k > 0 {
      assert Next(roles, st) == TypewriterState(roles[i][..k - 1], true, i);
      DeletingPhase(roles, i, k - 1);
    }
  }

  /** Typing the role, then the 2 s pause that switches to deleting. */
  lemma TypeThenPause(roles: seq<string>, i: nat)
    requires i < |roles|
    ensures Inv(roles, TypewriterState("", false, i))
    ensures Run(roles, TypewriterState("", false, i), |roles[i]| + 1) == TypewriterState(roles[i], true, i)
    ensures Elapsed(roles, TypewriterState("", false, i), |roles[i]| + 1) == 80 * |roles[i]| + 2000
  {
    var s0 := TypewriterState("", false, i);
    var s1 := TypewriterState(roles[i], false, i);
    assert roles[i][..0] == "";
    TypingPhase(roles, i, 0);
    assert Next(roles, s1) == TypewriterState(roles[i], true, i);
    assert Run(roles, s1, 1) == TypewriterState(roles[i], true, i) && Elapsed(roles, s1, 1) == 2000;
    RunAdd(roles, s0, |roles[i]|, 1);
  }

  /** Deleting the role, then the 100 ms pause that moves to the next role. */
  lemma DeleteThenPause(roles: seq<string>, i: nat)
    requires i < |roles|
    ensures Inv(roles, TypewriterState(roles[i], true, i))
    ensures Run(roles, TypewriterState(roles[i], true, i), |roles[i]| + 1) == TypewriterState("", false, (i + 1) % |roles|)
    ensures Elapsed(roles, TypewriterState(roles[i], true, i), |roles[i]| + 1) == 40 * |roles[i]| + 100
  {
    var n := |roles[i]|;
    var s2 := TypewriterState(roles[i], true, i);
    var s3 := TypewriterState("", true, i);
    assert roles[i][..n] == roles[i];
    DeletingPhase(roles, i, n);
    assert Run(roles, s3, 1) == TypewriterState("", false, (i + 1) % |roles|) && Elapsed(roles, s3, 1) == 100;
    RunAdd(roles, s2, n, 1);
  }

  /** A whole cycle: from an empty line on role `i`, after typing the role,
      pausing, deleting it and pausing again, the line is empty on the next
      role, wrapping after the last; it takes 2|role| + 2 steps and
      120 ms per character plus 2.1 s. */
  lemma FullCycle(roles: seq<string>, i: nat)
    requires i < |roles|
    ensures Inv(roles, TypewriterState("", false, i))
    ensures Run(roles, TypewriterState("", false, i), 2 * |roles[i]| + 2)
            == TypewriterState("", false, (i + 1) % |roles|)
    ensures Elapsed(roles, TypewriterState("", false, i), 2 * |roles[i]| + 2) == 120 * |roles[i]| + 2100
  {
    var n := |roles[i]|;
    TypeThenPause(roles, i);
    DeleteThenPause(roles, i);
    RunAdd(roles, TypewriterState("", false, i), n + 1, n + 1);
  }

  /** The typewriter as the component holds it: three state fields stepped by
      the effect's timer. */
  class Typewriter {
    const roles: seq<string>
    var displayText: string
    var isDeleting: bool
    var currentRoleIndex: nat

    function State(): TypewriterState
      reads this
    {
      TypewriterState(displayText, isDeleting, currentRoleIndex)
    }

    ghost predicate Valid()
      reads this
    {
      Inv(roles, State())
    }

    /** The hero section guarantees at least one role. */
    constructor(roles: seq<string>)
      requires |roles| >= 1
      ensures this.roles == roles && State() == Initial && Valid()
    {
      this.roles := roles;
      displayText := "";
      isDeleting := false;
      currentRoleIndex := 0;
    }

    /** One timer callback: type a character, start deleting, delete a
        character, or move to the next role. */
    method Tick()
      requires Valid()
      modifies this`displayText, this`isDeleting, this`currentRoleIndex
      ensures Valid()
      ensures State() == Next(roles, old(State()))
    {
      var currentRole := roles[currentRoleIndex];
      if !isDeleting {
        if |displayText| < |currentRole| {
          displayText := Prefix(currentRole, |displayText| + 1);
        } else {
          isDeleting := true;
        }
      } else {
        if |displayText| > 0 {
          displayText := Prefix(currentRole, |displayText| - 1);
        } else {
          isDeleting := false;
          currentRoleIndex := (currentRoleIndex + 1) % |roles|;
        }
      }
    }
  }

  /** The location shown when the about section has none. */
  const DefaultLocation := "Hyderabad, India"

  /** `about.details.find(d => d.label === "Location")?.value || "Hyderabad, India"`:
      the first Location detail's value, unless it is missing or empty. */
  function Location(details: seq<AboutDetail>): (r: string)
    ensures r != ""
    ensures forall i | 0 <= i < |details| && details[i].caption == "Location"
                       && (forall j | 0 <= j < i :: details[j].caption != "Location") ::
              r == if details[i].value != "" then details[i].value else DefaultLocation
    ensures (forall i | 0 <= i < |details| :: details[i].caption != "Location") ==> r == DefaultLocation
  {
    var isLocation := (d: AboutDetail) => d.caption == "Location";
    var found := Seqs.Find(details, isLocation);
    assert forall i | 0 <= i < |details| && details[i].caption == "Location"
                      && (forall j | 0 <= j < i :: details[j].caption != "Location") :: found == Some(details[i]) by {
      forall i | 0 <= i < |details| && details[i].caption == "Location"
                 && (forall j | 0 <= j < i :: details[j].caption != "Location")
        ensures found == Some(details[i])
      {
        Seqs.FindIsFirst(details, isLocation, i);
      }
    }
    if found.Some? && found.value.value != "" then found.value.value else DefaultLocation
  }

  /** `contact.items.find(i => i.iconName === name)?.href || ""`: the first
      item with that icon's link, or the empty string. */
  function SocialLink(items: seq<ContactItem>, iconName: string): (r: string)
    ensures forall i | 0 <= i < |items| && items[i].iconName == iconName
                       && (forall j | 0 <= j < i :: items[j].iconName != iconName) ::
              r == items[i].href
    ensures (forall i | 0 <= i < |items| :: items[i].iconName != iconName) ==> r == ""
  {
    var hasIcon := (c: ContactItem) => c.iconName == iconName;
    var found := Seqs.Find(items, hasIcon);
    assert forall i | 0 <= i < |items| && items[i].iconName == iconName
                      && (forall j | 0 <= j < i :: items[j].iconName != iconName) :: found == Some(items[i]) by {
      forall i | 0 <= i < |items| && items[i].iconName == iconName
                 && (forall j | 0 <= j < i :: items[j].iconName != iconName)
        ensures found == Some(items[i])
      {
        Seqs.FindIsFirst(items, hasIcon, i);
      }
    }
    if found.Some? then found.value.href else ""
  }
}
