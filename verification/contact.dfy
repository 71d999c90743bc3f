/** The contact section (components/Contact.tsx): the first "Resume" item
    becomes a download button, every other item a card. */
module Contact {
  import opened Wrappers
  import opened Schema
  import Seqs
  import Config

  predicate IsResume(item: ContactItem) {
    item.caption == "Resume"
  }

  predicate IsNotResume(item: ContactItem) {
    item.caption != "Resume"
  }

  /** `resumeItem`: the first item labelled "Resume", if any. */
  function ResumeItem(items: seq<ContactItem>): (r: Option<ContactItem>)
    ensures r.None? <==> forall j | 0 <= j < |items| :: !IsResume(items[j])
    ensures r.Some? ==> exists i | 0 <= i < |items| :: items[i] == r.value && IsResume(items[i])
                         && forall j | 0 <= j < i :: !IsResume(items[j])
  {
    Seqs.Find(items, IsResume)
  }

  /** `contactItems`: the items not labelled "Resume", in their original order. */
  function ContactItems(items: seq<ContactItem>): (r: seq<ContactItem>)
    ensures forall x | x in r :: x in items && IsNotResume(x)
    ensures forall j | 0 <= j < |items| && IsNotResume(items[j]) :: items[j] in r
    ensures |r| + Seqs.Count(items, IsResume) == |items|
  {
    SplitCount(items);
    Seqs.FilterLength(items, IsNotResume);
    Seqs.Filter(items, IsNotResume)
  }

  lemma {:induction false} SplitCount(items: seq<ContactItem>)
    ensures Seqs.Count(items, IsNotResume) + Seqs.Count(items, IsResume) == |items|
    decreases |items|
  {
    if |items| > 0 {
      SplitCount(items[1..]);
    }
  }

  /** The cards keep the items' order: the cards of a list of items are the
      cards of its first part followed by those of the rest. */
  lemma ContactItemsAppend(a: seq<ContactItem>, b: seq<ContactItem>)
    ensures ContactItems(a + b) == ContactItems(a) + ContactItems(b)
  {
    Seqs.FilterAppend(a, b, IsNotResume);
  }

  /** A "Resume" item after the first is neither a card nor the button, which
      shows an earlier item. */
  lemma LaterResumeHidden(items: seq<ContactItem>, j: int, i: int)
    requires 0 <= j < i < |items| && IsResume(items[j]) && IsResume(items[i])
    ensures items[i] !in ContactItems(items)
    ensures exists k | 0 <= k <= j :: ResumeItem(items) == Some(items[k])
  {
    var r := ResumeItem(items);
    var k :| 0 <= k < |items| && items[k] == r.value && IsResume(items[k]) && forall m | 0 <= m < k :: !IsResume(items[m]);
    assert k <= j;
  }

  /** The border preset of a card: cyan-blue for "Email", blue-purple otherwise. */
  function Border(caption: string): (r: string)
    ensures r == "cyan-blue" <==> caption == "Email"
    ensures r != "cyan-blue" ==> r == "blue-purple"
  {
    if caption == "Email" then "cyan-blue" else "blue-purple"
  }

  /** `external ? "_blank" : undefined`. */
  function Target(external: Option<bool>): (r: Option<string>)
    ensures r.Some? <==> external == Some(true)
    ensures r.Some? ==> r.value == "_blank"
  {
    if external == Some(true) then Some("_blank") else None
  }

  /** A contact card. */
  datatype ContactCard = ContactCard(item: ContactItem, icon: Config.Icon, border: string, target: Option<string>)

  function Card(item: ContactItem): (r: ContactCard)
    ensures r.item == item && r.icon == Config.GetIcon(item.iconName)
    ensures r.border == Border(item.caption) && r.target == Target(item.external)
  {
    ContactCard(item, Config.GetIcon(item.iconName), Border(item.caption), Target(item.external))
  }

  /** The cards of the grid. */
  function Cards(items: seq<ContactItem>): (r: seq<ContactCard>)
    ensures |r| == |ContactItems(items)|
    ensures forall i | 0 <= i < |r| :: r[i] == Card(ContactItems(items)[i]) && !IsResume(r[i].item)
  {
    var shown := ContactItems(items);
    assert forall i | 0 <= i < |shown| :: shown[i] in shown;
    seq(|shown|, i requires 0 <= i < |shown| => Card(shown[i]))
  }

  /** The download button: the resume item's link, target, icon and text. */
  datatype ResumeButton = ResumeButton(href: string, target: Option<string>, icon: Config.Icon, text: string)

  function Resume(items: seq<ContactItem>): (r: Option<ResumeButton>)
    ensures r.Some? <==> ResumeItem(items).Some?
    ensures r.Some? ==> r.value.href == ResumeItem(items).value.href
                        && r.value.target == Target(ResumeItem(items).value.external)
                        && r.value.text == ResumeItem(items).value.value
  {
    match ResumeItem(items)
    case None => None
    case Some(item) => Some(ResumeButton(item.href, Target(item.external), Config.GetIcon(item.iconName), item.value))
  }

  /** Every item is shown once, as a card or as the button, except the
      "Resume" items after the first, which are not shown at all. */
  lemma ShownCount(items: seq<ContactItem>)
    ensures |Cards(items)| + (if Resume(items).Some? then 1 else 0) <= |items|
    ensures Seqs.Count(items, IsResume) <= 1 ==>
              |Cards(items)| + (if Resume(items).Some? then 1 else 0) == |items|
  {
    Seqs.CountZero(items, IsResume);
    if Resume(items).Some? {
      var r := ResumeItem(items).value;
      var i :| 0 <= i < |items| && items[i] == r && IsResume(items[i]);
    }
  }
}
