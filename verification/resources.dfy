/** The resource library (src/pages/Resources.tsx): articles and
    downloadable PDFs, each filtered by the selected category tab and by a
    case-insensitive search on the title. */
module Resources {
  import opened Text

  /** A library entry. Both kinds share the fields the filter reads; the
      article images are not modelled. */
  datatype Item =
    | Article(id: nat, title: string, category: string, description: string, readTime: string)
    | Pdf(id: nat, title: string, category: string, description: string, filename: string)

  /** The tab that shows every category. */
  const AllCategories: string := "All"

  const Categories: seq<string> := ["All", "Pregnancy", "Postpartum", "Baby Care", "Mental Health"]

  const Articles: seq<Item> := [
    Article(1, "5 Tips for Better Sleep", "Postpartum", "Expert advice on getting more rest as a new parent.", "5 min"),
    Article(2, "Postpartum Nutrition Guide", "Postpartum", "Foods to eat for recovery and breastfeeding success.", "8 min"),
    Article(3, "Baby Bath Basics", "Baby Care", "Step-by-step guide to safely bathing your newborn.", "6 min"),
    Article(4, "Understanding Your Baby's Cry", "Baby Care", "Learn to decode what different cries mean.", "7 min"),
    Article(5, "Signs of Postpartum Depression", "Mental Health", "When to seek help for postpartum mood disorders.", "4 min"),
    Article(6, "First Trimester Survival Guide", "Pregnancy", "Navigate the challenges of early pregnancy.", "10 min")
  ]

  const Pdfs: seq<Item> := [
    Pdf(1, "Feeding Schedule Template", "Baby Care", "Printable template to track your baby's feedings.", "feeding-schedule.pdf"),
    Pdf(2, "Postpartum Recovery Checklist", "Postpartum", "Items and resources for your recovery.", "recovery-checklist.pdf"),
    Pdf(3, "Baby Developmental Milestones", "Baby Care", "Month-by-month guide to baby's development.", "milestones-guide.pdf")
  ]

  /** The filter predicate shared by articles and PDFs. */
  predicate Keep(item: Item, category: string, term: string) {
    (category == AllCategories || item.category == category) && Contains(Lower(item.title), Lower(term))
  }

  /** The items of `items` the filter keeps, in their original order. */
  function Filter(items: seq<Item>, category: string, term: string): (r: seq<Item>)
    ensures IsSubsequence(r, items)
    ensures forall x :: x in r <==> x in items && Keep(x, category, term)
    ensures forall k :: 0 <= k < |r| ==> Keep(r[k], category, term)
    ensures forall x :: multiset(r)[x] == if Keep(x, category, term) then multiset(items)[x] else 0
    decreases |items|
  {
    if items == [] then []
    else
      var rest := Filter(items[1..], category, term);
      assert forall x :: x in items <==> x == items[0] || x in items[1..];
      assert multiset(items) == multiset([items[0]]) + multiset(items[1..]) by {
        assert items == [items[0]] + items[1..];
      }
      if Keep(items[0], category, term) then [items[0]] + rest else rest
  }

  /** The "No articles found" / "No downloads found" message. */
  predicate ShowsEmptyState(items: seq<Item>, category: string, term: string) {
    |Filter(items, category, term)| == 0
  }

  /** The empty-state message appears exactly when no item passes the filter. */
  lemma EmptyStateIffNoneKept(items: seq<Item>, category: string, term: string)
    ensures ShowsEmptyState(items, category, term) <==> forall k :: 0 <= k < |items| ==> !Keep(items[k], category, term)
  {
    var r := Filter(items, category, term);
    if |r| > 0 {
      assert r[0] in r;
    } else {
      forall k | 0 <= k < |items| ensures !Keep(items[k], category, term) {
        assert items[k] in items;
      }
    }
  }

  /** With the "All" tab and an empty search every item is shown, in order. */
  lemma {:induction false} EverythingByDefault(items: seq<Item>)
    ensures Filter(items, AllCategories, "") == items
    decreases |items|
  {
    if items != [] {
      assert Contains(Lower(items[0].title), Lower("")) by {
        assert OccursAt(Lower(items[0].title), "", 0);
        ContainsAt(Lower(items[0].title), "", 0);
      }
      EverythingByDefault(items[1..]);
    }
  }

  /** Refining the search never shows more: when the longer term contains
      the shorter one, every item found for the longer term is also found
      for the shorter one. */
  lemma NarrowingSearch(items: seq<Item>, category: string, short: string, long: string)
    requires Contains(long, short)
    ensures forall x :: x in Filter(items, category, long) ==> x in Filter(items, category, short)
  {
    LowerPreservesContains(long, short);
    forall x | x in Filter(items, category, long) ensures x in Filter(items, category, short) {
      ContainsTransitive(Lower(x.title), Lower(long), Lower(short));
    }
  }

  /** Only the title is searched: two items that differ in anything but
      title and category are kept or dropped together. */
  lemma OnlyTitleSearched(a: Item, b: Item, category: string, term: string)
    requires a.title == b.title && a.category == b.category
    ensures Keep(a, category, term) == Keep(b, category, term)
  {
  }

  /** The search ignores the case of both the title and the term. */
  lemma SearchIgnoresCase(items: seq<Item>, category: string, term: string)
    ensures Filter(items, category, Lower(term)) == Filter(items, category, term)
  {
    LowerIdempotent(term);
  }

  /** A category tab other than "All" shows only items of that category. */
  lemma TabShowsOnlyItsCategory(items: seq<Item>, category: string, term: string)
    requires category != AllCategories
    ensures forall x :: x in Filter(items, category, term) ==> x.category == category
  {
  }

  /** The "Baby Care" tab with no search shows the first and third PDFs. */
  lemma BabyCareDownloads()
    ensures Filter(Pdfs, "Baby Care", "") == [Pdfs[0], Pdfs[2]]
  {
    assert Lower("") == "";
    forall k | 0 <= k < |Pdfs| ensures Contains(Lower(Pdfs[k].title), "") {
      ContainsAt(Lower(Pdfs[k].title), "", 0);
    }
    assert Keep(Pdfs[0], "Baby Care", "") && !Keep(Pdfs[1], "Baby Care", "") && Keep(Pdfs[2], "Baby Care", "");
    assert Filter(Pdfs[2..], "Baby Care", "") == [Pdfs[2]];
    assert Filter(Pdfs[1..], "Baby Care", "") == [Pdfs[2]];
  }
}
