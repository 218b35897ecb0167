/** The shop's item record and its category filter, which the standalone
    shop page, the dashboard shop module and the translated shop page each
    repeat: `'all'` keeps the whole catalog, any other value keeps the items
    of that category. */
module ShopCatalog {
  import opened Wrappers
  import opened Seqs

  /** A shop item. The price is kept in cents (29.99 becomes 2999); the model
      does no arithmetic on it. */
  datatype ShopItem = ShopItem(
    id: string, name: string, priceCents: nat, category: string, description: string, badge: Option<string>)

  /** The four item categories, in the order of the filter buttons. */
  const Categories: seq<string> := ["cards", "clothing", "protection", "accessories"]

  /** The five values the filter buttons set. */
  const FilterValues: seq<string> := ["all", "cards", "clothing", "protection", "accessories"]

  predicate DistinctCategories(items: seq<ShopItem>) {
    forall i, j :: 0 <= i < j < |items| ==> items[i].category != items[j].category
  }

  /** The filter callback `item => item.category === selectedCategory`. */
  function InCategory(selected: string): ShopItem -> bool {
    (item: ShopItem) => item.category == selected
  }

  /** `filteredItems`: the whole catalog for `'all'`, otherwise the items of
      the selected category. */
  function FilteredItems(items: seq<ShopItem>, selected: string): (r: seq<ShopItem>)
    ensures selected == "all" ==> r == items
    ensures selected != "all" ==> forall x :: x in r <==> x in items && x.category == selected
    ensures |r| <= |items|
  {
    if selected == "all" then items else Filter(InCategory(selected), items)
  }

  /** The filter never reorders: its result is a subsequence of the catalog. */
  lemma FilteredItemsOrder(items: seq<ShopItem>, selected: string)
    ensures IsSubsequence(FilteredItems(items, selected), items)
  {
    if selected == "all" {
      SubsequenceReflexive(items);
    } else {
      FilterIsSubsequence(InCategory(selected), items);
    }
  }

  /** In a catalog whose categories are distinct, selecting an item's
      category yields that item alone. */
  lemma FilterOneCategory(items: seq<ShopItem>, i: int)
    requires 0 <= i < |items| && DistinctCategories(items) && items[i].category != "all"
    ensures FilteredItems(items, items[i].category) == [items[i]]
  {
    var p := InCategory(items[i].category);
    forall j | 0 <= j < |items| && j != i ensures !p(items[j]) {
      if j < i {
        assert items[j].category != items[i].category;
      }
    }
    FilterSingle(p, items, i);
  }

  /** A value no item carries (other than `'all'`) yields nothing. */
  lemma FilterNoCategory(items: seq<ShopItem>, selected: string)
    requires selected != "all" && forall x :: x in items ==> x.category != selected
    ensures FilteredItems(items, selected) == []
  {
    FilterNone(InCategory(selected), items);
  }

  /** A catalog laid out one item per category, in button order: each
      category button shows exactly its item and a value outside the five
      buttons shows nothing. */
  lemma OneItemPerCategory(items: seq<ShopItem>, selected: string)
    requires |items| == |Categories|
    requires forall i :: 0 <= i < |items| ==> items[i].category == Categories[i]
    ensures selected in Categories ==> FilteredItems(items, selected) == [items[IndexOf(Categories, selected)]]
    ensures selected !in FilterValues ==> FilteredItems(items, selected) == []
  {
    if selected in Categories {
      var i := IndexOf(Categories, selected);
      assert DistinctCategories(items) by {
        forall j, k | 0 <= j < k < |items| ensures items[j].category != items[k].category {
          assert items[j].category == Categories[j] && items[k].category == Categories[k];
        }
      }
      FilterOneCategory(items, i);
    } else if selected !in FilterValues {
      forall x | x in items ensures x.category != selected {
        var k :| 0 <= k < |items| && items[k] == x;
        assert x.category == Categories[k];
      }
      FilterNoCategory(items, selected);
    }
  }
}
