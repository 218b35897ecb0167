/** The translated shop page (projet/Shop.tsx): the same four items, whose
    texts are translation keys passed through the translation function, and
    whose category labels are translation keys too. */
module Shop {
  import opened Wrappers
  import opened Seqs
  import opened ShopCatalog

  const ItemIds: seq<string> := ["1", "2", "3", "4"]

  /** `getShopItems(t)`: four items with ids 1 to 4, one per category in
      button order; names, descriptions and badges are the translations of
      their keys. */
  function GetShopItems(t: string -> string): (items: seq<ShopItem>)
    ensures |items| == |Categories|
    ensures forall i :: 0 <= i < |items| ==>
              items[i].id == ItemIds[i] && items[i].category == Categories[i] && items[i].badge.Some?
  {
    [
      ShopItem("1", t("shop.items.physicalCards.name"), 2999, "cards",
               t("shop.items.physicalCards.description"), Some(t("shop.badges.bestseller"))),
      ShopItem("2", t("shop.items.queenShirt.name"), 3499, "clothing",
               t("shop.items.queenShirt.description"), Some(t("shop.badges.limitedEdition"))),
      ShopItem("3", t("shop.items.protectionKit.name"), 1999, "protection",
               t("shop.items.protectionKit.description"), Some(t("shop.badges.essential"))),
      ShopItem("4", t("shop.items.charmBracelet.name"), 2499, "accessories",
               t("shop.items.charmBracelet.description"), Some(t("shop.badges.handcrafted")))
    ]
  }

  /** `filteredItems` over `getShopItems(t)`: every item for `'all'`, the
      item whose position matches the category's button otherwise, and
      nothing for a value outside the five buttons. */
  function FilteredShopItems(t: string -> string, selectedCategory: string): (r: seq<ShopItem>)
    ensures selectedCategory == "all" ==> r == GetShopItems(t)
    ensures selectedCategory in Categories ==>
              r == [GetShopItems(t)[IndexOf(Categories, selectedCategory)]]
              && r[0].category == selectedCategory
    ensures selectedCategory !in FilterValues ==> r == []
  {
    OneItemPerCategory(GetShopItems(t), selectedCategory);
    FilteredItems(GetShopItems(t), selectedCategory)
  }

  /** The inline `getCategoryLabel`: the translation key of a category's
      label; `'all'` and unknown values use the key of "all". */
  function CategoryLabelKey(cat: string): (key: string)
    ensures key == "shop.categories.all" <==> cat !in Categories
    ensures cat in Categories ==> key == "shop.categories." + cat
  {
    match cat
    case "all" => "shop.categories.all"
    case "cards" => "shop.categories.cards"
    case "clothing" => "shop.categories.clothing"
    case "protection" => "shop.categories.protection"
    case "accessories" => "shop.categories.accessories"
    case _ => "shop.categories.all"
  }
}
