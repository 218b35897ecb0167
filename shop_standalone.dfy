/** The standalone shop page (src/components/Pages/ShopStandalone.tsx): a
    four-item catalog with French texts, filtered by the selected category. */
module ShopStandalone {
  import opened Wrappers
  import opened Seqs
  import opened ShopCatalog

  const ShopItems: seq<ShopItem> := [
    ShopItem("1", "Jeu de Cartes Queen de Q • Édition Physique", 2999, "cards",
             "Découvrez les archétypes masculins avec notre jeu de cartes physique premium", Some("Best-seller")),
    ShopItem("2", "T-Shirt \"Je suis une Queen\"", 3499, "clothing",
             "Portez votre couronne avec fierté dans ce t-shirt 100% coton bio", Some("Édition Limitée")),
    ShopItem("3", "Kit de Protection Royale", 1999, "protection",
             "Condoms premium et accessoires pour queens qui se respectent", Some("Essentiel")),
    ShopItem("4", "Bracelet Anti-2 de Pique", 2499, "accessories",
             "Charme symbolique pour attirer les bonnes énergies masculines", Some("Fait Main"))
  ]

  /** `filteredItems` over this page's catalog: everything for `'all'`,
      exactly the one item of a category, nothing for any other value. */
  function FilteredShopItems(selectedCategory: string): (r: seq<ShopItem>)
    ensures selectedCategory == "all" ==> r == ShopItems
    ensures selectedCategory in Categories ==>
              |r| == 1 && r[0] in ShopItems && r[0].category == selectedCategory
    ensures selectedCategory !in FilterValues ==> r == []
  {
    OneItemPerCategory(ShopItems, selectedCategory);
    FilteredItems(ShopItems, selectedCategory)
  }

  /** `getCategoryLabel`: total; `'all'` and unknown values read "Tous". */
  function CategoryLabel(cat: string): (text: string)
    ensures text == "Tous" <==> cat !in Categories
  {
    match cat
    case "all" => "Tous"
    case "cards" => "Cartes"
    case "clothing" => "Vêtements"
    case "protection" => "Protection"
    case "accessories" => "Accessoires"
    case _ => "Tous"
  }
}
