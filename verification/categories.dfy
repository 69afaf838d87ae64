/**
 * The ecopoint categories (`src/lib/constants/categories.ts`): the slug
 * table with each category's name, icon and colour, the lookup with its
 * default, and the primary category of a list.
 */
module Categories {
  import opened Common

  datatype CategoryInfo = CategoryInfo(name: string, icon: string, color: string)

  /** The icon and colour of anything that is not a known category. */
  const DefaultIcon := "\U{1F4CD}"
  const DefaultColor := "#666666"

  /** `CATEGORY_MAP` as its entries, in declaration order (the order of
      `Object.keys`). */
  const CategoryEntries: seq<(string, CategoryInfo)> := [
    ("alimentacao-regenerativa", CategoryInfo("Alimentação regenerativa", "\U{1F955}", "#FF6B35")),
    ("consumo-consciente", CategoryInfo("Consumo consciente", "\U{1F6CD}\U{FE0F}", "#F7931E")),
    ("economia-circular", CategoryInfo("Economia circular", "\U{1F504}", "#00A651")),
    ("natureza-biodiversidade", CategoryInfo("Natureza e biodiversidade", "\U{1F333}", "#39B54A")),
    ("agroecologia-urbana", CategoryInfo("Agroecologia urbana", "\U{1F331}", "#8CC63F")),
    ("comunidades-coletivos", CategoryInfo("Comunidades e coletivos", "\U{1F91D}", "#00AEEF")),
    ("oficinas-aprendizado", CategoryInfo("Oficinas e aprendizado", "\U{1F6E0}\U{FE0F}", "#662D91")),
    ("ongs-organizacoes", CategoryInfo("ONGs e organizações", "\U{1F3E2}", "#93278F"))
  ]

  /** `Object.keys(CATEGORY_MAP)`. */
  function CategorySlugs(): (slugs: seq<string>)
    ensures |slugs| == |CategoryEntries|
    ensures forall i :: 0 <= i < |slugs| ==> slugs[i] == CategoryEntries[i].0
  {
    seq(|CategoryEntries|, i requires 0 <= i < |CategoryEntries| => CategoryEntries[i].0)
  }

  /** `CATEGORY_MAP[slug]`, `None` for a slug it does not hold. */
  function Lookup(entries: seq<(string, CategoryInfo)>, slug: string): (r: Option<CategoryInfo>)
    ensures r.Some? <==> exists i :: 0 <= i < |entries| && entries[i].0 == slug
    ensures r.Some? ==> exists i :: 0 <= i < |entries| && entries[i] == (slug, r.value)
  {
    if entries == [] then None
    else if entries[0].0 == slug then Some(entries[0].1)
    else
      var r := Lookup(entries[1..], slug);
      assert forall i :: 1 <= i < |entries| ==> entries[i] == entries[1..][i - 1];
      r
  }

  /** The table holds exactly eight slugs, all different. */
  lemma EightDistinctSlugs()
    ensures |CategorySlugs()| == 8
    ensures forall i, j :: 0 <= i < j < |CategorySlugs()| ==> CategorySlugs()[i] != CategorySlugs()[j]
  {
  }

  /** `getCategoryInfo`: the table's entry, or the slug itself as the name
      with the pin icon and grey. */
  function GetCategoryInfo(slug: string): (info: CategoryInfo)
    ensures slug !in CategorySlugs() ==> info == CategoryInfo(slug, DefaultIcon, DefaultColor)
    ensures slug in CategorySlugs() ==> exists i :: 0 <= i < |CategoryEntries| && CategoryEntries[i] == (slug, info)
  {
    match Lookup(CategoryEntries, slug)
    case Some(info) => info
    case None => CategoryInfo(slug, DefaultIcon, DefaultColor)
  }

  /** A known slug shows its own name, never the default pin. */
  lemma KnownSlugsHaveOwnIcon(slug: string)
    requires slug in CategorySlugs()
    ensures GetCategoryInfo(slug).icon != DefaultIcon
    ensures GetCategoryInfo(slug).name != slug
  {
  }

  /** `getPrimaryCategory`: "Sem categoria" for no categories, otherwise
      the first category's information. */
  function GetPrimaryCategory(categories: seq<string>): (info: CategoryInfo)
    ensures categories == [] ==> info == CategoryInfo("Sem categoria", DefaultIcon, DefaultColor)
    ensures categories != [] ==> info == GetCategoryInfo(categories[0])
  {
    if categories == [] then CategoryInfo("Sem categoria", DefaultIcon, DefaultColor)
    else GetCategoryInfo(categories[0])
  }

  /** Only the first category decides the primary one. */
  lemma PrimaryDependsOnFirst(a: seq<string>, b: seq<string>)
    requires a != [] && b != [] && a[0] == b[0]
    ensures GetPrimaryCategory(a) == GetPrimaryCategory(b)
  {
  }
}
