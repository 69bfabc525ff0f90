/** The badge colour of a news card: a fixed table from the six known
    category slugs to their colour classes, with "bg-primary" for every
    other slug and for a post without a category. */
module NewsCard {
  import opened Common

  const Prefix: string := "bg-category-"

  /** `colors`: each value is the prefix followed by its key, as in the
      table's "bg-category-politica" and so on. */
  const Colors: map<string, string> := map[
    "politica" := Prefix + "politica",
    "economia" := Prefix + "economia",
    "esportes" := Prefix + "esportes",
    "tecnologia" := Prefix + "tecnologia",
    "saude" := Prefix + "saude",
    "mundo" := Prefix + "mundo"
  ]

  const Fallback: string := "bg-primary"

  /** The seven classes a badge can have. */
  const ColorClasses: seq<string> := [
    Prefix + "politica", Prefix + "economia", Prefix + "esportes",
    Prefix + "tecnologia", Prefix + "saude", Prefix + "mundo", Fallback
  ]

  /** `colors[categorySlug] || "bg-primary"`; an undefined slug is None. */
  function GetCategoryColor(slug: Option<string>): (c: string)
    ensures slug.Some? && slug.value in Colors ==> c == Colors[slug.value]
    ensures slug.None? || slug.value !in Colors ==> c == Fallback
    ensures c in ColorClasses
  {
    if slug.Some? && slug.value in Colors then Colors[slug.value] else Fallback
  }

  /** Each known slug s gets the class Prefix + s. */
  lemma KnownSlugColors(s: string)
    requires s in Colors
    ensures GetCategoryColor(Some(s)) == Prefix + s
  {
  }

  /** The known slugs are exactly the six categories of the portal. */
  lemma KnownSlugs()
    ensures Colors.Keys == {"politica", "economia", "esportes", "tecnologia", "saude", "mundo"}
  {
  }
}
