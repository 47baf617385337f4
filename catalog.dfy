/** The fixed catalog of categories that data can be collected for, each
    with the description shown on the index page. */
module Catalog {
  import opened Wrappers

  const SupportedCategories: map<string, string> := map[
    "social networking" := "Social media platforms and their metrics",
    "real estate" := "Property prices and market trends",
    "financial" := "Stock market and financial data",
    "software/it" := "Technology sector metrics",
    "e-commerce" := "Online retail statistics",
    "tourism" := "Travel and hospitality data",
    "market analysis" := "Industry market trends",
    "health" := "Healthcare statistics",
    "service provider" := "Service industry metrics",
    "population" := "Demographic data",
    "pollution" := "Environmental data"
  ]

  /** Membership of the requested category in the catalog, where a form without the field
      gives no category at all. */
  predicate IsSupported(category: Option<string>)
  {
    category.Some? && category.value in SupportedCategories
  }

  /** Exactly the eleven catalog names are accepted, compared as written
      (no case folding or trimming), and a missing field never is. */
  lemma SupportedExactly(category: Option<string>)
    ensures IsSupported(category) <==> category.Some? && category.value in {
      "social networking", "real estate", "financial", "software/it",
      "e-commerce", "tourism", "market analysis", "health",
      "service provider", "population", "pollution" }
    ensures !IsSupported(Some("Pollution")) && !IsSupported(Some(" health"))
  {
  }
}
