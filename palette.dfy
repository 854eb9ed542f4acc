/**
 * The category-to-gradient table that the project cards, the blog cards and
 * the article header each declare (with the same entries) and read with a
 * fallback: `categoryColors[category] || default`.
 */
module Palette {
  /** The categories that have a gradient of their own. */
  const CategoryColors: map<string, string> := map[
    "Web Development" := "from-blue-500/20 to-blue-600/20",
    "Data Analysis" := "from-green-500/20 to-emerald-600/20",
    "Data Engineering" := "from-purple-500/20 to-violet-600/20",
    "Database" := "from-orange-500/20 to-amber-600/20"
  ]

  /** The gradient of every other category. */
  const DefaultGradient := "from-primary/20 to-purple-500/20"

  /**
   * The gradient shown for `category`. The fallback is taken exactly for the
   * categories without an entry, since no entry is empty (falsy) or equal to the
   * default, and the four known categories get four different gradients.
   */
  function Gradient(category: string): (g: string)
    ensures g == DefaultGradient <==> category !in CategoryColors
    ensures category in CategoryColors ==> g == CategoryColors[category]
    ensures forall c :: c in CategoryColors && c != category ==> CategoryColors[c] != g
  {
    if category in CategoryColors && CategoryColors[category] != "" then CategoryColors[category]
    else DefaultGradient
  }
}
