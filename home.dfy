/**
 * The selections of the home page (src/app/page.tsx): featured formulas
 * (new ones first, padded with the others), formulas grouped by English
 * category, the sorted category names, the count of new formulas and the
 * most recent ones.
 */
module Home {
  import opened Records
  import opened Seqs
  import opened Sorting
  import opened Grouping

  const FEATURED_SIZE := 4
  const RECENT_SIZE := 4

  function IsNewFormula(f: Formula): bool { f.IsNew() }
  function NotNewFormula(f: Formula): bool { !f.IsNew() }

  /** What the page derives from the formula list. */
  datatype HomeView = HomeView(
    featured: seq<Formula>,
    categories: seq<string>,
    byCategory: Groups<Formula>,
    newCount: nat,
    recent: seq<Formula>)

  const EMPTY_VIEW := HomeView([], [], [], 0, [])

  /** The first four new formulas, padded with the first non-new ones up to four. */
  function Featured(formulas: seq<Formula>): seq<Formula> {
    var newOnes := Take(Filter(formulas, IsNewFormula), FEATURED_SIZE);
    if |newOnes| < FEATURED_SIZE then newOnes + Take(Filter(formulas, NotNewFormula), FEATURED_SIZE - |newOnes|)
    else newOnes
  }

  /** A list splits into the elements that pass a test and those that fail it. */
  lemma {:induction false} FilterSplit(xs: seq<Formula>)
    ensures |Filter(xs, IsNewFormula)| + |Filter(xs, NotNewFormula)| == |xs|
  {
    if |xs| > 0 {
      FilterSplit(xs[1..]);
    }
  }

  /**
   * The featured list holds four formulas (all of them when there are
   * fewer); it starts with the first new formulas in list order, up to
   * four, and the rest are the first formulas that are not new, in list order.
   */
  lemma FeaturedSpec(formulas: seq<Formula>)
    ensures var featured := Featured(formulas);
      var newOnes := Filter(formulas, IsNewFormula);
      && |featured| == (if |formulas| < FEATURED_SIZE then |formulas| else FEATURED_SIZE)
      && (forall f :: f in featured ==> f in formulas)
      && featured[..|Take(newOnes, FEATURED_SIZE)|] == Take(newOnes, FEATURED_SIZE)
      && (forall i :: |Take(newOnes, FEATURED_SIZE)| <= i < |featured| ==> !featured[i].IsNew())
      && featured[|Take(newOnes, FEATURED_SIZE)|..] ==
           Take(Filter(formulas, NotNewFormula), |featured| - |Take(newOnes, FEATURED_SIZE)|)
  {
    FilterSplit(formulas);
    var newOnes := Take(Filter(formulas, IsNewFormula), FEATURED_SIZE);
    var featured := Featured(formulas);
    if |newOnes| < FEATURED_SIZE {
      assert featured[..|newOnes|] == newOnes;
      var older := Take(Filter(formulas, NotNewFormula), FEATURED_SIZE - |newOnes|);
      assert featured[|newOnes|..] == older;
      forall i | |newOnes| <= i < |featured|
        ensures !featured[i].IsNew()
      {
        assert featured[i] == older[i - |newOnes|];
      }
    }
  }

  /** The `useMemo` of the page: nothing while loading, else every selection. */
  method Select(loading: bool, formulas: seq<Formula>) returns (v: HomeView)
    ensures loading ==> v == EMPTY_VIEW
    ensures !loading ==> v.featured == Featured(formulas)
    ensures !loading ==> v.byCategory == GroupOf(formulas, CategoryKey)
    ensures !loading ==> SortedBy(v.categories, Identity) && multiset(v.categories) == multiset(Keys(v.byCategory))
    ensures !loading ==> v.newCount == Count(formulas, IsNewFormula)
    ensures !loading ==> v.recent == Take(formulas, RECENT_SIZE)
  {
    if loading {
      return EMPTY_VIEW;
    }
    var featured := Take(Filter(formulas, IsNewFormula), FEATURED_SIZE);
    if |featured| < FEATURED_SIZE {
      featured := featured + Take(Filter(formulas, NotNewFormula), FEATURED_SIZE - |featured|);
    }
    var grouped := GroupBy(formulas, CategoryKey);
    var categoryNames := SortTexts(Keys(grouped));
    var newCount := |Filter(formulas, IsNewFormula)|;
    var recent := Take(formulas, RECENT_SIZE);
    v := HomeView(featured, categoryNames, grouped, newCount, recent);
  }

  /**
   * Every formula lands in exactly one group, under its category key, and
   * each group keeps the list order; the group sizes add up to the list length.
   */
  lemma GroupedSpec(formulas: seq<Formula>)
    ensures var g := GroupOf(formulas, CategoryKey);
      && DistinctKeys(g)
      && (forall k :: k in Keys(g) <==> exists f :: f in formulas && CategoryKey(f) == k)
      && MembersOf(g, formulas, CategoryKey)
      && Total(g) == |formulas|
  {
    GroupKeys(formulas, CategoryKey);
    GroupMembers(formulas, CategoryKey);
    GroupSizesSum(formulas, CategoryKey);
  }
}
