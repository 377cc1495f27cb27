// The asset registry's search box and its category and condition filters.

module AssetRegistry {
  import opened Common
  import opened AssetTypes

  /** A select box: every value, or one value. */
  datatype CategoryFilter = AnyCategory | OnlyCategory(category: AssetCategory)

  datatype ConditionFilter = AnyCondition | OnlyCondition(condition: AssetCondition)

  /** The term occurs in the asset's name, tag or location. */
  predicate MatchesSearch(a: FixedAsset, term: string) {
    Includes(a.name, term) || Includes(a.assetTag, term) || Includes(a.location, term)
  }

  predicate MatchesCategory(a: FixedAsset, f: CategoryFilter) {
    f.AnyCategory? || a.category == f.category
  }

  predicate MatchesCondition(a: FixedAsset, f: ConditionFilter) {
    f.AnyCondition? || a.condition == f.condition
  }

  function Matches(term: string, cf: CategoryFilter, kf: ConditionFilter): FixedAsset -> bool {
    (a: FixedAsset) => MatchesSearch(a, term) && MatchesCategory(a, cf) && MatchesCondition(a, kf)
  }

  /**
   * The listed assets: in registry order, every one matching all three
   * inputs, and every matching asset listed.
   */
  function FilteredAssets(assets: seq<FixedAsset>, term: string, cf: CategoryFilter, kf: ConditionFilter)
    : (r: seq<FixedAsset>)
    ensures IsSubsequence(r, assets)
    ensures forall a :: a in r ==> a in assets && MatchesSearch(a, term) && MatchesCategory(a, cf) && MatchesCondition(a, kf)
    ensures forall a :: a in assets && MatchesSearch(a, term) && MatchesCategory(a, cf) && MatchesCondition(a, kf) ==> a in r
  {
    FilterIsSubsequence(Matches(term, cf, kf), assets);
    Filter(Matches(term, cf, kf), assets)
  }

  /** With an empty search and both filters on every value, all assets are listed. */
  lemma DefaultsListEverything(assets: seq<FixedAsset>)
    ensures FilteredAssets(assets, "", AnyCategory, AnyCondition) == assets
  {
    forall a | a in assets
      ensures Matches("", AnyCategory, AnyCondition)(a)
    {
      IncludesEmpty(a.name);
    }
    FilterAll(Matches("", AnyCategory, AnyCondition), assets);
  }

  /** Narrowing a filter to one value never lists more assets. */
  lemma NarrowingListsFewer(assets: seq<FixedAsset>, term: string, c: AssetCategory, kf: ConditionFilter)
    ensures |FilteredAssets(assets, term, OnlyCategory(c), kf)| <= |FilteredAssets(assets, term, AnyCategory, kf)|
  {
    FilterWeaker(Matches(term, OnlyCategory(c), kf), Matches(term, AnyCategory, kf), assets);
  }

  /** Filtering the listed assets again with the same inputs changes nothing. */
  lemma FilterIdempotent(assets: seq<FixedAsset>, term: string, cf: CategoryFilter, kf: ConditionFilter)
    ensures FilteredAssets(FilteredAssets(assets, term, cf, kf), term, cf, kf) == FilteredAssets(assets, term, cf, kf)
  {
    FilterAll(Matches(term, cf, kf), FilteredAssets(assets, term, cf, kf));
  }

  function HasCondition(c: AssetCondition): FixedAsset -> bool {
    (a: FixedAsset) => a.condition == c
  }

  /** With an empty search and every category, the condition filter alone decides. */
  lemma ConditionFilterAlone(assets: seq<FixedAsset>, c: AssetCondition)
    ensures FilteredAssets(assets, "", AnyCategory, OnlyCondition(c)) == Filter(HasCondition(c), assets)
  {
    forall a | a in assets
      ensures Matches("", AnyCategory, OnlyCondition(c))(a) <==> HasCondition(c)(a)
    {
      IncludesEmpty(a.name);
    }
    FilterExt(Matches("", AnyCategory, OnlyCondition(c)), HasCondition(c), assets);
  }
}
