/** The gallery's derived state: the list shown after search and type
    filtering, and the types offered in the type filter. */
module ViewItems {
  import opened Sequences
  import opened Strings
  import opened Db

  /** The filter value that turns type filtering off. */
  const AllTypes := "all"

  /** The search predicate: the lower-cased term occurs in the lower-cased
      name or, when there is one, in the lower-cased description. */
  predicate MatchesSearch(item: Item, term: string)
  {
    Contains(Lower(item.name), Lower(term)) ||
    (item.description.Some? && Contains(Lower(item.description.value), Lower(term)))
  }

  function SearchFilter(term: string): Item -> bool
  {
    (item: Item) => MatchesSearch(item, term)
  }

  function TypeFilter(filterType: string): Item -> bool
  {
    (item: Item) => item.itemType == filterType
  }

  /** The effect that recomputes `filteredItems`: search filtering when the
      term is non-empty, then type filtering unless the filter is "all". */
  function FilteredItems(items: seq<Item>, searchTerm: string, filterType: string): seq<Item>
  {
    var afterSearch := if searchTerm != "" then Filter(items, SearchFilter(searchTerm)) else items;
    if filterType != AllTypes then Filter(afterSearch, TypeFilter(filterType)) else afterSearch
  }

  /** An item passes the filters that are switched on. */
  predicate Selected(item: Item, searchTerm: string, filterType: string)
  {
    (searchTerm == "" || MatchesSearch(item, searchTerm)) &&
    (filterType == AllTypes || item.itemType == filterType)
  }

  function SelectedFilter(searchTerm: string, filterType: string): Item -> bool
  {
    (item: Item) => Selected(item, searchTerm, filterType)
  }

  /** The two successive filters are one filter by `Selected`. */
  lemma FilteredItemsIsOneFilter(items: seq<Item>, searchTerm: string, filterType: string)
    ensures FilteredItems(items, searchTerm, filterType) == Filter(items, SelectedFilter(searchTerm, filterType))
  {
    var sel := SelectedFilter(searchTerm, filterType);
    if searchTerm != "" && filterType != AllTypes {
      FilterFusion(items, SearchFilter(searchTerm), TypeFilter(filterType), sel);
    } else if searchTerm != "" {
      FilterAgrees(items, SearchFilter(searchTerm), sel);
    } else if filterType != AllTypes {
      FilterAgrees(items, TypeFilter(filterType), sel);
    } else {
      FilterAll(items, sel);
    }
  }

  /** No item is added, duplicated or reordered: the result is a
      subsequence of `items`. */
  lemma FilteredItemsIsSubsequence(items: seq<Item>, searchTerm: string, filterType: string)
    ensures IsSubsequence(FilteredItems(items, searchTerm, filterType), items)
  {
    FilteredItemsIsOneFilter(items, searchTerm, filterType);
    FilterIsSubsequence(items, SelectedFilter(searchTerm, filterType));
  }

  /** With no search term and the filter at "all", every item is shown. */
  lemma FilteredItemsUnfiltered(items: seq<Item>)
    ensures FilteredItems(items, "", AllTypes) == items
  {
  }

  /** Soundness and completeness: an item is kept exactly as often as it
      occurs in `items` when it passes the active filters, and not at all
      otherwise. */
  lemma FilteredItemsExact(items: seq<Item>, searchTerm: string, filterType: string, item: Item)
    ensures multiset(FilteredItems(items, searchTerm, filterType))[item] ==
              if Selected(item, searchTerm, filterType) then multiset(items)[item] else 0
    ensures item in FilteredItems(items, searchTerm, filterType) <==>
              item in items && Selected(item, searchTerm, filterType)
  {
    FilteredItemsIsOneFilter(items, searchTerm, filterType);
    FilterCounts(items, SelectedFilter(searchTerm, filterType), item);
    FilterMembership(items, SelectedFilter(searchTerm, filterType), item);
  }

  /** Every shown item matches the term, if there is one, as a substring of
      the lower-cased name or description, and has exactly the chosen type,
      compared case-sensitively, unless the filter is "all". */
  lemma FilteredItemsSound(items: seq<Item>, searchTerm: string, filterType: string, k: nat)
    requires k < |FilteredItems(items, searchTerm, filterType)|
    ensures var item := FilteredItems(items, searchTerm, filterType)[k];
      && (searchTerm != "" ==>
            (exists i :: OccursAt(Lower(item.name), Lower(searchTerm), i)) ||
            (item.description.Some? && exists i :: OccursAt(Lower(item.description.value), Lower(searchTerm), i)))
      && (filterType != AllTypes ==> item.itemType == filterType)
  {
    FilteredItemsIsOneFilter(items, searchTerm, filterType);
    var item := FilteredItems(items, searchTerm, filterType)[k];
    assert SelectedFilter(searchTerm, filterType)(item);
    MatchesSearchIsSubstring(item, searchTerm);
  }

  /** The search predicate in terms of substrings. */
  lemma MatchesSearchIsSubstring(item: Item, term: string)
    ensures MatchesSearch(item, term) <==>
              (exists i :: OccursAt(Lower(item.name), Lower(term), i)) ||
              (item.description.Some? && exists i :: OccursAt(Lower(item.description.value), Lower(term), i))
  {
    ContainsIsSubstring(Lower(item.name), Lower(term));
    if item.description.Some? {
      ContainsIsSubstring(Lower(item.description.value), Lower(term));
      assert MatchesSearch(item, term) ==
        (Contains(Lower(item.name), Lower(term)) || Contains(Lower(item.description.value), Lower(term)));
    } else {
      assert MatchesSearch(item, term) == Contains(Lower(item.name), Lower(term));
    }
  }

  /** An item without a description matches only through its name. */
  lemma NullDescriptionMatchesByName(item: Item, term: string)
    requires item.description.None?
    ensures MatchesSearch(item, term) <==> exists i :: OccursAt(Lower(item.name), Lower(term), i)
  {
    MatchesSearchIsSubstring(item, term);
  }

  /** `item.type` of each item, in order (`items.map(item => item.type)`). */
  function TypesOf(items: seq<Item>): (r: seq<string>)
    ensures |r| == |items| && forall k :: 0 <= k < |items| ==> r[k] == items[k].itemType
    decreases |items|
  {
    if items == [] then [] else [items[0].itemType] + TypesOf(items[1..])
  }

  /** `Array.from(new Set(items.map(item => item.type)))`. */
  function UniqueTypes(items: seq<Item>): seq<string>
  {
    Dedup(TypesOf(items), {})
  }

  /** The type filter offers every type that occurs, each once, in the order
      the types first occur in `items`. */
  lemma UniqueTypesSpec(items: seq<Item>)
    ensures var u := UniqueTypes(items);
      && NoDuplicates(u)
      && (forall t :: t in u <==> t in TypesOf(items))
      && (forall i, j :: 0 <= i < j < |u| ==> IndexOf(TypesOf(items), u[i]) < IndexOf(TypesOf(items), u[j]))
  {
    var types := TypesOf(items);
    assert UniqueTypes(items) == Dedup(types, {});
    DedupMembers(types, {});
    DedupNoDuplicates(types, {});
    DedupOrder(types, {});
  }
}
