/**
 * The state behind the prompt list of src/components/prompt_list.py: all
 * prompts, the lower-cased search term, the category filter, the prompts the
 * two filters let through, the list items shown for them and the selection.
 */
module PromptListView {
  import opened Wrappers
  import opened Text
  import opened Seqs
  import opened Models

  /** A list row, reduced to its prompt and whether it is highlighted. */
  datatype Item = Item(prompt: Prompt, selected: bool)

  /** The search condition of `_apply_filters`, for a term that is already lower-cased. */
  predicate Matches(p: Prompt, term: string) {
    || Contains(Lower(p.name), term)
    || Contains(Lower(p.content), term)
    || (exists k | 0 <= k < |p.tags| :: Contains(Lower(p.tags[k]), term))
  }

  function MatchesSearch(term: string): Prompt -> bool {
    p => Matches(p, term)
  }

  function InCategory(c: Category): Prompt -> bool {
    (p: Prompt) => p.category == c
  }

  /** `_apply_filters`: an empty term and an absent category filter let everything through. */
  function Filtered(prompts: seq<Prompt>, term: string, category: Option<Category>): seq<Prompt> {
    var searched := if term != [] then Filter(prompts, MatchesSearch(term)) else prompts;
    if category.Some? then Filter(searched, InCategory(category.value)) else searched
  }

  /**
   * The filtered prompts keep the order of `prompts` and are exactly those
   * that pass both the search and the category filter.
   */
  lemma FilteredMembers(prompts: seq<Prompt>, term: string, category: Option<Category>)
    ensures IsSubsequence(Filtered(prompts, term, category), prompts)
    ensures forall p :: p in Filtered(prompts, term, category) <==>
              && p in prompts
              && (term == [] || Matches(p, term))
              && (category.None? || p.category == category.value)
  {
    var search := MatchesSearch(term);
    match category
    case None =>
      if term != [] {
        FilterIsSubsequence(prompts, search);
        forall p ensures p in Filter(prompts, search) <==> p in prompts && search(p) {
          FilterMembers(prompts, search, p);
        }
      } else {
        SubsequenceOfSelf(prompts);
      }
    case Some(c) =>
      var inCat := InCategory(c);
      if term != [] {
        FilterTwice(prompts, search, inCat);
        FilterIsSubsequence(prompts, Both(search, inCat));
        forall p ensures p in Filter(prompts, Both(search, inCat)) <==> p in prompts && search(p) && inCat(p) {
          FilterMembers(prompts, Both(search, inCat), p);
        }
      } else {
        FilterIsSubsequence(prompts, inCat);
        forall p ensures p in Filter(prompts, inCat) <==> p in prompts && inCat(p) {
          FilterMembers(prompts, inCat, p);
        }
      }
  }

  /** With a category filter set, every prompt shown has that category. */
  lemma FilteredCategory(prompts: seq<Prompt>, term: string, c: Category)
    ensures forall k | 0 <= k < |Filtered(prompts, term, Some(c))| :: Filtered(prompts, term, Some(c))[k].category == c
  {
    var searched := if term != [] then Filter(prompts, MatchesSearch(term)) else prompts;
    FilterKeeps(searched, InCategory(c));
  }

  /** With a search term, every prompt shown mentions the term in its name, content or a tag. */
  lemma FilteredSearch(prompts: seq<Prompt>, term: string, category: Option<Category>)
    requires term != []
    ensures forall k | 0 <= k < |Filtered(prompts, term, category)| :: Matches(Filtered(prompts, term, category)[k], term)
  {
    var search := MatchesSearch(term);
    FilterKeeps(prompts, search);
    if category.Some? {
      FilterKeeps(prompts, Both(search, InCategory(category.value)));
      FilterTwice(prompts, search, InCategory(category.value));
    }
  }

  /** No term and no category filter: every prompt is shown, in order. */
  lemma FilteredNothing(prompts: seq<Prompt>)
    ensures Filtered(prompts, [], None) == prompts
  {
  }

  /** The two filters may be applied in either order. */
  lemma FiltersCommute(prompts: seq<Prompt>, term: string, c: Category)
    requires term != []
    ensures Filtered(prompts, term, Some(c)) == Filter(Filter(prompts, InCategory(c)), MatchesSearch(term))
  {
    FilterCommutes(prompts, MatchesSearch(term), InCategory(c));
  }

  /** The row for each prompt: highlighted when its id is the selected prompt's. */
  function ItemsFor(ps: seq<Prompt>, selected: Option<Prompt>): (items: seq<Item>)
    ensures |items| == |ps|
    ensures forall k | 0 <= k < |ps| :: items[k].prompt == ps[k]
    ensures forall k | 0 <= k < |ps| :: items[k].selected <==> selected.Some? && ps[k].id == selected.value.id
  {
    seq(|ps|, k requires 0 <= k < |ps| => Item(ps[k], selected.Some? && ps[k].id == selected.value.id))
  }

  class PromptList {
    var prompts: seq<Prompt>
    var searchTerm: string
    var categoryFilter: Option<Category>
    var filteredPrompts: seq<Prompt>
    var selectedPrompt: Option<Prompt>
    var items: seq<Item>
    /** The prompts handed to the `on_select` callback, in order. */
    var reported: seq<Prompt>

    /** The shown prompts follow the filters and the rows follow the shown prompts and the selection. */
    ghost predicate Valid()
      reads this
    {
      && filteredPrompts == Filtered(prompts, searchTerm, categoryFilter)
      && items == ItemsFor(filteredPrompts, selectedPrompt)
    }

    constructor()
      ensures Valid()
      ensures prompts == [] && searchTerm == [] && categoryFilter == None && selectedPrompt == None
      ensures items == [] && reported == []
    {
      prompts := [];
      searchTerm := [];
      categoryFilter := None;
      filteredPrompts := [];
      selectedPrompt := None;
      items := [];
      reported := [];
    }

    /** `set_prompts`. */
    method SetPrompts(ps: seq<Prompt>)
      modifies this`prompts, this`filteredPrompts, this`items
      ensures Valid()
      ensures prompts == ps
    {
      prompts := ps;
      ApplyFilters();
    }

    /** `set_search`: the term is stored lower-cased. */
    method SetSearch(term: string)
      modifies this`searchTerm, this`filteredPrompts, this`items
      ensures Valid()
      ensures searchTerm == Lower(term)
    {
      searchTerm := Lower(term);
      ApplyFilters();
    }

    /** `set_category_filter`. */
    method SetCategoryFilter(category: Option<Category>)
      modifies this`categoryFilter, this`filteredPrompts, this`items
      ensures Valid()
      ensures categoryFilter == category
    {
      categoryFilter := category;
      ApplyFilters();
    }

    /** `_apply_filters`. */
    method ApplyFilters()
      modifies this`filteredPrompts, this`items
      ensures Valid()
    {
      var filtered := prompts;
      if searchTerm != [] {
        filtered := Filter(filtered, MatchesSearch(searchTerm));
      }
      if categoryFilter.Some? {
        filtered := Filter(filtered, InCategory(categoryFilter.value));
      }
      filteredPrompts := filtered;
      RebuildList();
    }

    /** `_rebuild_list`: one fresh row per shown prompt, the selected one highlighted. */
    method RebuildList()
      modifies this`items
      ensures items == ItemsFor(filteredPrompts, selectedPrompt)
    {
      items := [];
      for k := 0 to |filteredPrompts|
        invariant items == ItemsFor(filteredPrompts[..k], selectedPrompt)
      {
        var prompt := filteredPrompts[k];
        var item := Item(prompt, false);
        if selectedPrompt.Some? && prompt.id == selectedPrompt.value.id {
          item := item.(selected := true);
        }
        items := items + [item];
      }
      assert filteredPrompts[..|filteredPrompts|] == filteredPrompts;
    }

    /** `_on_item_select`: remember the prompt and highlight exactly the rows with its id. */
    method OnItemSelect(prompt: Prompt)
      requires Valid()
      modifies this`selectedPrompt, this`items, this`reported
      ensures Valid()
      ensures selectedPrompt == Some(prompt)
      ensures |items| == |old(items)|
      ensures forall k | 0 <= k < |items| :: items[k].prompt == old(items)[k].prompt
      ensures forall k | 0 <= k < |items| :: items[k].selected <==> items[k].prompt.id == prompt.id
      ensures reported == old(reported) + [prompt]
    {
      selectedPrompt := Some(prompt);
      var k := 0;
      while k < |items|
        invariant 0 <= k <= |items| && |items| == |old(items)|
        invariant forall j | 0 <= j < |items| :: items[j].prompt == old(items)[j].prompt
        invariant forall j | 0 <= j < k :: items[j].selected == (items[j].prompt.id == prompt.id)
        invariant selectedPrompt == Some(prompt) && reported == old(reported)
      {
        items := items[k := items[k].(selected := items[k].prompt.id == prompt.id)];
        k := k + 1;
      }
      assert items == ItemsFor(filteredPrompts, selectedPrompt);
      reported := reported + [prompt];
    }
  }
}
