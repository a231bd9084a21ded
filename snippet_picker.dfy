/**
 * `SnippetPickerDialog` of src/components/dialogs.py without its widgets:
 * the snippets shown for a search term, the label of each result, the
 * highlighted result and what Enter inserts.
 */
module SnippetPicker {
  import opened Wrappers
  import opened Text
  import opened Seqs
  import opened Dialogs

  /** A snippet dictionary: each key may be absent. */
  datatype Snippet = Snippet(name: Option<string>, category: Option<string>, content: Option<string>)

  /** The search matches the lower-cased name, category or content. */
  predicate SnippetMatches(s: Snippet, term: string) {
    || Contains(Lower(Field(s.name, "")), term)
    || Contains(Lower(Field(s.category, "")), term)
    || Contains(Lower(Field(s.content, "")), term)
  }

  function MatchesTerm(term: string): Snippet -> bool {
    s => SnippetMatches(s, term)
  }

  /** The snippets `_apply_filter(term)` keeps, in their order. */
  function SnippetFilter(all: seq<Snippet>, term: string): seq<Snippet> {
    var t := Lower(Strip(term));
    if t == [] then all else Filter(all, MatchesTerm(t))
  }

  /**
   * A blank term keeps every snippet; any other term keeps, in their order,
   * exactly the snippets that match its stripped lower-cased form.
   */
  lemma SnippetFilterFacts(all: seq<Snippet>, term: string)
    ensures IsBlank(term) ==> SnippetFilter(all, term) == all
    ensures IsSubsequence(SnippetFilter(all, term), all)
    ensures !IsBlank(term) ==>
              forall s :: s in SnippetFilter(all, term) <==> s in all && SnippetMatches(s, Lower(Strip(term)))
  {
    var t := Lower(Strip(term));
    assert t == [] <==> IsBlank(term);
    if t == [] {
      SubsequenceOfSelf(all);
    } else {
      FilterIsSubsequence(all, MatchesTerm(t));
      forall s {
        FilterMembers(all, MatchesTerm(t), s);
      }
    }
  }

  lemma NothingFiltered(all: seq<Snippet>)
    ensures SnippetFilter(all, []) == all
  {
    EmptyTerm();
  }

  /** The first line shown under a snippet: the first non-blank line of its content, cut at 72 characters. */
  function ShownLine(s: Snippet): (line: string)
    ensures line == [] <==> FirstLine(Field(s.content, "")) == []
    ensures |line| <= 74
  {
    var first := FirstLine(Field(s.content, ""));
    var line := Truncate(first, 72, 71);
    assert |first| <= 72 ==> line == first;
    line
  }

  /** `name | category`, then ` | first line` when the content has a non-blank line. */
  function SnippetLabel(s: Snippet): string {
    WithPart(Field(s.name, "Snippet") + " | " + Field(s.category, "General"), ShownLine(s))
  }

  function LabelOf(): Snippet -> string {
    s => SnippetLabel(s)
  }

  /** The labels of the result buttons, in order. */
  function Labels(ss: seq<Snippet>): seq<string> {
    Map(ss, LabelOf())
  }

  class SnippetPickerDialog {
    const allSnippets: seq<Snippet>
    var filtered: seq<Snippet>
    var labels: seq<string>
    var activeIndex: int
    /** The texts handed to `on_insert`, oldest first. */
    var inserted: seq<string>
    /** Whether the dialog has destroyed itself. */
    var closed: bool

    /** The buttons show the filtered snippets and the highlight is on one of them (or 0 when there are none). */
    ghost predicate Valid()
      reads this
    {
      labels == Labels(filtered) && 0 <= activeIndex && (activeIndex < |filtered| || activeIndex == 0)
    }

    /** The buttons show the snippets the term `t` keeps, the first highlighted. */
    ghost predicate Shows(t: string)
      reads this
    {
      Valid() && filtered == SnippetFilter(allSnippets, t) && activeIndex == 0
    }

    constructor(snippets: seq<Snippet>)
      ensures allSnippets == snippets && Shows([]) && filtered == snippets
      ensures inserted == [] && !closed
    {
      allSnippets := snippets;
      filtered := [];
      labels := [];
      activeIndex := 0;
      inserted := [];
      closed := false;
      new;
      var blank: string := [];
      ApplyFilter(blank);
      NothingFiltered(snippets);
    }

    /** `_apply_filter(term)`. */
    method ApplyFilter(term: string)
      modifies this`filtered, this`labels, this`activeIndex
      ensures Shows(term)
    {
      filtered := Results(term);
      RebuildResults();
    }

    /** The snippets the term keeps. */
    method Results(term: string) returns (results: seq<Snippet>)
      ensures results == SnippetFilter(allSnippets, term)
    {
      var t := Lower(Strip(term));
      if t == [] {
        results := allSnippets;
      } else {
        results := Filter(allSnippets, MatchesTerm(t));
      }
    }

    /** `_rebuild_results`: one labelled button per filtered snippet, the first highlighted. */
    method RebuildResults()
      modifies this`labels, this`activeIndex
      ensures Valid() && labels == Labels(filtered) && activeIndex == 0
    {
      labels := [];
      if filtered == [] {
        activeIndex := 0;
        return;
      }
      var shown: seq<string> := [];
      var idx := 0;
      while idx < |filtered|
        invariant 0 <= idx <= |filtered|
        invariant shown == Labels(filtered[..idx])
      {
        MapOneMore(filtered, idx, LabelOf());
        shown := shown + [LabelOf()(filtered[idx])];
        idx := idx + 1;
      }
      assert filtered[..idx] == filtered;
      labels := shown;
      activeIndex := 0;
    }

    /** `_on_up`. */
    method OnUp()
      requires Valid()
      modifies this`activeIndex
      ensures Valid() && activeIndex == MoveUp(old(activeIndex), |filtered|)
    {
      if filtered == [] {
        return;
      }
      activeIndex := Max(0, activeIndex - 1);
    }

    /** `_on_down`. */
    method OnDown()
      requires Valid()
      modifies this`activeIndex
      ensures Valid() && activeIndex == MoveDown(old(activeIndex), |filtered|)
    {
      if filtered == [] {
        return;
      }
      activeIndex := Min(|filtered| - 1, activeIndex + 1);
    }

    /** `_on_enter`: inserts the highlighted snippet, if there is one. */
    method OnEnter()
      requires Valid()
      modifies this`inserted, this`closed
      ensures filtered == [] ==> inserted == old(inserted) && closed == old(closed)
      ensures filtered != [] ==> inserted == old(inserted) + [Field(filtered[activeIndex].content, "")] && closed
    {
      if filtered == [] {
        return;
      }
      Insert(filtered[activeIndex]);
    }

    /** `_insert`: hands the snippet's content (empty when absent) to `on_insert` and closes. */
    method Insert(s: Snippet)
      modifies this`inserted, this`closed
      ensures inserted == old(inserted) + [Field(s.content, "")] && closed
    {
      inserted := inserted + [Field(s.content, "")];
      closed := true;
    }
  }
}
