/**
 * `CommandPaletteDialog` of src/components/dialogs.py without its widgets:
 * quick actions ranked by how well they match the search, then prompts
 * (pinned first, most recently updated first), at most 60 results, their
 * labels, the highlighted result and what choosing a result does.
 */
module CommandPalette {
  import opened Wrappers
  import opened Text
  import opened Seqs
  import opened Models
  import opened PromptListView
  import opened Dialogs

  /** An action dictionary: each key may be absent. */
  datatype Action = Action(id: Option<string>, labelText: Option<string>, keywords: Option<string>, shortcut: Option<string>)

  /** One row of the palette: `{"kind": "action", ...}` or `{"kind": "prompt", ...}`. */
  datatype PaletteResult = ActionResult(action: Action) | PromptResult(prompt: Prompt)

  /** The limit on the number of results shown. */
  const MaxResults: nat := 60

  /** The text an action is searched in: its label and keywords, lower-cased and stripped. */
  function Haystack(a: Action): string {
    Strip(Lower(Field(a.labelText, "") + " " + Field(a.keywords, "")))
  }

  /** An empty term keeps every action; otherwise the term must occur in the haystack. */
  predicate ActionKept(a: Action, term: string) {
    term == [] || Contains(Haystack(a), term)
  }

  /** 2 when the haystack starts with the term, else 1 when the label contains it, else 0. */
  function Score(a: Action, term: string): int {
    if term != [] && StartsWith(Haystack(a), term) then 2
    else if term != [] && Contains(Lower(Field(a.labelText, "")), term) then 1
    else 0
  }

  function KeepAction(term: string): Action -> bool {
    a => ActionKept(a, term)
  }

  function ScoreOf(term: string): Action -> int {
    a => Score(a, term)
  }

  /** The kept actions, best score first and in their given order within a score. */
  function ActionOrder(actions: seq<Action>, term: string): seq<Action> {
    SortDesc(Filter(actions, KeepAction(term)), ScoreOf(term))
  }

  function AsActionResult(): Action -> PaletteResult {
    a => ActionResult(a)
  }

  function AsPromptResult(): Prompt -> PaletteResult {
    p => PromptResult(p)
  }

  /**
   * The action results are exactly the kept actions, sorted by score, with
   * equal scores in their given order; with an empty term they are all the
   * actions in their given order.
   */
  lemma ActionOrderFacts(actions: seq<Action>, term: string)
    ensures forall a :: a in ActionOrder(actions, term) <==> a in actions && ActionKept(a, term)
    ensures SortedDesc(ActionOrder(actions, term), ScoreOf(term))
    ensures forall k :: Filter(ActionOrder(actions, term), KeyIs(ScoreOf(term), k))
                     == Filter(Filter(actions, KeepAction(term)), KeyIs(ScoreOf(term), k))
    ensures term == [] ==> ActionOrder(actions, term) == actions
  {
    var kept := Filter(actions, KeepAction(term));
    var r := ActionOrder(actions, term);
    SortDescMembers(kept, ScoreOf(term));
    forall a
      ensures a in r <==> a in actions && ActionKept(a, term)
    {
      FilterMembers(actions, KeepAction(term), a);
    }
    SortDescSorted(kept, ScoreOf(term));
    forall k
      ensures Filter(r, KeyIs(ScoreOf(term), k)) == Filter(kept, KeyIs(ScoreOf(term), k))
    {
      SortDescStable(kept, ScoreOf(term), k);
    }
    if term == [] {
      FilterKeepsAll(actions, KeepAction(term));
      FilterKeepsAll(r, KeyIs(ScoreOf(term), 0));
      FilterKeepsAll(actions, KeyIs(ScoreOf(term), 0));
    }
  }

  /** A kept action with its score, as the source's `(score, action)` pairs. */
  function Scored(term: string): Action -> (int, Action) {
    a => (Score(a, term), a)
  }

  function PairScore(): ((int, Action)) -> int {
    (pair: (int, Action)) => pair.0
  }

  function PairAction(): ((int, Action)) -> Action {
    (pair: (int, Action)) => pair.1
  }

  /** One more action considered: its pair is appended exactly when it is kept. */
  lemma ScoredOneMore(actions: seq<Action>, i: nat, term: string)
    requires i < |actions|
    ensures Map(Filter(actions[..i + 1], KeepAction(term)), Scored(term))
         == Map(Filter(actions[..i], KeepAction(term)), Scored(term))
            + (if ActionKept(actions[i], term) then [(Score(actions[i], term), actions[i])] else [])
  {
    TakeOneMore(actions, i);
    FilterConcat(actions[..i], [actions[i]], KeepAction(term));
    var single := Filter([actions[i]], KeepAction(term));
    assert single == if ActionKept(actions[i], term) then [actions[i]] else [];
    MapConcat(Filter(actions[..i], KeepAction(term)), single, Scored(term));
  }

  /** Sorting the pairs by their first half and dropping the scores sorts the actions by score. */
  lemma SortedPairs(kept: seq<Action>, term: string)
    ensures Map(Map(SortDesc(Map(kept, Scored(term)), PairScore()), PairAction()), AsActionResult())
         == Map(SortDesc(kept, ScoreOf(term)), AsActionResult())
  {
    var pairs := Map(kept, Scored(term));
    MapAt(kept, Scored(term));
    MapAt(pairs, PairAction());
    assert Map(pairs, PairAction()) == kept;
    forall y | y in pairs
      ensures PairScore()(y) == ScoreOf(term)(PairAction()(y))
    {
      var k :| 0 <= k < |pairs| && pairs[k] == y;
    }
    SortDescMap(pairs, PairScore(), PairAction(), ScoreOf(term));
  }

  /**
   * `_sort_prompts`' key. `parseTime` stands for `datetime.fromisoformat`,
   * counting from `datetime.min`, which is 0; a time that does not parse is
   * `datetime.min` too, so it ties with a parsed "0001-01-01T00:00:00".
   */
  function TimeKey(parseTime: string -> Option<nat>): Prompt -> int {
    (p: Prompt) => if parseTime(p.updatedAt).Some? then parseTime(p.updatedAt).value else 0
  }

  function IsPinned(): Prompt -> bool {
    (p: Prompt) => p.pinned
  }

  function IsUnpinned(): Prompt -> bool {
    (p: Prompt) => !p.pinned
  }

  /** `_sort_prompts`: the pinned prompts, newest first, then the others, newest first. */
  function SortPrompts(ps: seq<Prompt>, parseTime: string -> Option<nat>): seq<Prompt> {
    SortDesc(Filter(ps, IsPinned()), TimeKey(parseTime)) + SortDesc(Filter(ps, IsUnpinned()), TimeKey(parseTime))
  }

  /** A sorted filter holds only elements that pass the filter. */
  lemma SortedFilterKeeps(ps: seq<Prompt>, keep: Prompt -> bool, key: Prompt -> int)
    ensures forall y | y in SortDesc(Filter(ps, keep), key) :: keep(y) && y in ps
  {
    SortDescMembers(Filter(ps, keep), key);
    forall y | y in Filter(ps, keep)
      ensures keep(y) && y in ps
    {
      FilterMembers(ps, keep, y);
    }
  }

  /** Pinned prompts followed by unpinned ones: the pinned are exactly the first `|a|`. */
  lemma PinnedFirst(a: seq<Prompt>, b: seq<Prompt>)
    requires forall y | y in a :: y.pinned
    requires forall y | y in b :: !y.pinned
    ensures forall k | 0 <= k < |a| :: (a + b)[k].pinned
    ensures forall k | |a| <= k < |a + b| :: !(a + b)[k].pinned
  {
    assert forall k | 0 <= k < |a| :: (a + b)[k] == a[k] && a[k] in a;
    assert forall k | |a| <= k < |a + b| :: (a + b)[k] == b[k - |a|] && b[k - |a|] in b;
  }

  /**
   * The sorted prompts are a permutation of the input; the first
   * `|pinned|` are exactly the pinned ones and the rest the others; each group
   * runs from the newest to the oldest, and prompts of equal time keep their
   * order.
   */
  lemma SortPromptsFacts(ps: seq<Prompt>, parseTime: string -> Option<nat>)
    ensures multiset(SortPrompts(ps, parseTime)) == multiset(ps)
    ensures var r, n := SortPrompts(ps, parseTime), |Filter(ps, IsPinned())|;
            n <= |r|
            && (forall k | 0 <= k < n :: r[k].pinned)
            && (forall k | n <= k < |r| :: !r[k].pinned)
            && SortedDesc(r[..n], TimeKey(parseTime))
            && SortedDesc(r[n..], TimeKey(parseTime))
    ensures var r, n := SortPrompts(ps, parseTime), |Filter(ps, IsPinned())|;
            forall t :: Filter(r[..n], KeyIs(TimeKey(parseTime), t)) == Filter(Filter(ps, IsPinned()), KeyIs(TimeKey(parseTime), t))
                     && Filter(r[n..], KeyIs(TimeKey(parseTime), t)) == Filter(Filter(ps, IsUnpinned()), KeyIs(TimeKey(parseTime), t))
  {
    var key := TimeKey(parseTime);
    var pinned, others := Filter(ps, IsPinned()), Filter(ps, IsUnpinned());
    var a, b := SortDesc(pinned, key), SortDesc(others, key);
    var r := a + b;
    FilterSplitsMultiset(ps, IsPinned(), IsUnpinned());
    assert |a| == |multiset(a)| == |multiset(pinned)| == |pinned|;
    assert r[..|a|] == a && r[|a|..] == b;
    SortedFilterKeeps(ps, IsPinned(), key);
    SortedFilterKeeps(ps, IsUnpinned(), key);
    PinnedFirst(a, b);
    SortDescSorted(pinned, key);
    SortDescSorted(others, key);
    forall t
      ensures Filter(a, KeyIs(key, t)) == Filter(pinned, KeyIs(key, t))
      ensures Filter(b, KeyIs(key, t)) == Filter(others, KeyIs(key, t))
    {
      SortDescStable(pinned, key, t);
      SortDescStable(others, key, t);
    }
  }

  /** A time that does not parse has the smallest key, the same as a parsed `datetime.min`. */
  lemma {:induction false} UnparsedIsMinimum(parseTime: string -> Option<nat>, p: Prompt, q: Prompt)
    requires parseTime(p.updatedAt).None?
    ensures TimeKey(parseTime)(p) <= TimeKey(parseTime)(q)
    ensures parseTime(q.updatedAt) == Some(0) ==> TimeKey(parseTime)(p) == TimeKey(parseTime)(q)
  {
  }

  /**
   * An unparseable time ties with a parsed `datetime.min`, so the stable sort
   * keeps two such unpinned prompts in their given order.
   */
  lemma {:induction false} UnparsedTiesWithMin(parseTime: string -> Option<nat>, a: Prompt, b: Prompt)
    requires !a.pinned && !b.pinned
    requires parseTime(a.updatedAt).None? && parseTime(b.updatedAt) == Some(0)
    ensures SortPrompts([a, b], parseTime) == [a, b]
  {
    var key := TimeKey(parseTime);
    FilterDropsAll([a, b], IsPinned());
    FilterKeepsAll([a, b], IsUnpinned());
    assert [a, b][..1] == [a];
    assert [a][..0] == [];
    assert SortDesc([a], key) == [a];
    assert SortDesc([a, b], key) == InsertDesc(b, [a], key);
  }

  /** `_build_prompt_results(term)`: the matching prompts (all for an empty term), sorted. */
  function PromptResults(prompts: seq<Prompt>, term: string, parseTime: string -> Option<nat>): seq<PaletteResult> {
    var matching := if term != [] then Filter(prompts, MatchesSearch(term)) else prompts;
    Map(SortPrompts(matching, parseTime), AsPromptResult())
  }

  /** `(action_results + prompt_results)[:60]`. */
  function PaletteResults(prompts: seq<Prompt>, actions: seq<Action>, term: string, parseTime: string -> Option<nat>): seq<PaletteResult> {
    var all := Map(ActionOrder(actions, term), AsActionResult()) + PromptResults(prompts, term, parseTime);
    all[..Min(MaxResults, |all|)]
  }

  /**
   * At most 60 results; the actions come before the prompts; the results
   * are the leading ones of the full list, all of it when it is short enough.
   */
  lemma PaletteResultsFacts(prompts: seq<Prompt>, actions: seq<Action>, term: string, parseTime: string -> Option<nat>)
    ensures var r := PaletteResults(prompts, actions, term, parseTime);
            |r| <= MaxResults
            && (forall i, j | 0 <= i < j < |r| && r[j].ActionResult? :: r[i].ActionResult?)
            && |r| == Min(MaxResults, |ActionOrder(actions, term)| + |PromptResults(prompts, term, parseTime)|)
    ensures var all := Map(ActionOrder(actions, term), AsActionResult()) + PromptResults(prompts, term, parseTime);
            var r := PaletteResults(prompts, actions, term, parseTime);
            r == all[..|r|] && (|all| <= MaxResults ==> r == all)
  {
    ActionResultsOnly(actions, term);
    PromptResultsOnly(prompts, term, parseTime);
    ActionsFirst(Map(ActionOrder(actions, term), AsActionResult()), PromptResults(prompts, term, parseTime), MaxResults);
  }

  lemma ActionResultsOnly(actions: seq<Action>, term: string)
    ensures forall k | 0 <= k < |Map(ActionOrder(actions, term), AsActionResult())| ::
              Map(ActionOrder(actions, term), AsActionResult())[k].ActionResult?
  {
    MapAt(ActionOrder(actions, term), AsActionResult());
  }

  lemma PromptResultsOnly(prompts: seq<Prompt>, term: string, parseTime: string -> Option<nat>)
    ensures forall k | 0 <= k < |PromptResults(prompts, term, parseTime)| :: PromptResults(prompts, term, parseTime)[k].PromptResult?
  {
    var matching := if term != [] then Filter(prompts, MatchesSearch(term)) else prompts;
    MapAt(SortPrompts(matching, parseTime), AsPromptResult());
  }

  /** The leading `n` of action results followed by prompt results have no action after a prompt. */
  lemma ActionsFirst(acts: seq<PaletteResult>, ps: seq<PaletteResult>, n: nat)
    requires forall k | 0 <= k < |acts| :: acts[k].ActionResult?
    requires forall k | 0 <= k < |ps| :: ps[k].PromptResult?
    ensures var r := (acts + ps)[..Min(n, |acts + ps|)];
            |r| <= n && |r| == Min(n, |acts| + |ps|)
            && (forall i, j | 0 <= i < j < |r| && r[j].ActionResult? :: r[i].ActionResult?)
            && r == (acts + ps)[..|r|] && (|acts + ps| <= n ==> r == acts + ps)
  {
    var all := acts + ps;
    assert forall k | |acts| <= k < |all| :: all[k] == ps[k - |acts|];
    assert forall k | 0 <= k < |acts| :: all[k] == acts[k];
  }

  /** `_build_label`. */
  function BuildLabel(r: PaletteResult): string {
    match r
    case ActionResult(a) =>
      var shortcut := Strip(Field(a.shortcut, ""));
      "Run: " + Field(a.labelText, "Action") + (if shortcut != [] then " [" + shortcut + "]" else "")
    case PromptResult(p) =>
      var pin := if p.pinned then "* " else "";
      WithPart(pin + p.name + " | " + CategoryValue(p.category), Join(", ", FirstThree(p.tags)))
  }

  /**
   * An action reads "Run: <label>", followed by its shortcut exactly when
   * that is not blank; a prompt reads "<name> | <category>", marked "* " when
   * pinned, followed by its first three tags exactly when they join to text.
   */
  lemma BuildLabelFacts(r: PaletteResult)
    ensures r.ActionResult? ==>
              var head := "Run: " + Field(r.action.labelText, "Action");
              StartsWith(BuildLabel(r), head) && (BuildLabel(r) == head <==> IsBlank(Field(r.action.shortcut, "")))
    ensures r.PromptResult? ==>
              var head := (if r.prompt.pinned then "* " else "") + r.prompt.name + " | " + CategoryValue(r.prompt.category);
              StartsWith(BuildLabel(r), head) && (BuildLabel(r) == head <==> Join(", ", FirstThree(r.prompt.tags)) == [])
    ensures r.PromptResult? && r.prompt.pinned ==> StartsWith(BuildLabel(r), "* ")
  {
    match r
    case ActionResult(a) =>
      var head := "Run: " + Field(a.labelText, "Action");
      var shortcut := Strip(Field(a.shortcut, ""));
      if shortcut != [] {
        assert (head + (" [" + shortcut + "]"))[..|head|] == head;
      } else {
        assert head + [] == head;
      }
    case PromptResult(p) =>
      var head := (if p.pinned then "* " else "") + p.name + " | " + CategoryValue(p.category);
      if p.pinned {
        assert head[..2] == "* ";
        assert BuildLabel(r)[..2] == head[..2];
      }
  }

  function LabelOf(): PaletteResult -> string {
    r => BuildLabel(r)
  }

  /** The stripped id of an action: what `on_action` receives. */
  function ActionId(a: Action): string {
    Strip(Field(a.id, ""))
  }

  class CommandPaletteDialog {
    const allPrompts: seq<Prompt>
    const actions: seq<Action>
    /** `datetime.fromisoformat` as a timestamp, `None` where it raises. */
    const parseTime: string -> Option<nat>
    /** Whether an `on_action` callback was given. */
    const hasActionHandler: bool

    var filtered: seq<PaletteResult>
    var labels: seq<string>
    var activeIndex: int
    /** The prompts handed to `on_select`, oldest first. */
    var selected: seq<Prompt>
    /** The action ids handed to `on_action`, oldest first. */
    var actionsRun: seq<string>
    /** Whether the dialog has destroyed itself. */
    var closed: bool

    /** The buttons show the results and the highlight is on one of them (or 0 when there are none). */
    ghost predicate Valid()
      reads this`filtered, this`labels, this`activeIndex
    {
      labels == Map(filtered, LabelOf()) && 0 <= activeIndex && (activeIndex < |filtered| || activeIndex == 0)
    }

    /** The dialog shows the results for the (stripped, lower-cased) term `t`, the first highlighted. */
    ghost predicate Shows(t: string)
      reads this`filtered, this`labels, this`activeIndex
    {
      Valid() && filtered == PaletteResults(allPrompts, actions, t, parseTime) && activeIndex == 0
    }

    /** `actions or []`: an absent action list is the empty one. */
    constructor(prompts: seq<Prompt>, actionList: seq<Action>, parse: string -> Option<nat>, withActionHandler: bool)
      ensures allPrompts == prompts && actions == actionList && parseTime == parse && hasActionHandler == withActionHandler
      ensures Shows([])
      ensures selected == [] && actionsRun == [] && !closed
    {
      allPrompts := prompts;
      actions := actionList;
      parseTime := parse;
      hasActionHandler := withActionHandler;
      filtered := [];
      labels := [];
      activeIndex := 0;
      selected := [];
      actionsRun := [];
      closed := false;
      new;
      var blank: string := [];
      ApplyFilter(blank);
      EmptyTerm();
    }

    /** `_build_action_results(term)`. */
    method BuildActionResults(term: string) returns (results: seq<PaletteResult>)
      ensures results == Map(ActionOrder(actions, term), AsActionResult())
    {
      var scored: seq<(int, Action)> := [];
      for i := 0 to |actions|
        invariant scored == Map(Filter(actions[..i], KeepAction(term)), Scored(term))
      {
        var action := actions[i];
        ScoredOneMore(actions, i, term);
        var kept, score := ScoreAction(action, term);
        if !kept {
          continue;
        }
        scored := scored + [(score, action)];
      }
      assert actions[..|actions|] == actions;
      var sorted := SortDesc(scored, PairScore());
      results := Map(Map(sorted, PairAction()), AsActionResult());
      SortedPairs(Filter(actions, KeepAction(term)), term);
    }

    /**
     * The body of `_build_action_results`' loop for one action: whether the
     * term lets it through, and its score.
     */
    static method ScoreAction(action: Action, term: string) returns (kept: bool, score: int)
      ensures kept == ActionKept(action, term) && (kept ==> score == Score(action, term))
    {
      var labelText := Field(action.labelText, "");
      var keywords := Field(action.keywords, "");
      var haystack := Strip(Lower(labelText + " " + keywords));
      if term != [] && !Contains(haystack, term) {
        return false, 0;
      }
      score := 0;
      if term != [] && StartsWith(haystack, term) {
        score := 2;
      } else if term != [] && Contains(Lower(labelText), term) {
        score := 1;
      }
      kept := true;
    }

    /** `_apply_filter(term)`. */
    method ApplyFilter(term: string)
      modifies this`filtered, this`labels, this`activeIndex
      ensures selected == old(selected) && actionsRun == old(actionsRun) && closed == old(closed)
      ensures Shows(Lower(Strip(term)))
    {
      filtered := Results(term);
      RebuildResults();
    }

    /** The results for a stripped, lower-cased term: `(action_results + prompt_results)[:60]`. */
    method Results(term: string) returns (results: seq<PaletteResult>)
      ensures results == PaletteResults(allPrompts, actions, Lower(Strip(term)), parseTime)
    {
      var t := Lower(Strip(term));
      var promptResults := PromptResults(allPrompts, t, parseTime);
      var actionResults := BuildActionResults(t);
      var all := actionResults + promptResults;
      results := all[..Min(MaxResults, |all|)];
    }

    /** `_rebuild_results`: one labelled button per result, the first highlighted. */
    method RebuildResults()
      modifies this`labels, this`activeIndex
      ensures Valid() && activeIndex == 0
      ensures filtered == old(filtered) && selected == old(selected) && actionsRun == old(actionsRun) && closed == old(closed)
    {
      labels := [];
      if filtered == [] {
        activeIndex := 0;
        return;
      }
      var shown: seq<string> := [];
      var idx := 0;
      while idx < |filtered|
        invariant 0 <= idx <= |filtered|
        invariant shown == Map(filtered[..idx], LabelOf())
      {
        MapOneMore(filtered, idx, LabelOf());
        shown := shown + [LabelOf()(filtered[idx])];
        idx := idx + 1;
      }
      assert filtered[..idx] == filtered;
      labels := shown;
      activeIndex := 0;
    }

    /** `_on_up`. */
    method OnUp()
      requires Valid()
      modifies this`activeIndex
      ensures Valid() && activeIndex == MoveUp(old(activeIndex), |filtered|)
    {
      if filtered == [] {
        return;
      }
      activeIndex := Max(0, activeIndex - 1);
    }

    /** `_on_down`. */
    method OnDown()
      requires Valid()
      modifies this`activeIndex
      ensures Valid() && activeIndex == MoveDown(old(activeIndex), |filtered|)
    {
      if filtered == [] {
        return;
      }
      activeIndex := Min(|filtered| - 1, activeIndex + 1);
    }

    /** `_on_enter`: chooses the highlighted result, if there is one. */
    method OnEnter()
      requires Valid()
      modifies this`selected, this`actionsRun, this`closed
      ensures filtered == [] ==> selected == old(selected) && actionsRun == old(actionsRun) && closed == old(closed)
      ensures filtered != [] ==> Chosen(filtered[activeIndex], old(selected), old(actionsRun))
    {
      if filtered == [] {
        return;
      }
      SelectResult(filtered[activeIndex]);
    }

    /** The state after choosing `r`, given the callbacks' earlier calls. */
    ghost predicate Chosen(r: PaletteResult, oldSelected: seq<Prompt>, oldActionsRun: seq<string>)
      reads this
    {
      closed
      && match r
         case ActionResult(a) =>
           selected == oldSelected
           && actionsRun == oldActionsRun + (if ActionId(a) != [] && hasActionHandler then [ActionId(a)] else [])
         case PromptResult(p) =>
           selected == oldSelected + [p] && actionsRun == oldActionsRun
    }

    /**
     * `_select_result`: an action runs `on_action` with its stripped id when
     * both are present; a prompt goes to `on_select`; either way the dialog
     * closes.
     */
    method SelectResult(r: PaletteResult)
      modifies this`selected, this`actionsRun, this`closed
      ensures Chosen(r, old(selected), old(actionsRun))
    {
      match r
      case ActionResult(a) =>
        var actionId := Strip(Field(a.id, ""));
        if actionId != [] && hasActionHandler {
          actionsRun := actionsRun + [actionId];
        }
        closed := true;
      case PromptResult(p) =>
        selected := selected + [p];
        closed := true;
    }
  }
}
