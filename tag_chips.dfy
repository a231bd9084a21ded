/**
 * The tag list behind the tag-chip input of src/components/tag_chips.py:
 * an ordered list of stripped, case-insensitively distinct tags, one chip per
 * tag, and the entry text that is tokenised on `,`, `;` and newline.
 */
module TagChips {
  import opened Wrappers
  import opened Text
  import opened Seqs

  /** A chip widget, reduced to the tag it shows and removes. */
  datatype Chip = Chip(text: string)

  /** No tag is empty or padded with whitespace, and no two are equal ignoring case. */
  predicate TagsOk(tags: seq<string>) {
    && (forall k | 0 <= k < |tags| :: tags[k] != [] && Trimmed(tags[k]))
    && (forall i, j | 0 <= i < j < |tags| :: Lower(tags[i]) != Lower(tags[j]))
  }

  /** `_has_tag`: some tag equals `tag` ignoring case. */
  predicate HasTag(tags: seq<string>, tag: string) {
    exists k | 0 <= k < |tags| :: Lower(tags[k]) == Lower(tag)
  }

  /** The lower-cased forms of the tags. */
  function LowerSet(tags: seq<string>): set<string> {
    set t | t in tags :: Lower(t)
  }

  lemma HasTagLowerSet(tags: seq<string>, tag: string)
    ensures HasTag(tags, tag) <==> Lower(tag) in LowerSet(tags)
  {
    if Lower(tag) in LowerSet(tags) {
      var t :| t in tags && Lower(t) == Lower(tag);
      var k :| 0 <= k < |tags| && tags[k] == t;
    }
  }

  /** The tag list after `_add_tag(tag)`. */
  function AddSpec(tags: seq<string>, tag: string): (r: seq<string>)
    ensures r == tags || r == tags + [Strip(tag)]
  {
    var clean := Strip(tag);
    if clean == [] || HasTag(tags, clean) then tags else tags + [clean]
  }

  /**
   * `_add_tag` strips its input; a blank input or a case-insensitive
   * duplicate leaves the list as it is, anything else is appended.
   */
  lemma {:induction false} AddSpecCases(tags: seq<string>, tag: string)
    ensures IsBlank(tag) ==> AddSpec(tags, tag) == tags
    ensures !IsBlank(tag) && (exists k | 0 <= k < |tags| :: Lower(tags[k]) == Lower(Strip(tag))) ==> AddSpec(tags, tag) == tags
    ensures !IsBlank(tag) && (forall k | 0 <= k < |tags| :: Lower(tags[k]) != Lower(Strip(tag))) ==>
              AddSpec(tags, tag) == tags + [Strip(tag)] && Trimmed(Strip(tag)) && Strip(tag) != []
  {
  }

  lemma {:induction false} AddSpecKeepsOk(tags: seq<string>, tag: string)
    requires TagsOk(tags)
    ensures TagsOk(AddSpec(tags, tag))
  {
    var clean := Strip(tag);
    if !(clean == [] || HasTag(tags, clean)) {
      AppendKeepsOk(tags, clean);
    }
  }

  lemma AppendKeepsOk(tags: seq<string>, clean: string)
    requires TagsOk(tags) && clean != [] && Trimmed(clean)
    requires forall k | 0 <= k < |tags| :: Lower(tags[k]) != Lower(clean)
    ensures TagsOk(tags + [clean])
  {
    var r := tags + [clean];
    assert forall k | 0 <= k < |r| :: r[k] == if k < |tags| then tags[k] else clean;
  }

  /** The index of the first tag exactly equal to `tag`. */
  function FirstIndex(tags: seq<string>, tag: string): (r: Option<nat>)
    ensures r.Some? ==> r.value < |tags| && tags[r.value] == tag
    ensures r.Some? ==> forall k | 0 <= k < r.value :: tags[k] != tag
    ensures r.None? ==> tag !in tags
  {
    if tags == [] then None
    else if tags[0] == tag then Some(0)
    else match FirstIndex(tags[1..], tag)
      case None => None
      case Some(i) => Some(i + 1)
  }

  /** The tag list after `_remove_tag(tag)`: the first exact match removed. */
  function RemoveFirst(tags: seq<string>, tag: string): seq<string> {
    match FirstIndex(tags, tag)
    case None => tags
    case Some(i) => tags[..i] + tags[i + 1..]
  }

  /**
   * `_remove_tag` compares case-sensitively and removes one occurrence, the
   * first; with no exact match the list is unchanged.
   */
  lemma {:induction false} RemoveFirstFacts(tags: seq<string>, tag: string)
    ensures tag !in tags ==> RemoveFirst(tags, tag) == tags
    ensures tag in tags ==> |RemoveFirst(tags, tag)| == |tags| - 1
    ensures multiset(RemoveFirst(tags, tag)) + (if tag in tags then multiset{tag} else multiset{}) == multiset(tags)
  {
    match FirstIndex(tags, tag)
    case None =>
    case Some(i) =>
      assert tags == tags[..i] + [tags[i]] + tags[i + 1..];
  }

  lemma {:induction false} RemoveFirstKeepsOk(tags: seq<string>, tag: string)
    requires TagsOk(tags)
    ensures TagsOk(RemoveFirst(tags, tag))
  {
    match FirstIndex(tags, tag)
    case None =>
    case Some(i) =>
      var r := tags[..i] + tags[i + 1..];
      assert forall k | 0 <= k < |r| :: r[k] == tags[if k < i then k else k + 1];
      forall a, b | 0 <= a < b < |r|
        ensures Lower(r[a]) != Lower(r[b])
      {
        var a', b' := if a < i then a else a + 1, if b < i then b else b + 1;
        assert r[a] == tags[a'] && r[b] == tags[b'] && a' < b';
      }
      assert RemoveFirst(tags, tag) == r;
  }

  /** In a list of distinct tags, removing the first match of the last tag drops the last one. */
  lemma {:induction false} RemoveLastTag(tags: seq<string>)
    requires TagsOk(tags) && tags != []
    ensures RemoveFirst(tags, tags[|tags| - 1]) == tags[..|tags| - 1]
  {
    var n := |tags| - 1;
    assert forall k | 0 <= k < n :: tags[k] != tags[n] by {
      forall k | 0 <= k < n ensures tags[k] != tags[n] {
        assert Lower(tags[k]) != Lower(tags[n]);
      }
    }
    var i := FirstIndex(tags, tags[n]).value;
    assert i == n;
  }

  /** Adding the tags one after the other, as `set_tags` and `_commit_entry` do. */
  function AddAll(tags: seq<string>, xs: seq<string>): (r: seq<string>)
    ensures |tags| <= |r| && r[..|tags|] == tags
    decreases |xs|
  {
    if xs == [] then tags else AddAll(AddSpec(tags, xs[0]), xs[1..])
  }

  lemma {:induction false} AddAllSnoc(tags: seq<string>, xs: seq<string>, x: string)
    ensures AddAll(tags, xs + [x]) == AddSpec(AddAll(tags, xs), x)
    decreases |xs|
  {
    if xs == [] {
      assert [x][1..] == [];
    } else {
      assert (xs + [x])[0] == xs[0];
      assert (xs + [x])[1..] == xs[1..] + [x];
      AddAllSnoc(AddSpec(tags, xs[0]), xs[1..], x);
    }
  }

  lemma {:induction false} AddAllKeepsOk(tags: seq<string>, xs: seq<string>)
    requires TagsOk(tags)
    ensures TagsOk(AddAll(tags, xs))
    decreases |xs|
  {
    if xs != [] {
      AddSpecKeepsOk(tags, xs[0]);
      AddAllKeepsOk(AddSpec(tags, xs[0]), xs[1..]);
    }
  }

  /**
   * The elements of `ps` whose lower-cased form is neither in `seen` nor that
   * of an earlier element: the first occurrence of each tag ignoring case.
   */
  function FirstOccurrences(ps: seq<string>, seen: set<string>): seq<string>
    decreases |ps|
  {
    if ps == [] then []
    else if Lower(ps[0]) in seen then FirstOccurrences(ps[1..], seen)
    else [ps[0]] + FirstOccurrences(ps[1..], seen + {Lower(ps[0])})
  }

  /** Every lower-cased form of `ps` that was not seen before is kept once. */
  lemma {:induction false} FirstOccurrencesCover(ps: seq<string>, seen: set<string>)
    ensures LowerSet(FirstOccurrences(ps, seen)) + seen == LowerSet(ps) + seen
    ensures IsSubsequence(FirstOccurrences(ps, seen), ps)
    decreases |ps|
  {
    if ps != [] {
      var x, rest := ps[0], ps[1..];
      assert ps == [x] + rest;
      assert LowerSet(ps) == {Lower(x)} + LowerSet(rest);
      if Lower(x) in seen {
        FirstOccurrencesCover(rest, seen);
      } else {
        FirstOccurrencesCover(rest, seen + {Lower(x)});
        var r := FirstOccurrences(rest, seen + {Lower(x)});
        assert LowerSet([x] + r) == {Lower(x)} + LowerSet(r);
        assert ([x] + r)[0] == x && ([x] + r)[1..] == r;
      }
    }
  }

  /** One step of `FirstOccurrences`, for an already-stripped tag `c`. */
  lemma {:induction false} FirstOccurrencesStep(tags: seq<string>, c: string, ps: seq<string>)
    ensures var next := if HasTag(tags, c) then tags else tags + [c];
            next + FirstOccurrences(ps, LowerSet(next)) == tags + FirstOccurrences([c] + ps, LowerSet(tags))
  {
    HasTagLowerSet(tags, c);
    TailOfConcat([c], ps);
    if !HasTag(tags, c) {
      assert LowerSet(tags + [c]) == LowerSet(tags) + {Lower(c)};
    }
  }

  lemma {:induction false} AddSpecStep(tags: seq<string>, x: string, ps: seq<string>)
    ensures AddSpec(tags, x) + FirstOccurrences(ps, LowerSet(AddSpec(tags, x)))
         == tags + FirstOccurrences(PieceOf(x) + ps, LowerSet(tags))
  {
    var clean := Strip(x);
    if clean == [] {
      assert PieceOf(x) + ps == ps;
    } else {
      FirstOccurrencesStep(tags, clean, ps);
    }
  }

  /**
   * `set_tags` on a list of tags: the old tags, then the stripped non-empty
   * inputs whose lower-cased form is new, each the first of its kind.
   */
  lemma {:induction false} AddAllFirstOccurrences(tags: seq<string>, xs: seq<string>)
    ensures AddAll(tags, xs) == tags + FirstOccurrences(Pieces(xs), LowerSet(tags))
    decreases |xs|
  {
    if xs != [] {
      AddAllFirstOccurrences(AddSpec(tags, xs[0]), xs[1..]);
      PiecesCons(xs);
      AddSpecStep(tags, xs[0], Pieces(xs[1..]));
    }
  }

  /** `set_tags(xs)` on an empty list keeps the first occurrence of each stripped, non-empty tag. */
  lemma SetTagsResult(xs: seq<string>)
    ensures AddAll([], xs) == FirstOccurrences(Pieces(xs), {})
    ensures LowerSet(AddAll([], xs)) == LowerSet(Pieces(xs))
    ensures IsSubsequence(AddAll([], xs), Pieces(xs))
    ensures TagsOk(AddAll([], xs))
  {
    AddAllFirstOccurrences([], xs);
    assert LowerSet([]) == {};
    FirstOccurrencesCover(Pieces(xs), {});
    AddAllKeepsOk([], xs);
  }

  /** `any(sep in text for sep in (",", ";", "\n"))`. */
  predicate HasSeparator(text: string) {
    exists i | 0 <= i < |text| :: IsTagSeparator(text[i])
  }

  lemma {:induction false} SeparatorCountZero(text: string)
    ensures SeparatorCount(text) == 0 <==> !HasSeparator(text)
    decreases |text|
  {
    if text != [] {
      SeparatorCountZero(text[1..]);
      assert forall i | 1 <= i < |text| :: text[i] == text[1..][i - 1];
      if HasSeparator(text) && !IsTagSeparator(text[0]) {
        var i :| 0 <= i < |text| && IsTagSeparator(text[i]);
        assert IsTagSeparator(text[1..][i - 1]);
      }
    }
  }

  lemma {:induction false} ContainsKeepsNoSeparator(s: string, t: string)
    requires Contains(s, t) && !HasSeparator(s)
    ensures !HasSeparator(t)
    decreases |s|
  {
    if StartsWith(s, t) {
      assert forall i | 0 <= i < |t| :: t[i] == s[i];
    } else {
      assert !HasSeparator(s[1..]) by {
        assert forall i | 0 <= i < |s[1..]| :: s[1..][i] == s[i + 1];
      }
      ContainsKeepsNoSeparator(s[1..], t);
    }
  }

  /**
   * `_extract_tags(force)` on the entry text: the tags it returns and the text
   * left in the entry.
   */
  function Extracted(text: string, force: bool): (r: (seq<string>, string))
    ensures forall k | 0 <= k < |r.0| :: r.0[k] != [] && Trimmed(r.0[k])
    ensures !IsBlank(text) ==> !HasSeparator(r.1)
  {
    if IsBlank(text) then ([], text)
    else if force then
      (Pieces(SplitRuns(text)), [])
    else if SeparatorCount(text) > 0 then
      var parts := Split(text);
      var pending := parts[|parts| - 1];
      assert !HasSeparator(pending);
      StripContained(pending);
      ContainsKeepsNoSeparator(pending, Strip(pending));
      (Pieces(parts[..|parts| - 1]), Strip(pending))
    else
      SeparatorCountZero(text);
      ([], text)
  }

  /**
   * A forced extraction returns every stripped non-empty piece between
   * separators and empties the entry; without separators an unforced one
   * changes nothing.
   */
  lemma ExtractedCases(text: string)
    ensures !IsBlank(text) ==> Extracted(text, true) == (Pieces(Split(text)), [])
    ensures !HasSeparator(text) ==> Extracted(text, false) == ([], text)
    ensures HasSeparator(text) && !IsBlank(text) ==>
              var parts := Split(text);
              Extracted(text, false) == (Pieces(parts[..|parts| - 1]), Strip(parts[|parts| - 1]))
  {
    SeparatorCountZero(text);
    if HasSeparator(text) && !IsBlank(text) {
      UnforcedWithSeparator(text);
    } else if !IsBlank(text) {
      SplitRunsSamePieces(text);
    }
  }

  lemma {:induction false} PiecesConcat(a: seq<string>, b: seq<string>)
    ensures Pieces(a + b) == Pieces(a) + Pieces(b)
    decreases |a|
  {
    if a == [] {
      assert a + b == b;
    } else {
      PiecesConcat(a[1..], b);
      var head := if !IsBlank(a[0]) then [Strip(a[0])] else [];
      TailOfConcat(a, b);
      calc {
        Pieces(a + b);
        head + Pieces(a[1..] + b);
        head + (Pieces(a[1..]) + Pieces(b));
        (head + Pieces(a[1..])) + Pieces(b);
        Pieces(a) + Pieces(b);
      }
    }
  }

  lemma PiecesSingle(p: string)
    ensures Pieces([p]) == PieceOf(p)
  {
    assert [p][1..] == [];
  }

  lemma PieceOfStripped(p: string)
    ensures PieceOf(Strip(p)) == PieceOf(p)
  {
    StripIdempotent(p);
  }

  /** The pieces of a split list are those before its last element, then that element's. */
  lemma {:induction false} PiecesLast(parts: seq<string>)
    requires parts != []
    ensures Pieces(parts) == Pieces(parts[..|parts| - 1]) + PieceOf(parts[|parts| - 1])
  {
    var n := |parts| - 1;
    assert parts == parts[..n] + [parts[n]];
    PiecesConcat(parts[..n], [parts[n]]);
    PiecesSingle(parts[n]);
  }

  /** A forced extraction of text with no separator yields the text stripped, if it is not blank. */
  lemma {:induction false} ForcedWithoutSeparator(t: string)
    requires !HasSeparator(t)
    ensures Extracted(t, true).0 == PieceOf(t)
  {
    if !IsBlank(t) {
      SplitRunsSamePieces(t);
      SeparatorCountZero(t);
      PiecesSingle(t);
    }
  }

  lemma {:induction false} UnforcedWithSeparator(text: string)
    requires !IsBlank(text) && SeparatorCount(text) > 0
    ensures var parts := Split(text);
            Extracted(text, false) == (Pieces(parts[..|parts| - 1]), Strip(parts[|parts| - 1]))
            && Extracted(text, true).0 == Pieces(parts)
  {
    SplitRunsSamePieces(text);
  }

  /**
   * Typing a separator and then leaving the field yields the same tags as
   * leaving it at once: the unforced extraction loses nothing and the text
   * it leaves in the entry becomes the last tag.
   */
  lemma UnforcedThenForced(text: string)
    ensures var (tags, rest) := Extracted(text, false);
            tags + Extracted(rest, true).0 == Extracted(text, true).0
  {
    if IsBlank(text) || SeparatorCount(text) == 0 {
      UnforcedKeepsText(text);
    } else {
      UnforcedSplits(text);
    }
  }

  lemma UnforcedKeepsText(text: string)
    requires IsBlank(text) || SeparatorCount(text) == 0
    ensures Extracted(text, false) == ([], text)
  {
  }

  lemma {:induction false} UnforcedSplits(text: string)
    requires !IsBlank(text) && SeparatorCount(text) > 0
    ensures var (tags, rest) := Extracted(text, false);
            tags + Extracted(rest, true).0 == Extracted(text, true).0
  {
    var e := Extracted(text, false);
    var parts := Split(text);
    UnforcedWithSeparator(text);
    PiecesLast(parts);
    ForcedWithoutSeparator(e.1);
    PieceOfStripped(parts[|parts| - 1]);
  }

  /** A second unforced extraction finds no separator and changes nothing. */
  lemma {:induction false} UnforcedIdempotent(text: string)
    requires !IsBlank(text)
    ensures var rest := Extracted(text, false).1;
            Extracted(rest, false) == ([], rest)
  {
    var rest := Extracted(text, false).1;
    SeparatorCountZero(rest);
  }

  /** Removing the same index from the tags and from the chips keeps one chip per tag. */
  lemma RemoveAtKeepsPairing(tags: seq<string>, chips: seq<Chip>, i: nat)
    requires |chips| == |tags| && i < |tags|
    requires forall k | 0 <= k < |tags| :: chips[k] == Chip(tags[k])
    ensures var (t, c) := (tags[..i] + tags[i + 1..], chips[..i] + chips[i + 1..]);
            |c| == |t| && forall k | 0 <= k < |t| :: c[k] == Chip(t[k])
  {
    var (t, c) := (tags[..i] + tags[i + 1..], chips[..i] + chips[i + 1..]);
    assert forall k | 0 <= k < |t| :: t[k] == tags[if k < i then k else k + 1] && c[k] == chips[if k < i then k else k + 1];
  }

  class TagChipsInput {
    var tags: seq<string>
    var chips: seq<Chip>
    /** The text typed into the entry and not yet turned into tags. */
    var entry: string
    /** How many times the `on_change` callback has been called. */
    var changes: nat
    /** Whether an `on_change` callback was given. */
    const hasListener: bool

    /** One chip per tag, in the same order, and the tags in a valid state. */
    ghost predicate Valid()
      reads this
    {
      && |chips| == |tags|
      && (forall k | 0 <= k < |tags| :: chips[k] == Chip(tags[k]))
      && TagsOk(tags)
    }

    constructor(hasListener: bool)
      ensures Valid()
      ensures tags == [] && entry == [] && changes == 0 && this.hasListener == hasListener
    {
      tags := [];
      chips := [];
      entry := [];
      changes := 0;
      this.hasListener := hasListener;
    }

    /** `_emit_change`. */
    method EmitChange()
      modifies this`changes
      ensures changes == old(changes) + (if hasListener then 1 else 0)
    {
      if hasListener {
        changes := changes + 1;
      }
    }

    /** `get_tags`: a copy of the current list. */
    method GetTags() returns (r: seq<string>)
      ensures r == tags
    {
      r := tags;
    }

    /** `_add_tag`. */
    method AddTag(tag: string, notify: bool)
      requires Valid()
      modifies this`tags, this`chips, this`changes
      ensures Valid()
      ensures tags == AddSpec(old(tags), tag)
      ensures changes == old(changes) + (if notify && hasListener && tags != old(tags) then 1 else 0)
    {
      AddSpecKeepsOk(tags, tag);
      var clean := Strip(tag);
      if clean == [] || HasTag(tags, clean) {
        return;
      }
      tags := tags + [clean];
      chips := chips + [Chip(clean)];
      if notify {
        EmitChange();
      }
    }

    /** `_remove_tag`: scan for the first exact match, pop it from both lists and stop. */
    method RemoveTag(tag: string)
      requires Valid()
      modifies this`tags, this`chips, this`changes
      ensures Valid()
      ensures tags == RemoveFirst(old(tags), tag)
      ensures changes == old(changes) + (if hasListener && tag in old(tags) then 1 else 0)
    {
      RemoveFirstKeepsOk(tags, tag);
      var idx := 0;
      while idx < |tags|
        invariant 0 <= idx <= |tags|
        invariant tags == old(tags) && chips == old(chips) && changes == old(changes)
        invariant forall k | 0 <= k < idx :: tags[k] != tag
      {
        if tags[idx] == tag {
          assert FirstIndex(tags, tag) == Some(idx);
          RemoveAtKeepsPairing(tags, chips, idx);
          tags := tags[..idx] + tags[idx + 1..];
          chips := chips[..idx] + chips[idx + 1..];
          EmitChange();
          return;
        }
        idx := idx + 1;
      }
    }

    /** `_clear_tags`. */
    method ClearTags()
      modifies this`tags, this`chips
      ensures Valid() && tags == []
    {
      chips := [];
      tags := [];
    }

    /** `set_tags(xs, notify)`: the list becomes `xs` normalised and deduplicated. */
    method SetTags(xs: seq<string>, notify: bool)
      modifies this`tags, this`chips, this`changes
      ensures Valid()
      ensures tags == AddAll([], xs)
      ensures changes == old(changes) + (if notify && hasListener then 1 else 0)
    {
      ClearTags();
      for i := 0 to |xs|
        invariant Valid()
        invariant tags == AddAll([], xs[..i])
        invariant changes == old(changes)
      {
        TakeOneMore(xs, i);
        AddAllSnoc([], xs[..i], xs[i]);
        AddTag(xs[i], false);
      }
      assert xs[..|xs|] == xs;
      if notify {
        EmitChange();
      }
    }

    /** `_extract_tags(force)`. */
    method ExtractTags(force: bool) returns (r: seq<string>)
      modifies this`entry
      ensures (r, entry) == Extracted(old(entry), force)
    {
      var text := entry;
      if IsBlank(text) {
        return [];
      }
      if force {
        var parts := SplitRuns(text);
        assert Extracted(text, true) == (Pieces(parts), []);
        entry := [];
        return Pieces(parts);
      }
      if HasSeparator(text) {
        SeparatorCountZero(text);
        var parts := Split(text);
        var pending := parts[|parts| - 1];
        r := Pieces(parts[..|parts| - 1]);
        assert Extracted(text, false) == (r, Strip(pending));
        entry := [];
        if !IsBlank(pending) {
          entry := Strip(pending);
        }
        assert entry == Strip(pending);
        return r;
      }
      SeparatorCountZero(text);
      assert Extracted(text, false) == ([], text);
      return [];
    }

    /** `_commit_entry(force)`: every extracted tag goes through `_add_tag` with notification. */
    method CommitEntry(force: bool)
      requires Valid()
      modifies this`tags, this`chips, this`changes, this`entry
      ensures Valid()
      ensures var (extracted, rest) := Extracted(old(entry), force);
              entry == rest && tags == AddAll(old(tags), extracted)
      ensures changes == old(changes) + (if hasListener then |tags| - |old(tags)| else 0)
    {
      var extracted := ExtractTags(force);
      ghost var rest := entry;
      for i := 0 to |extracted|
        invariant Valid()
        invariant tags == AddAll(old(tags), extracted[..i])
        invariant changes == old(changes) + (if hasListener then |tags| - |old(tags)| else 0)
        invariant entry == rest
      {
        TakeOneMore(extracted, i);
        AddAllSnoc(old(tags), extracted[..i], extracted[i]);
        AddTag(extracted[i], true);
      }
      assert extracted[..|extracted|] == extracted;
    }

    /** `_on_return` (Return and keypad Enter): commit everything, and stop the event. */
    method OnReturn() returns (stop: bool)
      requires Valid()
      modifies this`tags, this`chips, this`changes, this`entry
      ensures Valid() && stop
      ensures var (extracted, rest) := Extracted(old(entry), true);
              entry == rest && tags == AddAll(old(tags), extracted)
      ensures changes == old(changes) + (if hasListener then |tags| - |old(tags)| else 0)
    {
      CommitEntry(true);
      return true;
    }

    /** `_on_focus_out`. */
    method OnFocusOut()
      requires Valid()
      modifies this`tags, this`chips, this`changes, this`entry
      ensures Valid()
      ensures var (extracted, rest) := Extracted(old(entry), true);
              entry == rest && tags == AddAll(old(tags), extracted)
      ensures changes == old(changes) + (if hasListener then |tags| - |old(tags)| else 0)
    {
      CommitEntry(true);
    }

    /** `_on_key_release`: commit only the pieces already closed by a separator. */
    method OnKeyRelease()
      requires Valid()
      modifies this`tags, this`chips, this`changes, this`entry
      ensures Valid()
      ensures var (extracted, rest) := Extracted(old(entry), false);
              entry == rest && tags == AddAll(old(tags), extracted)
      ensures changes == old(changes) + (if hasListener then |tags| - |old(tags)| else 0)
    {
      CommitEntry(false);
    }

    /**
     * `_on_backspace`: on an empty entry, remove the last tag and stop the
     * event; otherwise let the entry handle the key.
     */
    method OnBackspace() returns (stop: bool)
      requires Valid()
      modifies this`tags, this`chips, this`changes
      ensures Valid()
      ensures entry != [] ==> !stop && tags == old(tags) && changes == old(changes)
      ensures entry == [] && old(tags) != [] ==>
                stop && tags == old(tags)[..|old(tags)| - 1]
                && changes == old(changes) + (if hasListener then 1 else 0)
      ensures entry == [] && old(tags) == [] ==> !stop && tags == [] && changes == old(changes)
    {
      if entry != [] {
        return false;
      }
      if tags != [] {
        RemoveLastTag(tags);
        RemoveTag(tags[|tags| - 1]);
        return true;
      }
      return false;
    }
  }
}
