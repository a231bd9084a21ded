/**
 * The widget-free helpers shared by the dialogs of src/components/dialogs.py:
 * window placement, moving the highlighted result with Up and Down, cutting
 * long text with an ellipsis, the first line of a text, and the one-line
 * summaries of the version history dialog.
 */
module Dialogs {
  import opened Wrappers
  import opened Text
  import opened Seqs

  function Max(a: int, b: int): int {
    if a >= b then a else b
  }

  function Min(a: int, b: int): int {
    if a <= b then a else b
  }

  datatype Geometry = Geometry(width: int, height: int, x: int, y: int)

  /**
   * `_center_on_screen`: the window is at least 320 by 220, otherwise no
   * larger than the screen less the margin, and centred (Python's `//` by 2
   * is Dafny's `/` by 2, both rounding down).
   */
  function CenterOnScreen(width: int, height: int, screenWidth: int, screenHeight: int, margin: int): (g: Geometry)
    ensures g.width >= 320 && g.height >= 220 && g.x >= 0 && g.y >= 0
    ensures g.width <= Max(320, screenWidth - margin) && g.height <= Max(220, screenHeight - margin)
    ensures 320 <= width <= screenWidth - margin ==> g.width == width
    ensures 220 <= height <= screenHeight - margin ==> g.height == height
    ensures g.width <= screenWidth ==> 0 <= screenWidth - g.width - 2 * g.x <= 1
    ensures g.height <= screenHeight ==> 0 <= screenHeight - g.height - 2 * g.y <= 1
  {
    var w := Max(320, Min(width, Max(320, screenWidth - margin)));
    var h := Max(220, Min(height, Max(220, screenHeight - margin)));
    Geometry(w, h, Max(0, (screenWidth - w) / 2), Max(0, (screenHeight - h) / 2))
  }

  /** `_on_up` on `count` results: one step towards the first, never before it. */
  function MoveUp(active: int, count: nat): (r: int)
    ensures count == 0 ==> r == active
    ensures 0 <= active < count ==> 0 <= r < count && r <= active
  {
    if count == 0 then active else Max(0, active - 1)
  }

  /** `_on_down` on `count` results: one step towards the last, never past it. */
  function MoveDown(active: int, count: nat): (r: int)
    ensures count == 0 ==> r == active
    ensures 0 <= active < count ==> 0 <= r < count && r >= active
  {
    if count == 0 then active else Min(count - 1, active + 1)
  }

  /** Up and Down undo each other away from the ends, and stop at the ends. */
  lemma {:induction false} UpDownInverse(active: int, count: nat)
    requires 0 <= active < count
    ensures active > 0 ==> MoveDown(MoveUp(active, count), count) == active
    ensures active < count - 1 ==> MoveUp(MoveDown(active, count), count) == active
    ensures MoveUp(active, count) == active <==> active == 0
    ensures MoveDown(active, count) == active <==> active == count - 1
  {
  }

  /**
   * `s` itself when it has at most `limit` characters; otherwise its first
   * `cut` characters without trailing whitespace, then "...".
   */
  function Truncate(s: string, limit: nat, cut: nat): (r: string)
    requires cut <= limit
    ensures |s| <= limit ==> r == s
    ensures |s| > limit ==> 3 <= |r| <= cut + 3 && r[|r| - 3..] == "..." && StartsWith(s, r[..|r| - 3])
  {
    if |s| > limit then
      var kept := RStrip(s[..cut]);
      assert (kept + "...")[..|kept|] == kept;
      assert s[..|kept|] == s[..cut][..|kept|];
      kept + "..."
    else s
  }

  /** `str(d.get(key, default))` for a dictionary key that holds a string or is absent. */
  function Field(v: Option<string>, default: string): string {
    if v.Some? then v.value else default
  }

  /** `head`, then ` | extra` when `extra` is not empty. */
  function WithPart(head: string, extra: string): (shown: string)
    ensures StartsWith(shown, head)
    ensures shown == head <==> extra == []
  {
    if extra != [] then
      assert (head + " | " + extra)[..|head|] == head;
      head + " | " + extra
    else head
  }

  /** The line boundaries of Python's `str.splitlines`. */
  predicate IsLineBreak(c: char) {
    c == '\n' || c == '\r' || c == '\U{0B}' || c == '\U{0C}' || c == '\U{1C}' || c == '\U{1D}' || c == '\U{1E}'
    || c == '\U{85}' || c == '\U{2028}' || c == '\U{2029}'
  }

  /**
   * The pieces of `s` between single line boundaries. This differs from
   * `splitlines` only by empty pieces (for "\r\n" and a trailing boundary),
   * which the only use here skips.
   */
  function Lines(s: string): (lines: seq<string>)
    ensures |lines| >= 1
    ensures forall k, i | 0 <= k < |lines| && 0 <= i < |lines[k]| :: !IsLineBreak(lines[k][i])
  {
    if s == [] then [[]]
    else
      var rest := Lines(s[1..]);
      if IsLineBreak(s[0]) then [[]] + rest
      else [[s[0]] + rest[0]] + rest[1..]
  }

  /** `next((line.strip() for line in lines if line.strip()), "")`. */
  function FirstNonBlank(lines: seq<string>): (r: string)
    ensures r != [] ==> Trimmed(r)
  {
    var pieces := Pieces(lines);
    if pieces == [] then [] else pieces[0]
  }

  /** There is a first non-blank line exactly when some line is not blank. */
  lemma {:induction false} FirstNonBlankEmpty(lines: seq<string>)
    ensures FirstNonBlank(lines) == [] <==> forall k | 0 <= k < |lines| :: IsBlank(lines[k])
  {
    if lines != [] {
      var tail := lines[1..];
      FirstNonBlankEmpty(tail);
      PiecesCons(lines);
      if IsBlank(lines[0]) {
        assert Pieces(lines) == Pieces(tail);
        assert forall k | 1 <= k < |lines| :: lines[k] == tail[k - 1];
      } else {
        assert Pieces(lines)[0] == Strip(lines[0]);
      }
    }
  }

  /** The first non-blank line, stripped, is the first line whose stripped form is not empty. */
  lemma {:induction false} FirstNonBlankIsFirst(lines: seq<string>, k: nat)
    requires k < |lines| && !IsBlank(lines[k])
    requires forall j | 0 <= j < k :: IsBlank(lines[j])
    ensures FirstNonBlank(lines) == Strip(lines[k])
  {
    PiecesCons(lines);
    if k > 0 {
      var tail := lines[1..];
      assert IsBlank(lines[0]);
      assert Pieces(lines) == Pieces(tail);
      forall j | 0 <= j < k - 1
        ensures IsBlank(tail[j])
      {
        assert tail[j] == lines[j + 1];
      }
      assert tail[k - 1] == lines[k];
      FirstNonBlankIsFirst(tail, k - 1);
    } else {
      assert Pieces(lines)[0] == Strip(lines[0]);
    }
  }

  /** The first non-blank line of a text, stripped; empty when there is none. */
  function FirstLine(s: string): string {
    FirstNonBlank(Lines(s))
  }

  /** The first three tags: `tags[:3]`. */
  function FirstThree(tags: seq<string>): (r: seq<string>)
    ensures |r| <= 3 && |r| <= |tags| && r == tags[..|r|]
    ensures |tags| <= 3 ==> r == tags
  {
    tags[..Min(3, |tags|)]
  }

  /** A `sep.join` of non-empty parts is empty exactly when there are no parts. */
  lemma {:induction false} JoinEmpty(sep: string, parts: seq<string>)
    requires forall k | 0 <= k < |parts| :: parts[k] != []
    ensures Join(sep, parts) == [] <==> parts == []
    ensures parts != [] ==> StartsWith(Join(sep, parts), parts[0])
  {
    if |parts| > 1 {
      var j := parts[0] + sep + Join(sep, parts[1..]);
      assert j[..|parts[0]|] == parts[0];
    }
  }

  /** The content with every "\n" replaced by a space. */
  function ReplaceNewlines(s: string): (r: string)
    ensures |r| == |s|
    ensures forall i | 0 <= i < |r| :: r[i] != '\n'
    ensures forall i | 0 <= i < |s| && s[i] != '\n' :: r[i] == s[i]
  {
    seq(|s|, i requires 0 <= i < |s| => if s[i] == '\n' then ' ' else s[i])
  }

  /**
   * `PromptHistoryDialog._build_snippet`: the content stripped, on one line,
   * and cut to at most 80 characters.
   */
  function BuildSnippet(content: string): (r: string)
    ensures |r| <= 80
    ensures forall i | 0 <= i < |r| :: r[i] != '\n'
    ensures |Strip(content)| <= 80 ==> r == ReplaceNewlines(Strip(content))
  {
    var line := ReplaceNewlines(Strip(content));
    var r := Truncate(line, 80, 77);
    assert forall i | 0 <= i < |r| :: r[i] != '\n' by {
      if |line| > 80 {
        assert forall i | 0 <= i < |r| - 3 :: r[i] == line[i];
      }
    }
    r
  }

  /** The saved version a history entry describes (missing keys read as empty). */
  datatype Version = Version(name: string, category: string, customCategory: string, tags: seq<string>)

  predicate NonEmpty(s: string) {
    s != []
  }

  function NonEmptyText(): string -> bool {
    s => NonEmpty(s)
  }

  /** The category shown: "Other" with a custom category becomes "Other · <custom>". */
  function MetaCategory(v: Version): string {
    var custom := Strip(v.customCategory);
    if v.category == "Other" && custom != [] then "Other \U{B7} " + custom else v.category
  }

  /** `PromptHistoryDialog._build_meta`: name, category and first three tags, the empty ones left out. */
  function BuildMeta(v: Version): string {
    var tagText := Join(", ", FirstThree(v.tags));
    Join(" \U{B7} ", Filter([v.name, MetaCategory(v), tagText], NonEmptyText()))
  }

  /** The summary is empty exactly when all three parts are, and otherwise begins with the first present one. */
  lemma BuildMetaFacts(v: Version)
    ensures var tagText := Join(", ", FirstThree(v.tags));
            BuildMeta(v) == [] <==> v.name == [] && MetaCategory(v) == [] && tagText == []
    ensures v.name != [] ==> StartsWith(BuildMeta(v), v.name)
  {
    var category, tagText := MetaCategory(v), Join(", ", FirstThree(v.tags));
    var all := [v.name, category, tagText];
    var parts := Filter(all, NonEmptyText());
    FilterKeeps(all, NonEmptyText());
    JoinEmpty(" \U{B7} ", parts);
    FilterMembers(all, NonEmptyText(), v.name);
    FilterMembers(all, NonEmptyText(), category);
    FilterMembers(all, NonEmptyText(), tagText);
    if parts != [] {
      FilterMembers(all, NonEmptyText(), parts[0]);
    }
    if v.name != [] {
      assert parts == [v.name] + Filter(all[1..], NonEmptyText());
    }
  }
}
