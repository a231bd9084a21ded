/**
 * The prompt store of src/storage.py: every operation loads the whole JSON
 * file, changes the list of records and writes the whole list back. The file
 * is the abstract value `Storage.file`; ids and timestamps that `from_dict`
 * would draw from `uuid4()` and the clock come from a `Gen` parameter.
 */
module PromptStorage {
  import opened Wrappers
  import opened Json
  import opened Models
  import opened Seqs

  /** The id and timestamps `from_dict` would use for the item at each position. */
  type Gen = nat -> Fresh

  /** The exceptions the store's operations let through to the caller. */
  datatype Error =
    | BadRecord(reason: DecodeError)   // raised by `Prompt.from_dict` on one item
    | NotIterable                      // `for item in data` over a number, a boolean or null
    | FileNotFound                     // opening an import file that does not exist
    | InvalidJson                      // `json.load` of an import file that is not JSON

  /** `[p.to_dict() for p in prompts]` as the JSON document written. */
  function Encode(ps: seq<Prompt>): (v: Value)
    ensures v.JArr? && |v.items| == |ps|
  {
    JArr(seq(|ps|, i requires 0 <= i < |ps| => JObj(ToDict(ps[i]))))
  }

  /** `_load_raw`: a missing or undecodable file reads as the empty list. */
  function RawDocument(file: Stored): Value {
    match file
    case Doc(v) => v
    case _ => JArr([])
  }

  /**
   * The items `for item in data` hands to `from_dict`. A non-empty mapping or
   * string yields keys or characters, and `from_dict` fails on the first.
   */
  function Elements(v: Value): Result<seq<Value>, Error> {
    match v
    case JArr(items) => Ok(items)
    case JObj(fields) => if fields == map[] then Ok([]) else Err(BadRecord(NotAMapping))
    case JStr(s) => if s == [] then Ok([]) else Err(BadRecord(NotAMapping))
    case _ => Err(NotIterable)
  }

  /** `[Prompt.from_dict(item) for item in items]`: the first failing item ends it. */
  function DecodeItems(items: seq<Value>, gen: Gen): Result<seq<Prompt>, Error>
    decreases |items|
  {
    if items == [] then Ok([])
    else
      var n := |items| - 1;
      var init :- DecodeItems(items[..n], gen);
      match FromDict(items[n], gen(n))
      case Ok(p) => Ok(init + [p])
      case Err(e) => Err(BadRecord(e))
  }

  function Decode(v: Value, gen: Gen): Result<seq<Prompt>, Error> {
    var items :- Elements(v);
    DecodeItems(items, gen)
  }

  /** `load_prompts()` on a file in the given state. */
  function Loaded(file: Stored, gen: Gen): Result<seq<Prompt>, Error> {
    Decode(RawDocument(file), gen)
  }

  lemma {:induction false} DecodeItemsLength(items: seq<Value>, gen: Gen)
    ensures DecodeItems(items, gen).Ok? ==> |DecodeItems(items, gen).value| == |items|
    decreases |items|
  {
    if items != [] {
      DecodeItemsLength(items[..|items| - 1], gen);
    }
  }

  /** A failure on a prefix of the items is the failure of the whole list. */
  lemma {:induction false} DecodeItemsPrefixFails(items: seq<Value>, i: nat, gen: Gen)
    requires i <= |items|
    requires DecodeItems(items[..i], gen).Err?
    ensures DecodeItems(items, gen) == DecodeItems(items[..i], gen)
    decreases |items| - i
  {
    if i < |items| {
      var init := items[..|items| - 1];
      assert init[..i] == items[..i];
      DecodeItemsPrefixFails(init, i, gen);
    } else {
      assert items[..i] == items;
    }
  }

  /** One more item decoded: the list grows by it, or the item's error ends the whole decode. */
  lemma {:induction false} DecodeItemsStep(items: seq<Value>, i: nat, gen: Gen, decoded: seq<Prompt>)
    requires i < |items|
    requires DecodeItems(items[..i], gen) == Ok(decoded)
    ensures FromDict(items[i], gen(i)).Ok? ==>
              DecodeItems(items[..i + 1], gen) == Ok(decoded + [FromDict(items[i], gen(i)).value])
    ensures FromDict(items[i], gen(i)).Err? ==>
              DecodeItems(items, gen) == Err(BadRecord(FromDict(items[i], gen(i)).error))
  {
    assert items[..i + 1][..i] == items[..i];
    if FromDict(items[i], gen(i)).Err? {
      DecodeItemsPrefixFails(items, i + 1, gen);
    }
  }

  lemma {:induction false} DecodeEncodedItems(ps: seq<Prompt>, gen: Gen)
    ensures DecodeItems(Encode(ps).items, gen) == Ok(ps)
    decreases |ps|
  {
    if ps != [] {
      var n := |ps| - 1;
      assert Encode(ps).items[..n] == Encode(ps[..n]).items;
      DecodeEncodedItems(ps[..n], gen);
      RoundTrip(ps[n], gen(n));
      assert ps[..n] + [ps[n]] == ps;
    }
  }

  /** The saved document holds, at each index, the dictionary of the prompt at that index. */
  lemma EncodeAt(ps: seq<Prompt>, k: nat)
    requires k < |ps|
    ensures Encode(ps).items[k] == JObj(ToDict(ps[k]))
  {
  }

  /** After `save_prompts(ps)`, `load_prompts()` returns `ps` field for field. */
  lemma SaveThenLoad(ps: seq<Prompt>, gen: Gen)
    ensures Loaded(Doc(Encode(ps)), gen) == Ok(ps)
  {
    DecodeEncodedItems(ps, gen);
  }

  /** A missing or undecodable file loads as the empty list instead of failing. */
  lemma {:induction false} UnreadableLoadsEmpty(file: Stored, gen: Gen)
    requires file == Missing || file == Corrupt
    ensures Loaded(file, gen) == Ok([])
  {
    assert RawDocument(file) == JArr([]);
  }

  function Ids(ps: seq<Prompt>): set<string> {
    set p | p in ps :: p.id
  }

  function IdIsNot(id: string): Prompt -> bool {
    (p: Prompt) => p.id != id
  }

  function IdNotIn(ids: set<string>): Prompt -> bool {
    (p: Prompt) => p.id !in ids
  }

  /** The index of the first record with the given id. */
  function IndexOfId(ps: seq<Prompt>, id: string): (r: Option<nat>)
    ensures r.Some? ==> r.value < |ps| && ps[r.value].id == id
    ensures r.Some? ==> forall k | 0 <= k < r.value :: ps[k].id != id
    ensures r.None? ==> forall k | 0 <= k < |ps| :: ps[k].id != id
  {
    if ps == [] then None
    else if ps[0].id == id then Some(0)
    else match IndexOfId(ps[1..], id)
      case None => None
      case Some(i) => Some(i + 1)
  }

  /** What `import_from_file` leaves in the store: the old records, then the new-id items in file order. */
  function Imported(existing: seq<Prompt>, incoming: seq<Prompt>): seq<Prompt> {
    existing + Filter(incoming, IdNotIn(Ids(existing)))
  }

  /** `json.load` of the import file. */
  function ReadImport(source: Stored): Result<Value, Error> {
    match source
    case Missing => Err(FileNotFound)
    case Corrupt => Err(InvalidJson)
    case Doc(v) => Ok(v)
  }

  /** One more imported item decodes to `prompt`, which is kept exactly when its id is new. */
  lemma ImportStep(items: seq<Value>, i: nat, gen: Gen, decoded: seq<Prompt>, prompt: Prompt, ids: set<string>)
    requires i < |items|
    requires DecodeItems(items[..i], gen) == Ok(decoded) && FromDict(items[i], gen(i)) == Ok(prompt)
    ensures DecodeItems(items[..i + 1], gen) == Ok(decoded + [prompt])
    ensures Filter(decoded + [prompt], IdNotIn(ids)) == Filter(decoded, IdNotIn(ids)) + if prompt.id !in ids then [prompt] else []
  {
    DecodeItemsStep(items, i, gen, decoded);
    FilterConcat(decoded, [prompt], IdNotIn(ids));
    assert Filter([prompt], IdNotIn(ids)) == if prompt.id !in ids then [prompt] else [];
  }

  /**
   * The loop of `import_from_file`: decode `items` in file order and append to
   * `existing` each one whose id is not in `ids`; the first item that does
   * not decode stops the import with its error. Also returns how many were
   * appended.
   */
  method AppendNew(items: seq<Value>, importGen: Gen, existing: seq<Prompt>, ids: set<string>)
    returns (r: Result<(seq<Prompt>, nat), Error>)
    ensures DecodeItems(items, importGen).Err? ==> r == Err(DecodeItems(items, importGen).error)
    ensures DecodeItems(items, importGen).Ok? ==>
              var kept := Filter(DecodeItems(items, importGen).value, IdNotIn(ids));
              r == Ok((existing + kept, |kept|))
  {
    var result := existing;
    var imported := 0;
    var i := 0;
    ghost var decoded: seq<Prompt> := [];
    ghost var kept: seq<Prompt> := [];
    while i < |items|
      invariant 0 <= i <= |items|
      invariant DecodeItems(items[..i], importGen) == Ok(decoded)
      invariant kept == Filter(decoded, IdNotIn(ids))
      invariant result == existing + kept
      invariant imported == |kept|
    {
      var item := FromDict(items[i], importGen(i));
      DecodeItemsStep(items, i, importGen, decoded);
      if item.Err? {
        return Err(BadRecord(item.error));
      }
      var prompt := item.value;
      ImportStep(items, i, importGen, decoded, prompt, ids);
      if prompt.id !in ids {
        result := result + [prompt];
        imported := imported + 1;
        kept := kept + [prompt];
      }
      decoded := decoded + [prompt];
      i := i + 1;
    }
    assert items[..i] == items;
    return Ok((result, imported));
  }

  class Storage {
    /** The contents of `prompts.json`. */
    var file: Stored

    /** `Storage(data_dir)`: `_ensure_data_dir` writes `[]` when the file does not exist. */
    constructor(initial: Stored)
      ensures file == if initial == Missing then Doc(JArr([])) else initial
    {
      file := initial;
      new;
      EnsureDataDir();
    }

    /** `_ensure_data_dir`. */
    method EnsureDataDir()
      modifies this
      ensures file == if old(file) == Missing then Doc(JArr([])) else old(file)
    {
      if file == Missing {
        file := Doc(JArr([]));
      }
    }

    /** `_load_raw`. */
    method LoadRaw() returns (v: Value)
      ensures v == RawDocument(file)
    {
      match file
      case Doc(d) => v := d;
      case _ => v := JArr([]);
    }

    /** `load_prompts`. */
    method LoadPrompts(gen: Gen) returns (r: Result<seq<Prompt>, Error>)
      ensures r == Loaded(file, gen)
    {
      var data := LoadRaw();
      r := Decode(data, gen);
    }

    /** `save_prompts`. */
    method SavePrompts(ps: seq<Prompt>)
      modifies this
      ensures file == Doc(Encode(ps))
    {
      file := Doc(Encode(ps));
    }

    /** `add_prompt`: append at the end, save, return the same record. */
    method AddPrompt(prompt: Prompt, gen: Gen) returns (r: Result<Prompt, Error>)
      modifies this
      ensures old(Loaded(file, gen)).Err? ==> r == Err(old(Loaded(file, gen)).error) && file == old(file)
      ensures old(Loaded(file, gen)).Ok? ==>
                r == Ok(prompt) && file == Doc(Encode(old(Loaded(file, gen)).value + [prompt]))
    {
      var loaded := LoadPrompts(gen);
      if loaded.Err? {
        return Err(loaded.error);
      }
      var prompts := loaded.value + [prompt];
      SavePrompts(prompts);
      return Ok(prompt);
    }

    /**
     * `update_prompt`: the first record with the prompt's id is replaced by the
     * prompt with a new `updated_at`; without such a record nothing is saved.
     */
    method UpdatePrompt(prompt: Prompt, now: string, gen: Gen) returns (r: Result<bool, Error>)
      modifies this
      ensures old(Loaded(file, gen)).Err? ==> r == Err(old(Loaded(file, gen)).error) && file == old(file)
      ensures old(Loaded(file, gen)).Ok? ==>
                var ps := old(Loaded(file, gen)).value;
                match IndexOfId(ps, prompt.id)
                case None => r == Ok(false) && file == old(file)
                case Some(i) => r == Ok(true) && file == Doc(Encode(ps[i := Touch(prompt, now)]))
    {
      var loaded := LoadPrompts(gen);
      if loaded.Err? {
        return Err(loaded.error);
      }
      var prompts := loaded.value;
      var i := 0;
      while i < |prompts|
        invariant 0 <= i <= |prompts|
        invariant forall k | 0 <= k < i :: prompts[k].id != prompt.id
      {
        if prompts[i].id == prompt.id {
          var touched := Touch(prompt, now);
          prompts := prompts[i := touched];
          SavePrompts(prompts);
          return Ok(true);
        }
        i := i + 1;
      }
      return Ok(false);
    }

    /** `delete_prompt`: drop every record with the id; save only when one was dropped. */
    method DeletePrompt(id: string, gen: Gen) returns (r: Result<bool, Error>)
      modifies this
      ensures old(Loaded(file, gen)).Err? ==> r == Err(old(Loaded(file, gen)).error) && file == old(file)
      ensures old(Loaded(file, gen)).Ok? ==>
                var ps := old(Loaded(file, gen)).value;
                var kept := Filter(ps, IdIsNot(id));
                r == Ok(|kept| < |ps|) && file == (if |kept| < |ps| then Doc(Encode(kept)) else old(file))
    {
      var loaded := LoadPrompts(gen);
      if loaded.Err? {
        return Err(loaded.error);
      }
      var prompts := loaded.value;
      var originalLength := |prompts|;
      prompts := Filter(prompts, IdIsNot(id));
      if |prompts| < originalLength {
        SavePrompts(prompts);
        return Ok(true);
      }
      return Ok(false);
    }

    /** `export_to_file`: the document written to the export path; the store's own file is untouched. */
    method ExportToFile(gen: Gen) returns (r: Result<Value, Error>)
      ensures Loaded(file, gen).Err? ==> r == Err(Loaded(file, gen).error)
      ensures Loaded(file, gen).Ok? ==> r == Ok(Encode(Loaded(file, gen).value))
    {
      var loaded := LoadPrompts(gen);
      if loaded.Err? {
        return Err(loaded.error);
      }
      return Ok(Encode(loaded.value));
    }

    /**
     * `import_from_file`: append, in file order, the items whose id was not in
     * the store before the import, and return how many were appended. The id
     * set is taken once, so two new items that share an id are both appended.
     */
    method ImportFromFile(source: Stored, gen: Gen, importGen: Gen) returns (r: Result<nat, Error>)
      modifies this
      ensures ReadImport(source).Err? ==> r == Err(ReadImport(source).error) && file == old(file)
      ensures ReadImport(source).Ok? && old(Loaded(file, gen)).Err? ==>
                r == Err(old(Loaded(file, gen)).error) && file == old(file)
      ensures ReadImport(source).Ok? && old(Loaded(file, gen)).Ok? ==>
                var existing := old(Loaded(file, gen)).value;
                var incoming := Decode(ReadImport(source).value, importGen);
                if incoming.Err? then r == Err(incoming.error) && file == old(file)
                else
                  r == Ok(|Filter(incoming.value, IdNotIn(Ids(existing)))|)
                  && file == Doc(Encode(Imported(existing, incoming.value)))
    {
      if source == Missing {
        return Err(FileNotFound);
      }
      if source == Corrupt {
        return Err(InvalidJson);
      }
      var data := source.value;
      var loaded := LoadPrompts(gen);
      if loaded.Err? {
        return Err(loaded.error);
      }
      var existing := loaded.value;
      var existingIds := Ids(existing);
      var elements := Elements(data);
      if elements.Err? {
        assert Decode(data, importGen) == Err(elements.error);
        return Err(elements.error);
      }
      assert Decode(data, importGen) == DecodeItems(elements.value, importGen);
      var appended := AppendNew(elements.value, importGen, existing, existingIds);
      if appended.Err? {
        return Err(appended.error);
      }
      existing := appended.value.0;
      SavePrompts(existing);
      return Ok(appended.value.1);
    }
  }

  /** After `add_prompt`, the stored list is the old one with the record at the end. */
  lemma AddAppends(ps: seq<Prompt>, prompt: Prompt, gen: Gen)
    ensures Loaded(Doc(Encode(ps + [prompt])), gen) == Ok(ps + [prompt])
    ensures |ps + [prompt]| == |ps| + 1 && (ps + [prompt])[..|ps|] == ps && (ps + [prompt])[|ps|] == prompt
  {
    SaveThenLoad(ps + [prompt], gen);
  }

  /**
   * After a successful `update_prompt`, the stored list has the same length,
   * holds the touched record at the first index with that id, and is unchanged
   * at every other index.
   */
  lemma {:induction false} UpdateReplacesFirst(ps: seq<Prompt>, prompt: Prompt, now: string, gen: Gen)
    requires IndexOfId(ps, prompt.id).Some?
    ensures var i := IndexOfId(ps, prompt.id).value;
            var after := ps[i := Touch(prompt, now)];
            && Loaded(Doc(Encode(after)), gen) == Ok(after)
            && |after| == |ps|
            && after[i] == Touch(prompt, now)
            && (forall k | 0 <= k < i :: ps[k].id != prompt.id)
            && (forall k | 0 <= k < |ps| && k != i :: after[k] == ps[k])
  {
    var i := IndexOfId(ps, prompt.id).value;
    SaveThenLoad(ps[i := Touch(prompt, now)], gen);
  }

  /**
   * `delete_prompt` keeps, in order, exactly the records with another id, and
   * reports a removal exactly when some record had the id.
   */
  lemma DeleteFilters(ps: seq<Prompt>, id: string, gen: Gen)
    ensures var kept := Filter(ps, IdIsNot(id));
            && IsSubsequence(kept, ps)
            && (forall p :: p in kept <==> p in ps && p.id != id)
            && (|kept| < |ps| <==> exists k | 0 <= k < |ps| :: ps[k].id == id)
            && Loaded(Doc(Encode(kept)), gen) == Ok(kept)
  {
    var kept := Filter(ps, IdIsNot(id));
    FilterIsSubsequence(ps, IdIsNot(id));
    forall p ensures p in kept <==> p in ps && p.id != id {
      FilterMembers(ps, IdIsNot(id), p);
    }
    FilterShrinks(ps, IdIsNot(id));
    SaveThenLoad(kept, gen);
  }

  /**
   * `import_from_file` keeps the old records as a prefix and appends, in file
   * order, exactly the items whose id was not already stored.
   */
  lemma ImportAppendsNewIds(existing: seq<Prompt>, incoming: seq<Prompt>)
    ensures var added := Imported(existing, incoming)[|existing|..];
            && Imported(existing, incoming)[..|existing|] == existing
            && IsSubsequence(added, incoming)
            && (forall p :: p in added <==> p in incoming && p.id !in Ids(existing))
  {
    var f := IdNotIn(Ids(existing));
    var added := Filter(incoming, f);
    assert Imported(existing, incoming)[|existing|..] == added;
    FilterIsSubsequence(incoming, f);
    forall p ensures p in added <==> p in incoming && p.id !in Ids(existing) {
      FilterMembers(incoming, f, p);
    }
  }

  /** Two imported records that share an id the store did not have are both appended. */
  lemma {:induction false} ImportKeepsSharedNewIds(existing: seq<Prompt>, a: Prompt, b: Prompt)
    requires a.id == b.id && a.id !in Ids(existing)
    ensures Imported(existing, [a, b]) == existing + [a, b]
  {
    var f := IdNotIn(Ids(existing));
    FilterKeepsAll([a, b], f);
  }
}
