/**
 * The prompt record of src/models.py: the closed category enumeration, the
 * record itself, its dictionary form (`to_dict`) and the defaulting decoder
 * (`from_dict`).
 */
module Models {
  import opened Wrappers
  import opened Json

  datatype Category = Persona | SystemPrompt | Template | Other

  /** `Category.value`: the string stored in the JSON file. */
  function CategoryValue(c: Category): string {
    match c
    case Persona => "Persona"
    case SystemPrompt => "System Prompt"
    case Template => "Template"
    case Other => "Other"
  }

  const CategoryValues: set<string> := {"Persona", "System Prompt", "Template", "Other"}

  /** `Category(v)`: the enum member whose value is `v`, or the `ValueError` case. */
  function ParseCategory(v: Value): (r: Option<Category>)
    ensures r.Some? ==> v == JStr(CategoryValue(r.value))
    ensures r.None? ==> !(v.JStr? && v.s in CategoryValues)
  {
    match v
    case JStr(s) =>
      if s == "Persona" then Some(Persona)
      else if s == "System Prompt" then Some(SystemPrompt)
      else if s == "Template" then Some(Template)
      else if s == "Other" then Some(Other)
      else None
    case _ => None
  }

  datatype Prompt = Prompt(
    id: string,
    name: string,
    content: string,
    category: Category,
    tags: seq<string>,
    sensitive: bool,
    pinned: bool,
    history: seq<Value>,
    createdAt: string,
    updatedAt: string)

  /** What `uuid4()` and `datetime.now().isoformat()` supply to one `from_dict` call. */
  datatype Fresh = Fresh(id: string, createdAt: string, updatedAt: string)

  /** The exceptions `from_dict` can end in. */
  datatype DecodeError =
    | MissingKey(key: string)         // KeyError on `data["name"]` or `data["content"]`
    | UnknownCategory(value: Value)   // ValueError from `Category(...)`
    | NotAMapping                     // AttributeError: the item has no `.get`
    | WrongType(key: string)          // a present value of a type the record cannot hold

  const DictKeys: set<string> :=
    {"id", "name", "content", "category", "tags", "sensitive", "pinned", "history", "created_at", "updated_at"}

  function Strings(ts: seq<string>): (r: seq<Value>)
    ensures |r| == |ts| && forall i | 0 <= i < |ts| :: r[i] == JStr(ts[i])
  {
    seq(|ts|, i requires 0 <= i < |ts| => JStr(ts[i]))
  }

  /** `Prompt.to_dict()`. */
  function ToDict(p: Prompt): (d: map<string, Value>)
    ensures d.Keys == DictKeys
    ensures d["category"].JStr? && d["category"].s in CategoryValues
    ensures ParseCategory(d["category"]) == Some(p.category)
  {
    map[
      "id" := JStr(p.id),
      "name" := JStr(p.name),
      "content" := JStr(p.content),
      "category" := JStr(CategoryValue(p.category)),
      "tags" := JArr(Strings(p.tags)),
      "sensitive" := JBool(p.sensitive),
      "pinned" := JBool(p.pinned),
      "history" := JArr(p.history),
      "created_at" := JStr(p.createdAt),
      "updated_at" := JStr(p.updatedAt)]
  }

  /** The strings of a JSON list of strings; `None` for anything else. */
  function StringList(v: Value): (r: Option<seq<string>>)
    ensures r.Some? ==> v == JArr(Strings(r.value))
    decreases v, 0
  {
    match v
    case JArr(items) => StringItems(items)
    case _ => None
  }

  function StringItems(items: seq<Value>): (r: Option<seq<string>>)
    ensures r.Some? ==> items == Strings(r.value)
    decreases items
  {
    if items == [] then Some([])
    else if !items[0].JStr? then None
    else match StringItems(items[1..])
      case None => None
      case Some(rest) =>
        assert items == [items[0]] + items[1..];
        Some([items[0].s] + rest)
  }

  lemma {:induction false} StringItemsOfStrings(ts: seq<string>)
    ensures StringItems(Strings(ts)) == Some(ts)
  {
    if ts != [] {
      StringItemsOfStrings(ts[1..]);
      assert Strings(ts)[1..] == Strings(ts[1..]);
      assert [ts[0]] + ts[1..] == ts;
    }
  }

  /** A required string field: `data[key]`. */
  function RequiredText(d: map<string, Value>, key: string): Result<string, DecodeError> {
    if key !in d then Err(MissingKey(key))
    else if d[key].JStr? then Ok(d[key].s)
    else Err(WrongType(key))
  }

  /** An optional string field: `data.get(key, default)`. */
  function OptionalText(d: map<string, Value>, key: string, default: string): Result<string, DecodeError> {
    if key !in d then Ok(default)
    else if d[key].JStr? then Ok(d[key].s)
    else Err(WrongType(key))
  }

  /**
   * `Prompt.from_dict(data)`. The exceptions Python raises come first, in the
   * order the constructor evaluates its arguments: a missing `name`, a missing
   * `content`, an unknown `category`. After them come the values of a type the
   * record cannot hold.
   */
  function FromDict(v: Value, supply: Fresh): (r: Result<Prompt, DecodeError>)
    ensures r.Ok? ==> v.JObj? && "name" in v.fields && "content" in v.fields
    ensures r.Ok? ==> v.fields["name"] == JStr(r.value.name) && v.fields["content"] == JStr(r.value.content)
  {
    if !v.JObj? then Err(NotAMapping)
    else
      var d := v.fields;
      var categoryValue := Get(d, "category", JStr("Other"));
      if "name" !in d then Err(MissingKey("name"))
      else if "content" !in d then Err(MissingKey("content"))
      else if ParseCategory(categoryValue).None? then Err(UnknownCategory(categoryValue))
      else
        var id :- OptionalText(d, "id", supply.id);
        var name :- RequiredText(d, "name");
        var content :- RequiredText(d, "content");
        var tags :- if "tags" !in d then Ok([])
                    else if StringList(d["tags"]).Some? then Ok(StringList(d["tags"]).value)
                    else Err(WrongType("tags"));
        var createdAt :- OptionalText(d, "created_at", supply.createdAt);
        var updatedAt :- OptionalText(d, "updated_at", supply.updatedAt);
        var history := Get(d, "history", JArr([]));
        Ok(Prompt(
          id := id,
          name := name,
          content := content,
          category := ParseCategory(categoryValue).value,
          tags := tags,
          sensitive := Truthy(Get(d, "sensitive", JBool(false))),
          pinned := Truthy(Get(d, "pinned", JBool(false))),
          history := if history.JArr? then history.items else [],
          createdAt := createdAt,
          updatedAt := updatedAt))
  }

  /** `from_dict(to_dict(p))` gives back `p`, whatever values the id and clock supply. */
  lemma RoundTrip(p: Prompt, supply: Fresh)
    ensures FromDict(JObj(ToDict(p)), supply) == Ok(p)
  {
    StringItemsOfStrings(p.tags);
  }

  /**
   * The keys `from_dict` does not require take fixed defaults: category
   * Other, no tags, not sensitive, not pinned, no history, and the fresh id
   * and timestamps.
   */
  lemma DefaultsWhenAbsent(name: string, content: string, supply: Fresh)
    ensures FromDict(JObj(map["name" := JStr(name), "content" := JStr(content)]), supply)
         == Ok(Prompt(supply.id, name, content, Other, [], false, false, [], supply.createdAt, supply.updatedAt))
  {
  }

  /** A `history` that is not a list decodes to the empty history. */
  lemma HistoryNotAList(d: map<string, Value>, supply: Fresh)
    requires "history" in d && !d["history"].JArr?
    requires FromDict(JObj(d), supply).Ok?
    ensures FromDict(JObj(d), supply).value.history == []
  {
  }

  /**
   * `from_dict` raises exactly the Python exceptions: a missing `name`, then a
   * missing `content`, then a `category` outside the four values.
   */
  lemma FromDictFailures(d: map<string, Value>, supply: Fresh)
    ensures FromDict(JObj(d), supply) == Err(MissingKey("name")) <==> "name" !in d
    ensures FromDict(JObj(d), supply) == Err(MissingKey("content")) <==> "name" in d && "content" !in d
    ensures "name" in d && "content" in d && "category" in d && !(d["category"].JStr? && d["category"].s in CategoryValues)
        ==> FromDict(JObj(d), supply) == Err(UnknownCategory(d["category"]))
  {
  }

  /** A well-typed dictionary with a known category decodes. */
  lemma FromDictSucceeds(d: map<string, Value>, supply: Fresh)
    requires "name" in d && d["name"].JStr? && "content" in d && d["content"].JStr?
    requires "category" in d ==> d["category"].JStr? && d["category"].s in CategoryValues
    requires forall k | k in {"id", "created_at", "updated_at"} && k in d :: d[k].JStr?
    requires "tags" in d ==> StringList(d["tags"]).Some?
    ensures FromDict(JObj(d), supply).Ok?
  {
    var c := Get(d, "category", JStr("Other"));
    assert c.JStr? && c.s in CategoryValues;
  }

  /** `Prompt.update()`: the record with `updated_at` set to `now`. */
  function Touch(p: Prompt, now: string): (r: Prompt)
    ensures r.updatedAt == now
    ensures r.(updatedAt := p.updatedAt) == p
  {
    p.(updatedAt := now)
  }
}
