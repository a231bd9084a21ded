/**
 * src/config.py: the application settings kept in `config.json`, read with
 * `load_config`, looked up by typed getters that fall back to a default, and
 * changed by setters that read the file, change one key and write it back.
 */
module Config {
  import opened Wrappers
  import opened Text
  import opened Json

  const DataDirKey: string := "data_dir"
  const SortOptionKey: string := "sort_option"
  const ThemeKey: string := "theme"
  const UiScaleKey: string := "ui_scale"

  /** The defaults of the getters' `default` parameters. */
  const DefaultSortOption: string := "Recently updated"
  const DefaultTheme: string := "light"
  const DefaultUiScale: string := "auto"

  /** `load_config`: the decoded document when it is an object, `{}` otherwise (no file, bad JSON, or another kind of value). */
  function LoadConfig(file: Stored): (config: map<string, Value>)
    ensures file.Doc? && file.value.JObj? ==> config == file.value.fields
    ensures !(file.Doc? && file.value.JObj?) ==> config == map[]
  {
    if file.Doc? && file.value.JObj? then file.value.fields else map[]
  }

  /** What `save_config(config)` leaves in the file. */
  function Saved(config: map<string, Value>): Stored {
    Doc(JObj(config))
  }

  /** Saving and loading again gives back the same settings. */
  lemma {:induction false} LoadSaved(config: map<string, Value>)
    ensures LoadConfig(Saved(config)) == config
  {
  }

  /** The stored value of `key` when it is a string with a non-whitespace character. */
  predicate HasText(config: map<string, Value>, key: string) {
    key in config && config[key].JStr? && !IsBlank(config[key].s)
  }

  /** `get_data_dir` on the loaded settings. */
  function DataDir(config: map<string, Value>): (r: Option<string>)
    ensures r.Some? <==> HasText(config, DataDirKey)
    ensures r.Some? ==> r.value == config[DataDirKey].s && !IsBlank(r.value)
  {
    var v := Get(config, DataDirKey, JNull);
    if v.JStr? && !IsBlank(v.s) then Some(v.s) else None
  }

  /** The lookup shared by `get_sort_option` and `get_theme`: the stored text as it is, or the default. */
  function TextSetting(config: map<string, Value>, key: string, default: string): (r: string)
    ensures HasText(config, key) ==> r == config[key].s
    ensures !HasText(config, key) ==> r == default
  {
    var v := Get(config, key, JNull);
    if v.JStr? && !IsBlank(v.s) then v.s else default
  }

  /** `get_sort_option(default)`. */
  function SortOption(config: map<string, Value>, default: string): string {
    TextSetting(config, SortOptionKey, default)
  }

  /** `get_theme(default)`. */
  function Theme(config: map<string, Value>, default: string): string {
    TextSetting(config, ThemeKey, default)
  }

  /** A number or a boolean, which `isinstance(value, (int, float))` accepts. */
  predicate IsNumber(v: Value) {
    v.JNum? || v.JBool?
  }

  /**
   * `get_ui_scale(default)`. A stored number comes back as `str(float(value))`,
   * which is not modelled: the result is then `None`. Otherwise the result is
   * the stored text stripped, or the default when it is blank, missing or of
   * another type.
   */
  function UiScale(config: map<string, Value>, default: string): (r: Option<string>)
    ensures r.None? <==> UiScaleKey in config && IsNumber(config[UiScaleKey])
    ensures HasText(config, UiScaleKey) ==> r == Some(Strip(config[UiScaleKey].s))
    ensures r.Some? && !HasText(config, UiScaleKey) ==> r == Some(default)
  {
    var v := Get(config, UiScaleKey, JNull);
    if IsNumber(v) then None
    else if v.JStr? && !IsBlank(v.s) then Some(Strip(v.s))
    else Some(default)
  }

  /** Without a readable settings object every getter gives its default, and there is no data directory. */
  lemma {:induction false} UnreadableDefaults(file: Stored)
    requires !(file.Doc? && file.value.JObj?)
    ensures var config := LoadConfig(file);
            && DataDir(config) == None
            && SortOption(config, DefaultSortOption) == DefaultSortOption
            && Theme(config, DefaultTheme) == DefaultTheme
            && UiScale(config, DefaultUiScale) == Some(DefaultUiScale)
  {
    assert LoadConfig(file) == map[];
  }

  /** The file after a setter has stored `value` under `key`. */
  function WithSetting(file: Stored, key: string, value: string): (after: Stored)
    ensures LoadConfig(after) == LoadConfig(file)[key := JStr(value)]
  {
    Saved(LoadConfig(file)[key := JStr(value)])
  }

  /** A setter changes its own key only: every other key keeps its value, or stays absent. */
  lemma {:induction false} SettingKeepsOthers(file: Stored, key: string, value: string, other: string)
    requires other != key
    ensures other in LoadConfig(WithSetting(file, key, value)) <==> other in LoadConfig(file)
    ensures other in LoadConfig(file) ==> LoadConfig(WithSetting(file, key, value))[other] == LoadConfig(file)[other]
  {
    LoadSaved(LoadConfig(file)[key := JStr(value)]);
  }

  /** A file that holds no settings object loses whatever it held: the setter writes a document with its one key. */
  lemma {:induction false} SettingUnreadable(file: Stored, key: string, value: string)
    requires !(file.Doc? && file.value.JObj?)
    ensures WithSetting(file, key, value) == Doc(JObj(map[key := JStr(value)]))
  {
    assert LoadConfig(file) == map[];
  }

  /** After `set_data_dir(path)`, `get_data_dir` returns the path, unless it is blank. */
  lemma {:induction false} DataDirAfterSet(file: Stored, path: string)
    ensures DataDir(LoadConfig(WithSetting(file, DataDirKey, path))) == if IsBlank(path) then None else Some(path)
  {
    var config := LoadConfig(WithSetting(file, DataDirKey, path));
    assert DataDirKey in config && config[DataDirKey] == JStr(path);
  }

  /** After `set_sort_option(option)`, `get_sort_option` returns it, unless it is blank. */
  lemma {:induction false} SortOptionAfterSet(file: Stored, option: string, default: string)
    ensures SortOption(LoadConfig(WithSetting(file, SortOptionKey, option)), default) == if IsBlank(option) then default else option
  {
    var config := LoadConfig(WithSetting(file, SortOptionKey, option));
    assert SortOptionKey in config && config[SortOptionKey] == JStr(option);
  }

  /** After `set_theme(theme)`, `get_theme` returns it, unless it is blank. */
  lemma {:induction false} ThemeAfterSet(file: Stored, theme: string, default: string)
    ensures Theme(LoadConfig(WithSetting(file, ThemeKey, theme)), default) == if IsBlank(theme) then default else theme
  {
    var config := LoadConfig(WithSetting(file, ThemeKey, theme));
    assert ThemeKey in config && config[ThemeKey] == JStr(theme);
  }

  /** After `set_ui_scale(value)`, `get_ui_scale` returns it stripped, or the default when it is blank. */
  lemma {:induction false} UiScaleAfterSet(file: Stored, value: string, default: string)
    ensures UiScale(LoadConfig(WithSetting(file, UiScaleKey, value)), default) == Some(if IsBlank(value) then default else Strip(value))
  {
    var config := LoadConfig(WithSetting(file, UiScaleKey, value));
    assert UiScaleKey in config && config[UiScaleKey] == JStr(value);
  }

  /** Changing the theme leaves the other three settings as they were. */
  lemma {:induction false} ThemeKeepsOtherSettings(file: Stored, theme: string, default: string)
    ensures var before, after := LoadConfig(file), LoadConfig(WithSetting(file, ThemeKey, theme));
            && DataDir(after) == DataDir(before)
            && SortOption(after, default) == SortOption(before, default)
            && UiScale(after, default) == UiScale(before, default)
  {
    SettingKeepsOthers(file, ThemeKey, theme, DataDirKey);
    SettingKeepsOthers(file, ThemeKey, theme, SortOptionKey);
    SettingKeepsOthers(file, ThemeKey, theme, UiScaleKey);
  }

  /** `config.json` and the module-level functions that read and write it. */
  class ConfigFile {
    var file: Stored

    constructor(initial: Stored)
      ensures file == initial
    {
      file := initial;
    }

    /** `save_config(config)`: the file afterwards holds exactly `config`. */
    method Save(config: map<string, Value>)
      modifies this
      ensures file == Saved(config)
    {
      file := Saved(config);
    }

    /** The read-modify-write every setter performs. */
    method Set(key: string, value: string)
      modifies this
      ensures file == WithSetting(old(file), key, value)
    {
      var config := LoadConfig(file);
      config := config[key := JStr(value)];
      Save(config);
    }

    /** `set_data_dir(path)`. */
    method SetDataDir(path: string)
      modifies this
      ensures file == WithSetting(old(file), DataDirKey, path)
    {
      Set(DataDirKey, path);
    }

    /** `set_sort_option(option)`. */
    method SetSortOption(option: string)
      modifies this
      ensures file == WithSetting(old(file), SortOptionKey, option)
    {
      Set(SortOptionKey, option);
    }

    /** `set_theme(theme)`. */
    method SetTheme(theme: string)
      modifies this
      ensures file == WithSetting(old(file), ThemeKey, theme)
    {
      Set(ThemeKey, theme);
    }

    /** `set_ui_scale(value)`. */
    method SetUiScale(value: string)
      modifies this
      ensures file == WithSetting(old(file), UiScaleKey, value)
    {
      Set(UiScaleKey, value);
    }
  }
}
