# Prompt storage: a verified model of the prompt library's core

Prompt_storage is a desktop library of text prompts. Each prompt has a name and content. It also has:

- one of four categories and a list of tags;
- pinned and sensitive flags;
- a version history.

The prompts live in one JSON file. The user settings live in a second JSON file, `config.json`.

This project models the logic behind the windows, without the widgets:

- **Prompt records** (`Models`). The `Category` enum and `Prompt` records, with their conversion to and from JSON dictionaries.
- **Prompt store** (`PromptStorage`). It loads the whole file, changes the list and writes it back. It adds, updates, deletes, exports and imports prompts.
- **Tag-chip input** (`TagChips`). It keeps an ordered list of tags with no duplicates when case is ignored. It also turns the typed text into tags at `,`, `;` and newlines.
- **Prompt list** (`PromptListView`). It filters prompts by a search term and a category, and marks the selected prompt.
- **Dialog helpers** (`Dialogs`, `SnippetPicker`, `CommandPalette`):
  - window placement and moving the highlight with Up and Down;
  - the snippet search;
  - the command palette's scored actions and pinned-first prompts, at most 60 results;
  - labels, snippets and summaries shown in the dialogs.
- **Settings** (`Config`). These are getters with defaults over the loaded map. Each setter reads the file, changes one key and writes it back.

Most modules depend on three supporting modules:

- `Text` models Python's `str.strip`, `str.lower`, `in`, `startswith`, `str.join` and the two `re.split` patterns.
- `Seqs` holds filtering (list comprehensions), mapping and a stable descending sort, i.e. `sorted(..., reverse=True)`.
- `Json` holds JSON values and the stored state of a file: missing, not valid JSON, or a document.

Three things that are not pure become parameters:

- the files are abstract values that the classes hold;
- `uuid4()` and `datetime.now()` are a `Gen` parameter;
- `datetime.fromisoformat` becomes a `parseTime` parameter.

Two behaviours of the code worth knowing:

- `get_ui_scale` (`src/config.py:104-110`) has two branches. A stored number is turned into a string, and booleans count as numbers because `isinstance(True, int)` holds. A non-blank string comes back stripped. Any other value gives the default.
- `import_from_file` (`src/storage.py:93-101`) collects the known ids once, before its loop. So two new records that share an id are both appended. `ImportKeepsSharedNewIds` states this.

## Model

| member | source | states |
|---|---|---|
| Models.ParseCategory | src/models.py:9-14 | A category parses only from one of the four stored strings, and then gives the enum member whose value it is. |
| Models.ToDict | src/models.py:31-44 | The dictionary has exactly the ten keys. Its category is one of the four enum values, and parsing it gives back the prompt's category. |
| Models.StringItemsOfStrings | src/models.py:54 | A JSON list of strings reads back as those strings. |
| Models.FromDict | src/models.py:46-60 | A successful decode came from an object whose `name` and `content` are the decoded ones. |
| Models.RoundTrip | src/models.py:31-60 | `from_dict(to_dict(p))` is `p` on every field, whatever id and clock values would have been drawn. |
| Models.DefaultsWhenAbsent | src/models.py:50-57 | A dictionary with only `name` and `content` decodes with the drawn id and timestamps. The category is Other. Tags and history are empty. The sensitive and pinned flags are false. |
| Models.HistoryNotAList | src/models.py:57 | A `history` that is not a list decodes to the empty history. |
| Models.FromDictFailures | src/models.py:51-53 | Decoding fails with a missing `name` exactly when `name` is absent. It fails with a missing `content` exactly when only `content` is absent. An unknown category ends in the `ValueError` case. |
| Models.FromDictSucceeds | src/models.py:46-60 | A well-typed dictionary with a known or absent category decodes. |
| Models.Touch | src/models.py:62-64 | `update()` sets `updated_at` to the given time and changes no other field. |
| PromptStorage.Encode | src/storage.py:48-51 | The saved document is a list with one entry per prompt. |
| PromptStorage.EncodeAt | src/storage.py:48-51 | The entry at each index is `to_dict` of the prompt at that index. |
| PromptStorage.DecodeItemsLength | src/storage.py:43-46 | A successful load gives one prompt per stored item. |
| PromptStorage.DecodeItemsPrefixFails | src/storage.py:43-46 | If an item fails, the items after it do not change the load's result. |
| PromptStorage.DecodeItemsStep | src/storage.py:43-46 | Decoding one more item either appends it or ends in that item's error. |
| PromptStorage.DecodeEncodedItems | src/storage.py:43-51 | Decoding the saved items gives back the prompts. |
| PromptStorage.SaveThenLoad | src/storage.py:43-51 | After `save_prompts(ps)`, `load_prompts()` returns `ps`. |
| PromptStorage.UnreadableLoadsEmpty | src/storage.py:35-41 | A missing or undecodable file loads as the empty list instead of failing. |
| PromptStorage.IndexOfId | src/storage.py:63-64 | The index found holds the id and no earlier record does. No index means no record has the id. |
| PromptStorage.Storage.constructor | src/storage.py:13-28 | A store whose file did not exist starts with the empty list written. Any other file is kept as it is. |
| PromptStorage.Storage.EnsureDataDir | src/storage.py:24-28 | `[]` is written when the file is missing. Otherwise nothing changes. |
| PromptStorage.Storage.LoadRaw | src/storage.py:35-41 | Returns the stored document, or the empty list for a missing or undecodable file. |
| PromptStorage.Storage.LoadPrompts | src/storage.py:43-46 | Returns the decoded records of the file, or the first decoding error. |
| PromptStorage.Storage.SavePrompts | src/storage.py:30-33 | The file afterwards holds the encoded prompts. |
| PromptStorage.Storage.AddPrompt | src/storage.py:53-58 | Saves the old list with the prompt appended and returns that prompt. On a load error it returns the error and the file is unchanged. |
| PromptStorage.Storage.UpdatePrompt | src/storage.py:60-69 | With no record of that id it returns false and saves nothing. Otherwise the first record with the id is replaced by the touched prompt, the list is saved, and it returns true. |
| PromptStorage.Storage.DeletePrompt | src/storage.py:71-79 | Drops every record with the id. It saves and returns true exactly when the list got shorter. Otherwise the file is unchanged and it returns false. |
| PromptStorage.Storage.ExportToFile | src/storage.py:81-86 | Writes the encoded loaded list, or returns the load error. |
| PromptStorage.AppendNew | src/storage.py:96-101 | The import loop. Items are decoded in file order. The first item that does not decode returns its error. Otherwise the result is the existing list followed by the decoded items whose id is not in the given set, together with how many were appended. |
| PromptStorage.Storage.ImportFromFile | src/storage.py:88-104 | A missing or non-JSON import file, or an undecodable store or item, returns the error and leaves the store unchanged. Otherwise it appends the items whose id was not stored before and returns how many. |
| PromptStorage.AddAppends | src/storage.py:53-58 | After an add, the stored list is one longer, keeps the old list as its prefix, ends with the prompt, and loads back as such. |
| PromptStorage.UpdateReplacesFirst | src/storage.py:63-68 | After an update, the length is kept and the first index with the id holds the touched prompt. Every other index is unchanged. |
| PromptStorage.DeleteFilters | src/storage.py:71-79 | The kept records are an order-preserving subsequence. They are exactly the records with another id. The list is shorter exactly when some record had the id. |
| PromptStorage.ImportAppendsNewIds | src/storage.py:93-104 | The old records stay as a prefix. The appended part is a subsequence of the import, in file order, made of exactly the items whose id was not stored. |
| PromptStorage.ImportKeepsSharedNewIds | src/storage.py:94-101 | Two imported records that share an id the store did not have are both appended. |
| TagChips.HasTagLowerSet | src/components/tag_chips.py:131-133 | `_has_tag` holds exactly when the lower-cased tag is among the lower-cased stored tags. |
| TagChips.AddSpec | src/components/tag_chips.py:135-141 | Adding leaves the list as it was or appends the stripped tag. |
| TagChips.AddSpecCases | src/components/tag_chips.py:128-141 | A blank tag or a duplicate (ignoring case) leaves the list unchanged. Any other tag is appended stripped. |
| TagChips.AddSpecKeepsOk | src/components/tag_chips.py:128-141 | Adding keeps every tag non-empty and stripped, with no two equal ignoring case. |
| TagChips.AppendKeepsOk | src/components/tag_chips.py:140 | Appending a stripped, non-empty tag that is new ignoring case keeps the list valid. |
| TagChips.FirstIndex | src/components/tag_chips.py:147-148 | The index found holds the tag and no earlier index does. No index means the tag is absent. |
| TagChips.RemoveFirstFacts | src/components/tag_chips.py:146-154 | Removing an absent tag changes nothing. Otherwise exactly one occurrence is gone: the length drops by one and the multiset loses that one tag. |
| TagChips.RemoveFirstKeepsOk | src/components/tag_chips.py:146-154 | Removing keeps the list valid. |
| TagChips.RemoveLastTag | src/components/tag_chips.py:198-203 | Removing the last tag of a valid list drops exactly the last element. |
| TagChips.AddAll | src/components/tag_chips.py:117-120 | Adding several tags keeps the old list as a prefix. |
| TagChips.AddAllSnoc | src/components/tag_chips.py:118-119 | Adding a list and then one tag is adding the longer list. |
| TagChips.AddAllKeepsOk | src/components/tag_chips.py:117-120 | Adding several tags keeps the list valid. |
| TagChips.FirstOccurrencesCover | src/components/tag_chips.py:117-120 | The first occurrences cover every case-folded piece and are a subsequence of the pieces. |
| TagChips.AddAllFirstOccurrences | src/components/tag_chips.py:117-120 | Adding a list appends, in order, the stripped non-empty items whose case-folded form is new. |
| TagChips.SetTagsResult | src/components/tag_chips.py:117-120 | `set_tags(xs)` gives the stripped, non-empty, case-insensitively deduplicated items of `xs` in first-occurrence order, and a valid list. |
| TagChips.SeparatorCountZero | src/components/tag_chips.py:173 | The text has no separator exactly when its separator count is zero. |
| TagChips.ContainsKeepsNoSeparator | src/components/tag_chips.py:175-180 | A substring of separator-free text is separator-free. |
| TagChips.Extracted | src/components/tag_chips.py:163-182 | Every extracted tag is non-empty and stripped. For non-blank text, what stays in the entry has no separator. |
| TagChips.ExtractedCases | src/components/tag_chips.py:163-182 | A forced extraction returns the stripped non-empty pieces and empties the entry. An unforced one without a separator changes nothing. Otherwise it returns the pieces before the last separator and leaves the last segment, stripped, in the entry. |
| TagChips.PiecesConcat | src/components/tag_chips.py:170-178 | The pieces of two lists joined are the pieces of each, in order. |
| TagChips.PiecesLast | src/components/tag_chips.py:176-178 | The pieces of a split are those before the last segment, then the last segment's. |
| TagChips.ForcedWithoutSeparator | src/components/tag_chips.py:168-171 | Forcing text with no separator yields the text stripped, unless it is blank. |
| TagChips.UnforcedWithSeparator | src/components/tag_chips.py:173-180 | With a separator, the unforced tags are the pieces before the last segment. The forced tags are all the pieces. |
| TagChips.UnforcedThenForced | src/components/tag_chips.py:163-195 | Typing a separator and then leaving the field commits the same tags as leaving it at once. |
| TagChips.UnforcedKeepsText | src/components/tag_chips.py:164-165 | Blank or separator-free text is left untouched by an unforced extraction. |
| TagChips.UnforcedSplits | src/components/tag_chips.py:168-180 | The unforced tags followed by the forced tags of what remains are the forced tags of the whole text. |
| TagChips.UnforcedIdempotent | src/components/tag_chips.py:173-182 | A second unforced extraction finds no separator and changes nothing. |
| TagChips.RemoveAtKeepsPairing | src/components/tag_chips.py:149-150 | Popping the same index from the tags and the chips keeps one chip per tag. |
| TagChips.TagChipsInput.constructor | src/components/tag_chips.py:62-112 | The widget starts with no tags, no chips, an empty entry and no change reported. |
| TagChips.TagChipsInput.EmitChange | src/components/tag_chips.py:124-126 | The callback runs once when one was given. |
| TagChips.TagChipsInput.GetTags | src/components/tag_chips.py:114-115 | Returns the current tags. |
| TagChips.TagChipsInput.AddTag | src/components/tag_chips.py:135-144 | The tags become the added list and validity is kept. The change is reported only when notifying and the list changed. |
| TagChips.TagChipsInput.RemoveTag | src/components/tag_chips.py:146-154 | The first exactly-equal tag and its chip are removed and validity is kept. A change is reported only when the tag was present. |
| TagChips.TagChipsInput.ClearTags | src/components/tag_chips.py:156-161 | No tags and no chips remain. |
| TagChips.TagChipsInput.SetTags | src/components/tag_chips.py:117-122 | The tags become the deduplicated stripped input. One change is reported when notify is set. |
| TagChips.TagChipsInput.ExtractTags | src/components/tag_chips.py:163-182 | The returned tags and the new entry are the extraction of the old entry. |
| TagChips.TagChipsInput.CommitEntry | src/components/tag_chips.py:184-186 | Every extracted tag is added with notification, so one change is reported per tag that was new. |
| TagChips.TagChipsInput.OnReturn | src/components/tag_chips.py:188-190 | A forced commit that stops the event: the entry keeps what the extraction leaves, the extracted tags are added, and one change is reported per tag added. |
| TagChips.TagChipsInput.OnFocusOut | src/components/tag_chips.py:192-193 | A forced commit: the extracted tags are added and one change is reported per tag added. |
| TagChips.TagChipsInput.OnKeyRelease | src/components/tag_chips.py:195-196 | An unforced commit: only the tags closed by a separator are added, and one change is reported per tag added. |
| TagChips.TagChipsInput.OnBackspace | src/components/tag_chips.py:198-204 | With text in the entry nothing changes. With an empty entry the last tag is removed and the event stopped. With no tags nothing changes. |
| PromptListView.FilteredMembers | src/components/prompt_list.py:179-194 | The shown prompts are an order-preserving subsequence of the prompts. They are exactly those that match the term, when there is one, and the category, when one is set. |
| PromptListView.FilteredCategory | src/components/prompt_list.py:191-192 | With a category filter, every shown prompt has that category. |
| PromptListView.FilteredSearch | src/components/prompt_list.py:183-189 | With a search term, every shown prompt contains it in its lower-cased name, content or some tag. |
| PromptListView.FilteredNothing | src/components/prompt_list.py:179-194 | With no term and no category, every prompt is shown in order. |
| PromptListView.FiltersCommute | src/components/prompt_list.py:183-192 | Filtering by category first and then by term gives the same list. |
| PromptListView.ItemsFor | src/components/prompt_list.py:197-216 | One item per prompt, in order. An item is selected exactly when its id is the selected prompt's. |
| PromptListView.PromptList.constructor | src/components/prompt_list.py:141-162 | The list starts empty, with no term, no category filter and no selection. |
| PromptListView.PromptList.SetPrompts | src/components/prompt_list.py:164-167 | The prompts are replaced and the shown list is refiltered. |
| PromptListView.PromptList.SetSearch | src/components/prompt_list.py:169-172 | The term is stored lower-cased and the shown list is refiltered. |
| PromptListView.PromptList.SetCategoryFilter | src/components/prompt_list.py:174-177 | The category filter is stored and the shown list is refiltered. |
| PromptListView.PromptList.ApplyFilters | src/components/prompt_list.py:179-195 | The shown prompts are the filtered prompts and the items are rebuilt for them. |
| PromptListView.PromptList.RebuildList | src/components/prompt_list.py:197-216 | The items are one per shown prompt, with the selected one highlighted. |
| PromptListView.PromptList.OnItemSelect | src/components/prompt_list.py:218-225 | The prompt becomes the selection. Exactly the items with its id are marked, and the prompt goes to `on_select`. |
| Dialogs.CenterOnScreen | src/components/dialogs.py:43-50 | The window is at least 320 by 220 with x and y at least 0. It is no larger than the screen less the margin, or the minimum, and keeps a size that already fits. It is centred to within one pixel when it fits the screen. |
| Dialogs.MoveUp | src/components/dialogs.py:659-664 | With no results the index stays. Otherwise it stays in range and does not increase. |
| Dialogs.MoveDown | src/components/dialogs.py:666-671 | With no results the index stays. Otherwise it stays in range and does not decrease. |
| Dialogs.UpDownInverse | src/components/dialogs.py:1225-1237 | Up and Down undo each other away from the ends. Up leaves the index unchanged exactly at the first result, and Down exactly at the last. |
| Dialogs.Truncate | src/components/dialogs.py:620-621 | Text within the limit is kept. Longer text becomes at most `cut` characters of its start, then "...". |
| Dialogs.WithPart | src/components/dialogs.py:624-626 | The label starts with its head and is exactly the head when the extra part is empty. |
| Dialogs.Lines | src/components/dialogs.py:616-619 | The line pieces contain no line boundary. |
| Dialogs.FirstNonBlank | src/components/dialogs.py:616-619 | A non-empty first line is stripped. |
| Dialogs.FirstNonBlankEmpty | src/components/dialogs.py:616-619 | There is no first line exactly when every line is blank. |
| Dialogs.FirstNonBlankIsFirst | src/components/dialogs.py:616-619 | The first line is the first non-blank line, stripped. |
| Dialogs.FirstThree | src/components/dialogs.py:1205 | `tags[:3]` is a prefix of at most three tags, and all of them when there are at most three. |
| Dialogs.JoinEmpty | src/components/dialogs.py:1396-1397 | A join of non-empty parts is empty exactly when there are none, and starts with the first part. |
| Dialogs.ReplaceNewlines | src/components/dialogs.py:1383 | The length is kept, no newline remains, and every other character is unchanged. |
| Dialogs.BuildSnippet | src/components/dialogs.py:1382-1386 | The snippet has at most 80 characters and no newline. It is the stripped, newline-replaced content when that fits. |
| Dialogs.BuildMetaFacts | src/components/dialogs.py:1388-1397 | The summary is empty exactly when the name, the shown category and the tag text all are. It starts with the name when there is one. |
| SnippetPicker.SnippetFilterFacts | src/components/dialogs.py:584-595 | A blank term keeps every snippet. Any term keeps an order-preserving subsequence. A non-blank term keeps exactly the snippets whose name, category or content contains it, lower-cased. |
| SnippetPicker.NothingFiltered | src/components/dialogs.py:579 | The empty term of the opening filter shows every snippet. |
| SnippetPicker.ShownLine | src/components/dialogs.py:614-621 | The shown line is empty exactly when the content has no non-blank line, and has at most 74 characters. |
| SnippetPicker.SnippetPickerDialog.constructor | src/components/dialogs.py:511-579 | The dialog opens showing every snippet with the first highlighted. Nothing is inserted and the dialog is open. |
| SnippetPicker.SnippetPickerDialog.ApplyFilter | src/components/dialogs.py:584-596 | The buttons show the snippets the term keeps, with the first highlighted. |
| SnippetPicker.SnippetPickerDialog.Results | src/components/dialogs.py:585-595 | The kept snippets for the term. |
| SnippetPicker.SnippetPickerDialog.RebuildResults | src/components/dialogs.py:598-642 | One label per filtered snippet, in order, and the highlight reset to 0. |
| SnippetPicker.SnippetPickerDialog.OnUp | src/components/dialogs.py:659-664 | The highlight moves up one step and stays valid. |
| SnippetPicker.SnippetPickerDialog.OnDown | src/components/dialogs.py:666-671 | The highlight moves down one step and stays valid. |
| SnippetPicker.SnippetPickerDialog.OnEnter | src/components/dialogs.py:673-677 | With no results nothing happens. Otherwise the highlighted snippet's content is inserted and the dialog closes. |
| SnippetPicker.SnippetPickerDialog.Insert | src/components/dialogs.py:679-681 | The content, empty when absent, goes to `on_insert` and the dialog closes. |
| CommandPalette.ActionOrderFacts | src/components/dialogs.py:1131-1146 | The action results are exactly the actions whose haystack contains the term (all of them for an empty term). They are ordered by score, biggest first, with equal scores in their given order. An empty term keeps the given order. |
| CommandPalette.ScoredOneMore | src/components/dialogs.py:1133-1144 | The loop's scored list after one more action. |
| CommandPalette.SortedPairs | src/components/dialogs.py:1145-1146 | Sorting the (score, action) pairs by score and dropping the scores is sorting the actions by score. |
| CommandPalette.SortedFilterKeeps | src/components/dialogs.py:1155-1158 | A sorted group holds only input prompts of that group. |
| CommandPalette.PinnedFirst | src/components/dialogs.py:1159 | In pinned + others, every pinned prompt comes before every unpinned one. |
| CommandPalette.SortPromptsFacts | src/components/dialogs.py:1148-1159 | The result is a permutation with every pinned prompt first. Each group is ordered by `updated_at`, newest first, with unparseable times counted as `datetime.min` and ties in their given order. |
| CommandPalette.UnparsedIsMinimum | src/components/dialogs.py:1149-1153 | A time that does not parse has the smallest key, equal to that of a parsed `datetime.min`. |
| CommandPalette.UnparsedTiesWithMin | src/components/dialogs.py:1149-1158 | Two unpinned prompts, the first with an unparseable time and the second at `datetime.min`, tie and keep their order. |
| CommandPalette.PaletteResultsFacts | src/components/dialogs.py:1110-1115 | At most 60 results, every action before every prompt. The results are the leading part of actions then prompts, all of it when that fits. |
| CommandPalette.ActionResultsOnly | src/components/dialogs.py:1146 | The action part holds only action results. |
| CommandPalette.PromptResultsOnly | src/components/dialogs.py:1129 | The prompt part holds only prompt results. |
| CommandPalette.ActionsFirst | src/components/dialogs.py:1114 | Any prefix of actions followed by prompts has no action after a prompt. |
| CommandPalette.BuildLabelFacts | src/components/dialogs.py:1197-1208 | An action reads "Run: label", then its shortcut exactly when that is not blank. A prompt reads "name \| category" (with "* " when pinned), then its first three tags exactly when they join to text. |
| CommandPalette.CommandPaletteDialog.constructor | src/components/dialogs.py:1026-1105 | The dialog opens showing the results for the empty term, the first highlighted. It has selected nothing, run nothing and is open. |
| CommandPalette.CommandPaletteDialog.BuildActionResults | src/components/dialogs.py:1131-1146 | The loop and the sort give the kept actions in score order. |
| CommandPalette.CommandPaletteDialog.ScoreAction | src/components/dialogs.py:1133-1144 | Whether the action is kept, and its score of 2, 1 or 0. |
| CommandPalette.CommandPaletteDialog.ApplyFilter | src/components/dialogs.py:1110-1115 | The results become those for the stripped, lower-cased term, with the first highlighted. Nothing else changes. |
| CommandPalette.CommandPaletteDialog.Results | src/components/dialogs.py:1110-1114 | The capped list of action results then prompt results for the term. |
| CommandPalette.CommandPaletteDialog.RebuildResults | src/components/dialogs.py:1161-1195 | One label per result, the highlight reset to 0, and nothing else changed. |
| CommandPalette.CommandPaletteDialog.OnUp | src/components/dialogs.py:1225-1230 | The highlight moves up one step and stays valid. |
| CommandPalette.CommandPaletteDialog.OnDown | src/components/dialogs.py:1232-1237 | The highlight moves down one step and stays valid. |
| CommandPalette.CommandPaletteDialog.OnEnter | src/components/dialogs.py:1239-1243 | With no results nothing happens. Otherwise the highlighted result is chosen. |
| CommandPalette.CommandPaletteDialog.SelectResult | src/components/dialogs.py:1245-1256 | An action with a non-blank id runs `on_action` with the stripped id, when there is a handler. A prompt goes to `on_select`. Either way the dialog closes. |
| Config.LoadConfig | src/config.py:40-47 | The settings are the stored object. A missing file, bad JSON or any value that is not an object gives `{}`. |
| Config.LoadSaved | src/config.py:40-51 | Loading what `save_config` wrote gives back the same settings. |
| Config.DataDir | src/config.py:54-59 | A directory comes back exactly when the stored value is a string containing a non-whitespace character, and it is that string unstripped. |
| Config.TextSetting | src/config.py:68-87 | The sort option and theme are the stored string, unstripped, when it is not blank. Otherwise they are the default. |
| Config.UiScale | src/config.py:96-110 | A stored number (or boolean) takes the numeric branch. A non-blank string comes back stripped. Anything else gives the default. |
| Config.UnreadableDefaults | src/config.py:40-110 | Without a readable settings object every getter gives its default and there is no data directory. |
| Config.WithSetting | src/config.py:62-116 | A setter's file loads as the old settings with its one key set. |
| Config.SettingKeepsOthers | src/config.py:62-116 | A setter leaves every other key present with its old value, or absent. |
| Config.SettingUnreadable | src/config.py:41-47 | A setter on a file with no settings object writes a document with its one key. |
| Config.DataDirAfterSet | src/config.py:54-65 | After `set_data_dir(p)`, `get_data_dir` returns `p`, or nothing when `p` is blank. |
| Config.SortOptionAfterSet | src/config.py:68-79 | After `set_sort_option(o)`, `get_sort_option` returns `o`, or the default when `o` is blank. |
| Config.ThemeAfterSet | src/config.py:82-93 | After `set_theme(t)`, `get_theme` returns `t`, or the default when `t` is blank. |
| Config.UiScaleAfterSet | src/config.py:96-116 | After `set_ui_scale(v)`, `get_ui_scale` returns `v` stripped, or the default when `v` is blank. |
| Config.ThemeKeepsOtherSettings | src/config.py:90-93 | Changing the theme leaves the data directory, sort option and UI scale as they were. |
| Config.ConfigFile.Save | src/config.py:50-51 | The file afterwards holds exactly the settings given. |
| Config.ConfigFile.Set | src/config.py:62-116 | Load, change one key, save. |
| Config.ConfigFile.SetDataDir | src/config.py:62-65 | Stores the path under `data_dir`. |
| Config.ConfigFile.SetSortOption | src/config.py:76-79 | Stores the option under `sort_option`. |
| Config.ConfigFile.SetTheme | src/config.py:90-93 | Stores the theme under `theme`. |
| Config.ConfigFile.SetUiScale | src/config.py:113-116 | Stores the value under `ui_scale`. |
| Text.Strip | src/components/tag_chips.py:128-129 | `str.strip()` over Python's whitespace characters. The result has no whitespace at either end and is empty exactly when the text is all whitespace. |
| Text.StripContained | src/components/tag_chips.py:128-129 | The stripped text occurs in the text. |
| Text.StripIdempotent | src/components/tag_chips.py:128-129 | Stripping twice is stripping once. |
| Text.LowerIdempotent | src/components/tag_chips.py:131-133 | Lower-casing twice is lower-casing once. |
| Text.Split | src/components/tag_chips.py:175 | `re.split(r"[,;\n]", s)` gives one more part than there are separators, none containing a separator. Without separators it is the text itself. |
| Text.SplitRunsSamePieces | src/components/tag_chips.py:168-171 | Splitting on runs of separators and on single separators leaves the same stripped non-empty pieces. |
| Text.Pieces | src/components/tag_chips.py:171 | The pieces are stripped and non-empty, and no more numerous than the parts. |
| Seqs.SortDescSorted | src/components/dialogs.py:1145 | The descending sort orders by key, biggest first. |
| Seqs.SortDescStable | src/components/dialogs.py:1145 | Within each key the elements keep their order. |
| Seqs.SortDesc | src/components/dialogs.py:1145 | The sort is a permutation. |
| Seqs.SortDescMap | src/components/dialogs.py:1145-1146 | Sorting and then mapping is mapping and then sorting by the matching key. |

`Text.Strip` and `Text.Lower` are shared by every module that strips or lower-cases text. So do the rows for `TagChips`, `SnippetPicker` and `CommandPalette` that use them.

## Left out

- File I/O and the JSON codec. `open`, `json.load`/`json.dump`, directory creation, and `_write_json_atomic`'s temporary file, fsync and replace (src/config.py:23-37) are not modelled. A file is an abstract stored value: missing, not valid JSON, or a document.
- `_config_dir`/`_config_path` (src/config.py:9-21) and the data directory path: environment variables and paths are not modelled.
- `uuid4()` and `datetime.now()` are not modelled. `from_dict` takes the id and timestamps it would draw from a `Gen` parameter. `Prompt.update` takes the time as a parameter.
- `datetime.fromisoformat` is a `parseTime` parameter. Its result counts from `datetime.min`, which is 0, and a failed parse also counts as 0, as `datetime.min` does. The error raised when comparing naive with timezone-aware timestamps is not modelled.
- JSON numbers are integers. Floating point is not modelled.
- Config.UiScale: a stored number gives `None`, which stands for `str(float(value))`. The float formatting of that branch is not modelled.
- `str.lower()` is modelled for ASCII letters only. Other letters are left as they are.
- Models.FromDict: a `name`, `content`, id, timestamp or tag that is not a string is rejected with a type error. Python would store the value as it is, so on such input the model is stricter.
- Models.Touch: a `Prompt` is a value. That `update()` changes the caller's object in place, which the record returned by `add_prompt` and the one passed to `update_prompt` share, is not modelled.
- The Tk widgets are not modelled: buttons, labels, frames, fonts, colours, highlighting, the fade in and out, and the Escape binding. `_highlight_active`, `_auto_size_and_center`, `TagChip` and its `_handle_remove`, `PromptListItem` and `_format_time` are not modelled either.
- `TagChipsInput._layout` and `_schedule_layout` and all `after` timers are not modelled: they depend on widget sizes and the event loop.
- Callbacks are recorded, not run. The model keeps a count of `on_change` calls, and the lists of prompts, action ids and texts passed to `on_select`, `on_action` and `on_insert`. `destroy()` is a `closed` flag.
- Snippet and action dictionaries: their keys hold strings or are absent. The `str()` of a value of another type is not modelled.
- Dialogs.Lines: `splitlines` is replaced by a split at single line boundaries. This gives extra empty lines for "\r\n" and a trailing boundary, which the first-non-blank-line search skips. Other uses of `splitlines` would differ.
- The other dialogs in src/components/dialogs.py (new prompt, rename, find and replace, confirm, tag input) and the remaining source files (`app.py`, `prompt_editor.py`, `toast.py`, `main.py`, `resources.py`) are not part of this model.
