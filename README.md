# Dictionary viewer: a Dafny model

The program is a small Tk desktop viewer for word/description dictionaries
stored as JSON files. This project models its logic, leaving out the
widgets:

- **Dictionary normalisation** (`get_words`, `get_word_text`). A parsed
  document becomes an ordered list of `{word, description}` entries.
  A top-level object contributes its `words` member and a top-level list is
  used as it is. Object items default to `<unknown>` and `''`. Any other item
  becomes `{word: str(item), description: ''}`.
- **Window chrome** (`_set_font_size`, `_increase_font`, `_decrease_font`,
  `_reset_font`, `_toggle_maximize`). This is a state machine over one font
  size shared by two fonts, the maximized flag and the saved geometry.
- **Selection state** (`_reload_dictionary_menu`, `_on_dictionary_change`,
  `_on_select`). These build the stem-to-path map, switch the current
  dictionary, refill the list box and show the selected description.
- **Drag start** (`_start_move`). This parses a Tk geometry string
  `WxH+X+Y` by splitting it on `+`.

Modules:

- `Wrappers` (wrappers.dfy): the `Option` type.
- `Text` (text.dfy): Python's `str.split`, `join`, `str(int)` and `int(str)`.
- `Json` (json.dfy): parsed JSON values, Python's `str()`, truth value and `dict.get`.
- `Dictionary` (dictionary.dfy): word entries, `get_words`, `get_word_text`, file stems, the name map, and the title and description choice.
- `Chrome` (chrome.dfy): the font/maximize state machine as a pure `Step` function, and the geometry parse.
- `Viewer` (viewer.dfy): class `App`. Its fields are the program's globals and the widget state. It has one method per handler. Each method's postcondition ties the new state to the functions of `Dictionary` and `Chrome`.

Inputs that the real program gets from the outside are parameters:

- The sorted listing of the dictionary directory is a `seq<Path>`.
- The parsed documents are a `FileSystem`, a map from path to JSON value. A path missing from the map fails to open or to parse. Every value in it is a `Document`: each dict in it, at any depth, has distinct keys, as the dicts `json.load` builds do.
- The maximized geometry, which the program computes from the screen size, is four numbers.
- The pointer position and the window position that Tk reports are integers.

Behaviour of the code that a reader may not expect, modelled as written:

- At start-up no dictionary is loaded. The menu's variable is set to the first stem (line 240) before the change handler is attached (line 279). So `words` stays empty, and the selection at lines 290-292 never happens. The `App` constructor states this.
- `words` in a document need not be a list. A string is iterated by characters. A dict is iterated by keys. A number, boolean or `null` raises `TypeError`, and `get_words` then returns `[]`. `get_word_text` on a non-empty dict gives `Error reading words.json: 0` (the `KeyError` of `words[0]`).
- Switching to a dictionary with no words clears the list box. The detail pane keeps the text of the previous dictionary.
- Maximize sets the font to the absolute size 16 and restore sets it to 12. A size chosen before maximizing, such as 14, is therefore not restored.
- In `name_map`, the last listed file wins when two files share a stem.

## Model

| member | source | states |
|---|---|---|
| Dictionary.GetWords | 3e0f56633_importrandom.py:53-79 | `[]` without a current file, when the file fails to load, or when the structure is not recognised; otherwise exactly one entry per raw item, entry k normalising item k |
| Dictionary.NormalizeScalar | 3e0f56633_importrandom.py:75-76 | a non-object item becomes `{word: str(item), description: ''}` |
| Dictionary.NormalizeObjectDefaults | 3e0f56633_importrandom.py:70-74 | an object item's word is `str` of its `word` member or `<unknown>`; its description is `str` of its `description` member or `''` |
| Dictionary.WordsEmptyIff | 3e0f56633_importrandom.py:56-79 | the word list is empty exactly when no file is selected, the file fails to load, the structure is not recognised or iterable, or the raw list is empty |
| Dictionary.NormalizeEntryJson | 3e0f56633_importrandom.py:70-74 | normalising the JSON object of an entry gives that entry back |
| Dictionary.WordsOfDocument | 3e0f56633_importrandom.py:61-77 | a `{"words": [...]}` document written from entries loads as exactly those entries, in order |
| Dictionary.SeedWords | 3e0f56633_importrandom.py:217-223 | the seeded default dictionary loads as the one entry `if` / `A conditional statement.` |
| Dictionary.WordsOfString | 3e0f56633_importrandom.py:61-76 | a `words` string loads as one entry per character, in order, each with an empty description |
| Dictionary.WordsOfDict | 3e0f56633_importrandom.py:61-76 | a `words` dict loads as one entry per key, in order, each with an empty description, and no two of these words are equal |
| Dictionary.WordsOfScalar | 3e0f56633_importrandom.py:62-79 | a `words` number, boolean or `null` cannot be iterated, and `get_words` gives `[]` |
| Dictionary.BareStringList | 3e0f56633_importrandom.py:63-76 | a bare list of strings loads as one entry per string with an empty description |
| Dictionary.WordText | 3e0f56633_importrandom.py:23-51 | `No dictionary selected` without a file; unmodelled text exactly when reading or parsing fails; `Unrecognized words.json structure` for a document that is neither object nor list; for an empty word list `No words found in words.json`, together with no entries from `get_words`; for a non-empty word list the `word — description` of the first entry `get_words` returns when the first item is an object, and that entry's word otherwise |
| Dictionary.StemOfJsonFile | 3e0f56633_importrandom.py:234 | for a non-empty `<base>`, the stem of `<base>.json` is `<base>` (a file named `.json` keeps `.json` as its stem) |
| Dictionary.MenuLabelsKnown | 3e0f56633_importrandom.py:232-236 | every menu label is a key of the name map and every key is a label, so a menu command never takes the early return of line 246 |
| Dictionary.StemMapKeys | 3e0f56633_importrandom.py:232-235 | the name map's keys are exactly the stems of the listed files |
| Dictionary.StemMapLast | 3e0f56633_importrandom.py:232-235 | each stem maps to a listed file with that stem, and no later listed file has that stem |
| Dictionary.StemMapDistinct | 3e0f56633_importrandom.py:232-235 | when stems are distinct, every listed file's stem maps back to that file |
| Dictionary.TitleNonEmpty | 3e0f56633_importrandom.py:253-256 | a dictionary with a non-empty stem always gets a non-empty window title |
| Dictionary.TitleRule | 3e0f56633_importrandom.py:253-256 | an object document with a true `name` gets `str(name)` as its title; any other document gets the stem; a title other than the stem comes from a `name` member |
| Dictionary.DescriptionRule | 3e0f56633_importrandom.py:258-261 | an object document with a true `description` gets `str(description)` as its label; the label is empty exactly when the document is not an object with a true `description` |
| Json.Lookup | 3e0f56633_importrandom.py:62 | `dict.get` finds a value exactly when some member has the key, and what it finds is stored under that key |
| Json.LookupDistinct | 3e0f56633_importrandom.py:62 | in a dict, whose keys are distinct, `dict.get(key)` finds exactly the value stored under that key |
| Json.StrEmptyIff | 3e0f56633_importrandom.py:72-73 | `str(v)` is empty exactly when `v` is the empty string |
| Json.TruthyStrNonEmpty | 3e0f56633_importrandom.py:253-254 | a true value renders to a non-empty string |
| Text.Split | 3e0f56633_importrandom.py:302 | `split('+')` always yields at least one piece |
| Text.SplitPartsFree | 3e0f56633_importrandom.py:302 | no piece contains the separator |
| Text.JoinSplit | 3e0f56633_importrandom.py:302 | joining the pieces with the separator gives back the geometry string |
| Text.SplitJoin | 3e0f56633_importrandom.py:302-305 | one or more separator-free pieces joined by the separator split back into the same pieces |
| Text.ParseInt | 3e0f56633_importrandom.py:304-305 | `int()` succeeds only on a non-empty string, and a negative result comes from a leading `-` |
| Text.ParseDecimal | 3e0f56633_importrandom.py:135 | `int(str(n)) == n` for every integer, so the numbers written into a geometry parse back |
| Chrome.StepKeepsInvariant | 3e0f56633_importrandom.py:329-343 | every font and maximize event keeps the size at least 6, and a maximized window has a saved geometry |
| Chrome.RunKeepsInvariant | 3e0f56633_importrandom.py:122-144 | every sequence of increase, decrease, reset and toggle events keeps that invariant |
| Chrome.ReachableFontAtLeastMinimum | 3e0f56633_importrandom.py:178-180 | starting from the default size 12, no sequence of events brings the font below 6 |
| Chrome.FontSteps | 3e0f56633_importrandom.py:333-343 | increase adds exactly 1; decrease subtracts exactly 1 when the size exceeds 6 and otherwise changes nothing; reset gives exactly 12; increase, decrease and reset leave the maximized flag alone |
| Chrome.DecreaseUndoesIncrease | 3e0f56633_importrandom.py:333-340 | from any size of at least 6, a decrease after an increase restores the window state |
| Chrome.IncreaseUndoesDecrease | 3e0f56633_importrandom.py:333-340 | an increase after a decrease that acted restores the window state |
| Chrome.DecreaseStopsAtMinimum | 3e0f56633_importrandom.py:337-340 | at size 6 or below a decrease changes nothing |
| Chrome.DoubleToggle | 3e0f56633_importrandom.py:122-144 | maximizing saves the geometry, takes the computed one, sets the font to 16 and the flag; toggling back clears the flag, sets the font to 12 and restores a non-empty saved geometry |
| Chrome.RestoreAfterFontChanges | 3e0f56633_importrandom.py:139-144 | after any font keys while maximized, a restore still gives font 12, clears the flag and restores the saved geometry |
| Chrome.StartPositionOfGeometry | 3e0f56633_importrandom.py:301-305 | a geometry `WxH+X+Y` yields the drag start position `(X, Y)` |
| Chrome.StartPositionWithoutPosition | 3e0f56633_importrandom.py:306-308 | a geometry `WxH` without a position falls back to the position Tk reports |
| Chrome.MaximizedStartPosition | 3e0f56633_importrandom.py:135 | after maximizing, a drag starts from the position the maximize computed |
| Viewer.App.constructor | 3e0f56633_importrandom.py:275-279 | both fonts start at 12, unmaximized, with no saved geometry; the menu and name map come from the listing; no dictionary is loaded |
| Viewer.App.SetFontSize | 3e0f56633_importrandom.py:329-331 | both fonts take the same size |
| Viewer.App.IncreaseFont | 3e0f56633_importrandom.py:333-335 | the new window state is one increase step from the old one, and the invariant holds |
| Viewer.App.DecreaseFont | 3e0f56633_importrandom.py:337-340 | the new window state is one decrease step from the old one, and the invariant holds |
| Viewer.App.ResetFont | 3e0f56633_importrandom.py:342-343 | the new window state is one reset step from the old one, and the invariant holds |
| Viewer.App.ToggleMaximize | 3e0f56633_importrandom.py:122-144 | the new window state is one toggle step from the old one, and the invariant holds |
| Viewer.App.ReloadDictionaryMenu | 3e0f56633_importrandom.py:228-240 | the name map and the menu are rebuilt from the listing alone; the selected name becomes the first stem, or stays as it was when the listing is empty |
| Viewer.App.ChooseDictionary | 3e0f56633_importrandom.py:236 | choosing a name from the menu sets the menu's variable and runs the change handler |
| Viewer.App.OnDictionaryChange | 3e0f56633_importrandom.py:242-272 | an unknown name changes nothing; a known one makes its file current, sets title and description label, replaces the words with `get_words()`, and selects index 0 exactly when there are words, showing its description |
| Viewer.App.ShowHeader | 3e0f56633_importrandom.py:250-263 | the window title and the description label are those of the loaded document |
| Viewer.App.ReplaceWords | 3e0f56633_importrandom.py:264-272 | the words become `get_words()`, index 0 is selected exactly when there are words, and its description is shown |
| Viewer.App.ShowWords | 3e0f56633_importrandom.py:266-272 | the list box is refilled from the words; index 0 is selected and its description shown when there are words |
| Viewer.App.OnSelect | 3e0f56633_importrandom.py:281-287 | with a selection the detail pane shows that entry's description; without one nothing changes |
| Viewer.App.SelectRow | 3e0f56633_importrandom.py:281-289 | clicking row `i` selects it and shows that entry's description |
| Viewer.App.StartMove | 3e0f56633_importrandom.py:295-311 | the drag start records the pointer and the window position parsed from the geometry, with Tk's reported position as the fallback |

## Left out

- Widget construction, packing, colours, event binding and the main loop: all of this is Tk plumbing with no logic.
- Choosing the dictionary directory (`APPDATA_DIR` or `LOCAL_DIR`), `ensure_dictionaries` (mkdir, copy, seeding) and `list_dictionaries` (`glob`, `sorted`): this is file-system I/O. The sorted listing is an input. Only the content of the seeded document is modelled, as `SEED_DOCUMENT`.
- JSON parsing: the parsed document is an input. JSON floating-point numbers are not modelled; numbers are integers. A key repeated in the JSON text is resolved by the parser, which keeps its last value; the model starts from the resulting dict, whose keys are distinct.
- Json.Str: Python's `str()` of lists and dicts is rendered without escaping, and strings always get single quotes.
- `_do_move`: the drag scales by `1.5` in floating point. The position `_toggle_maximize` computes from the screen size (`int(sw * 0.7)`, centring) is also left out and is given as parameters. Both are floating-point arithmetic on foreign values.
- Dictionary.WordText: when reading or parsing fails, the result is left unmodelled. A parse error gives the exception's message. A missing file makes the `FileNotFoundError` branch raise a `NameError` out of the function, because it names an undefined `DATA_FILE`.
- Text.ParseInt: accepts only an optional sign followed by ASCII digits. Python's `int()` also accepts surrounding whitespace, underscores between digits and non-ASCII digits.
- Viewer.App.ToggleMaximize: the `except Exception: pass` around the handler is not modelled. It only matters when a Tk query raises.
- The `geometry` field of `App` holds the geometry the program last set. Tk reports it normalised and with a position, and window-manager moves and drags also change it. The model does not follow those changes.
- The window title before any dictionary is chosen is Tk's default, which the model does not name.
- Sorting and the screen, pointer and position queries (`winfo_*`) are foreign calls. Their results are parameters.
