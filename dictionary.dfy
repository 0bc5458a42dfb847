/**
 * Dictionary files and their normalisation into word entries:
 * `get_words`, `get_word_text`, the stem-to-path map the dictionary menu
 * is built from, and the window title and description a dictionary gives.
 */
module Dictionary {
  import opened Wrappers
  import opened Text
  import opened Json

  /** A normalised word entry, as `get_words` builds it. */
  datatype Entry = Entry(word: string, description: string)

  /** A `*.json` file of the dictionary directory, by its file name. */
  datatype Path = Path(name: string)

  /**
   * What opening and parsing each file gives: a file that is listed here
   * opens and parses to this document; any other path fails to open or to parse.
   */
  type FileSystem = map<Path, Document>

  const UNKNOWN_WORD := "<unknown>"
  const NO_DICTIONARY := "No dictionary selected"
  const UNRECOGNIZED := "Unrecognized words.json structure"
  const NO_WORDS := "No words found in words.json"
  const ERROR_PREFIX := "Error reading words.json: "
  /** The separator between word and description in the summary line: an em dash. */
  const DASH := " \U{2014} "

  /** The document of a file, or `None` when reading or parsing it raises. */
  function Load(file: Path, fs: FileSystem): (r: Option<Json>)
  {
    if file in fs then Some(fs[file]) else None
  }

  // ---------------------------------------------------------------------
  // get_words

  /**
   * The items `for item in raw` visits: a list's items, a string's
   * one-character strings, a dict's keys. Any other value is not iterable
   * (`TypeError`), which is `None`.
   */
  function Iterate(v: Json): (r: Option<seq<Json>>)
  {
    match v
    case JList(items) => Some(items)
    case JStr(s) => Some(seq(|s|, k requires 0 <= k < |s| => JStr([s[k]])))
    case JObject(members) => Some(seq(|members|, k requires 0 <= k < |members| => JStr(members[k].0)))
    case _ => None
  }

  /**
   * The raw items `get_words` normalises: the `words` member of an object
   * (an empty list when absent), or a top-level list itself. `None` when the
   * function returns `[]` instead: any other top-level value, or a `words`
   * value that cannot be iterated.
   */
  function RawWords(doc: Json): (raw: Option<seq<Json>>)
  {
    match doc
    case JObject(members) => Iterate(Get(members, "words", JList([])))
    case JList(items) => Some(items)
    case _ => None
  }

  /** One item of the raw list as a normalised entry. */
  function NormalizeItem(item: Json): (e: Entry)
  {
    match item
    case JObject(members) =>
      Entry(Str(Get(members, "word", JStr(UNKNOWN_WORD))), Str(Get(members, "description", JStr(""))))
    case _ => Entry(Str(item), "")
  }

  /** Every raw item normalised, in order. */
  function Normalized(raw: seq<Json>): (entries: seq<Entry>)
  {
    seq(|raw|, k requires 0 <= k < |raw| => NormalizeItem(raw[k]))
  }

  /** What `get_words()` returns when `file` is the current data file. */
  function Words(file: Option<Path>, fs: FileSystem): (entries: seq<Entry>)
  {
    if file.None? || file.value !in fs then []
    else match RawWords(fs[file.value])
      case None => []
      case Some(raw) => Normalized(raw)
  }

  /** `get_words`: normalise the current file's word list item by item. */
  method GetWords(file: Option<Path>, fs: FileSystem) returns (normalized: seq<Entry>)
    ensures file.None? ==> normalized == []
    ensures file.Some? && file.value !in fs ==> normalized == []
    ensures file.Some? && file.value in fs && RawWords(fs[file.value]).None? ==> normalized == []
    ensures file.Some? && file.value in fs && RawWords(fs[file.value]).Some? ==>
              var raw := RawWords(fs[file.value]).value;
              |normalized| == |raw| && forall k :: 0 <= k < |raw| ==> normalized[k] == NormalizeItem(raw[k])
    ensures normalized == Words(file, fs)
  {
    normalized := [];
    if file.None? {
      return;
    }
    var doc := Load(file.value, fs);
    if doc.None? {
      return;
    }
    var items := RawWords(doc.value);
    if items.None? {
      return;
    }
    var raw := items.value;
    var i := 0;
    while i < |raw|
      invariant 0 <= i <= |raw|
      invariant |normalized| == i
      invariant forall k :: 0 <= k < i ==> normalized[k] == NormalizeItem(raw[k])
    {
      var item := raw[i];
      if item.JObject? {
        var word := Str(Get(item.members, "word", JStr(UNKNOWN_WORD)));
        var description := Str(Get(item.members, "description", JStr("")));
        normalized := normalized + [Entry(word, description)];
      } else {
        normalized := normalized + [Entry(Str(item), "")];
      }
      i := i + 1;
    }
  }

  /** A non-object item becomes its `str` with an empty description. */
  lemma NormalizeScalar(item: Json)
    requires !item.JObject?
    ensures NormalizeItem(item) == Entry(Str(item), "")
  {
  }

  /** An object item takes the `str` of its word and description, with `<unknown>` and `''` for missing ones. */
  lemma NormalizeObjectDefaults(members: seq<(string, Json)>)
    ensures var e := NormalizeItem(JObject(members));
            && (Lookup(members, "word").None? ==> e.word == UNKNOWN_WORD)
            && (Lookup(members, "word").Some? ==> e.word == Str(Lookup(members, "word").value))
            && (Lookup(members, "description").None? ==> e.description == "")
            && (Lookup(members, "description").Some? ==> e.description == Str(Lookup(members, "description").value))
  {
  }

  /** `get_words` is empty exactly when no file is selected, it fails to load, its structure is not recognised, or its word list is empty. */
  lemma WordsEmptyIff(file: Option<Path>, fs: FileSystem)
    ensures Words(file, fs) == [] <==>
              file.None? || file.value !in fs || RawWords(fs[file.value]) in {None, Some([])}
  {
  }

  /** A `words` string is iterated by characters: one entry per character, each with an empty description. */
  lemma WordsOfString(file: Path, fs: FileSystem, s: string)
    requires file in fs && fs[file].JObject? && Get(fs[file].members, "words", JList([])) == JStr(s)
    ensures Words(Some(file), fs) == seq(|s|, k requires 0 <= k < |s| => Entry([s[k]], ""))
  {
  }

  /**
   * A `words` dict is iterated by its keys: one entry per key, in order, each
   * with an empty description; since a dict's keys are distinct, so are the words.
   */
  lemma WordsOfDict(file: Path, fs: FileSystem, keyed: seq<(string, Json)>)
    requires file in fs && fs[file].JObject? && Get(fs[file].members, "words", JList([])) == JObject(keyed)
    ensures Words(Some(file), fs) == seq(|keyed|, k requires 0 <= k < |keyed| => Entry(keyed[k].0, ""))
    ensures forall i, j :: 0 <= i < j < |Words(Some(file), fs)| ==>
              Words(Some(file), fs)[i].word != Words(Some(file), fs)[j].word
  {
    var members := fs[file].members;
    var ws := Words(Some(file), fs);
    assert RawWords(fs[file]) == Iterate(JObject(keyed));
    assert |ws| == |keyed|;
    forall k | 0 <= k < |keyed|
      ensures ws[k] == Entry(keyed[k].0, "")
    {
    }
    assert Lookup(members, "words") == Some(JObject(keyed));
    var m :| 0 <= m < |members| && members[m] == ("words", JObject(keyed));
    assert WellFormed(members[m].1);
  }

  /** A `words` number, boolean or `null` cannot be iterated, and `get_words` gives `[]`. */
  lemma WordsOfScalar(file: Path, fs: FileSystem)
    requires file in fs && fs[file].JObject?
    requires var w := Get(fs[file].members, "words", JList([])); w.JNum? || w.JBool? || w.JNull?
    ensures Words(Some(file), fs) == []
  {
  }

  /** The JSON object that normalises to a given entry. */
  function EntryJson(e: Entry): (j: Json)
  {
    JObject([("word", JStr(e.word)), ("description", JStr(e.description))])
  }

  /** A dictionary document `{"words": [...]}` listing the given entries. */
  function DocumentOf(entries: seq<Entry>): (doc: Json)
  {
    JObject([("words", JList(seq(|entries|, k requires 0 <= k < |entries| => EntryJson(entries[k]))))])
  }

  /** Normalising the JSON form of an entry gives the entry back. */
  lemma NormalizeEntryJson(e: Entry)
    ensures NormalizeItem(EntryJson(e)) == e
  {
    var members := EntryJson(e).members;
    assert Lookup(members, "word") == Some(JStr(e.word));
    assert Lookup(members, "description") == Some(JStr(e.description));
  }

  /** Writing entries as a dictionary document and loading it with `get_words` gives the same entries, in order. */
  lemma WordsOfDocument(entries: seq<Entry>, file: Path, fs: FileSystem)
    requires file in fs && fs[file] == DocumentOf(entries)
    ensures Words(Some(file), fs) == entries
  {
    var doc := DocumentOf(entries);
    assert Lookup(doc.members, "words") == Some(doc.members[0].1);
    var raw := RawWords(doc).value;
    forall k | 0 <= k < |entries|
      ensures Words(Some(file), fs)[k] == entries[k]
    {
      NormalizeEntryJson(entries[k]);
    }
  }

  /** The document written into an empty dictionary directory on first run. */
  const SEED_DOCUMENT: Json :=
    JObject([("words", JList([JObject([("word", JStr("if")), ("description", JStr("A conditional statement."))])]))])

  /** The seeded dictionary loads as its one sample entry. */
  lemma SeedWords(file: Path, fs: FileSystem)
    requires file in fs && fs[file] == SEED_DOCUMENT
    ensures Words(Some(file), fs) == [Entry("if", "A conditional statement.")]
  {
  }

  /** A bare list of strings gives one entry per string, each with an empty description. */
  lemma BareStringList(words: seq<string>, file: Path, fs: FileSystem)
    requires file in fs && fs[file] == JList(seq(|words|, k requires 0 <= k < |words| => JStr(words[k])))
    ensures Words(Some(file), fs) == seq(|words|, k requires 0 <= k < |words| => Entry(words[k], ""))
  {
  }

  // ---------------------------------------------------------------------
  // get_word_text

  /** The summary line of a first item: `word — description` for an object, else its `str`. */
  function Summary(first: Json): (line: string)
  {
    match first
    case JObject(members) =>
      Str(Get(members, "word", JStr(UNKNOWN_WORD))) + DASH + Str(Get(members, "description", JStr("")))
    case _ => Str(first)
  }

  /**
   * The text for a `words` value: its first item's summary, or the text of
   * the exception that `words[0]` raises on a dict (`KeyError(0)`) or on a
   * number or boolean (`TypeError`).
   */
  function FirstText(words: Json): (text: string)
  {
    if !Truthy(words) then NO_WORDS
    else match words
      case JList(items) => Summary(items[0])
      case JStr(s) => [s[0]]
      case JObject(_) => ERROR_PREFIX + "0"
      case JNum(_) => ERROR_PREFIX + "'int' object is not subscriptable"
      case JBool(_) => ERROR_PREFIX + "'bool' object is not subscriptable"
  }

  /** The `words` value of a document whose word list is a list: the list's items. */
  function WordList(doc: Json): (items: Option<seq<Json>>)
  {
    match doc
    case JList(items) => Some(items)
    case JObject(members) =>
      var w := Get(members, "words", JList([]));
      if w.JList? then Some(w.items) else None
    case _ => None
  }

  /**
   * What `get_word_text()` returns when `file` is the current data file.
   * `None` when reading or parsing the file raises: the text then depends on
   * the exception, and a missing file raises out of the function.
   */
  function WordText(file: Option<Path>, fs: FileSystem): (r: Option<string>)
    ensures file.None? ==> r == Some(NO_DICTIONARY)
    ensures file.Some? ==> (r.None? <==> file.value !in fs)
    ensures file.Some? && file.value in fs && !fs[file.value].JObject? && !fs[file.value].JList? ==>
              r == Some(UNRECOGNIZED)
    // An empty word list gives the "no words" text, which is exactly when `get_words` gives no entries.
    ensures file.Some? && file.value in fs && WordList(fs[file.value]) == Some([]) ==>
              r == Some(NO_WORDS) && Words(file, fs) == []
    // A non-empty word list gives the summary of the first entry `get_words` returns:
    // `word — description` for an object item, the word alone for any other item.
    ensures file.Some? && file.value in fs && WordList(fs[file.value]).Some? && WordList(fs[file.value]).value != [] ==>
              var items := WordList(fs[file.value]).value;
              var e := Words(file, fs)[0];
              r == Some(if items[0].JObject? then e.word + DASH + e.description else e.word)
  {
    if file.None? then Some(NO_DICTIONARY)
    else if file.value !in fs then None
    else match fs[file.value]
      case JObject(members) => Some(FirstText(Get(members, "words", JList([]))))
      case JList(items) => Some(FirstText(JList(items)))
      case _ => Some(UNRECOGNIZED)
  }

  // ---------------------------------------------------------------------
  // The dictionary menu: stems and the name map

  /** The index of the last `.` in `s`. */
  function LastDot(s: string): (r: Option<nat>)
    ensures r.Some? ==> (r.value < |s| && s[r.value] == '.' &&
                         forall k :: r.value < k < |s| ==> s[k] != '.')
    ensures r.None? ==> forall k :: 0 <= k < |s| ==> s[k] != '.'
  {
    if s == [] then None
    else if s[|s| - 1] == '.' then Some(|s| - 1)
    else LastDot(s[..|s| - 1])
  }

  /** `Path.stem`: the file name without its last suffix; a name's leading or trailing dot starts no suffix. */
  function Stem(p: Path): (stem: string)
  {
    match LastDot(p.name)
    case Some(i) => if 0 < i < |p.name| - 1 then p.name[..i] else p.name
    case None => p.name
  }

  /** The stem of `<base>.json` is `<base>` for any non-empty base. */
  lemma StemOfJsonFile(base: string)
    requires base != []
    ensures Stem(Path(base + ".json")) == base
  {
    var name := base + ".json";
    assert name[|base|] == '.';
    assert LastDot(name) == Some(|base|) by {
      assert name[..|name| - 1] == base + ".jso";
      assert name[..|name| - 2] == base + ".js";
      assert name[..|name| - 3] == base + ".j";
      assert name[..|name| - 4] == base + ".";
    }
    assert name[..|base|] == base;
  }

  /** The `name_map` that filling it from `files` in order leaves: each stem to the last file with that stem. */
  function StemMap(files: seq<Path>): (nameMap: map<string, Path>)
  {
    if files == [] then map[] else StemMap(files[..|files| - 1])[Stem(files[|files| - 1]) := files[|files| - 1]]
  }

  /** The menu labels, one stem per file, in order. */
  function MenuLabels(files: seq<Path>): (labels: seq<string>)
  {
    seq(|files|, k requires 0 <= k < |files| => Stem(files[k]))
  }

  /** Filling the name map and the menu one more file along the listing. */
  lemma FillOneMore(files: seq<Path>, i: nat)
    requires i < |files|
    ensures StemMap(files[..i + 1]) == StemMap(files[..i])[Stem(files[i]) := files[i]]
    ensures MenuLabels(files[..i + 1]) == MenuLabels(files[..i]) + [Stem(files[i])]
  {
    assert files[..i + 1][..i] == files[..i];
  }

  /**
   * Every menu label is a key of `name_map`, and every key is a label: a menu
   * command always names a known dictionary.
   */
  lemma MenuLabelsKnown(files: seq<Path>)
    ensures forall k :: 0 <= k < |files| ==> MenuLabels(files)[k] in StemMap(files)
    ensures forall stem :: stem in StemMap(files) <==> stem in MenuLabels(files)
  {
    assert forall k :: 0 <= k < |files| ==> MenuLabels(files)[k] == Stem(files[k]);
    StemMapKeys(files);
  }

  /** `name_map` holds exactly the stems of the listed files. */
  lemma {:induction false} StemMapKeys(files: seq<Path>)
    ensures forall k :: 0 <= k < |files| ==> Stem(files[k]) in StemMap(files)
    ensures forall stem :: stem in StemMap(files) ==> exists k :: 0 <= k < |files| && Stem(files[k]) == stem
  {
    if files != [] {
      var front := files[..|files| - 1];
      StemMapKeys(front);
      assert forall k :: 0 <= k < |front| ==> files[k] == front[k];
    }
  }

  /** Each stem of `name_map` maps to the last listed file with that stem. */
  lemma {:induction false} StemMapLast(files: seq<Path>, stem: string)
    requires stem in StemMap(files)
    ensures exists j :: 0 <= j < |files| && files[j] == StemMap(files)[stem] && Stem(files[j]) == stem &&
                        forall j' :: j < j' < |files| ==> Stem(files[j']) != stem
  {
    var front := files[..|files| - 1];
    var last := files[|files| - 1];
    if stem == Stem(last) {
      assert files[|files| - 1] == StemMap(files)[stem];
    } else {
      StemMapLast(front, stem);
      var j :| 0 <= j < |front| && front[j] == StemMap(front)[stem] && Stem(front[j]) == stem &&
               forall j' :: j < j' < |front| ==> Stem(front[j']) != stem;
      assert files[j] == front[j];
      forall j' | j < j' < |files|
        ensures Stem(files[j']) != stem
      {
        if j' < |files| - 1 {
          assert files[j'] == front[j'];
        }
      }
    }
  }

  /** When no two listed files share a stem, each file's stem maps back to that file. */
  lemma StemMapDistinct(files: seq<Path>)
    requires forall i, j :: 0 <= i < j < |files| ==> Stem(files[i]) != Stem(files[j])
    ensures forall k :: 0 <= k < |files| ==> Stem(files[k]) in StemMap(files) && StemMap(files)[Stem(files[k])] == files[k]
  {
    StemMapKeys(files);
    forall k | 0 <= k < |files|
      ensures StemMap(files)[Stem(files[k])] == files[k]
    {
      var stem := Stem(files[k]);
      StemMapLast(files, stem);
      var j :| 0 <= j < |files| && files[j] == StemMap(files)[stem] && Stem(files[j]) == stem &&
               forall j' :: j < j' < |files| ==> Stem(files[j']) != stem;
      assert j == k;
    }
  }

  // ---------------------------------------------------------------------
  // Title and description of a dictionary

  /** The window title: the document's true `name` rendered by `str`, else the stem. */
  function Title(stem: string, doc: Option<Json>): (title: string)
  {
    if doc.Some? && doc.value.JObject? && Truthy(Get(doc.value.members, "name", JNull)) then
      Str(Get(doc.value.members, "name", JNull))
    else stem
  }

  /** The description label: the document's true `description` rendered by `str`, else empty. */
  function DescriptionLabel(doc: Option<Json>): (shown: string)
  {
    if doc.Some? && doc.value.JObject? && Truthy(Get(doc.value.members, "description", JNull)) then
      Str(Get(doc.value.members, "description", JNull))
    else ""
  }

  /** A dictionary with a non-empty stem always gets a non-empty title. */
  lemma TitleNonEmpty(stem: string, doc: Option<Json>)
    requires stem != []
    ensures Title(stem, doc) != []
  {
  }

  /**
   * The title is the `str` of the document's `name` when that is true, and
   * the stem otherwise; a title other than the stem comes from a `name` member.
   */
  lemma TitleRule(stem: string, doc: Option<Json>)
    ensures doc.Some? && doc.value.JObject? && Truthy(Get(doc.value.members, "name", JNull)) ==>
              Title(stem, doc) == Str(Get(doc.value.members, "name", JNull))
    ensures !(doc.Some? && doc.value.JObject? && Truthy(Get(doc.value.members, "name", JNull))) ==> Title(stem, doc) == stem
    ensures Title(stem, doc) != stem ==> doc.Some? && doc.value.JObject? && Lookup(doc.value.members, "name").Some?
  {
  }

  /**
   * The description label is the `str` of the document's `description` when
   * that is true, and it is empty exactly when there is no true `description`.
   */
  lemma DescriptionRule(doc: Option<Json>)
    ensures doc.Some? && doc.value.JObject? && Truthy(Get(doc.value.members, "description", JNull)) ==>
              DescriptionLabel(doc) == Str(Get(doc.value.members, "description", JNull))
    ensures DescriptionLabel(doc) == [] <==>
              !(doc.Some? && doc.value.JObject? && Truthy(Get(doc.value.members, "description", JNull)))
  {
  }
}
