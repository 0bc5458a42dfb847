/**
 * The viewer application: the module-level globals of the program
 * (`is_maximized`, `_prev_geometry`, `name_map`, `CURRENT_DATA_FILE`,
 * `words`) and the widget state its handlers set (the two fonts, the
 * dictionary menu, the list box, the labels, the title) as the fields of
 * one object, with one method per handler.
 */
module Viewer {
  import opened Wrappers
  import opened Text
  import opened Json
  import opened Dictionary
  import opened Chrome

  /** The list box rows for a word list: each entry's word, in order. */
  function Column(words: seq<Entry>): (rows: seq<string>)
  {
    seq(|words|, k requires 0 <= k < |words| => words[k].word)
  }

  class App {
    // Window chrome
    var listboxFontSize: int
    var detailFontSize: int
    var isMaximized: bool
    var prevGeometry: Option<string>
    /** The geometry the program last set on the window (initially `450x450`). */
    var geometry: string

    // Dictionary selection
    /** The dictionary menu's `StringVar`: the name of the chosen dictionary. */
    var selectedName: string
    var menuLabels: seq<string>
    var nameMap: map<string, Path>
    var currentFile: Option<Path>
    var words: seq<Entry>

    // Widgets
    var listboxItems: seq<string>
    /** The list box's current selection, if any. */
    var selection: Option<nat>
    var title: string
    var descriptionLabel: string
    var detailText: string

    // Drag start, set by `_start_move`
    var startPointer: Option<(int, int)>
    var startWindow: Option<(int, int)>

    /**
     * Both fonts have the same size, never below the minimum; a maximized
     * window has saved its geometry; the list box shows the words and any
     * selection is one of them.
     */
    ghost predicate Valid()
      reads this
    {
      && listboxFontSize == detailFontSize
      && Invariant(WindowState())
      && listboxItems == Column(words)
      && (selection.Some? ==> selection.value < |words|)
    }

    /** The chrome part of the state. */
    function WindowState(): (win: Window)
      reads this
    {
      Window(listboxFontSize, isMaximized, prevGeometry, geometry)
    }

    /**
     * Start-up: default fonts, the initial geometry, no dictionary loaded,
     * and the dictionary menu built from the sorted listing of the
     * dictionary directory. The menu's change handler is attached only after
     * this first build, so no dictionary is loaded yet.
     */
    constructor (files: seq<Path>)
      ensures Valid()
      ensures WindowState() == INITIAL && detailFontSize == DEFAULT_FONT_SIZE
      ensures nameMap == StemMap(files) && menuLabels == MenuLabels(files)
      ensures selectedName == if files != [] then Stem(files[0]) else ""
      ensures currentFile.None? && words == [] && listboxItems == [] && selection.None?
      ensures descriptionLabel == "" && detailText == ""
      ensures startPointer.None? && startWindow.None?
    {
      listboxFontSize, detailFontSize := DEFAULT_FONT_SIZE, DEFAULT_FONT_SIZE;
      isMaximized, prevGeometry, geometry := false, None, INITIAL_GEOMETRY;
      selectedName, menuLabels, nameMap := "", [], map[];
      currentFile, words := None, [];
      listboxItems, selection := [], None;
      title, descriptionLabel, detailText := "", "", "";
      startPointer, startWindow := None, None;
      new;
      ReloadDictionaryMenu(files);
    }

    /** `_set_font_size`: both fonts take the size. */
    method SetFontSize(size: int)
      modifies this`listboxFontSize, this`detailFontSize
      ensures listboxFontSize == size && detailFontSize == size
    {
      listboxFontSize := size;
      detailFontSize := size;
    }

    /** `_increase_font`: one point larger. */
    method IncreaseFont()
      requires Valid()
      modifies this`listboxFontSize, this`detailFontSize
      ensures Valid()
      ensures WindowState() == Step(old(WindowState()), Event.IncreaseFont)
    {
      StepKeepsInvariant(WindowState(), Event.IncreaseFont);
      SetFontSize(listboxFontSize + 1);
    }

    /** `_decrease_font`: one point smaller, only while above the minimum. */
    method DecreaseFont()
      requires Valid()
      modifies this`listboxFontSize, this`detailFontSize
      ensures Valid()
      ensures WindowState() == Step(old(WindowState()), Event.DecreaseFont)
    {
      StepKeepsInvariant(WindowState(), Event.DecreaseFont);
      var size := listboxFontSize;
      if size > MIN_FONT_SIZE {
        SetFontSize(size - 1);
      }
    }

    /** `_reset_font`: back to the default size. */
    method ResetFont()
      requires Valid()
      modifies this`listboxFontSize, this`detailFontSize
      ensures Valid()
      ensures WindowState() == Step(old(WindowState()), Event.ResetFont)
    {
      StepKeepsInvariant(WindowState(), Event.ResetFont);
      SetFontSize(DEFAULT_FONT_SIZE);
    }

    /**
     * `_toggle_maximize`: maximize to the given size and position with the
     * enlarged font, saving the current geometry; or restore the saved
     * geometry and the default font.
     */
    method ToggleMaximize(width: nat, height: nat, x: nat, y: nat)
      requires Valid()
      modifies this`listboxFontSize, this`detailFontSize, this`isMaximized, this`prevGeometry, this`geometry
      ensures Valid()
      ensures WindowState() == Step(old(WindowState()), Event.ToggleMaximize(width, height, x, y))
    {
      StepKeepsInvariant(WindowState(), Event.ToggleMaximize(width, height, x, y));
      if !isMaximized {
        prevGeometry := Some(geometry);
        geometry := Geometry(width, height, x, y);
        SetFontSize(MAXIMIZED_FONT_SIZE);
        isMaximized := true;
      } else {
        if Restorable(prevGeometry) {
          geometry := prevGeometry.value;
        }
        SetFontSize(DEFAULT_FONT_SIZE);
        isMaximized := false;
      }
    }

    /**
     * `_reload_dictionary_menu` as the start-up call runs it: one menu entry
     * and one `name_map` entry per listed file, in order, and the first
     * file's stem chosen when there is one. That call happens before the
     * change handler is attached, so choosing the stem loads nothing; a later
     * call would also run `_on_dictionary_change`, which this method does not.
     */
    method ReloadDictionaryMenu(files: seq<Path>)
      modifies this`nameMap, this`menuLabels, this`selectedName
      ensures nameMap == StemMap(files) && menuLabels == MenuLabels(files)
      ensures selectedName == if files != [] then Stem(files[0]) else old(selectedName)
    {
      menuLabels := [];
      nameMap := map[];
      for i := 0 to |files|
        modifies this`nameMap, this`menuLabels
        invariant nameMap == StemMap(files[..i])
        invariant menuLabels == MenuLabels(files[..i])
      {
        var name := Stem(files[i]);
        FillOneMore(files, i);
        nameMap := nameMap[name := files[i]];
        menuLabels := menuLabels + [name];
      }
      assert files[..|files|] == files;
      if |files| > 0 {
        selectedName := Stem(files[0]);
      }
    }

    /** A menu command: choosing a dictionary sets the menu's variable, whose change handler then runs. */
    method ChooseDictionary(name: string, fs: FileSystem)
      requires Valid()
      modifies this
      ensures Valid()
      ensures selectedName == name
      ensures WindowState() == old(WindowState()) && nameMap == old(nameMap) && menuLabels == old(menuLabels)
      ensures name !in nameMap ==>
                currentFile == old(currentFile) && words == old(words) && selection == old(selection)
                && title == old(title) && descriptionLabel == old(descriptionLabel) && detailText == old(detailText)
      ensures name in nameMap ==>
                currentFile == Some(nameMap[name]) && words == Words(currentFile, fs)
                && title == Title(name, Load(nameMap[name], fs))
                && descriptionLabel == DescriptionLabel(Load(nameMap[name], fs))
                && selection == (if words != [] then Some(0) else None)
                && detailText == (if words != [] then words[0].description else old(detailText))
      ensures startPointer == old(startPointer) && startWindow == old(startWindow)
    {
      selectedName := name;
      OnDictionaryChange(fs);
    }

    /**
     * `_on_dictionary_change`: for a known name, make its file current, set
     * the title and description label from the document, replace the word
     * list and the list box wholesale, and select the first word when there is one.
     */
    method OnDictionaryChange(fs: FileSystem)
      requires Valid()
      modifies this`currentFile, this`title, this`descriptionLabel, this`words, this`listboxItems,
               this`selection, this`detailText
      ensures Valid()
      ensures selectedName !in nameMap ==>
                currentFile == old(currentFile) && words == old(words) && selection == old(selection)
                && title == old(title) && descriptionLabel == old(descriptionLabel) && detailText == old(detailText)
      ensures selectedName in nameMap ==>
                currentFile == Some(nameMap[selectedName]) && words == Words(currentFile, fs)
                && title == Title(selectedName, Load(nameMap[selectedName], fs))
                && descriptionLabel == DescriptionLabel(Load(nameMap[selectedName], fs))
                && selection == (if words != [] then Some(0) else None)
                && detailText == (if words != [] then words[0].description else old(detailText))
    {
      var name := selectedName;
      if name !in nameMap {
        return;
      }
      var path := nameMap[name];
      currentFile := Some(path);
      ShowHeader(name, Load(path, fs));
      ReplaceWords(fs);
    }

    /** The header part of `_on_dictionary_change`: the window title and the description label. */
    method ShowHeader(name: string, info: Option<Json>)
      modifies this`title, this`descriptionLabel
      ensures title == Title(name, info) && descriptionLabel == DescriptionLabel(info)
    {
      title := Title(name, info);
      descriptionLabel := DescriptionLabel(info);
    }

    /** The word part of `_on_dictionary_change`: `words = get_words()`, then the list box is refilled. */
    method ReplaceWords(fs: FileSystem)
      requires Valid()
      modifies this`words, this`listboxItems, this`selection, this`detailText
      ensures Valid()
      ensures words == Words(currentFile, fs)
      ensures selection == (if words != [] then Some(0) else None)
      ensures detailText == (if words != [] then words[0].description else old(detailText))
    {
      words := GetWords(currentFile, fs);
      ShowWords();
    }

    /**
     * The list box part of `_on_dictionary_change`: refill the list box with
     * the words in order and select the first one, which shows its description.
     */
    method ShowWords()
      requires listboxFontSize == detailFontSize && Invariant(WindowState())
      modifies this`listboxItems, this`selection, this`detailText
      ensures Valid()
      ensures listboxItems == Column(words)
      ensures selection == (if words != [] then Some(0) else None)
      ensures detailText == (if words != [] then words[0].description else old(detailText))
    {
      listboxItems := [];
      selection := None;
      for i := 0 to |words|
        modifies this`listboxItems
        invariant |listboxItems| == i
        invariant forall k :: 0 <= k < i ==> listboxItems[k] == words[k].word
      {
        listboxItems := listboxItems + [words[i].word];
      }
      assert listboxItems == Column(words);
      if |words| > 0 {
        selection := Some(0);
        OnSelect();
      }
    }

    /** `_on_select`: show the selected entry's description; without a selection nothing changes. */
    method OnSelect()
      requires Valid()
      modifies this`detailText
      ensures Valid()
      ensures detailText == if selection.Some? then words[selection.value].description else old(detailText)
    {
      if selection.None? {
        return;
      }
      var i := selection.value;
      detailText := words[i].description;
    }

    /** A click on row `i` of the list box: it becomes the selection, and `<<ListboxSelect>>` runs `_on_select`. */
    method SelectRow(i: nat)
      requires Valid() && i < |words|
      modifies this`selection, this`detailText
      ensures Valid()
      ensures selection == Some(i) && detailText == words[i].description
    {
      selection := Some(i);
      OnSelect();
    }

    /**
     * `_start_move`: remember where the pointer and the window are when a
     * drag starts; the window position comes from the geometry string, or
     * from what Tk reports when that cannot be parsed.
     */
    method StartMove(pointerX: int, pointerY: int, reportedX: int, reportedY: int)
      modifies this`startPointer, this`startWindow
      ensures startPointer == Some((pointerX, pointerY))
      ensures startWindow == Some(StartPosition(geometry, reportedX, reportedY))
    {
      startPointer := Some((pointerX, pointerY));
      startWindow := Some(StartPosition(geometry, reportedX, reportedY));
    }
  }
}
