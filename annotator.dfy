/**
  The `Annotator` of the current version: the session state its handlers change
  (`counter`, `current_file`, `files`, `annotations`, `hide_state`, the keyword
  settings) and the disk they act on. A handler that reads a widget value takes
  it as a parameter (`None` when the widget has none), `os.path.isdir` is a
  `bool` parameter, and `os.listdir` of the image directory is an
  `Option<seq<string>>` parameter, `None` when listing fails.
*/
module AnnotatorApp {
  import opened Wrappers
  import opened PyStr
  import opened Ordering
  import opened Keywords
  import opened Catalog
  import opened LedgerStore
  import opened FileSystem
  import opened Reconcile
  import opened Cursor

  class Annotator {
    var imgDir: string
    const jsonPath: string
    /** `FILTER_EXT_LIST`. */
    const extList: seq<string>
    const disk: Disk
    var categories: string
    var splitCategories: seq<string>
    var counter: int
    var hideState: int
    var annotations: map<string, string>
    var files: seq<string>
    /** `state.current_file`; `None` until a file has been selected. */
    var currentFile: Option<string>
    var keywords: string
    var sep: string
    var splitKeywords: seq<string>
    var keywordAndOr: bool
    /** `self.img_file_names`, the listing of the last move. */
    var imgFileNames: seq<string>
    var keywordDict: map<string, seq<string>>

    /** What every handler keeps: the cursor is never negative and the hide flag
        is 0 or 1. */
    ghost predicate Valid()
      reads this
    {
      counter >= 0 && (hideState == 0 || hideState == 1)
    }

    /** What `get_imgs` yields for the directory listing `listing` under the
        current keyword settings. */
    ghost function Listed(listing: Option<seq<string>>): seq<string>
      reads `splitKeywords, `keywordAndOr, `sep
    {
      ActiveListing(GetFilteredFiles(listing, extList), splitKeywords, keywordAndOr, sep)
    }

    /** `set_state_dict` on a fresh session, with the configured directory, ledger
        path, categories and `filter_files` setting. */
    constructor(imageDir: string, jsonPath: string, categories: string, filterFiles: string, disk: Disk)
      ensures Valid()
      ensures imgDir == imageDir && this.jsonPath == jsonPath && this.disk == disk
      ensures extList == FilterExtList(filterFiles)
      ensures this.categories == categories && splitCategories == SplitStrip(categories)
      ensures counter == 0 && hideState == 0 && annotations == map[] && files == [] && currentFile.None?
      ensures keywords == "" && sep == " " && splitKeywords == [] && !keywordAndOr
    {
      imgDir := imageDir;
      this.jsonPath := jsonPath;
      extList := FilterExtList(filterFiles);
      this.disk := disk;
      this.categories := categories;
      splitCategories := SplitStrip(categories);
      counter := 0;
      hideState := 0;
      annotations := map[];
      files := [];
      currentFile := None;
      keywords := "";
      sep := " ";
      splitKeywords := [];
      keywordAndOr := false;
      imgFileNames := [];
      keywordDict := map[];
    }

    /** `set_current_file`: select `files[counter]` when the counter is inside the
        list, otherwise keep the current file. */
    method SetCurrentFile()
      requires Valid()
      modifies `currentFile
      ensures currentFile == if counter < |files| then Some(files[counter]) else old(currentFile)
    {
      if counter < |files| {
        currentFile := Some(files[counter]);
      }
    }

    /** `change_img(val)`: the floor-clamped step, then `set_current_file`. */
    method ChangeImg(val: int)
      requires Valid()
      modifies `counter, `currentFile
      ensures Valid()
      ensures counter == FloorStep(old(counter), val)
      ensures currentFile == if counter < |files| then Some(files[counter]) else old(currentFile)
    {
      counter := counter + val;
      if counter < 1 {
        counter := 0;
      }
      SetCurrentFile();
    }

    /** `change_hide_state`: flip 0 and 1. */
    method ChangeHideState()
      requires Valid()
      modifies `hideState
      ensures Valid()
      ensures hideState == 1 - old(hideState)
    {
      hideState := 1 - hideState;
    }

    /** `annotate(label, results_d, json_path)`: label the current file, step
        forward, and merge `results_d` into the ledger; `results_d["files"]` is
        the annotations map itself, so the ledger receives the new label. */
    method Annotate(category: string)
      requires Valid() && currentFile.Some?
      modifies `annotations, `counter, `currentFile, disk`ledger
      ensures Valid()
      ensures annotations == old(annotations)[old(currentFile).value := category]
      ensures counter == FloorStep(old(counter), 1)
      ensures currentFile == if counter < |files| then Some(files[counter]) else old(currentFile)
      ensures disk.ledger == UpdateJson(ResultsDoc(imgDir, annotations), old(disk.ledger))
    {
      annotations := annotations[currentFile.value := category];
      ChangeImg(1);
      disk.UpdateJson(ResultsDoc(imgDir, annotations));
    }

    /** `get_keyword_file_dict`: group `img_file_names` by keyword, first match
        wins; an empty separator is set to `" "` on the first keyword. */
    method GetKeywordFileDict()
      modifies `sep, `keywordDict
      ensures sep == if splitKeywords != [] && old(sep) == "" then " " else old(sep)
      ensures keywordDict == KeywordDict(imgFileNames, splitKeywords, sep)
    {
      if splitKeywords != [] && sep == "" {
        sep := " ";
      }
      keywordDict := KeywordFileDict(imgFileNames, splitKeywords, sep);
    }

    /** `make_folders_move_files(use_keywords=True)` on the listing `listing`:
        group the listed images by keyword and move each non-empty group into
        its keyword's folder. */
    method MoveByKeywords(listing: Option<seq<string>>)
      modifies `imgFileNames, `sep, `keywordDict, disk`folders
      ensures imgFileNames == GetFilteredFiles(listing, extList)
      ensures sep == if splitKeywords != [] && old(sep) == "" then " " else old(sep)
      ensures keywordDict == KeywordDict(imgFileNames, splitKeywords, sep)
      ensures disk.folders == MovedAll(old(disk.folders), imgDir, Present(KeywordGroups(keywordDict), imgFileNames))
    {
      imgFileNames := GetFilteredFiles(listing, extList);
      GetKeywordFileDict();
      var moved := MoveGroups(disk, imgDir, KeywordGroups(keywordDict), imgFileNames);
    }

    /** `make_folders_move_files(use_keywords=False)` on the listing `listing`:
        nothing moves without a ledger file; otherwise each label's listed
        files move into its folder, the moved files leave the annotations and
        the ledger, which is rewritten when entries remain and deleted
        otherwise, and the counter is reset. */
    method MoveByLedger(listing: Option<seq<string>>)
      requires Valid()
      requires disk.ledger.Some? ==> HasFilesMap(disk.ledger.value)
      modifies `imgFileNames, `annotations, `counter, disk
      ensures Valid()
      ensures imgFileNames == GetFilteredFiles(listing, extList)
      ensures old(disk.ledger).None? ==>
        disk.folders == old(disk.folders) && disk.ledger.None? &&
        annotations == old(annotations) && counter == old(counter)
      ensures old(disk.ledger).Some? ==>
        var moves := Present(LedgerGroups(FilesOf(old(disk.ledger).value)), imgFileNames);
        disk.folders == MovedAll(old(disk.folders), imgDir, moves) &&
        annotations == old(annotations) - AllMoved(moves) &&
        disk.ledger == PrunedLedger(old(disk.ledger).value, AllMoved(moves)) &&
        counter == 0
    {
      imgFileNames := GetFilteredFiles(listing, extList);
      if disk.ledger.Some? {
        var doc := LoadJson(disk.ledger).value;
        var moved := MoveLedgerFiles(doc);
      }
    }

    /** The moves of the ledger branch for the loaded ledger `doc`: each label's
        listed files move into its folder, the moved files leave the
        annotations and the ledger, and the counter is reset. */
    method MoveLedgerFiles(doc: Doc) returns (moved: set<string>)
      requires Valid()
      requires HasFilesMap(doc)
      modifies `annotations, `counter, disk
      ensures Valid()
      ensures var moves := Present(LedgerGroups(FilesOf(doc)), old(imgFileNames));
        disk.folders == MovedAll(old(disk.folders), old(imgDir), moves) && moved == AllMoved(moves)
      ensures annotations == old(annotations) - moved
      ensures disk.ledger == PrunedLedger(doc, moved)
      ensures counter == 0
    {
      moved := MoveAndPrune(disk, imgDir, doc, imgFileNames);
      annotations, counter := annotations - moved, 0;
    }

    /** `make_folders_move_files(use_keywords)` on the listing `listing`. */
    method MakeFoldersMoveFiles(listing: Option<seq<string>>, useKeywords: bool)
      requires Valid()
      requires !useKeywords && disk.ledger.Some? ==> HasFilesMap(disk.ledger.value)
      modifies `imgFileNames, `sep, `keywordDict, `annotations, `counter, disk
      ensures Valid()
      ensures imgFileNames == GetFilteredFiles(listing, extList)
      ensures useKeywords ==>
        sep == (if splitKeywords != [] && old(sep) == "" then " " else old(sep)) &&
        keywordDict == KeywordDict(imgFileNames, splitKeywords, sep)
      ensures useKeywords ==>
        disk.folders == MovedAll(old(disk.folders), imgDir, Present(KeywordGroups(keywordDict), imgFileNames)) &&
        annotations == old(annotations) && counter == old(counter) && disk.ledger == old(disk.ledger)
      ensures !useKeywords ==> sep == old(sep) && keywordDict == old(keywordDict)
      ensures !useKeywords && old(disk.ledger).None? ==>
        disk.folders == old(disk.folders) && disk.ledger.None? &&
        annotations == old(annotations) && counter == old(counter)
      ensures !useKeywords && old(disk.ledger).Some? ==>
        var moves := Present(LedgerGroups(FilesOf(old(disk.ledger).value)), imgFileNames);
        disk.folders == MovedAll(old(disk.folders), imgDir, moves) &&
        annotations == old(annotations) - AllMoved(moves) &&
        disk.ledger == PrunedLedger(old(disk.ledger).value, AllMoved(moves)) &&
        counter == 0
    {
      if useKeywords {
        MoveByKeywords(listing);
      } else {
        MoveByLedger(listing);
      }
    }

    /** `get_imgs`: the sorted listing, narrowed by the keywords when there are
        any; `[]` when listing fails. */
    method GetImgs(listing: Option<seq<string>>) returns (r: seq<string>)
      ensures r == Listed(listing)
    {
      var names := GetFilteredFiles(listing, extList);
      names := Sort(names);
      if splitKeywords != [] {
        r := CombineKeywords(names, splitKeywords, keywordAndOr, sep);
        return;
      }
      r := names;
    }

    /** `reset_imgs`: reload the listing, clear the annotations and go to the
        first file. */
    method ResetImgs(listing: Option<seq<string>>)
      requires Valid()
      modifies `counter, `annotations, `files, `currentFile
      ensures Valid()
      ensures files == old(Listed(listing))
      ensures counter == 0 && annotations == map[]
      ensures currentFile == if files != [] then Some(files[0]) else old(currentFile)
    {
      var imgFileNames := GetImgs(listing);
      var current := if imgFileNames != [] then Some(imgFileNames[0]) else currentFile;
      files, counter, annotations, currentFile := imgFileNames, 0, map[], current;
    }

    /** `set_dir`: reload the files when the directory exists, then select the
        file under the counter. */
    method SetDir(isDir: bool, listing: Option<seq<string>>)
      requires Valid()
      modifies `files, `currentFile
      ensures files == if isDir then old(Listed(listing))
                       else old(files)
      ensures currentFile == if counter < |files| then Some(files[counter]) else old(currentFile)
    {
      if isDir {
        files := GetImgs(listing);
      }
      if files != [] && counter < |files| {
        currentFile := Some(files[counter]);
      }
    }

    /** `change_dir`: a missing or empty entry, or one that is not a directory,
        changes nothing; otherwise switch to it and reset. */
    method ChangeDir(newDir: Option<string>, isDir: bool, listing: Option<seq<string>>)
      requires Valid()
      modifies `imgDir, `counter, `annotations, `files, `currentFile
      ensures Valid()
      ensures newDir.None? || newDir.value == "" || !isDir ==>
        imgDir == old(imgDir) && counter == old(counter) && annotations == old(annotations) &&
        files == old(files) && currentFile == old(currentFile)
      ensures newDir.Some? && newDir.value != "" && isDir ==>
        imgDir == newDir.value &&
        files == old(Listed(listing)) &&
        counter == 0 && annotations == map[] &&
        currentFile == (if files != [] then Some(files[0]) else old(currentFile))
    {
      if newDir.None? || newDir.value == "" || !isDir {
        return;
      }
      imgDir := newDir.value;
      ResetImgs(listing);
    }

    /** `update_categories`: an empty entry is ignored; otherwise the categories
        are the entry's comma-separated, stripped parts. */
    method UpdateCategories(newCategories: Option<string>)
      modifies `categories, `splitCategories
      ensures newCategories.None? || newCategories.value == "" ==>
        categories == old(categories) && splitCategories == old(splitCategories)
      ensures newCategories.Some? && newCategories.value != "" ==>
        categories == newCategories.value && splitCategories == SplitStrip(newCategories.value)
    {
      if newCategories.None? || newCategories.value == "" {
        return;
      }
      categories := newCategories.value;
      splitCategories := SplitStrip(newCategories.value);
    }

    /** `reset_keywords`. */
    method ResetKeywords()
      modifies `splitKeywords
      ensures splitKeywords == []
    {
      splitKeywords := [];
    }

    /** `change_keywords`: the entry (or `""`), split on commas and stripped unless
        it is empty. */
    method ChangeKeywords(newKeywords: Option<string>)
      modifies `keywords, `splitKeywords
      ensures keywords == if newKeywords.Some? then newKeywords.value else ""
      ensures splitKeywords == if keywords == "" then [] else SplitStrip(keywords)
    {
      keywords := if newKeywords.Some? then newKeywords.value else "";
      if newKeywords.Some? && newKeywords.value != "" {
        splitKeywords := SplitStrip(newKeywords.value);
      } else {
        splitKeywords := [];
      }
    }

    /** `keyword_move_files`: with keywords set, move by keyword, drop the
        keywords and reset on the listing taken after the move. */
    method KeywordMoveFiles(listing: Option<seq<string>>, relisting: Option<seq<string>>)
      requires Valid()
      modifies `imgFileNames, `sep, `keywordDict, `annotations, `counter, `splitKeywords, `files, `currentFile, disk`folders
      ensures Valid()
      ensures old(splitKeywords) == [] ==>
        splitKeywords == [] && files == old(files) && counter == old(counter) &&
        annotations == old(annotations) && disk.folders == old(disk.folders) &&
        currentFile == old(currentFile) && imgFileNames == old(imgFileNames) &&
        sep == old(sep) && keywordDict == old(keywordDict)
      ensures old(splitKeywords) != [] ==>
        imgFileNames == GetFilteredFiles(listing, extList) &&
        sep == (if old(sep) == "" then " " else old(sep)) &&
        keywordDict == KeywordDict(imgFileNames, old(splitKeywords), sep) &&
        disk.folders == MovedAll(old(disk.folders), imgDir, Present(KeywordGroups(keywordDict), imgFileNames)) &&
        splitKeywords == [] && files == Sort(GetFilteredFiles(relisting, extList)) &&
        counter == 0 && annotations == map[] &&
        currentFile == if files != [] then Some(files[0]) else old(currentFile)
    {
      if splitKeywords != [] {
        MoveByKeywords(listing);
        ResetAfterMove(relisting);
      }
    }

    /** The end of `keyword_move_files`: drop the keywords and reset on the
        listing `relisting` taken after the move. */
    method ResetAfterMove(relisting: Option<seq<string>>)
      requires Valid()
      modifies `splitKeywords, `counter, `annotations, `files, `currentFile
      ensures Valid()
      ensures splitKeywords == [] && files == Sort(GetFilteredFiles(relisting, extList))
      ensures counter == 0 && annotations == map[]
      ensures currentFile == if files != [] then Some(files[0]) else old(currentFile)
    {
      ResetKeywords();
      ResetImgs(relisting);
    }

    /** `get_sep`: the entry when there is one, otherwise the separator stays. */
    method GetSep(newSep: Option<string>)
      modifies `sep
      ensures sep == if newSep.Some? then newSep.value else old(sep)
    {
      if newSep.Some? {
        sep := newSep.value;
      }
    }

    /** The "Reset Annotations?" branch: write `{}` to the ledger when there are
        files and a ledger path, then `reset_imgs`. */
    method ResetAnnotations(listing: Option<seq<string>>)
      requires Valid()
      modifies `counter, `annotations, `files, `currentFile, disk`ledger
      ensures Valid()
      ensures disk.ledger == if old(files) != [] && jsonPath != "" then Some(map[]) else old(disk.ledger)
      ensures files == old(Listed(listing))
      ensures counter == 0 && annotations == map[]
      ensures currentFile == if files != [] then Some(files[0]) else old(currentFile)
    {
      if files != [] && jsonPath != "" {
        disk.SaveJson(map[]);
      }
      ResetImgs(listing);
    }
  }
}
