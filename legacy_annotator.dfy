/**
  The `Annotator` of the older top-level script. Its handlers are those of the
  current version with other guards: the listing filter compares undotted
  extensions, `change_dir` checks only that the entry is a directory,
  `update_categories` and `get_sep` take the entry as it is, and the reset
  branch writes `{}` whenever there are files. This version also has
  `filter_all_keywords`. The directory listing is a `seq<string>`: a listing that
  fails makes `get_imgs` iterate over `None` and raise, which is not modelled.
*/
module LegacyAnnotatorApp {
  import opened Wrappers
  import opened PyStr
  import opened Ordering
  import opened Keywords
  import opened Catalog
  import opened LedgerStore
  import opened FileSystem
  import opened Reconcile
  import opened Cursor

  class LegacyAnnotator {
    var imgDir: string
    const jsonPath: string
    /** `FILTER_EXT_LIST` of the older utilities: undotted extensions. */
    const extList: seq<string>
    const disk: Disk
    var categories: string
    var splitCategories: seq<string>
    var counter: int
    var hideState: int
    var annotations: map<string, string>
    var files: seq<string>
    var currentFile: Option<string>
    var keywords: string
    var sep: string
    var splitKeywords: seq<string>
    var keywordAndOr: bool
    var imgFileNames: seq<string>
    var keywordDict: map<string, seq<string>>

    /** The cursor is never negative and the hide flag is 0 or 1. */
    ghost predicate Valid()
      reads this
    {
      counter >= 0 && (hideState == 0 || hideState == 1)
    }

    /** The older `get_filtered_files` on a listing that succeeded. */
    function Filtered(listing: seq<string>): seq<string>
    {
      GetFilteredFilesOld(Some(listing), extList).value
    }

    /** What `get_imgs` yields for the listing `listing` under the current keyword
        settings. */
    ghost function Listed(listing: seq<string>): seq<string>
      reads `splitKeywords, `keywordAndOr, `sep
    {
      ActiveListing(Filtered(listing), splitKeywords, keywordAndOr, sep)
    }

    /** `set_state_dict` on a fresh session. `__init__` sets `img_file_names` to
        `None` until a move assigns it; the model starts it at `[]`. */
    constructor(imageDir: string, jsonPath: string, categories: string, filterFiles: string, disk: Disk)
      ensures Valid()
      ensures imgDir == imageDir && this.jsonPath == jsonPath && this.disk == disk
      ensures extList == FilterExtListOld(filterFiles)
      ensures this.categories == categories && splitCategories == SplitStrip(categories)
      ensures counter == 0 && hideState == 0 && annotations == map[] && files == [] && currentFile.None?
      ensures keywords == "" && sep == " " && splitKeywords == []
    {
      imgDir := imageDir;
      this.jsonPath := jsonPath;
      extList := FilterExtListOld(filterFiles);
      this.disk := disk;
      this.categories := categories;
      splitCategories := SplitStrip(categories);
      counter := 0;
      hideState := 0;
      annotations := map[];
      files := [];
      currentFile := None;
      keywords := "";
      sep := " ";
      splitKeywords := [];
      keywordAndOr := false;
      imgFileNames := [];
      keywordDict := map[];
    }

    /** `set_current_file`: select `files[counter]` when the counter is inside the
        list. */
    method SetCurrentFile()
      requires Valid()
      modifies `currentFile
      ensures currentFile == if counter < |files| then Some(files[counter]) else old(currentFile)
    {
      if counter < |files| {
        currentFile := Some(files[counter]);
      }
    }

    /** `change_img(val)`: the same floor-clamped step as the current version. */
    method ChangeImg(val: int)
      requires Valid()
      modifies `counter, `currentFile
      ensures Valid()
      ensures counter == FloorStep(old(counter), val)
      ensures currentFile == if counter < |files| then Some(files[counter]) else old(currentFile)
    {
      counter := counter + val;
      if counter < 1 {
        counter := 0;
      }
      SetCurrentFile();
    }

    /** `change_hide_state`: flip 0 and 1. */
    method ChangeHideState()
      requires Valid()
      modifies `hideState
      ensures Valid()
      ensures hideState == 1 - old(hideState)
    {
      hideState := 1 - hideState;
    }

    /** `annotate(label, results_d, json_path)`, where `results_d` is the
        `json_dict` whose `"files"` entry is the annotations map itself. */
    method Annotate(category: string)
      requires Valid() && currentFile.Some?
      modifies `annotations, `counter, `currentFile, disk`ledger
      ensures Valid()
      ensures annotations == old(annotations)[old(currentFile).value := category]
      ensures counter == FloorStep(old(counter), 1)
      ensures currentFile == if counter < |files| then Some(files[counter]) else old(currentFile)
      ensures disk.ledger == UpdateJson(ResultsDoc(imgDir, annotations), old(disk.ledger))
    {
      annotations := annotations[currentFile.value := category];
      ChangeImg(1);
      disk.UpdateJson(ResultsDoc(imgDir, annotations));
    }

    /** `get_keyword_file_dict`: first match wins, as in the current version; the
        `keywords_and` string it also builds is never read, so it is not modelled. */
    method GetKeywordFileDict()
      modifies `sep, `keywordDict
      ensures sep == if splitKeywords != [] && old(sep) == "" then " " else old(sep)
      ensures keywordDict == KeywordDict(imgFileNames, splitKeywords, sep)
    {
      if splitKeywords != [] && sep == "" {
        sep := " ";
      }
      keywordDict := KeywordFileDict(imgFileNames, splitKeywords, sep);
    }

    /** `make_folders_move_files(use_keywords=True)`. */
    method MoveByKeywords(listing: seq<string>)
      modifies `imgFileNames, `sep, `keywordDict, disk`folders
      ensures imgFileNames == Filtered(listing)
      ensures sep == if splitKeywords != [] && old(sep) == "" then " " else old(sep)
      ensures keywordDict == KeywordDict(imgFileNames, splitKeywords, sep)
      ensures disk.folders == MovedAll(old(disk.folders), imgDir, Present(KeywordGroups(keywordDict), imgFileNames))
    {
      imgFileNames := Filtered(listing);
      GetKeywordFileDict();
      var moved := MoveGroups(disk, imgDir, KeywordGroups(keywordDict), imgFileNames);
    }

    /** `make_folders_move_files(use_keywords=False)`: nothing moves without a
        ledger file; otherwise the ledger is loaded (the older loader) and the
        listed files of each label move. */
    method MoveByLedger(listing: seq<string>)
      requires Valid()
      requires disk.ledger.Some? ==> HasFilesMap(disk.ledger.value)
      modifies `imgFileNames, `annotations, `counter, disk
      ensures Valid()
      ensures imgFileNames == Filtered(listing)
      ensures old(disk.ledger).None? ==>
        disk.folders == old(disk.folders) && disk.ledger.None? &&
        annotations == old(annotations) && counter == old(counter)
      ensures old(disk.ledger).Some? ==>
        var moves := Present(LedgerGroups(FilesOf(old(disk.ledger).value)), imgFileNames);
        disk.folders == MovedAll(old(disk.folders), imgDir, moves) &&
        annotations == old(annotations) - AllMoved(moves) &&
        disk.ledger == PrunedLedger(old(disk.ledger).value, AllMoved(moves)) &&
        counter == 0
    {
      imgFileNames := Filtered(listing);
      if disk.ledger.Some? {
        var doc := LoadJsonOld(disk.ledger).value;
        var moved := MoveLedgerFiles(doc);
      }
    }

    /** The ledger branch's moves for the loaded ledger `doc`. */
    method MoveLedgerFiles(doc: Doc) returns (moved: set<string>)
      requires Valid()
      requires HasFilesMap(doc)
      modifies `annotations, `counter, disk
      ensures Valid()
      ensures var moves := Present(LedgerGroups(FilesOf(doc)), old(imgFileNames));
        disk.folders == MovedAll(old(disk.folders), old(imgDir), moves) && moved == AllMoved(moves)
      ensures annotations == old(annotations) - moved
      ensures disk.ledger == PrunedLedger(doc, moved)
      ensures counter == 0
    {
      moved := MoveAndPrune(disk, imgDir, doc, imgFileNames);
      annotations, counter := annotations - moved, 0;
    }

    /** `make_folders_move_files(use_keywords)` on the listing `listing`. */
    method MakeFoldersMoveFiles(listing: seq<string>, useKeywords: bool)
      requires Valid()
      requires !useKeywords && disk.ledger.Some? ==> HasFilesMap(disk.ledger.value)
      modifies `imgFileNames, `sep, `keywordDict, `annotations, `counter, disk
      ensures Valid()
      ensures imgFileNames == Filtered(listing)
      ensures useKeywords ==>
        sep == (if splitKeywords != [] && old(sep) == "" then " " else old(sep)) &&
        keywordDict == KeywordDict(imgFileNames, splitKeywords, sep)
      ensures useKeywords ==>
        disk.folders == MovedAll(old(disk.folders), imgDir, Present(KeywordGroups(keywordDict), imgFileNames)) &&
        annotations == old(annotations) && counter == old(counter) && disk.ledger == old(disk.ledger)
      ensures !useKeywords ==> sep == old(sep) && keywordDict == old(keywordDict)
      ensures !useKeywords && old(disk.ledger).None? ==>
        disk.folders == old(disk.folders) && disk.ledger.None? &&
        annotations == old(annotations) && counter == old(counter)
      ensures !useKeywords && old(disk.ledger).Some? ==>
        var moves := Present(LedgerGroups(FilesOf(old(disk.ledger).value)), imgFileNames);
        disk.folders == MovedAll(old(disk.folders), imgDir, moves) &&
        annotations == old(annotations) - AllMoved(moves) &&
        disk.ledger == PrunedLedger(old(disk.ledger).value, AllMoved(moves)) &&
        counter == 0
    {
      if useKeywords {
        MoveByKeywords(listing);
      } else {
        MoveByLedger(listing);
      }
    }

    /** `filter_all_keywords`: the keyword loop of `get_imgs` on the unsorted
        `img_file_names`, deduplicated and sorted. Nothing calls it; before a
        first move `img_file_names` is still `None` there and `.copy()` raises
        `AttributeError`, a case the model does not represent. */
    method FilterAllKeywords() returns (r: seq<string>)
      ensures r == Combine(imgFileNames, splitKeywords, keywordAndOr, sep)
    {
      r := CombineKeywords(imgFileNames, splitKeywords, keywordAndOr, sep);
    }

    /** `get_imgs`: the sorted listing, narrowed by the keywords when there are
        any. The metadata scan it also runs does not affect the result. */
    method GetImgs(listing: seq<string>) returns (r: seq<string>)
      ensures r == Listed(listing)
    {
      var names := Filtered(listing);
      names := Sort(names);
      if splitKeywords != [] {
        r := CombineKeywords(names, splitKeywords, keywordAndOr, sep);
        return;
      }
      r := names;
    }

    /** `reset_imgs`: its `is None` guard never fires, because `get_imgs` always
        returns a list. */
    method ResetImgs(listing: seq<string>)
      requires Valid()
      modifies `counter, `annotations, `files, `currentFile
      ensures Valid()
      ensures files == old(Listed(listing))
      ensures counter == 0 && annotations == map[]
      ensures currentFile == if files != [] then Some(files[0]) else old(currentFile)
    {
      var imgFileNames := GetImgs(listing);
      var current := if imgFileNames != [] then Some(imgFileNames[0]) else currentFile;
      files, counter, annotations, currentFile := imgFileNames, 0, map[], current;
    }

    /** `set_dir`: reload the files when the directory exists, then select the
        file under the counter. */
    method SetDir(isDir: bool, listing: seq<string>)
      requires Valid()
      modifies `files, `currentFile
      ensures files == if isDir then old(Listed(listing)) else old(files)
      ensures currentFile == if counter < |files| then Some(files[counter]) else old(currentFile)
    {
      if isDir {
        files := GetImgs(listing);
      }
      if files != [] && counter < |files| {
        currentFile := Some(files[counter]);
      }
    }

    /** `change_dir`: only the directory test guards the switch. */
    method ChangeDir(newDir: string, isDir: bool, listing: seq<string>)
      requires Valid()
      modifies `imgDir, `counter, `annotations, `files, `currentFile
      ensures Valid()
      ensures !isDir ==>
        imgDir == old(imgDir) && counter == old(counter) && annotations == old(annotations) &&
        files == old(files) && currentFile == old(currentFile)
      ensures isDir ==>
        imgDir == newDir && files == old(Listed(listing)) &&
        counter == 0 && annotations == map[] &&
        currentFile == (if files != [] then Some(files[0]) else old(currentFile))
    {
      if !isDir {
        return;
      }
      imgDir := newDir;
      ResetImgs(listing);
    }

    /** `update_categories`: no guard, so an empty entry gives the single category
        `""`. */
    method UpdateCategories(newCategories: string)
      modifies `categories, `splitCategories
      ensures categories == newCategories && splitCategories == SplitStrip(newCategories)
      ensures newCategories == "" ==> splitCategories == [""]
    {
      categories := newCategories;
      splitCategories := SplitStrip(newCategories);
      EmptyCategories();
    }

    /** `reset_keywords`. */
    method ResetKeywords()
      modifies `splitKeywords
      ensures splitKeywords == []
    {
      splitKeywords := [];
    }

    /** `change_keywords`: the entry split on commas and stripped unless it is
        empty. */
    method ChangeKeywords(newKeywords: string)
      modifies `keywords, `splitKeywords
      ensures keywords == newKeywords
      ensures splitKeywords == if keywords == "" then [] else SplitStrip(keywords)
    {
      keywords := newKeywords;
      if keywords != "" {
        splitKeywords := SplitStrip(keywords);
      } else {
        splitKeywords := [];
      }
    }

    /** `keyword_move_files`. */
    method KeywordMoveFiles(listing: seq<string>, relisting: seq<string>)
      requires Valid()
      modifies `imgFileNames, `sep, `keywordDict, `annotations, `counter, `splitKeywords, `files, `currentFile, disk`folders
      ensures Valid()
      ensures old(splitKeywords) == [] ==>
        splitKeywords == [] && files == old(files) && counter == old(counter) &&
        annotations == old(annotations) && disk.folders == old(disk.folders) &&
        currentFile == old(currentFile) && imgFileNames == old(imgFileNames) &&
        sep == old(sep) && keywordDict == old(keywordDict)
      ensures old(splitKeywords) != [] ==>
        imgFileNames == Filtered(listing) &&
        sep == (if old(sep) == "" then " " else old(sep)) &&
        keywordDict == KeywordDict(imgFileNames, old(splitKeywords), sep) &&
        disk.folders == MovedAll(old(disk.folders), imgDir, Present(KeywordGroups(keywordDict), imgFileNames)) &&
        splitKeywords == [] && files == Sort(Filtered(relisting)) &&
        counter == 0 && annotations == map[] &&
        currentFile == if files != [] then Some(files[0]) else old(currentFile)
    {
      if splitKeywords != [] {
        MoveByKeywords(listing);
        ResetAfterMove(relisting);
      }
    }

    /** The end of `keyword_move_files`: drop the keywords and reset. */
    method ResetAfterMove(relisting: seq<string>)
      requires Valid()
      modifies `splitKeywords, `counter, `annotations, `files, `currentFile
      ensures Valid()
      ensures splitKeywords == [] && files == Sort(Filtered(relisting))
      ensures counter == 0 && annotations == map[]
      ensures currentFile == if files != [] then Some(files[0]) else old(currentFile)
    {
      ResetKeywords();
      ResetImgs(relisting);
    }

    /** `get_sep`: the entry, whatever it is. */
    method GetSep(newSep: string)
      modifies `sep
      ensures sep == newSep
    {
      sep := newSep;
    }

    /** The "Reset Annotations?" branch: write `{}` to the ledger when there are
        files, then `reset_imgs`. */
    method ResetAnnotations(listing: seq<string>)
      requires Valid()
      modifies `counter, `annotations, `files, `currentFile, disk`ledger
      ensures Valid()
      ensures disk.ledger == if old(files) != [] then Some(map[]) else old(disk.ledger)
      ensures files == old(Listed(listing))
      ensures counter == 0 && annotations == map[]
      ensures currentFile == if files != [] then Some(files[0]) else old(currentFile)
    {
      if files != [] {
        disk.SaveJson(map[]);
      }
      ResetImgs(listing);
    }
  }

  /** Splitting and stripping the empty entry gives one empty category. */
  lemma EmptyCategories()
    ensures SplitStrip("") == [""]
  {
  }

  /** `filter_all_keywords` on a listing agrees with the keyword branch of
      `get_imgs` on the same listing, although only the latter sorts first. */
  lemma FilterAllAgreesWithGetImgs(names: seq<string>, keywords: seq<string>, andMode: bool, sep: string)
    requires keywords != []
    ensures Combine(names, keywords, andMode, sep) == ActiveListing(names, keywords, andMode, sep)
  {
    SortSorts(names);
    forall x ensures x in names <==> x in Sort(names) {
      assert x in names <==> x in multiset(names);
      assert x in Sort(names) <==> x in multiset(Sort(names));
    }
    CombineSameMembers(names, Sort(names), keywords, andMode, sep);
  }
}
