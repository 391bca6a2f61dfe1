/**
  The image viewer script: the session state its callbacks change, the cached
  listing `get_imgs` keeps behind the `is_new_dir` and `is_new_keywords` flags,
  the wrap-to-0 cursor, `clear_img`, `shuffle_files` and the slideshow step. A
  widget value is a parameter (`None` when the widget has none), as are
  `os.path.isdir`, the directory listing (`None` when it fails) and the order
  `random.shuffle` picks.
*/
module ImageViewer {
  import opened Wrappers
  import opened PyStr
  import opened Ordering
  import opened KeywordFilter
  import opened Keywords
  import opened Catalog
  import opened Cursor

  /** `DEFAULT_HEIGHT_CLAMP`. */
  const DefaultHeightClamp: int := 785

  /** The OR loop of the viewer's `get_imgs`: every keyword's matches against the
      listing, concatenated. */
  method UnionKeywordMatches(files: seq<string>, keywords: seq<string>, sep: string)
    returns (keywordFiltered: seq<string>)
    ensures keywordFiltered == OrUnion(files, Preds(keywords, sep))
  {
    var ps := Preds(keywords, sep);
    keywordFiltered := [];
    for i := 0 to |keywords|
      invariant keywordFiltered == OrUnion(files, ps[..i])
    {
      assert ps[..i + 1][..i] == ps[..i];
      assert ps[i] == MatchesKeyword(keywords[i], EffectiveSep(sep));
      var _, filtered := FilterByKeyword(files, keywords[i], sep);
      keywordFiltered := keywordFiltered + filtered;
    }
    assert ps[..|keywords|] == ps;
  }

  /** A shuffled session keeps `list(set(...))` unsorted; whatever order it has,
      it holds the same files as the sorted listing, once each. */
  lemma ShuffledKeywordListing(files: seq<string>, keywords: seq<string>, sep: string)
    ensures var kf := OrUnion(files, Preds(keywords, sep));
      NoDups(Dedup(kf)) &&
      forall x :: x in Dedup(kf) <==> x in Combine(files, keywords, false, sep)
  {
    var kf := OrUnion(files, Preds(keywords, sep));
    DedupElements(kf);
    SortedSetElements(kf);
  }

  /** The keyword branch of the viewer's `get_imgs`: the OR union, without
      duplicates, sorted unless the session is shuffled. */
  method KeywordListing(files: seq<string>, keywords: seq<string>, sep: string, shuffled: bool)
    returns (distinct: seq<string>)
    ensures !shuffled ==> distinct == Combine(files, keywords, false, sep)
    ensures shuffled ==>
      NoDups(distinct) && forall x :: x in distinct <==> x in Combine(files, keywords, false, sep)
  {
    var keywordFiltered := UnionKeywordMatches(files, keywords, sep);
    ShuffledKeywordListing(files, keywords, sep);
    distinct := Dedup(keywordFiltered);
    if !shuffled {
      distinct := Sort(distinct);
    }
  }

  class Viewer {
    /** `FILTER_EXT_LIST`. */
    const extList: seq<string>
    var imgDir: string
    /** `state.img_file_names`, the sorted listing of the last directory scan. */
    var imgFileNames: seq<string>
    /** `state.filtered_words`, what `get_imgs` returns. */
    var filteredWords: seq<string>
    var counter: int
    var files: seq<string>
    var currentFile: Option<string>
    var isNewDir: bool
    var isNewKeywords: bool
    var isShuffled: bool
    var isSlideshow: bool
    var continuous: bool
    var heightClamp: int
    var keywords: string
    var sep: string
    var splitKeywords: seq<string>
    /** The identities of the list objects that `state.img_file_names`,
        `state.filtered_words` and `state.files` name: equal ids are one list,
        which `shuffle_files` reorders for every name at once. `nextId` is the
        identity the next new list gets. */
    var namesId: nat
    var filteredId: nat
    var filesId: nat
    var nextId: nat

    /** What every callback keeps: only `clear_img` takes the counter below 0, and
        only to -1; every list has an identity already given out, and two names
        of one list see the same contents. */
    ghost predicate Valid()
      reads this
    {
      counter >= -1 &&
      namesId < nextId && filteredId < nextId && filesId < nextId &&
      (namesId == filteredId ==> imgFileNames == filteredWords) &&
      (filteredId == filesId ==> filteredWords == files) &&
      (namesId == filesId ==> imgFileNames == files)
    }

    /** The image is displayed only when the counter is not negative, a file is
        selected and no slideshow runs. */
    predicate Displays()
      reads `counter, `currentFile, `isSlideshow
    {
      counter >= 0 && currentFile.Some? && currentFile.value != "" && !isSlideshow
    }

    /** The module-level initialisation of the session state. */
    constructor(defaultDir: string, filterFiles: string)
      ensures Valid()
      ensures extList == FilterExtList(filterFiles) && imgDir == defaultDir
      ensures imgFileNames == [] && filteredWords == [] && files == [] && currentFile.None?
      ensures counter == 0 && heightClamp == DefaultHeightClamp
      ensures isNewDir && !isNewKeywords && !isShuffled && !isSlideshow && !continuous
      ensures keywords == "" && sep == " " && splitKeywords == []
      ensures namesId != filteredId && filteredId != filesId && namesId != filesId
    {
      extList := FilterExtList(filterFiles);
      imgDir := defaultDir;
      imgFileNames := [];
      filteredWords := [];
      counter := 0;
      files := [];
      currentFile := None;
      isNewDir := true;
      isNewKeywords := false;
      isShuffled := false;
      isSlideshow := false;
      continuous := false;
      heightClamp := DefaultHeightClamp;
      keywords := "";
      sep := " ";
      splitKeywords := [];
      namesId, filteredId, filesId, nextId := 0, 1, 2, 3;
    }

    /** `get_imgs` with `listing` the directory listing: rescan and sort only
        when the directory is new; run the OR keyword filter only when the
        keywords are new, sorting unless the files are shuffled; without
        keywords the result is the whole scan. The scan and the keyword filter
        each make a new list; without keywords `filtered_words` names the scan
        itself. */
    method GetImgs(listing: Option<seq<string>>) returns (r: seq<string>)
      requires Valid()
      modifies `imgFileNames, `isNewDir, `filteredWords, `isNewKeywords, `namesId, `filteredId, `nextId
      ensures Valid()
      ensures imgFileNames == if old(isNewDir) then Sort(GetFilteredFiles(listing, extList)) else old(imgFileNames)
      ensures !isNewDir && isNewKeywords == (old(isNewKeywords) && splitKeywords == [])
      ensures splitKeywords == [] ==> r == imgFileNames
      ensures splitKeywords != [] && old(isNewKeywords) && !isShuffled ==>
        r == Combine(imgFileNames, splitKeywords, false, sep)
      ensures splitKeywords != [] && old(isNewKeywords) && isShuffled ==>
        NoDups(r) && forall x :: x in r <==> x in Combine(imgFileNames, splitKeywords, false, sep)
      ensures splitKeywords != [] && !old(isNewKeywords) ==>
        r == if old(isNewDir) then imgFileNames else old(filteredWords)
      ensures r == filteredWords
      ensures namesId == if old(isNewDir) then old(nextId) else old(namesId)
      ensures splitKeywords == [] ==> filteredId == namesId
      ensures splitKeywords != [] && old(isNewKeywords) ==> filteredId != namesId && filteredId >= old(nextId)
      ensures splitKeywords != [] && !old(isNewKeywords) ==>
        filteredId == if old(isNewDir) then namesId else old(filteredId)
    {
      if isNewDir {
        Rescan(listing);
      }
      if splitKeywords != [] && isNewKeywords {
        FilterKeywords();
      }
      if splitKeywords == [] {
        filteredWords := imgFileNames;
        filteredId := namesId;
      }
      r := filteredWords;
    }

    /** The directory branch of `get_imgs`: scan, sort, clear the flag. */
    method Rescan(listing: Option<seq<string>>)
      requires Valid()
      modifies `imgFileNames, `isNewDir, `filteredWords, `namesId, `filteredId, `nextId
      ensures Valid()
      ensures imgFileNames == Sort(GetFilteredFiles(listing, extList))
      ensures !isNewDir && filteredWords == imgFileNames
      ensures namesId == filteredId == old(nextId) && nextId == old(nextId) + 1
    {
      imgFileNames := GetFilteredFiles(listing, extList);
      namesId, nextId := nextId, nextId + 1;
      isNewDir := false;
      imgFileNames := Sort(imgFileNames);
      filteredWords, filteredId := imgFileNames, namesId;
    }

    /** The keyword branch of `get_imgs`: the distinct OR matches, sorted unless
        the files are shuffled; clear the flag. */
    method FilterKeywords()
      requires Valid()
      modifies `filteredWords, `isNewKeywords, `filteredId, `nextId
      ensures Valid()
      ensures filteredId == old(nextId) && nextId == old(nextId) + 1
      ensures !isNewKeywords
      ensures !isShuffled ==> filteredWords == Combine(imgFileNames, splitKeywords, false, sep)
      ensures isShuffled ==>
        NoDups(filteredWords) && forall x :: x in filteredWords <==> x in Combine(imgFileNames, splitKeywords, false, sep)
    {
      filteredWords := KeywordListing(imgFileNames, splitKeywords, sep, isShuffled);
      isNewKeywords := false;
      filteredId, nextId := nextId, nextId + 1;
    }

    /** The reload half of `set_dir`: `files` becomes the list `get_imgs`
        returns, the very object `filtered_words` names. */
    method Reload(listing: Option<seq<string>>)
      requires Valid()
      modifies `imgFileNames, `isNewDir, `filteredWords, `isNewKeywords, `namesId, `filteredId, `nextId,
        `files, `filesId
      ensures Valid()
      ensures imgFileNames == (if old(isNewDir) then Sort(GetFilteredFiles(listing, extList)) else old(imgFileNames))
      ensures !isNewDir && isNewKeywords == (old(isNewKeywords) && splitKeywords == [])
      ensures files == filteredWords && filesId == filteredId
      ensures splitKeywords == [] ==> files == imgFileNames && filesId == namesId
      ensures splitKeywords != [] && old(isNewKeywords) && !isShuffled ==>
        files == Combine(imgFileNames, splitKeywords, false, sep)
      ensures splitKeywords != [] && old(isNewKeywords) && isShuffled ==>
        NoDups(files) && forall x :: x in files <==> x in Combine(imgFileNames, splitKeywords, false, sep)
      ensures splitKeywords != [] && !old(isNewKeywords) ==>
        files == if old(isNewDir) then imgFileNames else old(filteredWords)
      ensures namesId == if old(isNewDir) then old(nextId) else old(namesId)
      ensures splitKeywords != [] && old(isNewKeywords) ==> filteredId != namesId && filteredId >= old(nextId)
      ensures splitKeywords != [] && !old(isNewKeywords) ==>
        filteredId == if old(isNewDir) then namesId else old(filteredId)
    {
      files := GetImgs(listing);
      filesId := filteredId;
    }

    /** `set_dir`: reload through `get_imgs` when the directory exists, then
        select the file under the counter. */
    method SetDir(isDir: bool, listing: Option<seq<string>>)
      requires Valid()
      modifies `imgFileNames, `isNewDir, `filteredWords, `isNewKeywords, `namesId, `filteredId, `nextId,
        `files, `filesId, `currentFile
      ensures Valid()
      ensures isDir ==>
        imgFileNames == (if old(isNewDir) then Sort(GetFilteredFiles(listing, extList)) else old(imgFileNames)) &&
        !isNewDir && isNewKeywords == (old(isNewKeywords) && splitKeywords == [])
      ensures isDir ==> files == filteredWords && filesId == filteredId
      ensures isDir && splitKeywords == [] ==> files == imgFileNames && filesId == namesId
      ensures isDir && splitKeywords != [] && old(isNewKeywords) && !isShuffled ==>
        files == Combine(imgFileNames, splitKeywords, false, sep)
      ensures isDir && splitKeywords != [] && old(isNewKeywords) && isShuffled ==>
        NoDups(files) && forall x :: x in files <==> x in Combine(imgFileNames, splitKeywords, false, sep)
      ensures isDir && splitKeywords != [] && !old(isNewKeywords) ==>
        files == if old(isNewDir) then imgFileNames else old(filteredWords)
      ensures isDir ==> namesId == if old(isNewDir) then old(nextId) else old(namesId)
      ensures isDir && splitKeywords != [] && old(isNewKeywords) ==> filteredId != namesId && filteredId >= old(nextId)
      ensures isDir && splitKeywords != [] && !old(isNewKeywords) ==>
        filteredId == if old(isNewDir) then namesId else old(filteredId)
      ensures !isDir ==>
        files == old(files) && imgFileNames == old(imgFileNames) && filteredWords == old(filteredWords) &&
        isNewDir == old(isNewDir) && isNewKeywords == old(isNewKeywords) &&
        namesId == old(namesId) && filteredId == old(filteredId) && filesId == old(filesId) && nextId == old(nextId)
      ensures currentFile == if files != [] && counter < |files| then Some(files[counter % |files|]) else old(currentFile)
    {
      if isDir {
        Reload(listing);
      }
      if files != [] && counter < |files| {
        currentFile := Some(Select(files, counter).file);
      }
    }

    /** `set_current_file`: `files[counter]` with Python's indexing when the
        counter is inside the list; `raised` when that index is out of range. */
    method SetCurrentFile() returns (raised: bool)
      requires Valid()
      modifies `currentFile
      ensures raised <==> files == [] && counter == -1
      ensures Select(files, counter).Chosen? ==> currentFile == Some(Select(files, counter).file)
      ensures !Select(files, counter).Chosen? ==> currentFile == old(currentFile)
    {
      raised := false;
      match Select(files, counter)
      case Chosen(f) => currentFile := Some(f);
      case IndexError => raised := true;
      case Unchanged =>
    }

    /** `change_img(val)`: the wrap-to-0 step, then `set_current_file`. */
    method ChangeImg(val: int)
      requires Valid()
      modifies `counter, `currentFile
      ensures Valid()
      ensures counter == WrapStep(old(counter), val, |files|)
      ensures 0 <= counter && (counter < |files| || counter == 0)
      ensures currentFile == if counter < |files| then Some(files[counter]) else old(currentFile)
    {
      counter := WrapStep(counter, val, |files|);
      var _ := SetCurrentFile();
    }

    /** `change_dir`: a missing or empty entry, or one that is not a directory,
        changes nothing; otherwise switch to it and mark the directory new. */
    method ChangeDir(newDir: Option<string>, isDir: bool)
      modifies `imgDir, `isNewDir
      ensures newDir.None? || newDir.value == "" || !isDir ==>
        imgDir == old(imgDir) && isNewDir == old(isNewDir)
      ensures newDir.Some? && newDir.value != "" && isDir ==> imgDir == newDir.value && isNewDir
    {
      if newDir.Some? && newDir.value != "" && isDir {
        imgDir := newDir.value;
        isNewDir := true;
      }
    }

    /** `clear_img`: the counter goes to -1, which turns the normal display off; a
        running slideshow still shows the current file and steps on to 0. */
    method ClearImg()
      requires Valid()
      modifies `counter
      ensures Valid() && counter == -1 && !Displays()
    {
      counter := -1;
    }

    /** `shuffle_files`, with `shuffled` the order `random.shuffle` picks. The
        shuffle reorders the list object in place, so `img_file_names` and
        `filtered_words` change with it when they name the same list. */
    method ShuffleFiles(shuffled: seq<string>)
      requires Valid()
      requires multiset(shuffled) == multiset(files)
      modifies `files, `imgFileNames, `filteredWords, `counter, `isShuffled
      ensures Valid()
      ensures files == shuffled && multiset(files) == multiset(old(files))
      ensures imgFileNames == if namesId == filesId then shuffled else old(imgFileNames)
      ensures filteredWords == if filteredId == filesId then shuffled else old(filteredWords)
      ensures counter == 0 && isShuffled
    {
      if namesId == filesId {
        imgFileNames := shuffled;
      }
      if filteredId == filesId {
        filteredWords := shuffled;
      }
      files := shuffled;
      counter := 0;
      isShuffled := true;
    }

    /** `change_height_clamp`: the entry when there is one. */
    method ChangeHeightClamp(newClamp: Option<int>)
      modifies `heightClamp
      ensures heightClamp == if newClamp.Some? then newClamp.value else old(heightClamp)
    {
      if newClamp.Some? {
        heightClamp := newClamp.value;
      }
    }

    /** `change_keywords`: the entry (or `""`), split on commas and stripped unless
        it is empty; back to the first file and mark the keywords new. */
    method ChangeKeywords(newKeywords: Option<string>)
      requires Valid()
      modifies `keywords, `splitKeywords, `counter, `isNewKeywords
      ensures Valid()
      ensures keywords == if newKeywords.Some? then newKeywords.value else ""
      ensures splitKeywords == if keywords == "" then [] else SplitStrip(keywords)
      ensures counter == 0 && isNewKeywords
    {
      keywords := if newKeywords.Some? then newKeywords.value else "";
      if newKeywords.Some? && newKeywords.value != "" {
        splitKeywords := SplitStrip(newKeywords.value);
      } else {
        splitKeywords := [];
      }
      counter := 0;
      isNewKeywords := true;
    }

    /** `get_sep`: the entry when there is one. */
    method GetSep(newSep: Option<string>)
      modifies `sep
      ensures sep == if newSep.Some? then newSep.value else old(sep)
    {
      if newSep.Some? {
        sep := newSep.value;
      }
    }

    /** `reset_keywords`. */
    method ResetKeywords()
      modifies `splitKeywords
      ensures splitKeywords == []
    {
      splitKeywords := [];
    }

    /** One pass of the slideshow at the end of the script: when it runs and the
        counter is inside the list with a file selected, step (restarting at 0
        after the last file only when continuous), then `set_current_file`. */
    method SlideshowStep()
      requires Valid()
      modifies `counter, `currentFile
      ensures Valid()
      ensures isSlideshow && old(counter) < |files| && old(currentFile).Some? && old(currentFile).value != "" ==>
        counter == SlideStep(old(counter), |files|, continuous) &&
        currentFile == if counter < |files| then Some(files[counter]) else old(currentFile)
      ensures !(isSlideshow && old(counter) < |files| && old(currentFile).Some? && old(currentFile).value != "") ==>
        counter == old(counter) && currentFile == old(currentFile)
    {
      if isSlideshow && counter < |files| && currentFile.Some? && currentFile.value != "" {
        counter := SlideStep(counter, |files|, continuous);
        var _ := SetCurrentFile();
      }
    }
  }
}
