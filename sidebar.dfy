/**
  The first annotation script: module-level session state, unclamped back and
  forward steps, and a move handler that rewrites the ledger before moving. The
  image directory of the configuration module, the ledger path and the option
  string are parameters; the directory listing is a `seq<string>` (a failed
  listing makes `get_imgs` call `sort` on `None`, which is not modelled).
*/
module Sidebar {
  import opened Wrappers
  import opened PyStr
  import opened Ordering
  import opened Catalog
  import opened LedgerStore
  import opened FileSystem
  import opened Reconcile
  import opened Cursor

  /** The extension list the script passes to `get_filtered_files`. */
  const ImageExts: seq<string> := ["png", "jpg"]

  /** `get_imgs(image_dir)`: the `png`/`jpg` names of the listing, sorted. */
  function SidebarImgs(listing: seq<string>): seq<string>
  {
    Sort(GetFilteredFilesOld(Some(listing), ImageExts).value)
  }

  /** The listing is sorted and holds each `png`/`jpg` name as often as the
      directory lists it. */
  lemma SidebarImgsShape(listing: seq<string>)
    ensures Sorted(SidebarImgs(listing))
    ensures forall x ::
      multiset(SidebarImgs(listing))[x] == if RsplitTail(x) in ImageExts then multiset(listing)[x] else 0
  {
    var names := GetFilteredFilesOld(Some(listing), ImageExts).value;
    SortSorts(names);
    FilteredFilesOldSelect(Some(listing), ImageExts);
  }

  /** The ledger rewrite of `make_folders_move_files`: drop from `doc["files"]`
      every file that has an annotation in memory; when nothing remains the whole
      document becomes `{}`. */
  function SidebarLedger(doc: Doc, annotated: set<string>): Doc
    requires "files" in doc && doc["files"].JObj?
  {
    var filtered := map f | f in doc["files"].fields && f !in annotated :: doc["files"].fields[f];
    if |filtered| == 0 then map[] else doc["files" := JObj(filtered)]
  }

  /** The rewritten ledger is `{}` exactly when every entry has an annotation in
      memory; otherwise it keeps the other keys, and its `"files"` object keeps
      exactly the entries without one, with their values. An annotated file is
      dropped whether or not it is then moved. */
  lemma SidebarLedgerShape(doc: Doc, annotated: set<string>)
    requires "files" in doc && doc["files"].JObj?
    ensures var r := SidebarLedger(doc, annotated);
      (r == map[] <==> doc["files"].fields.Keys <= annotated) &&
      (r != map[] ==> r.Keys == doc.Keys && r["files"].JObj?) &&
      (r != map[] ==> forall k :: k in doc && k != "files" ==> r[k] == doc[k]) &&
      (r != map[] ==> forall f :: f in r["files"].fields <==> f in doc["files"].fields && f !in annotated) &&
      (r != map[] ==> forall f :: f in r["files"].fields ==> r["files"].fields[f] == doc["files"].fields[f])
  {
    var fields := doc["files"].fields;
    var filtered := map f | f in fields && f !in annotated :: fields[f];
    if |filtered| == 0 {
      assert filtered.Keys == {};
      assert forall f :: f in fields && f !in annotated ==> f in filtered.Keys;
    } else {
      var f :| f in filtered.Keys;
      var r := doc["files" := JObj(filtered)];
      assert "files" in r && r != map[];
      assert r.Keys == doc.Keys;
    }
  }

  /** An annotated file that the listing does not show stays annotated in memory
      after the move, while the rewritten ledger no longer has its entry. */
  lemma UnlistedAnnotationKept(doc: Doc, annotations: map<string, string>, listing: seq<string>, f: string)
    requires "files" in doc && doc["files"].JObj?
    requires f in annotations && f !in GetFilteredFilesOld(Some(listing), ImageExts).value
    ensures f in annotations - AllMoved(Present(LedgerGroups(annotations), GetFilteredFilesOld(Some(listing), ImageExts).value))
    ensures var r := SidebarLedger(doc, annotations.Keys);
      r == map[] || f !in r["files"].fields
  {
    SidebarLedgerShape(doc, annotations.Keys);
  }

  class SidebarState {
    var imgDir: string
    const disk: Disk
    var options: seq<string>
    var counter: int
    var hideState: int
    var annotations: map<string, string>
    var files: seq<string>
    var currentFile: Option<string>

    /** The hide flag is 0 or 1; the counter may take any value. */
    ghost predicate Valid()
      reads `hideState
    {
      hideState == 0 || hideState == 1
    }

    /** The module-level initialisation on a fresh session, with `listing` the
        listing of the configured directory. */
    constructor(imageDir: string, optionString: string, disk: Disk, listing: seq<string>)
      ensures Valid()
      ensures imgDir == imageDir && this.disk == disk && options == SplitStrip(optionString)
      ensures counter == 0 && hideState == 0 && annotations == map[]
      ensures files == SidebarImgs(listing)
      ensures currentFile == if files != [] then Some(files[0]) else None
    {
      imgDir := imageDir;
      this.disk := disk;
      options := SplitStrip(optionString);
      counter := 0;
      hideState := 0;
      annotations := map[];
      var imgNames := SidebarImgs(listing);
      files := imgNames;
      currentFile := if imgNames != [] then Some(imgNames[0]) else None;
    }

    /** `set_current_file`: `files[counter]` with Python's indexing whenever
        `counter < len(files)`, so a negative counter selects from the end;
        `raised` when the index is below `-len(files)`. */
    method SetCurrentFile() returns (raised: bool)
      modifies `currentFile
      ensures raised <==> counter < -|files|
      ensures counter < |files| && !raised ==> |files| > 0 && currentFile == Some(files[counter % |files|])
      ensures counter >= |files| || raised ==> currentFile == old(currentFile)
    {
      raised := false;
      match Select(files, counter)
      case Chosen(f) => currentFile := Some(f);
      case IndexError => raised := true;
      case Unchanged =>
    }

    /** `go_back`: one step back with no floor. */
    method GoBack() returns (raised: bool)
      modifies `counter, `currentFile
      ensures counter == old(counter) - 1
      ensures raised <==> counter < -|files|
      ensures counter < |files| && !raised ==> currentFile == Some(files[counter % |files|])
      ensures counter >= |files| || raised ==> currentFile == old(currentFile)
    {
      counter := counter - 1;
      raised := SetCurrentFile();
    }

    /** `go_forward`: one step forward with no ceiling. */
    method GoForward() returns (raised: bool)
      modifies `counter, `currentFile
      ensures counter == old(counter) + 1
      ensures raised <==> counter < -|files|
      ensures counter < |files| && !raised ==> currentFile == Some(files[counter % |files|])
      ensures counter >= |files| || raised ==> currentFile == old(currentFile)
    {
      counter := counter + 1;
      raised := SetCurrentFile();
    }

    /** `change_hide_state`: flip 0 and 1. */
    method ChangeHideState()
      requires Valid()
      modifies `hideState
      ensures Valid()
      ensures hideState == 1 - old(hideState)
    {
      hideState := 1 - hideState;
    }

    /** `annotate(label, results_d, json_path)`: label the current file, step
        forward, and merge `results_d` (whose `"files"` entry is the annotations
        map itself) into the ledger; a step that raises skips the merge. */
    method Annotate(category: string) returns (raised: bool)
      requires currentFile.Some?
      modifies `annotations, `counter, `currentFile, disk`ledger
      ensures annotations == old(annotations)[old(currentFile).value := category]
      ensures counter == old(counter) + 1
      ensures raised <==> counter < -|files|
      ensures counter < |files| && !raised ==> currentFile == Some(files[counter % |files|])
      ensures counter >= |files| || raised ==> currentFile == old(currentFile)
      ensures disk.ledger == if raised then old(disk.ledger) else UpdateJson(ResultsDoc(imgDir, annotations), old(disk.ledger))
    {
      annotations := annotations[currentFile.value := category];
      raised := GoForward();
      if !raised {
        disk.UpdateJson(ResultsDoc(imgDir, annotations));
      }
    }

    /** `make_folders_move_files(image_dir)` with `listing` the directory listing:
        without a ledger file `load_json` fails its assertion (`raised`) and
        nothing changes; otherwise the ledger is rewritten first, then the
        listed annotated files move into their labels' folders and leave the
        annotations. */
    method MakeFoldersMoveFiles(listing: seq<string>) returns (raised: bool)
      requires disk.ledger.Some? ==> "files" in disk.ledger.value && disk.ledger.value["files"].JObj?
      modifies `annotations, disk
      ensures raised <==> old(disk.ledger).None?
      ensures raised ==> annotations == old(annotations) && disk.folders == old(disk.folders) && disk.ledger == old(disk.ledger)
      ensures !raised ==>
        var moves := Present(LedgerGroups(old(annotations)), GetFilteredFilesOld(Some(listing), ImageExts).value);
        disk.ledger == Some(SidebarLedger(old(disk.ledger).value, old(annotations).Keys)) &&
        disk.folders == MovedAll(old(disk.folders), imgDir, moves) &&
        annotations == old(annotations) - AllMoved(moves)
    {
      if disk.ledger.None? {
        return true;
      }
      raised := false;
      var doc := LoadJsonOld(disk.ledger).value;
      disk.SaveJson(SidebarLedger(doc, annotations.Keys));
      var imgNames := GetFilteredFilesOld(Some(listing), ImageExts).value;
      var moved := MoveGroups(disk, imgDir, LedgerGroups(annotations), imgNames);
      annotations := annotations - moved;
    }

    /** `get_imgs(image_dir)`. */
    method GetImgs(listing: seq<string>) returns (r: seq<string>)
      ensures r == SidebarImgs(listing)
    {
      r := GetFilteredFilesOld(Some(listing), ImageExts).value;
      r := Sort(r);
    }

    /** `reset_imgs(image_dir)`: reload, clear the annotations, go to the first
        file. */
    method ResetImgs(listing: seq<string>)
      modifies `counter, `annotations, `files, `currentFile
      ensures files == SidebarImgs(listing)
      ensures counter == 0 && annotations == map[]
      ensures currentFile == if files != [] then Some(files[0]) else old(currentFile)
    {
      var imgNames := GetImgs(listing);
      counter, annotations, files := 0, map[], imgNames;
      if files != [] {
        currentFile := Some(files[0]);
      }
    }

    /** The directory text box: a different path switches and resets. */
    method ChangeDir(newDir: string, listing: seq<string>)
      modifies `imgDir, `counter, `annotations, `files, `currentFile
      ensures imgDir == newDir
      ensures newDir == old(imgDir) ==>
        counter == old(counter) && annotations == old(annotations) &&
        files == old(files) && currentFile == old(currentFile)
      ensures newDir != old(imgDir) ==>
        files == SidebarImgs(listing) && counter == 0 && annotations == map[] &&
        currentFile == (if files != [] then Some(files[0]) else old(currentFile))
    {
      if newDir != imgDir {
        imgDir := newDir;
        ResetImgs(listing);
      }
    }

    /** The option text box, parsed on every run. */
    method UpdateOptions(optionString: string)
      modifies `options
      ensures options == SplitStrip(optionString)
    {
      options := SplitStrip(optionString);
    }

    /** The "Reset Annotations?" branch: write `{}` to the ledger, clear the
        annotations and go back to the first position; the files stay. */
    method ClearAnnotations()
      modifies `annotations, `counter, disk`ledger
      ensures disk.ledger == Some(map[])
      ensures annotations == map[] && counter == 0
    {
      disk.SaveJson(map[]);
      annotations := map[];
      counter := 0;
    }
  }
}
