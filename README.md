# Image annotator: a verified model of its logic core

The repository is a Streamlit image-triage app, kept in several near-duplicate
copies: the current `Annotator` class (`src/annotator.py` with `src/utils.py`),
an older `Annotator` (`annotator.py` with `utils.py`), an image viewer script
(`src/viewer.py`) and a first annotation script (`annotation_sidebar.py`).
Under the widgets sits a small sequential core, and this project models it in
Dafny:

- the keyword tokeniser and filter `filter_by_keyword` (module `KeywordFilter`),
  the AND/OR combination of several keyword phrases into the active listing, and
  the first-match-wins grouping of files by keyword (module `Keywords`);
- the extension filter `get_filtered_files` of both utility versions and the
  `FILTER_EXT_LIST` construction (module `Catalog`);
- the JSON ledger: `save_json`, `load_json` (both failure styles) and the shallow
  merge `update_json` over a store `Option<map<string, Json>>`, where `None` is a
  missing file (module `LedgerStore`);
- the image folders as a map from a folder path to the set of names in it, with
  `os.makedirs`, `shutil.move`, `save_json`, `update_json` and `os.remove` as
  methods of a `Disk` object (module `FileSystem`);
- the move engine of `make_folders_move_files`: one folder per group, only the
  files present in a fresh listing are moved, the moved entries leave the
  annotations and the ledger (module `Reconcile`);
- the three cursor policies (floor-clamped, wrap-to-0, unclamped with Python
  negative indexing) and the slideshow step (module `Cursor`);
- the session state of each copy as a class whose methods are the handlers:
  `AnnotatorApp.Annotator`, `LegacyAnnotatorApp.LegacyAnnotator`,
  `ImageViewer.Viewer` and `Sidebar.SidebarState`;
- `concat_arr` of the metadata helpers (module `Metadata`);
- the Python builtins the core relies on (`str.split`, `str.strip`, `rsplit`,
  `os.path.splitext`, `in` on strings, negative list indexing, `sorted`,
  `list(set(...))`) in modules `PyStr` and `Ordering`.

Inputs that come from outside the program are parameters:

- the directory listing `os.listdir` is a sequence of names. It is an
  `Option<seq<string>>` (`None` when listing fails) in the current annotator and
  the viewer. In the older annotator and the sidebar script it is a plain
  sequence, because a failed listing crashes them there.
- `os.path.isdir` is a `bool`.
- A widget value read with `getattr(state, "_x", None)` is an `Option` (`None`
  when the widget has no value).
- The configured directory, ledger path, categories and extension setting are
  constructor arguments.
- The order `random.shuffle` picks is an argument, constrained to be a
  permutation.

Strings are sequences of characters, and `os.path.join(a, b)` is `a + "/" + b`.

In the viewer, `state.img_file_names`, `state.filtered_words` and `state.files`
can name one Python list, and `random.shuffle` reorders that list in place. The
`Viewer` class gives each list an identity number. Its invariant says that two
names with the same identity hold the same contents. `ShuffleFiles` reorders
every name that shares the identity of `files`, so a shuffle survives the
`set_dir` that runs again on every rerun of the script.

Where the code and its documentation disagree, the model follows the code. The
docstring of the older annotator's `get_imgs` says it returns `None` for an
invalid directory. The code iterates over the listing before returning, so a
failed listing raises instead, and the model takes the listing as given.

## Model

| member | source | states |
|---|---|---|
| PyStr.IndexOf | src/utils.py:136 | `sub in s`: the result is the first position where `sub` occurs, or -1 exactly when it occurs nowhere |
| PyStr.JoinSplit | src/utils.py:135 | `str.split` loses nothing: joining the pieces with the separator gives back the string |
| PyStr.SplitPiecesAvoidSep | src/utils.py:135 | no piece of a split contains the separator |
| PyStr.SplitCharLength | src/annotator.py:116-118 | splitting on one character gives one more piece than the character occurs |
| PyStr.Strip | src/annotator.py:117 | `str.strip` removes exactly the leading and trailing whitespace and keeps the middle as it was |
| PyStr.SplitStrip | src/annotator.py:116-118 | `[opt.strip() for opt in s.split(",")]` has one entry per comma plus one, duplicates and empty entries kept |
| PyStr.RsplitHead | src/utils.py:130 | `rsplit(".", 1)[0]` is the whole name, or the text before a dot that no later dot follows |
| PyStr.RsplitTail | utils.py:72 | `rsplit(".", 1)[-1]` is the text after the last dot, or the whole name when it has none |
| PyStr.SplitExt | src/utils.py:218 | `splitext(...)[-1]` is empty or a suffix that starts with a dot and holds no other dot and no `/` |
| PyStr.PyIndex | annotation_sidebar.py:35-37 | Python list indexing: defined exactly for `-len <= i < len`, and a negative index counts from the end |
| Ordering.LexLeTotal | src/annotator.py:293 | the string order `sort` uses is total |
| Ordering.LexLeTransitive | src/annotator.py:293 | the string order is transitive |
| Ordering.LexLeAntisymmetric | src/annotator.py:293 | the string order is antisymmetric |
| Ordering.InsertSorted | src/annotator.py:293 | inserting into a sorted list keeps it sorted and adds exactly one copy of the element |
| Ordering.SortSorts | src/annotator.py:292-293 | `list.sort()` yields a sorted permutation of its input |
| Ordering.DedupElements | src/viewer.py:125 | `list(set(xs))` has no duplicates and the same members as `xs` |
| Ordering.SortKeepsNoDups | src/annotator.py:311-312 | sorting a duplicate-free list keeps it duplicate-free |
| Ordering.SortedSetElements | src/annotator.py:311-312 | `sorted(set(xs))` is strictly increasing and has exactly the members of `xs` |
| Ordering.StrictlySortedUnique | src/annotator.py:311-312 | two strictly increasing lists with the same members are equal |
| KeywordFilter.EffectiveSep | src/utils.py:125-126 | an empty separator behaves as `" "`; any other is kept |
| KeywordFilter.StripSetShape | src/utils.py:131-132 | only characters of `-_',()!?:` are deleted, and a one-character separator is the one character spared |
| KeywordFilter.StripChars | src/utils.py:133-134 | the character-deleting loop removes exactly the characters of the filter string from the stem |
| KeywordFilter.FileTokensShape | src/utils.py:130-135 | file tokens never contain the separator, and joined with it they give the stem before the last dot with the strip set deleted |
| KeywordFilter.KeywordTokensAreSplit | src/utils.py:136-139 | splitting the keyword only when it holds the separator equals always splitting it |
| KeywordFilter.FirstIdxs | src/utils.py:141-143 | `first_idxs` holds exactly the indices of the tokens equal to the first keyword token |
| KeywordFilter.ListSliceRun | src/utils.py:147 | the clamped slice `split_file[idx:idx+n_key]` equals the keyword tokens exactly when they occur as a run at `idx` |
| KeywordFilter.FirstIdxsCoverRuns | src/utils.py:141-150 | the keyword run occurs somewhere in the tokens exactly when it starts at one of the `first_idxs` |
| KeywordFilter.ScanFirstIdxs | src/utils.py:144-151 | the inner loop appends and removes the file once exactly when the keyword run occurs and the file is not yet matched |
| KeywordFilter.MatchFile | src/utils.py:129-154 | one pass of the outer loop appends and removes the file when it matches and is new, and changes nothing when it does not match |
| KeywordFilter.ElifBranchDead | src/utils.py:152-154 | the `elif keyword in split_file` branch can never be taken |
| KeywordFilter.RemoveFirstCount | src/utils.py:151 | `list.remove` takes away exactly one copy of a present element |
| KeywordFilter.FilterByKeyword | src/utils.py:108-155 | the loop returns the matched files in first-seen order and the working copy with each of them removed once |
| KeywordFilter.MatchedElements | src/utils.py:147-151 | `matched` never holds a file twice and holds exactly the input files whose tokens contain the keyword run |
| KeywordFilter.FilterPartition | src/utils.py:127-155 | `remaining` and `matched` together hold every input element as often as the input does |
| KeywordFilter.FilterKeepsOrder | src/utils.py:127-155 | for a duplicate-free input, `matched` is the matching files and `remaining` the others, each in input order |
| KeywordFilter.NoMatchKeepsAll | src/utils.py:144-155 | when no file matches (in particular for an empty input), `matched` is empty and `remaining` is the input |
| KeywordFilter.ContiguousRunExample | src/utils.py:146-150 | a multi-word keyword matches only as a contiguous phrase of tokens |
| Keywords.LastRestartSpec | src/annotator.py:297-305 | in AND mode the filter restarts from the whole listing after the last empty intermediate result and never after it |
| Keywords.OrUnionMembers | src/annotator.py:306-310 | the OR result holds exactly the listed files that match at least one keyword |
| Keywords.AndFoldMembers | src/annotator.py:297-305 | the AND result holds exactly the listed files that match every keyword since the last restart |
| Keywords.AndFoldIsConjunction | src/annotator.py:297-305 | when some listed file matches every keyword, the AND result is exactly the files that match every keyword |
| Keywords.AndWithinOr | src/annotator.py:296-310 | every AND result is a listed file that matches the last keyword, and so is in the OR result |
| Keywords.AndRestartExample | src/annotator.py:298-301 | the restart lets a file that misses an earlier keyword into the AND result |
| Keywords.CombineKeywords | src/annotator.py:294-313 | the keyword loop, dedup and sort computes the combined listing for the chosen mode |
| Keywords.CombineSameMembers | src/annotator.py:294-313 | the combined listing depends only on the members of the pool, not on its order or duplicates |
| Keywords.CombinedMembers | src/annotator.py:294-313 | the sorted OR listing holds exactly the listed files matching some keyword, and the AND listing is within it |
| Keywords.ActiveListingShape | src/annotator.py:282-314 | `get_imgs` is sorted and within the listing; without keywords it is the whole listing; with keywords it is strictly sorted, OR is the union of matches, and AND is within OR |
| Keywords.RestAfterMembers | src/annotator.py:222-230 | the pool left after the keywords holds the files no keyword matched |
| Keywords.GroupMembers | src/annotator.py:222-230 | a keyword's group holds the files that match it and no earlier keyword |
| Keywords.GroupWithinPool | src/annotator.py:222-230 | every grouped file is a listed file that matches its keyword |
| Keywords.GroupsDisjoint | src/annotator.py:222-230 | the groups of two keywords share no file: the earlier keyword wins |
| Keywords.KeywordDictGroups | src/annotator.py:216-230 | the dictionary has exactly the keywords as keys, and each keyword maps to the group of its last occurrence |
| Keywords.KeywordFileDict | src/annotator.py:216-230 | the loop builds exactly the keyword dictionary |
| Keywords.KeywordGroupMembers | src/annotator.py:222-230 | a keyword's group holds the listed files that match it and no earlier keyword, per the file-name match |
| Catalog.FilterExtList | src/utils.py:17 | `FILTER_EXT_LIST` has one entry per comma plus one, each a dot followed by the stripped entry |
| Catalog.FilterExtListOld | utils.py:8 | the older list is the stripped entries, without dots |
| Catalog.KeepCounts | src/utils.py:218 | the comprehension keeps each accepted name as often as the listing has it and drops the rest |
| Catalog.GetFilteredFiles | src/utils.py:216-220 | a failed listing gives `[]` |
| Catalog.FilteredFilesSelect | src/utils.py:216-220 | the result holds exactly the listed names whose `splitext` extension is configured, with their multiplicities |
| Catalog.GetFilteredFilesOld | utils.py:68-71 | a failed listing gives `None`, and a listing always gives a list |
| Catalog.FilteredFilesOldSelect | utils.py:72 | the result holds exactly the listed names whose text after the last dot is configured, with their multiplicities |
| Catalog.FilteredFilesInOrder | src/utils.py:218 | both versions keep the listing order |
| Catalog.VersionsAgreeOnPlainNames | utils.py:72 | for a plain dotted name the two versions accept the same files |
| Catalog.VersionsDifferOnUndottedNames | utils.py:72 | a name without a dot is never accepted by the current version, and is accepted by the older one when the whole name is configured |
| LedgerStore.SaveJson | src/utils.py:158-168 | after saving, the store holds exactly the saved document |
| LedgerStore.LoadJson | src/utils.py:170-183 | loading fails with `FileNotFoundError` exactly when the file is missing, and otherwise returns its document |
| LedgerStore.LoadJsonOld | utils.py:23-35 | the older load fails its assertion exactly when the file is missing, and otherwise returns its document |
| LedgerStore.UpdateJson | src/utils.py:186-200 | the merge creates the file when missing; the result has the keys of both sides, the incoming values win and the other stored values stay |
| LedgerStore.SaveLoadRoundTrip | src/utils.py:158-183 | loading what was saved gives back the saved document, in both versions |
| LedgerStore.UpdateCreates | src/utils.py:197-200 | updating a missing file saves the incoming document as it is |
| LedgerStore.UpdateIsShallow | src/utils.py:199 | a nested map under an incoming key replaces the stored one wholesale, so stored entries absent from it are lost |
| LedgerStore.UpdateIdempotent | src/utils.py:186-200 | merging the same document twice is the same as merging it once |
| LedgerStore.UpdateComposes | src/utils.py:186-200 | two merges in a row equal one merge of the second document over the first |
| LedgerStore.AnnotationsJson | src/annotator.py:212-214 | the annotations map becomes a JSON object with the same files and their labels as strings |
| LedgerStore.LabelsOf | src/annotator.py:250 | a JSON object of string labels reads back as the map from file to label |
| LedgerStore.AnnotationsRoundTrip | src/annotator.py:212-214 | writing the annotations as JSON and reading them back gives the same map |
| LedgerStore.ResultsDoc | src/annotator.py:474-477 | the document `annotate` merges has exactly the keys `directory` and `files` |
| LedgerStore.AnnotateLedger | src/annotator.py:198-214 | after `annotate`'s merge the ledger's files map equals the annotations in memory, the directory is recorded, and other stored keys stay |
| FileSystem.MovedInto | src/annotator.py:254-269 | moving a set into `dir/name` removes it from `dir`, adds it to `dir/name` and changes no other folder |
| FileSystem.MovedIntoOneMore | src/annotator.py:263-269 | moving the files of a group one by one equals moving the set |
| FileSystem.Disk.MakeDirs | src/annotator.py:254 | `os.makedirs(..., exist_ok=True)` makes the folder exist and removes nothing |
| FileSystem.Disk.Move | src/annotator.py:267-269 | `shutil.move` takes one file from the image folder into the group's folder |
| FileSystem.Disk.SaveJson | src/utils.py:158-168 | the ledger file holds the saved document |
| FileSystem.Disk.UpdateJson | src/utils.py:186-200 | the ledger file holds the merge of the incoming document over the old one |
| FileSystem.Disk.RemoveLedger | src/annotator.py:279 | `os.remove` leaves no ledger file |
| Reconcile.MovedStateUnique | src/annotator.py:251-269 | the folders after a move are determined by the folders before it and the groups moved |
| Reconcile.AllAtTarget | src/annotator.py:254-269 | after the move every group's folder exists and has gained exactly its present files |
| Reconcile.MoveGroup | src/annotator.py:252-269 | one group's pass moves exactly its files that the fresh listing has, and reports them |
| Reconcile.MoveGroups | src/annotator.py:251-269 | the loop over the groups moves every group's present files into its folder and reports all of them |
| Reconcile.MoveAndPrune | src/annotator.py:250-279 | the ledger-mode move moves the present annotated files by label and rewrites or deletes the ledger without them |
| Reconcile.LedgerMoveEffect | src/annotator.py:250-269 | every label gets a folder, even with no files; a listed annotated file ends in its label's folder and leaves the image folder; a file is moved exactly when it is listed |
| Reconcile.LedgerMovesAnnotated | src/annotator.py:258-266 | only annotated files are moved |
| Reconcile.KeywordMoveEffect | src/annotator.py:244-269 | a keyword with no files gets no new folder; a keyword whose files are all listed gets a folder holding them |
| Reconcile.PrunedLedgerShape | src/annotator.py:271-279 | the ledger is deleted exactly when every entry was moved; otherwise it keeps the other keys and exactly the unmoved entries with their labels |
| Reconcile.ResetLedgerLacksFiles | src/annotator.py:250 | the `{}` that the reset buttons save has no `files` object, so ledger mode's `json_d["files"]` raises `KeyError` on it |
| Reconcile.EmptyLedgerMovesNothing | src/annotator.py:249-280 | ledger mode on an empty `files` object moves nothing and deletes the ledger |
| Reconcile.MoveAndPruneOrEmpty | src/annotator.py:249-280 | ledger mode read with `json_d.get("files", {})`: a ledger without `files` moves nothing and is deleted; otherwise the same as the move-and-prune step |
| Cursor.FloorStep | src/annotator.py:180-190 | the counter is never negative and is not clamped above: it is `counter + val`, or 0 when that is below 1 |
| Cursor.FloorForwardUnbounded | src/annotator.py:187-189 | steps forward from 0 count up without bound, past the end of the files |
| Cursor.FloorBackAtStart | src/annotator.py:187-189 | a step back at the start stays at 0, and the next step forward goes to 1 |
| Cursor.WrapStep | src/viewer.py:179-182 | the counter lands at `counter + val` when that is in `1 .. len-1`, and at 0 otherwise, so it is in range or 0 |
| Cursor.WrapEnds | src/viewer.py:179-182 | a step forward from the last image and a step back from the first both go to 0 |
| Cursor.SlideStep | src/viewer.py:286-290 | at the last index with `continuous` set the counter goes to 0; otherwise it goes up by one |
| Cursor.ContinuousSlidesCycle | src/viewer.py:286-290 | a continuous slideshow visits the images cyclically: `k` steps from `c` land at `(c + k) % len` |
| Cursor.PlainSlidesStop | src/viewer.py:286-290 | without `continuous` the counter climbs to `len` and does not wrap |
| Cursor.Select | annotation_sidebar.py:35-37 | `files[counter]` guarded by `counter < len(files)`: unchanged at or above the length, an `IndexError` below `-len`, and Python indexing between |
| Metadata.AnchorLength | src/utils.py:31-44 | the intended result has one entry per row containing a colon, and is empty exactly when no row has one |
| Metadata.AnchorEntriesHaveColons | src/utils.py:31-44 | every entry of the intended result contains a colon |
| Metadata.ConcatArr | src/utils.py:20-44 | `concat_arr` as written raises exactly when a continuation comes before the first colon row, and otherwise appends each colon-free row to the last colon row |
| Metadata.ConcatArrRaisesOnLeadingRow | src/utils.py:34-38 | the input `["x", "a:b"]` raises, where the intended result is `["a:b"]` |
| Metadata.ConcatArrGuarded | src/utils.py:20-44 | the guarded loop computes the intended result, with one entry per colon row |
| Metadata.PromptRowsNeverRaise | src/utils.py:62-70 | rows whose first row starts with `"Prompt: "`, as `get_metadata_dict` builds them, never raise |
| AnnotatorApp.Annotator.constructor | src/annotator.py:102-142 | a fresh session starts at counter 0 with no annotations, no files, no keywords and the configured directory and categories |
| AnnotatorApp.Annotator.SetCurrentFile | src/annotator.py:173-178 | the current file becomes `files[counter]` when the counter is inside the list, and is kept otherwise |
| AnnotatorApp.Annotator.ChangeImg | src/annotator.py:180-190 | the floor-clamped step, then `set_current_file`; the counter stays non-negative |
| AnnotatorApp.Annotator.ChangeHideState | src/annotator.py:192-196 | the hide flag flips between 0 and 1 |
| AnnotatorApp.Annotator.Annotate | src/annotator.py:198-214 | the current file gets the label, the cursor takes one floor-clamped step, and the ledger receives the updated annotations |
| AnnotatorApp.Annotator.GetKeywordFileDict | src/annotator.py:216-230 | an empty separator becomes `" "` when keywords exist, and the dictionary is the first-match-wins grouping of the last listing |
| AnnotatorApp.Annotator.MoveByKeywords | src/annotator.py:241-269 | keyword mode: the fresh listing is kept, the dictionary rebuilt, and each keyword's listed files moved into its folder |
| AnnotatorApp.Annotator.MoveByLedger | src/annotator.py:241-280 | ledger mode: without a ledger nothing changes; otherwise the listed annotated files move by label, leave the annotations and the ledger, and the counter is 0 |
| AnnotatorApp.Annotator.MoveLedgerFiles | src/annotator.py:250-280 | the ledger document's listed files move by label, leave the annotations, the ledger is rewritten or deleted, and the counter is 0 |
| AnnotatorApp.Annotator.MakeFoldersMoveFiles | src/annotator.py:232-280 | the two modes: keyword mode never touches the annotations, the ledger or the counter; ledger mode does nothing without a ledger file |
| AnnotatorApp.Annotator.GetImgs | src/annotator.py:282-314 | the result is the active listing of the filtered directory under the current keyword settings |
| AnnotatorApp.Annotator.ResetImgs | src/annotator.py:316-328 | the files become the active listing, counter 0, no annotations, and the first file is selected when there is one |
| AnnotatorApp.Annotator.SetDir | src/annotator.py:161-170 | for a directory the files are re-read; then the current file is selected |
| AnnotatorApp.Annotator.ChangeDir | src/annotator.py:330-337 | an empty entry or a non-directory changes nothing; a directory switches and resets |
| AnnotatorApp.Annotator.UpdateCategories | src/annotator.py:339-345 | an empty entry changes nothing; otherwise the categories are split on commas and stripped |
| AnnotatorApp.Annotator.ResetKeywords | src/annotator.py:347-349 | no keywords remain |
| AnnotatorApp.Annotator.ChangeKeywords | src/annotator.py:351-358 | the keyword text is stored (`""` when absent), and split and stripped unless empty |
| AnnotatorApp.Annotator.KeywordMoveFiles | src/annotator.py:360-366 | without keywords nothing changes, the current file, listing, separator and keyword groups included; otherwise the keyword move with its separator and keyword groups, then no keywords, the files reset to the sorted relisting, and its first file current |
| AnnotatorApp.Annotator.ResetAfterMove | src/annotator.py:365-366 | after the keyword move: no keywords, files the sorted relisting, counter 0, no annotations, the first file current |
| AnnotatorApp.Annotator.GetSep | src/annotator.py:368-370 | the separator takes the entry, or stays when there is none |
| AnnotatorApp.Annotator.ResetAnnotations | src/annotator.py:453-456 | `{}` is written only when there are files and a ledger path, then the files reset |
| LegacyAnnotatorApp.LegacyAnnotator.constructor | annotator.py:101-139 | a fresh session with the undotted extension list and no annotations, files or keywords |
| LegacyAnnotatorApp.LegacyAnnotator.SetCurrentFile | annotator.py:170-175 | the current file becomes `files[counter]` when the counter is inside the list |
| LegacyAnnotatorApp.LegacyAnnotator.ChangeImg | annotator.py:177-187 | the same floor-clamped step with no upper clamp |
| LegacyAnnotatorApp.LegacyAnnotator.ChangeHideState | annotator.py:189-193 | the hide flag flips between 0 and 1 |
| LegacyAnnotatorApp.LegacyAnnotator.Annotate | annotator.py:195-211 | label, floor-clamped step, merge of the annotations into the ledger |
| LegacyAnnotatorApp.LegacyAnnotator.GetKeywordFileDict | annotator.py:213-233 | the dictionary is the first-match-wins grouping of the last listing |
| LegacyAnnotatorApp.LegacyAnnotator.MoveByKeywords | annotator.py:244-272 | each keyword's listed files move into its folder |
| LegacyAnnotatorApp.LegacyAnnotator.MoveByLedger | annotator.py:244-283 | without a ledger nothing changes; otherwise the listed annotated files move by label and leave the annotations and the ledger, counter 0 |
| LegacyAnnotatorApp.LegacyAnnotator.MoveLedgerFiles | annotator.py:249-283 | the ledger document's listed files move, the ledger is rewritten or deleted, counter 0 |
| LegacyAnnotatorApp.LegacyAnnotator.MakeFoldersMoveFiles | annotator.py:235-283 | the same two modes as the current version, over the undotted filter |
| LegacyAnnotatorApp.LegacyAnnotator.FilterAllKeywords | annotator.py:285-307 | `filter_all_keywords` computes the combined listing of the last listing for the chosen mode |
| LegacyAnnotatorApp.FilterAllAgreesWithGetImgs | annotator.py:285-351 | with keywords, `filter_all_keywords` and the keyword branch of `get_imgs` agree: deduplicated, sorted, AND within OR |
| LegacyAnnotatorApp.LegacyAnnotator.GetImgs | annotator.py:309-352 | the result is the active listing of the undotted filter |
| LegacyAnnotatorApp.LegacyAnnotator.ResetImgs | annotator.py:354-365 | counter 0, no annotations, files the active listing, first file selected when there is one |
| LegacyAnnotatorApp.LegacyAnnotator.SetDir | annotator.py:158-168 | for a directory the files are re-read; then the current file is selected |
| LegacyAnnotatorApp.LegacyAnnotator.ChangeDir | annotator.py:370-378 | a non-directory changes nothing; any directory entry switches and resets |
| LegacyAnnotatorApp.LegacyAnnotator.UpdateCategories | annotator.py:380-385 | no empty-input guard: `""` gives `[""]`; entries split on commas and stripped, duplicates kept |
| LegacyAnnotatorApp.EmptyCategories | annotator.py:380-385 | the empty entry splits to one empty category |
| LegacyAnnotatorApp.LegacyAnnotator.ResetKeywords | annotator.py:387-389 | no keywords remain |
| LegacyAnnotatorApp.LegacyAnnotator.ChangeKeywords | annotator.py:391-399 | the keyword text is stored and split and stripped unless empty |
| LegacyAnnotatorApp.LegacyAnnotator.KeywordMoveFiles | annotator.py:401-407 | without keywords nothing changes, the current file, listing, separator and keyword groups included; otherwise the keyword move with its separator and keyword groups, then no keywords, the files reset to the sorted relisting, and its first file current |
| LegacyAnnotatorApp.LegacyAnnotator.ResetAfterMove | annotator.py:406-407 | after the keyword move: no keywords, files the sorted relisting, counter 0, no annotations, the first file current |
| LegacyAnnotatorApp.LegacyAnnotator.GetSep | annotator.py:409-411 | the separator takes the entry as it is |
| LegacyAnnotatorApp.LegacyAnnotator.ResetAnnotations | annotator.py:495-498 | `{}` is written only when there are files, then the files reset |
| ImageViewer.UnionKeywordMatches | src/viewer.py:119-124 | the keyword loop concatenates each keyword's matches against the whole listing |
| ImageViewer.ShuffledKeywordListing | src/viewer.py:125-129 | unsorted, `list(set(...))` of the OR matches has no duplicates and the members of the sorted OR listing |
| ImageViewer.Viewer.constructor | src/viewer.py:30-63 | the session starts with a new directory, no keywords, counter 0 and height clamp 785 |
| ImageViewer.Viewer.GetImgs | src/viewer.py:103-133 | rescans only for a new directory; filters only for new keywords, sorted unless shuffled; without keywords the whole scan, as the same list object as the scan; otherwise the cached result; new scans and new keyword results are new list objects |
| ImageViewer.Viewer.Rescan | src/viewer.py:112-117 | the scan is the sorted filtered listing, a new list object that `filtered_words` also names, and the flag is cleared |
| ImageViewer.KeywordListing | src/viewer.py:118-129 | the OR listing without duplicates: the sorted combined listing, or when shuffled its members once each |
| ImageViewer.Viewer.FilterKeywords | src/viewer.py:118-129 | the OR listing, sorted unless shuffled, as a new list object, and the flag is cleared |
| ImageViewer.Viewer.Reload | src/viewer.py:141-142 | `files` becomes the very list `get_imgs` returns, with each of its cases, and which list `img_file_names` and `filtered_words` then name: a fresh scan after a new directory, a fresh keyword list distinct from the scan after new keywords |
| ImageViewer.Viewer.SetDir | src/viewer.py:136-146 | for a directory, the files are the list `get_imgs` returns in each of its cases (new scan, new keywords, no keywords, cached), with the same list identities as `get_imgs`, so a later shuffle's reach over `img_file_names` is determined; otherwise no list, flag or list identity changes; the current file is selected when the counter is inside the files |
| ImageViewer.Viewer.SetCurrentFile | src/viewer.py:164-169 | Python indexing below the length; raises only at counter -1 over no files |
| ImageViewer.Viewer.ChangeImg | src/viewer.py:172-182 | the wrap-to-0 step: afterwards the counter is inside the files, or 0 |
| ImageViewer.Viewer.ChangeDir | src/viewer.py:185-192 | an empty entry or a non-directory changes nothing; a directory is set and marked new |
| ImageViewer.Viewer.ClearImg | src/viewer.py:195-197 | counter -1, so the normal display is off; a running slideshow still shows the current file |
| ImageViewer.Viewer.ShuffleFiles | src/viewer.py:200-204 | the files are the given permutation of what they were, reordered in place, so `img_file_names` and `filtered_words` are reordered too when they name the same list; counter 0, shuffled |
| ImageViewer.Viewer.ChangeHeightClamp | src/viewer.py:207-209 | the clamp takes the entry, or stays when there is none |
| ImageViewer.Viewer.ChangeKeywords | src/viewer.py:212-221 | keywords split and stripped unless empty, counter 0, keywords marked new |
| ImageViewer.Viewer.GetSep | src/viewer.py:224-226 | the separator takes the entry, or stays when there is none |
| ImageViewer.Viewer.ResetKeywords | src/viewer.py:229-231 | no keywords remain |
| ImageViewer.Viewer.SlideshowStep | src/viewer.py:282-291 | during a slideshow with a selected file inside the list, the slide step then `set_current_file`; otherwise nothing changes |
| Sidebar.SidebarImgsShape | annotation_sidebar.py:81-84 | `get_imgs` is sorted and holds each `png`/`jpg` name as often as the listing does |
| Sidebar.SidebarLedgerShape | annotation_sidebar.py:52-59 | the ledger becomes `{}` exactly when every entry is annotated in memory; otherwise it keeps the other keys and exactly the unannotated entries |
| Sidebar.UnlistedAnnotationKept | annotation_sidebar.py:52-79 | an annotated file missing from the listing stays annotated, while its ledger entry is dropped |
| Sidebar.SidebarState.constructor | annotation_sidebar.py:105-125 | a fresh session: counter 0, no annotations, the sorted listing, the first file selected when there is one |
| Sidebar.SidebarState.SetCurrentFile | annotation_sidebar.py:35-37 | a negative counter selects from the end, and raises below `-len(files)` |
| Sidebar.SidebarState.GoBack | annotation_sidebar.py:25-27 | one step back with no floor, then `set_current_file` |
| Sidebar.SidebarState.GoForward | annotation_sidebar.py:30-32 | one step forward with no ceiling, then `set_current_file` |
| Sidebar.SidebarState.ChangeHideState | annotation_sidebar.py:40-41 | the hide flag flips between 0 and 1 |
| Sidebar.SidebarState.Annotate | annotation_sidebar.py:44-48 | label, one unclamped step, and the merge of the annotations into the ledger unless the step raised |
| Sidebar.SidebarState.MakeFoldersMoveFiles | annotation_sidebar.py:50-79 | without a ledger the load fails; otherwise the ledger drops every annotated entry, the listed annotated files move by label and leave the annotations |
| Sidebar.SidebarState.GetImgs | annotation_sidebar.py:81-84 | the sorted `png`/`jpg` listing |
| Sidebar.SidebarState.ResetImgs | annotation_sidebar.py:86-97 | files the sorted listing, counter 0, no annotations, first file selected when there is one |
| Sidebar.SidebarState.ChangeDir | annotation_sidebar.py:139-142 | a different path switches and resets; the same path changes nothing |
| Sidebar.SidebarState.UpdateOptions | annotation_sidebar.py:143-144 | the options are split on commas and stripped |
| Sidebar.SidebarState.ClearAnnotations | annotation_sidebar.py:150-157 | the ledger becomes `{}`, no annotations, counter 0 |

## Left out

- Streamlit rendering: `set_ui`, the widget layout of `set_ui_values` and of both scripts, the CSS, `st.info`/`st.write`/`st.error` messages and the counters they display. They draw the page and do not change the state the handlers rely on.
- `load_image`, `clamp_image_size` and `show_image`: image decoding and floating-point resizing.
- `get_metadata_dict` and `get_metadata_str`: they read image metadata and build display strings. Only `concat_arr` is modelled. `LegacyAnnotatorApp.LegacyAnnotator.GetImgs` leaves out the per-file metadata scan, because its result is never used.
- Configuration loading: `get_config_data`, `_get_default_dir` and the module-level `config.yml` check. Their values are constructor arguments.
- The functions that `annotator.py` imports but the shown `utils.py` does not define: `filter_by_keyword`, `get_metadata_dict`, `get_metadata_str`, `has_config` and `load_image`. The unseen `config` module of `annotation_sidebar.py` is not part of this model either. `LegacyAnnotatorApp` assumes that this `filter_by_keyword` is the one in `src/utils.py`, and uses `KeywordFilter.FilterByKeyword` for it. `has_config` and the configuration values are parameters. The metadata and image functions are left out, as above.
- `time.sleep` and `st.rerun` of the slideshow: pacing only. The index step is modelled.
- `random.shuffle`: the permutation is an argument of `ImageViewer.Viewer.ShuffleFiles`.
- `ImageViewer.Viewer.GetImgs`: when the files are shuffled, the order of `list(set(...))` depends on hashing. The contract states only that there are no duplicates and which members there are.
- The `keywords_and` string that the older `get_keyword_file_dict` builds and never uses.
- Resetting the `_keywords` widget in `keyword_move_files`: widget plumbing.
- `FileSystem.Disk.Move`, `Reconcile.MoveGroups` and the move entry points that call them: the listing is a parameter and is not tied to the contents of the image folder on the disk. A listed file that is absent from the folder is treated as moved, where `shutil.move` would raise `FileNotFoundError`.
- The filesystem is a map from folder to a set of names. Name collisions in `shutil.move`, permission errors and partially failed moves are not modelled. The order in which the folders are visited is free and does not affect the end state.
- `make_folders_move_files` pops each group's moved files right after that group. The model pops them all after the loop. The groups are disjoint sets of different files, so the end state is the same.
- `os.path.join` is `dir + "/" + name`. Absolute second arguments and empty components are not modelled.
- A failed listing in the older annotator and in the sidebar script. There `get_imgs` raises on `None` (`TypeError`/`AttributeError`), so their listing is a plain sequence. The `is None` guard of the older `reset_imgs` is therefore never taken.
- The ledger entry point: ledger mode reads `json_d["files"]`. That raises `KeyError` or `TypeError` when the document has no `files` object, so the move methods require one. The app's own handlers reach that state. "Reset Annotations?" saves `{}` (src/annotator.py:455, annotator.py:497), and so do the sidebar's reset button (annotation_sidebar.py:152) and a sidebar move that annotated every entry (annotation_sidebar.py:55-56). After any of these, the next "Move Files" raises `KeyError: 'files'` (src/annotator.py:250, annotator.py:253, annotation_sidebar.py:54). See the Findings table.
- `LegacyAnnotatorApp.LegacyAnnotator.constructor` starts `img_file_names` at `[]`. The source sets it to `None`, and `Annotator` is rebuilt on every run (annotator.py:50, 541), so the uncalled `filter_all_keywords` would raise `AttributeError` before a move.
- `Sidebar.SidebarState.constructor` models only a fresh session. Later runs skip the initialisation.
- JSON text: documents are values of a `Json` datatype. Serialisation, indentation and encoding are not modelled.

## Findings

| source | as written | input that shows it | evidently intended | confidence | as-written member | corrected member |
|---|---|---|---|---|---|---|
| src/utils.py:34-38 | a colon-free row before the first colon row is saved as a continuation, and the next colon row adds it to `result[-1]` while `result` is still empty | `concat_arr(["x", "a:b"])` raises `IndexError` | drop continuations with nothing to anchor to, as the final flush at line 41 already does (`["a:b"]`). The only caller, `get_metadata_dict` (lines 62-70), starts the first row with `"Prompt: "`, so the app never reaches the crash: `Metadata.PromptRowsNeverRaise` | not executed | Metadata.ConcatArr, Metadata.ConcatArrRaisesOnLeadingRow | Metadata.ConcatArrGuarded |
| src/annotator.py:250 | ledger mode indexes `json_d["files"]` (also annotator.py:253 and annotation_sidebar.py:54), but "Reset Annotations?" (src/annotator.py:455, annotator.py:497), the sidebar's reset button (annotation_sidebar.py:152) and a sidebar move that annotated every entry (annotation_sidebar.py:55-56) save the ledger as `{}` | "Reset Annotations?" with files listed, then "Move Files": `load_json` returns `{}` and `json_d["files"]` raises `KeyError: 'files'` | read the ledger as `json_d.get("files", {})`: nothing moves and the empty ledger is deleted | not executed | AnnotatorApp.Annotator.MoveByLedger, Reconcile.ResetLedgerLacksFiles | Reconcile.MoveAndPruneOrEmpty |
