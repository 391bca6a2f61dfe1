/**
  The move step of `make_folders_move_files`: one folder per group under the
  image directory, and each group's files that a fresh listing still shows moved
  into it. The groups are the ledger labels (each file under its label) or the
  keywords with a non-empty group. Python iterates over a `set` of folder names and
  over each group's files in an order the model leaves open; the end state does
  not depend on it.
*/
module Reconcile {
  import opened Wrappers
  import opened FileSystem
  import opened LedgerStore

  /** Everything moved, over all groups. */
  function AllMoved(moves: map<string, set<string>>): set<string>
  {
    set g, f | g in moves && f in moves[g] :: f
  }

  /** `after` is the directory `before` once every group `g` of `moves` has had
      its files `moves[g]` moved from `dir` into the sub-directory `Join(dir, g)`;
      every path is pinned down, so `after` is determined. */
  ghost predicate MovedState(before: Folders, after: Folders, dir: string, moves: map<string, set<string>>)
  {
    (moves == map[] ==> after == before) &&
    (moves != map[] ==> dir in after && after[dir] == Get(before, dir) - AllMoved(moves)) &&
    (forall g :: g in moves ==> Join(dir, g) in after && after[Join(dir, g)] == Get(before, Join(dir, g)) + moves[g]) &&
    (forall p :: p != dir && (forall g :: g in moves ==> p != Join(dir, g)) ==>
      (p in after <==> p in before) && (p in before ==> after[p] == before[p]))
  }

  /** The sub-directories of `dir` named by the groups. */
  function Targets(dir: string, moves: map<string, set<string>>): set<string>
  {
    set g | g in moves :: Join(dir, g)
  }

  /** The directory `before` once every group of `moves` has been moved: the one
      map that `MovedState` pins down. */
  ghost function MovedAll(before: Folders, dir: string, moves: map<string, set<string>>): Folders
  {
    if moves == map[] then before
    else
      map p | p in before.Keys + {dir} + Targets(dir, moves) ::
        if p == dir then Get(before, dir) - AllMoved(moves)
        else if p in Targets(dir, moves) then
          var g :| g in moves && p == Join(dir, g); Get(before, p) + moves[g]
        else before[p]
  }

  /** `MovedState` determines the end state: it is `MovedAll`. */
  lemma MovedStateUnique(before: Folders, after: Folders, dir: string, moves: map<string, set<string>>)
    requires MovedState(before, after, dir, moves)
    ensures after == MovedAll(before, dir, moves)
  {
    if moves != map[] {
      UniqueKeys(before, after, dir, moves);
      UniqueValues(before, after, dir, moves);
      SameMaps(after, MovedAll(before, dir, moves));
    }
  }

  lemma SameMaps(a: Folders, b: Folders)
    requires a.Keys == b.Keys && forall p :: p in a ==> a[p] == b[p]
    ensures a == b
  {
  }

  lemma UniqueValues(before: Folders, after: Folders, dir: string, moves: map<string, set<string>>)
    requires moves != map[] && MovedState(before, after, dir, moves)
    requires after.Keys == MovedAll(before, dir, moves).Keys
    ensures forall p :: p in after ==> after[p] == MovedAll(before, dir, moves)[p]
  {
    forall p | p in after ensures after[p] == MovedAll(before, dir, moves)[p] {
      UniqueAt(before, after, dir, moves, p);
    }
  }

  lemma UniqueKeys(before: Folders, after: Folders, dir: string, moves: map<string, set<string>>)
    requires moves != map[] && MovedState(before, after, dir, moves)
    ensures after.Keys == MovedAll(before, dir, moves).Keys
  {
    forall p | p in after ensures p in MovedAll(before, dir, moves) {
      KeyBack(before, after, dir, moves, p);
    }
    forall p | p in MovedAll(before, dir, moves) ensures p in after {
      KeyForth(before, after, dir, moves, p);
    }
  }

  lemma KeyBack(before: Folders, after: Folders, dir: string, moves: map<string, set<string>>, p: string)
    requires moves != map[] && MovedState(before, after, dir, moves) && p in after
    ensures p in before.Keys + {dir} + Targets(dir, moves)
  {
    if p != dir && p !in Targets(dir, moves) {
      forall g | g in moves ensures p != Join(dir, g) {
        assert Join(dir, g) in Targets(dir, moves);
      }
    }
  }

  lemma KeyForth(before: Folders, after: Folders, dir: string, moves: map<string, set<string>>, p: string)
    requires moves != map[] && MovedState(before, after, dir, moves)
    requires p in before.Keys + {dir} + Targets(dir, moves)
    ensures p in after
  {
    if p in Targets(dir, moves) {
      var g :| g in moves && p == Join(dir, g);
    } else if p != dir {
      forall g | g in moves ensures p != Join(dir, g) {
        assert Join(dir, g) in Targets(dir, moves);
      }
    }
  }

  lemma UniqueAt(before: Folders, after: Folders, dir: string, moves: map<string, set<string>>, p: string)
    requires moves != map[] && MovedState(before, after, dir, moves)
    requires p in MovedAll(before, dir, moves) && p in after
    ensures after[p] == MovedAll(before, dir, moves)[p]
  {
    var r := MovedAll(before, dir, moves);
    if p in Targets(dir, moves) && p != dir {
      var g :| g in moves && p == Join(dir, g) && r[p] == Get(before, p) + moves[g];
    } else if p != dir {
      assert forall g :: g in moves ==> p != Join(dir, g);
    }
  }

  /** `MovedAll` is the state `MovedState` describes. */
  lemma MovedAllState(before: Folders, dir: string, moves: map<string, set<string>>)
    ensures MovedState(before, MovedAll(before, dir, moves), dir, moves)
  {
    if moves != map[] {
      var r := MovedAll(before, dir, moves);
      forall g | g in moves ensures Join(dir, g) in r && r[Join(dir, g)] == Get(before, Join(dir, g)) + moves[g] {
        AllAtTarget(before, dir, moves, g);
      }
      forall p | p != dir && (forall g :: g in moves ==> p != Join(dir, g))
        ensures (p in r <==> p in before) && (p in before ==> r[p] == before[p])
      {
        assert p !in Targets(dir, moves);
      }
    }
  }

  lemma AllAtTarget(before: Folders, dir: string, moves: map<string, set<string>>, g: string)
    requires g in moves
    ensures var r := MovedAll(before, dir, moves);
      Join(dir, g) in r && r[Join(dir, g)] == Get(before, Join(dir, g)) + moves[g]
  {
    var p := Join(dir, g);
    assert p in Targets(dir, moves);
    assert p != dir;
    var r := MovedAll(before, dir, moves);
    var h :| h in moves && p == Join(dir, h) && r[p] == Get(before, p) + moves[h];
    JoinInjective(dir, g, h);
  }

  /** Adding one more group adds its files to what was moved. */
  lemma AllMovedStep(moves: map<string, set<string>>, g: string, s: set<string>)
    requires g !in moves
    ensures AllMoved(moves[g := s]) == AllMoved(moves) + s
  {
    var m := moves[g := s];
    forall f | f in AllMoved(m) ensures f in AllMoved(moves) + s {
      var h :| h in m && f in m[h];
      if h != g { assert f in moves[h]; }
    }
    forall f | f in AllMoved(moves) ensures f in AllMoved(m) {
      var h :| h in moves && f in moves[h];
      assert h in m && f in m[h];
    }
    forall f | f in s ensures f in AllMoved(m) {
      assert g in m && f in m[g];
    }
  }

  /** Distinct names give distinct paths. */
  lemma JoinInjective(dir: string, a: string, b: string)
    requires Join(dir, a) == Join(dir, b)
    ensures a == b
  {
    assert Join(dir, a)[|dir| + 1..] == a;
    assert Join(dir, b)[|dir| + 1..] == b;
  }

  /** Moving one more group on top of the groups already moved. */
  lemma MovedStateStep(before: Folders, after: Folders, dir: string, moves: map<string, set<string>>,
                       g: string, s: set<string>)
    requires g !in moves && MovedState(before, after, dir, moves)
    ensures MovedState(before, MovedInto(after, dir, g, s), dir, moves[g := s])
  {
    forall h | h in moves ensures Join(dir, h) != Join(dir, g) {
      if Join(dir, h) == Join(dir, g) { JoinInjective(dir, h, g); }
    }
    StepSource(before, after, dir, moves, g, s);
    StepTargets(before, after, dir, moves, g, s);
    StepOthers(before, after, dir, moves, g, s);
  }

  /** Moving one more group, stated on the closed form. */
  lemma MovedAllStep(before: Folders, dir: string, moves: map<string, set<string>>, g: string, s: set<string>)
    requires g !in moves
    ensures MovedInto(MovedAll(before, dir, moves), dir, g, s) == MovedAll(before, dir, moves[g := s])
  {
    MovedAllState(before, dir, moves);
    MovedStateStep(before, MovedAll(before, dir, moves), dir, moves, g, s);
    MovedStateUnique(before, MovedInto(MovedAll(before, dir, moves), dir, g, s), dir, moves[g := s]);
  }

  lemma StepSource(before: Folders, after: Folders, dir: string, moves: map<string, set<string>>,
                   g: string, s: set<string>)
    requires g !in moves && MovedState(before, after, dir, moves)
    ensures var r := MovedInto(after, dir, g, s);
      dir in r && r[dir] == Get(before, dir) - AllMoved(moves[g := s])
  {
    AllMovedStep(moves, g, s);
    if moves == map[] {
      assert AllMoved(moves) == {};
    }
  }

  lemma StepTargets(before: Folders, after: Folders, dir: string, moves: map<string, set<string>>,
                    g: string, s: set<string>)
    requires g !in moves && MovedState(before, after, dir, moves)
    requires forall h :: h in moves ==> Join(dir, h) != Join(dir, g)
    ensures var r := MovedInto(after, dir, g, s); var m := moves[g := s];
      forall h :: h in m ==> Join(dir, h) in r && r[Join(dir, h)] == Get(before, Join(dir, h)) + m[h]
  {
    var r := MovedInto(after, dir, g, s);
    assert Get(after, Join(dir, g)) == Get(before, Join(dir, g));
    forall h | h in moves ensures Join(dir, h) in r && r[Join(dir, h)] == Get(before, Join(dir, h)) + moves[h] {
      assert Join(dir, h) != dir;
    }
  }

  lemma StepOthers(before: Folders, after: Folders, dir: string, moves: map<string, set<string>>,
                   g: string, s: set<string>)
    requires g !in moves && MovedState(before, after, dir, moves)
    ensures var r := MovedInto(after, dir, g, s); var m := moves[g := s];
      forall p :: p != dir && (forall h :: h in m ==> p != Join(dir, h)) ==>
        (p in r <==> p in before) && (p in before ==> r[p] == before[p])
  {
    var r := MovedInto(after, dir, g, s);
    var m := moves[g := s];
    forall p | p != dir && (forall h :: h in m ==> p != Join(dir, h))
      ensures (p in r <==> p in before) && (p in before ==> r[p] == before[p])
    {
      assert g in m;
      assert forall h :: h in moves ==> h in m;
    }
  }

  /** The files of a group that the listing shows. */
  function Present(members: map<string, set<string>>, listing: seq<string>): map<string, set<string>>
  {
    map g | g in members :: set f | f in members[g] && f in listing
  }

  /** One pass of the `for folder_name in folder_names` loop: create the folder
      and move the group's listed files into it; the result is `remove_files`. */
  method MoveGroup(disk: Disk, dir: string, g: string, files: set<string>, listing: seq<string>)
    returns (removeFiles: set<string>)
    modifies disk`folders
    ensures removeFiles == set f | f in files && f in listing
    ensures disk.folders == MovedInto(old(disk.folders), dir, g, removeFiles)
  {
    disk.MakeDirs(dir, g);
    ghost var start := old(disk.folders);
    var pending := files;
    removeFiles := {};
    while pending != {}
      invariant pending <= files
      invariant removeFiles == set f | f in files - pending && f in listing
      invariant disk.folders == MovedInto(start, dir, g, removeFiles)
      decreases pending
    {
      var file :| file in pending;
      if file in listing {
        MovedIntoOneMore(start, dir, g, removeFiles, file);
        disk.Move(dir, g, file);
        removeFiles := removeFiles + {file};
      }
      pending := pending - {file};
    }
  }

  /** The whole loop over the folder names, the keys of `members`; the result is
      every file moved. */
  method MoveGroups(disk: Disk, dir: string, members: map<string, set<string>>, listing: seq<string>)
    returns (moved: set<string>)
    modifies disk`folders
    ensures disk.folders == MovedAll(old(disk.folders), dir, Present(members, listing))
    ensures moved == AllMoved(Present(members, listing))
  {
    var todo := members.Keys;
    ghost var done: map<string, set<string>> := map[];
    moved := {};
    while todo != {}
      invariant todo <= members.Keys
      invariant done.Keys == members.Keys - todo
      invariant forall g :: g in done ==> done[g] == Present(members, listing)[g]
      invariant disk.folders == MovedAll(old(disk.folders), dir, done)
      invariant moved == AllMoved(done)
      decreases todo
    {
      var g :| g in todo;
      var removeFiles := MoveGroup(disk, dir, g, members[g], listing);
      MovedAllStep(old(disk.folders), dir, done, g, removeFiles);
      AllMovedStep(done, g, removeFiles);
      done := done[g := removeFiles];
      moved := moved + removeFiles;
      todo := todo - {g};
    }
    assert done == Present(members, listing);
  }

  /** The ledger mode of the loop on the loaded ledger `doc`, followed by the
      ledger write: the moved files are popped from `doc["files"]`, which is saved
      when entries remain and deleted otherwise. */
  method MoveAndPrune(disk: Disk, dir: string, doc: Doc, listing: seq<string>) returns (moved: set<string>)
    requires HasFilesMap(doc)
    modifies disk
    ensures disk.folders == MovedAll(old(disk.folders), dir, Present(LedgerGroups(FilesOf(doc)), listing))
    ensures moved == AllMoved(Present(LedgerGroups(FilesOf(doc)), listing))
    ensures disk.ledger == PrunedLedger(doc, moved)
  {
    moved := MoveGroups(disk, dir, LedgerGroups(FilesOf(doc)), listing);
    var pruned := PrunedLedger(doc, moved);
    if pruned.Some? {
      disk.SaveJson(pruned.value);
    } else {
      disk.RemoveLedger();
    }
  }

  /** Ledger mode: one group per distinct label, holding the files annotated with
      it. */
  function LedgerGroups(files: map<string, string>): map<string, set<string>>
  {
    map g | g in files.Values :: set f | f in files && files[f] == g
  }

  /** Keyword mode: one group per keyword whose file list is non-empty. */
  function KeywordGroups(dict: map<string, seq<string>>): map<string, set<string>>
  {
    map g | g in dict && dict[g] != [] :: set f | f in dict[g]
  }

  /** In ledger mode every label gets a folder, a listed annotated file ends up in
      its label's folder and leaves the image directory, and an unlisted one is not
      moved. */
  lemma LedgerMoveEffect(before: Folders, after: Folders, dir: string, files: map<string, string>,
                         listing: seq<string>, f: string)
    requires after == MovedAll(before, dir, Present(LedgerGroups(files), listing))
    requires f in files
    ensures Join(dir, files[f]) in after
    ensures f in listing ==> f in after[Join(dir, files[f])] && dir in after && f !in after[dir]
    ensures f in AllMoved(Present(LedgerGroups(files), listing)) <==> f in listing
  {
    var moves := Present(LedgerGroups(files), listing);
    MovedAllState(before, dir, moves);
    assert files[f] in files.Values;
    if f in listing {
      assert f in moves[files[f]];
    }
    if f in AllMoved(moves) {
      var g :| g in moves && f in moves[g];
    }
  }

  /** In ledger mode only annotated files move. */
  lemma LedgerMovesAnnotated(files: map<string, string>, listing: seq<string>)
    ensures AllMoved(Present(LedgerGroups(files), listing)) <= files.Keys
  {
    var moves := Present(LedgerGroups(files), listing);
    forall f | f in AllMoved(moves) ensures f in files {
      var g :| g in moves && f in moves[g];
    }
  }

  /** In keyword mode a keyword with no files gets no folder; with the groups drawn
      from the listing itself, a keyword's files all move into its folder. */
  lemma KeywordMoveEffect(before: Folders, after: Folders, dir: string, dict: map<string, seq<string>>,
                          listing: seq<string>, g: string)
    requires after == MovedAll(before, dir, Present(KeywordGroups(dict), listing))
    requires g in dict
    ensures dict[g] == [] ==> (Join(dir, g) in after <==> Join(dir, g) in before)
    ensures dict[g] != [] && (forall f :: f in dict[g] ==> f in listing) ==>
      Join(dir, g) in after && forall f :: f in dict[g] ==> f in after[Join(dir, g)]
  {
    var moves := Present(KeywordGroups(dict), listing);
    MovedAllState(before, dir, moves);
    if dict[g] == [] {
      forall h | h in moves ensures Join(dir, g) != Join(dir, h) {
        if Join(dir, g) == Join(dir, h) { JoinInjective(dir, g, h); }
      }
    }
  }

  /** The ledger after the moved entries are popped from its `"files"` object: the
      document is saved when entries remain and the file is deleted otherwise. */
  function PrunedLedger(doc: Doc, moved: set<string>): Store
    requires "files" in doc && doc["files"].JObj?
  {
    var rest := doc["files"].fields - moved;
    if |rest| > 0 then Some(doc["files" := JObj(rest)]) else None
  }

  /** The ledger file is deleted exactly when every entry was moved; otherwise the
      saved document differs from `doc` only in its `"files"` object, which keeps
      exactly the entries not moved, with their labels. */
  lemma PrunedLedgerShape(doc: Doc, moved: set<string>)
    requires "files" in doc && doc["files"].JObj?
    ensures var r := PrunedLedger(doc, moved);
      (r.None? <==> doc["files"].fields.Keys <= moved) &&
      (r.Some? ==> r.value.Keys == doc.Keys && r.value["files"].JObj?) &&
      (r.Some? ==> forall k :: k in doc && k != "files" ==> r.value[k] == doc[k]) &&
      (r.Some? ==> forall f :: f in r.value["files"].fields <==> f in doc["files"].fields && f !in moved) &&
      (r.Some? ==> forall f :: f in r.value["files"].fields ==> r.value["files"].fields[f] == doc["files"].fields[f])
  {
    var rest := doc["files"].fields - moved;
    if |rest| > 0 {
      var f :| f in rest.Keys;
    } else {
      assert rest.Keys == {};
      assert forall f :: f in doc["files"].fields && f !in moved ==> f in rest.Keys;
    }
  }

  /** The reset buttons save `{}` as the ledger. That document has no `"files"`
      object, so it falls outside what ledger mode requires: the next move reads
      `json_d["files"]` and raises `KeyError`. */
  lemma ResetLedgerLacksFiles(s: Store)
    ensures SaveJson(map[], s) == Some(map[])
    ensures var d := SaveJson(map[], s).value; !HasFilesObject(d) && !HasFilesMap(d)
  {
  }

  /** Ledger mode on a ledger with an empty `"files"` object moves nothing and
      deletes the ledger. */
  lemma EmptyLedgerMovesNothing(before: Folders, dir: string, doc: Doc, listing: seq<string>)
    requires HasFilesMap(doc) && doc["files"].fields == map[]
    ensures Present(LedgerGroups(FilesOf(doc)), listing) == map[]
    ensures MovedAll(before, dir, Present(LedgerGroups(FilesOf(doc)), listing)) == before
    ensures AllMoved(Present(LedgerGroups(FilesOf(doc)), listing)) == {}
    ensures PrunedLedger(doc, {}).None?
  {
    assert FilesOf(doc) == map[];
    assert LedgerGroups(FilesOf(doc)) == map[];
  }

  /** Ledger mode as evidently intended, reading `json_d.get("files", {})`: a
      ledger reset to `{}` holds no annotations, so nothing moves and the empty
      ledger is deleted; a ledger with a `"files"` object behaves as before. */
  method MoveAndPruneOrEmpty(disk: Disk, dir: string, doc: Doc, listing: seq<string>) returns (moved: set<string>)
    requires "files" in doc ==> HasFilesMap(doc)
    modifies disk
    ensures "files" in doc ==>
      disk.folders == MovedAll(old(disk.folders), dir, Present(LedgerGroups(FilesOf(doc)), listing)) &&
      moved == AllMoved(Present(LedgerGroups(FilesOf(doc)), listing)) &&
      disk.ledger == PrunedLedger(doc, moved)
    ensures "files" !in doc ==> disk.folders == old(disk.folders) && moved == {} && disk.ledger.None?
  {
    if "files" in doc {
      moved := MoveAndPrune(disk, dir, doc, listing);
    } else {
      var withFiles := doc["files" := JObj(map[])];
      assert HasFilesMap(withFiles);
      EmptyLedgerMovesNothing(disk.folders, dir, withFiles, listing);
      moved := MoveAndPrune(disk, dir, withFiles, listing);
    }
  }
}
