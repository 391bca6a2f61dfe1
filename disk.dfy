/**
  The part of the file system the app touches: directories as sets of entry
  names, keyed by path, and the annotation ledger file.
*/
module FileSystem {
  import opened Wrappers
  import LedgerStore

  /** Directory path to the names of the files in it. */
  type Folders = map<string, set<string>>

  /** `os.path.join(dir, name)` for a relative `name`. */
  function Join(dir: string, name: string): (p: string)
    ensures |p| == |dir| + 1 + |name|
  {
    dir + "/" + name
  }

  /** The entries of a directory; a missing directory has none. */
  function Get(fs: Folders, p: string): set<string>
  {
    if p in fs then fs[p] else {}
  }

  /** The directory after the files `s` have been moved from `dir` into its
      sub-directory `name`; `os.makedirs` creates that sub-directory, and `dir`
      itself, when they are missing. */
  function MovedInto(fs: Folders, dir: string, name: string, s: set<string>): (r: Folders)
    ensures dir in r && r[dir] == Get(fs, dir) - s
    ensures Join(dir, name) in r && r[Join(dir, name)] == Get(fs, Join(dir, name)) + s
    ensures forall p :: p != dir && p != Join(dir, name) ==> (p in r <==> p in fs) && (p in fs ==> r[p] == fs[p])
  {
    var target := Join(dir, name);
    assert target != dir;
    fs[dir := Get(fs, dir) - s][target := Get(fs, target) + s]
  }

  /** Moving one more file into the same sub-directory. */
  lemma MovedIntoOneMore(fs: Folders, dir: string, name: string, s: set<string>, f: string)
    ensures MovedInto(MovedInto(fs, dir, name, s), dir, name, {f}) == MovedInto(fs, dir, name, s + {f})
  {
    var lhs := MovedInto(MovedInto(fs, dir, name, s), dir, name, {f});
    var rhs := MovedInto(fs, dir, name, s + {f});
    assert lhs.Keys == rhs.Keys;
    assert forall p :: p in lhs ==> lhs[p] == rhs[p];
  }

  /** The disk: the directories and the ledger file at the configured path. */
  class Disk {
    var folders: Folders
    var ledger: LedgerStore.Store

    constructor(folders: Folders, ledger: LedgerStore.Store)
      ensures this.folders == folders && this.ledger == ledger
    {
      this.folders := folders;
      this.ledger := ledger;
    }

    /** `os.makedirs(os.path.join(dir, name), exist_ok=True)`: existing entries stay. */
    method MakeDirs(dir: string, name: string)
      modifies `folders
      ensures folders == MovedInto(old(folders), dir, name, {})
    {
      folders := MovedInto(folders, dir, name, {});
    }

    /** `shutil.move(os.path.join(dir, f), os.path.join(dir, name, f))`. */
    method Move(dir: string, name: string, f: string)
      modifies `folders
      ensures folders == MovedInto(old(folders), dir, name, {f})
    {
      folders := MovedInto(folders, dir, name, {f});
    }

    /** `save_json(d, path)`. */
    method SaveJson(d: LedgerStore.Doc)
      modifies `ledger
      ensures ledger == LedgerStore.SaveJson(d, old(ledger))
    {
      ledger := LedgerStore.SaveJson(d, ledger);
    }

    /** `update_json(d, path)`. */
    method UpdateJson(d: LedgerStore.Doc)
      modifies `ledger
      ensures ledger == LedgerStore.UpdateJson(d, old(ledger))
    {
      ledger := LedgerStore.UpdateJson(d, ledger);
    }

    /** `os.remove(path)` on the ledger file. */
    method RemoveLedger()
      modifies `ledger
      ensures ledger.None?
    {
      ledger := None;
    }
  }
}
