/**
  The annotation ledger: a JSON file holding a top-level object. The file is
  modelled by its content, `None` when no file exists at the path and
  `Some(doc)` when it holds the object `doc`. `json.dumps`/`json.load` are
  modelled as exact on the JSON values here (strings, integers, booleans, null,
  arrays and objects with string keys).
*/
module LedgerStore {
  import opened Wrappers

  datatype Json =
    | JNull
    | JBool(b: bool)
    | JNum(n: int)
    | JStr(str: string)
    | JArr(items: seq<Json>)
    | JObj(fields: map<string, Json>)

  /** A top-level JSON object. */
  type Doc = map<string, Json>

  /** What lies at the ledger path: nothing, or a saved document. */
  type Store = Option<Doc>

  /** The exceptions `load_json` raises on a missing file: `FileNotFoundError` in
      the current version, a failed `assert` in the older one. */
  datatype LoadError = FileNotFound | AssertionFailed

  /** `save_json(d, path)` (both versions): the file now holds `d`, whatever it
      held before. */
  function SaveJson(d: Doc, before: Store): (after: Store)
    ensures after.Some? && after.value == d
  {
    Some(d)
  }

  /** `load_json(path)` of the current version: the saved document, or
      `FileNotFoundError` when there is no file. */
  function LoadJson(s: Store): (r: Result<Doc, LoadError>)
    ensures r.Failure? <==> s.None?
    ensures r.Failure? ==> r.error == FileNotFound
    ensures s.Some? ==> r == Success(s.value)
  {
    match s
    case None => Failure(FileNotFound)
    case Some(d) => Success(d)
  }

  /** `load_json(path)` of the older version, which asserts the path exists. */
  function LoadJsonOld(s: Store): (r: Result<Doc, LoadError>)
    ensures r.Failure? <==> s.None?
    ensures r.Failure? ==> r.error == AssertionFailed
    ensures s.Some? ==> r == Success(s.value)
  {
    match s
    case None => Failure(AssertionFailed)
    case Some(d) => Success(d)
  }

  /** `update_json(incoming, path)` (both versions): load the file, or start from
      `{}` when there is none, let `incoming` override it key by key, save. */
  function UpdateJson(incoming: Doc, s: Store): (after: Store)
    ensures after.Some?
    ensures forall k :: k in after.value <==> k in incoming || (s.Some? && k in s.value)
    ensures forall k :: k in incoming ==> after.value[k] == incoming[k]
    ensures forall k :: s.Some? && k in s.value && k !in incoming ==> after.value[k] == s.value[k]
  {
    var data := if s.Some? then s.value else map[];
    SaveJson(data + incoming, s)
  }

  /** Loading what was saved gives it back, in both versions. */
  lemma SaveLoadRoundTrip(d: Doc, before: Store)
    ensures LoadJson(SaveJson(d, before)) == Success(d)
    ensures LoadJsonOld(SaveJson(d, before)) == Success(d)
  {
  }

  /** Updating a missing file leaves exactly the incoming document. */
  lemma UpdateCreates(incoming: Doc)
    ensures UpdateJson(incoming, None) == Some(incoming)
  {
    assert map[] + incoming == incoming;
  }

  /** The merge is shallow: a nested object under a key of `incoming` replaces the
      stored one wholesale, so stored entries below it that `incoming` lacks are
      gone. */
  lemma UpdateIsShallow(incoming: Doc, s: Store, key: string)
    requires key in incoming && incoming[key].JObj?
    ensures UpdateJson(incoming, s).value[key].fields == incoming[key].fields
    ensures s.Some? && key in s.value && s.value[key].JObj? ==>
      forall k :: k in s.value[key].fields && k !in incoming[key].fields ==>
        k !in UpdateJson(incoming, s).value[key].fields
  {
  }

  /** Updating twice with the same document is the same as updating once. */
  lemma {:induction false} UpdateIdempotent(incoming: Doc, s: Store)
    ensures UpdateJson(incoming, UpdateJson(incoming, s)) == UpdateJson(incoming, s)
  {
    var once := UpdateJson(incoming, s).value;
    var twice := UpdateJson(incoming, Some(once)).value;
    assert forall k :: k in twice <==> k in once;
    assert forall k :: k in twice ==> twice[k] == once[k];
    assert twice == once;
  }

  /** A later update wins on the keys both updates carry. */
  lemma {:induction false} UpdateComposes(first: Doc, second: Doc, s: Store)
    ensures UpdateJson(second, UpdateJson(first, s)) == UpdateJson(first + second, s)
  {
    var lhs := UpdateJson(second, UpdateJson(first, s)).value;
    var rhs := UpdateJson(first + second, s).value;
    assert forall k :: k in lhs <==> k in rhs;
    forall k | k in lhs ensures lhs[k] == rhs[k] {
      if k in second {
      } else if k in first {
      }
    }
    assert lhs == rhs;
  }

  /** The `"files"` object of a ledger, mapping each annotated file to its label. */
  function AnnotationsJson(annotations: map<string, string>): (j: map<string, Json>)
    ensures forall f :: f in j <==> f in annotations
    ensures forall f :: f in j ==> j[f] == JStr(annotations[f])
  {
    map f | f in annotations :: JStr(annotations[f])
  }

  /** Every entry of an object is a string: the shape of a ledger's `"files"`. */
  predicate IsLabelMap(m: map<string, Json>)
  {
    forall f :: f in m ==> m[f].JStr?
  }

  /** The labels of a `"files"` object. */
  function LabelsOf(m: map<string, Json>): (labels: map<string, string>)
    requires IsLabelMap(m)
    ensures forall f :: f in labels <==> f in m
    ensures forall f :: f in labels ==> m[f] == JStr(labels[f])
  {
    map f | f in m :: m[f].str
  }

  /** A ledger document whose `"files"` entry is a file-to-label object, as the
      move step requires before it indexes `json_d["files"]`. */
  predicate HasFilesMap(doc: Doc)
  {
    "files" in doc && doc["files"].JObj? && IsLabelMap(doc["files"].fields)
  }

  /** The ledger of a document satisfying `HasFilesMap`. */
  function FilesOf(doc: Doc): map<string, string>
    requires HasFilesMap(doc)
  {
    LabelsOf(doc["files"].fields)
  }

  /** Encoding the annotations into the ledger and reading them back is exact. */
  lemma AnnotationsRoundTrip(annotations: map<string, string>)
    ensures IsLabelMap(AnnotationsJson(annotations))
    ensures LabelsOf(AnnotationsJson(annotations)) == annotations
  {
  }

  /** A ledger document with a `"files"` object, whatever its entries. */
  predicate HasFilesObject(doc: Doc)
  {
    "files" in doc && doc["files"].JObj?
  }

  /** The `results_d` the annotate buttons carry: the image directory and the
      annotations under `"files"`. */
  function ResultsDoc(dir: string, annotations: map<string, string>): (d: Doc)
    ensures d.Keys == {"directory", "files"}
  {
    map["directory" := JStr(dir), "files" := JObj(AnnotationsJson(annotations))]
  }

  /** After `update_json(results_d, path)` the ledger records exactly the current
      annotations and directory, and keeps every other top-level key it had. */
  lemma {:induction false} AnnotateLedger(dir: string, annotations: map<string, string>, s: Store)
    ensures var after := UpdateJson(ResultsDoc(dir, annotations), s).value;
      HasFilesMap(after) && FilesOf(after) == annotations && after["directory"] == JStr(dir) &&
      forall k :: s.Some? && k in s.value && k != "directory" && k != "files" ==> k in after && after[k] == s.value[k]
  {
    var d := ResultsDoc(dir, annotations);
    var after := UpdateJson(d, s).value;
    assert after["files"] == JObj(AnnotationsJson(annotations));
    AnnotationsRoundTrip(annotations);
  }
}
