/**
  The image catalogue of a directory: the configured extension list and the
  extension filter over a directory listing, in the current version (dotted
  `os.path.splitext` extensions, `[]` when the listing fails) and the older one
  (undotted text after the last dot, `None` when the listing fails).

  The listing itself is a parameter: `None` stands for `os.listdir` raising.
*/
module Catalog {
  import opened Wrappers
  import opened PyStr

  /** The elements of `files` on which `ok` holds, in listing order. */
  function Keep(files: seq<string>, ok: string -> bool): (r: seq<string>)
    ensures |r| <= |files|
  {
    if files == [] then []
    else (if ok(files[0]) then [files[0]] else []) + Keep(files[1..], ok)
  }

  /** Filtering keeps every occurrence of an accepted name and none of the rest. */
  lemma {:induction false} KeepCounts(files: seq<string>, ok: string -> bool)
    ensures forall x :: multiset(Keep(files, ok))[x] == if ok(x) then multiset(files)[x] else 0
    ensures forall x :: x in Keep(files, ok) <==> x in files && ok(x)
  {
    if files != [] {
      KeepCounts(files[1..], ok);
      assert files == [files[0]] + files[1..];
    }
    var r := Keep(files, ok);
    assert forall x :: x in r <==> x in multiset(r);
  }

  /** `a` is `b` with some elements left out, the rest in their order. */
  predicate IsSubsequence(a: seq<string>, b: seq<string>)
  {
    if a == [] then true
    else if b == [] then false
    else if a[0] == b[0] then IsSubsequence(a[1..], b[1..])
    else IsSubsequence(a, b[1..])
  }

  /** Filtering keeps listing order. */
  lemma {:induction false} KeepIsSubsequence(files: seq<string>, ok: string -> bool)
    ensures IsSubsequence(Keep(files, ok), files)
  {
    if files != [] {
      KeepIsSubsequence(files[1..], ok);
      if ok(files[0]) {
        var r := Keep(files, ok);
        assert r[0] == files[0] && r[1..] == Keep(files[1..], ok);
      } else {
        assert Keep(files, ok) == [] + Keep(files[1..], ok) == Keep(files[1..], ok);
        SubsequencePrepend(Keep(files[1..], ok), files[1..], files[0]);
        assert [files[0]] + files[1..] == files;
      }
    }
  }

  /** A subsequence of `b` is one of `[x] + b`. */
  lemma {:induction false} SubsequencePrepend(a: seq<string>, b: seq<string>, x: string)
    requires IsSubsequence(a, b)
    ensures IsSubsequence(a, [x] + b)
    decreases |b|, 1
  {
    var xb := [x] + b;
    assert xb[1..] == b;
    if a != [] && a[0] == x {
      SubsequenceDropFirst(a, b);
    }
  }

  /** A subsequence stays one when its first element is dropped. */
  lemma {:induction false} SubsequenceDropFirst(a: seq<string>, b: seq<string>)
    requires a != [] && IsSubsequence(a, b)
    ensures IsSubsequence(a[1..], b)
    decreases |b|, 0
  {
    assert b != [];
    if a[0] == b[0] {
      SubsequencePrepend(a[1..], b[1..], b[0]);
    } else {
      SubsequenceDropFirst(a, b[1..]);
      SubsequencePrepend(a[1..], b[1..], b[0]);
    }
    assert [b[0]] + b[1..] == b;
  }

  /** `FILTER_EXT_LIST` of the current version: each comma-separated entry of the
      configured `filter_files`, stripped, with a leading dot. */
  function FilterExtList(filterFiles: string): (r: seq<string>)
    ensures |r| == CountChar(filterFiles, ',') + 1
    ensures forall i :: 0 <= i < |r| ==> r[i] == "." + SplitStrip(filterFiles)[i]
  {
    var parts := SplitStrip(filterFiles);
    seq(|parts|, i requires 0 <= i < |parts| => "." + parts[i])
  }

  /** `FILTER_EXT_LIST` of the older version: the stripped entries, undotted. */
  function FilterExtListOld(filterFiles: string): (r: seq<string>)
    ensures r == SplitStrip(filterFiles)
    ensures |r| == CountChar(filterFiles, ',') + 1
  {
    SplitStrip(filterFiles)
  }

  /** `get_filtered_files(file_dir, ext_list)`: the listed names whose `splitext`
      extension is one of `extList`, in listing order; `[]` when listing fails. */
  function GetFilteredFiles(listing: Option<seq<string>>, extList: seq<string>): (r: seq<string>)
    ensures listing.None? ==> r == []
  {
    match listing
    case None => []
    case Some(files) => Keep(files, f => SplitExt(f) in extList)
  }

  /** The current version keeps each listed name with a configured extension as
      often as it is listed, and nothing else. */
  lemma FilteredFilesSelect(listing: Option<seq<string>>, extList: seq<string>)
    ensures listing.Some? ==>
      forall x :: multiset(GetFilteredFiles(listing, extList))[x] ==
        if SplitExt(x) in extList then multiset(listing.value)[x] else 0
    ensures forall x :: x in GetFilteredFiles(listing, extList) <==>
      listing.Some? && x in listing.value && SplitExt(x) in extList
  {
    if listing.Some? {
      KeepCounts(listing.value, f => SplitExt(f) in extList);
    }
  }

  /** The older `get_filtered_files`: names whose text after the last dot (the
      whole name when it has none) is one of `extList`; `None` when listing fails. */
  function GetFilteredFilesOld(listing: Option<seq<string>>, extList: seq<string>): (r: Option<seq<string>>)
    ensures r.None? <==> listing.None?
  {
    match listing
    case None => None
    case Some(files) => Some(Keep(files, f => RsplitTail(f) in extList))
  }

  /** The older version keeps each listed name whose last-dot suffix is configured
      as often as it is listed, and nothing else. */
  lemma FilteredFilesOldSelect(listing: Option<seq<string>>, extList: seq<string>)
    ensures listing.Some? ==>
      forall x :: multiset(GetFilteredFilesOld(listing, extList).value)[x] ==
        if RsplitTail(x) in extList then multiset(listing.value)[x] else 0
    ensures listing.Some? ==> forall x :: x in GetFilteredFilesOld(listing, extList).value <==>
      x in listing.value && RsplitTail(x) in extList
  {
    if listing.Some? {
      KeepCounts(listing.value, f => RsplitTail(f) in extList);
    }
  }

  /** Both versions keep the listing order. */
  lemma FilteredFilesInOrder(files: seq<string>, extList: seq<string>)
    ensures IsSubsequence(GetFilteredFiles(Some(files), extList), files)
    ensures IsSubsequence(GetFilteredFilesOld(Some(files), extList).value, files)
  {
    KeepIsSubsequence(files, f => SplitExt(f) in extList);
    KeepIsSubsequence(files, f => RsplitTail(f) in extList);
  }

  /** For a plain file name (no directory part, and a character other than a dot
      before its last dot) the `splitext` extension is the dot followed by the text
      after the last dot. */
  lemma SplitExtOfPlainName(f: string)
    requires '/' !in f
    requires exists k :: 0 <= k < LastIndexOf(f, '.') && f[k] != '.'
    ensures SplitExt(f) == "." + RsplitTail(f)
  {
    assert LastIndexOf(f, '/') == -1;
  }

  /** On plain file names the two versions select the same files from the same
      configuration: the dotted and the undotted extension lists agree. */
  lemma VersionsAgreeOnPlainNames(f: string, filterFiles: string)
    requires '/' !in f
    requires exists k :: 0 <= k < LastIndexOf(f, '.') && f[k] != '.'
    ensures SplitExt(f) in FilterExtList(filterFiles) <==> RsplitTail(f) in FilterExtListOld(filterFiles)
  {
    SplitExtOfPlainName(f);
    var dotted := FilterExtList(filterFiles);
    var plain := FilterExtListOld(filterFiles);
    if SplitExt(f) in dotted {
      var i :| 0 <= i < |dotted| && dotted[i] == SplitExt(f);
      assert ("." + plain[i])[1..] == plain[i];
      assert ("." + RsplitTail(f))[1..] == RsplitTail(f);
      assert plain[i] == RsplitTail(f);
    }
    if RsplitTail(f) in plain {
      var i :| 0 <= i < |plain| && plain[i] == RsplitTail(f);
      assert dotted[i] == SplitExt(f);
    }
  }

  /** The versions differ on a name without a dot: the current one never keeps it
      (its extension is empty, every configured entry starts with a dot), the older
      one keeps it exactly when the whole name is a configured entry. */
  lemma VersionsDifferOnUndottedNames(f: string, filterFiles: string)
    requires '.' !in f
    ensures SplitExt(f) !in FilterExtList(filterFiles)
    ensures RsplitTail(f) in FilterExtListOld(filterFiles) <==> f in SplitStrip(filterFiles)
  {
  }
}
