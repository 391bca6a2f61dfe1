/**
  `filter_by_keyword`: split a list of file names into the ones whose name
  contains a keyword phrase and the rest.

  A file name is tokenised by dropping its final extension, deleting the
  punctuation characters of `CharFilter` (all of them except the separator) and
  splitting on the separator; the keyword is split on the separator too. A file
  matches when the keyword's tokens occur as a contiguous run of its tokens.
*/
module KeywordFilter {
  import opened PyStr
  import opened Ordering

  /** The punctuation deleted from file names before they are split. */
  const CharFilter: string := "-_',()!?:"

  /** An empty separator stands for a single space. */
  function EffectiveSep(sep: string): (r: string)
    ensures r != []
    ensures sep != [] ==> r == sep
    ensures sep == [] ==> r == " "
  {
    if sep == [] then " " else sep
  }

  /** The characters of a string, as a set. */
  function CharsOf(s: string): set<char>
  {
    set c | c in s
  }

  /** The characters deleted from a file name: `CharFilter` with the separator
      string deleted from it. */
  function StripSet(sep: string): set<char>
    requires sep != []
  {
    CharsOf(DeleteAll(CharFilter, sep))
  }

  /** Only punctuation of `CharFilter` is ever deleted, and a one-character
      separator is exactly the one character spared. */
  lemma StripSetShape(sep: string)
    requires sep != []
    ensures StripSet(sep) <= CharsOf(CharFilter)
    ensures |sep| == 1 ==> StripSet(sep) == CharsOf(CharFilter) - {sep[0]}
  {
    DeleteAllSubset(CharFilter, sep);
    if |sep| == 1 {
      assert sep == [sep[0]];
      DeleteOneCharSet(CharFilter, sep[0]);
    }
  }

  lemma {:induction false} DeleteAllSubset(s: string, sub: string)
    requires sub != []
    ensures CharsOf(DeleteAll(s, sub)) <= CharsOf(s)
    decreases |s|
  {
    if |s| >= |sub| {
      if s[..|sub|] == sub {
        DeleteAllSubset(s[|sub|..], sub);
        assert CharsOf(s[|sub|..]) <= CharsOf(s);
      } else {
        DeleteAllSubset(s[1..], sub);
        assert CharsOf(s) == {s[0]} + CharsOf(s[1..]) by {
          assert s == [s[0]] + s[1..];
        }
      }
    }
  }

  lemma DeleteOneCharSet(s: string, c: char)
    ensures CharsOf(DeleteAll(s, [c])) == CharsOf(s) - {c}
  {
    RemoveCharsNothing(s);
    DeleteCharAfterRemove(s, {}, c);
    assert {} + {c} == {c};
  }

  lemma {:induction false} RemoveCharsNothing(s: string)
    ensures RemoveChars(s, {}) == s
  {
    if s != [] {
      RemoveCharsNothing(s[1..]);
      assert s == [s[0]] + s[1..];
    }
  }

  /** The tokens of a file name: its stem before the last dot, with the strip set
      deleted, split on the separator. */
  function FileTokens(file: string, sep: string): seq<string>
    requires sep != []
  {
    Split(RemoveChars(RsplitHead(file), StripSet(sep)), sep)
  }

  /** The tokens of the keyword: split on the separator if it contains it. */
  function KeywordTokens(keyword: string, sep: string): (r: seq<string>)
    requires sep != []
    ensures |r| >= 1
  {
    if Contains(keyword, sep) then Split(keyword, sep) else [keyword]
  }

  /** `k` occurs in `t` as the contiguous run starting at `i`. */
  predicate RunAt(t: seq<string>, k: seq<string>, i: nat)
  {
    i + |k| <= |t| && t[i..i + |k|] == k
  }

  /** `k` occurs somewhere in `t` as a contiguous run. */
  predicate ContainsRun(t: seq<string>, k: seq<string>)
  {
    exists i :: 0 <= i <= |t| && RunAt(t, k, i)
  }

  /** The match condition of `filter_by_keyword` for one file. */
  predicate Matches(file: string, keyword: string, sep: string)
    requires sep != []
  {
    ContainsRun(FileTokens(file, sep), KeywordTokens(keyword, sep))
  }

  /** The condition of the `elif keyword in split_file` branch: no token equals
      the first keyword token, yet the keyword itself is one of the tokens. */
  predicate ElifMatches(file: string, keyword: string, sep: string)
    requires sep != []
  {
    var t := FileTokens(file, sep);
    (forall i :: 0 <= i < |t| ==> t[i] != KeywordTokens(keyword, sep)[0]) && keyword in t
  }

  /** The `first_idxs` comprehension: the indices of the tokens equal to `w`, in
      increasing order. */
  function FirstIdxs(t: seq<string>, w: string): (r: seq<nat>)
    ensures forall i :: i in r <==> 0 <= i < |t| && t[i] == w
  {
    if t == [] then []
    else
      var front := FirstIdxs(t[..|t| - 1], w);
      assert forall i :: 0 <= i < |t| - 1 ==> t[..|t| - 1][i] == t[i];
      front + (if t[|t| - 1] == w then [|t| - 1] else [])
  }

  /** The list slice `t[lo:hi]` for non-negative bounds, which Python clamps to the
      length of the list. */
  function ListSlice(t: seq<string>, lo: nat, hi: nat): (r: seq<string>)
    ensures |r| <= |t| && |r| <= hi
  {
    var l := if lo < |t| then lo else |t|;
    var h := if hi < |t| then hi else |t|;
    if h <= l then [] else t[l..h]
  }

  lemma ListSliceRun(t: seq<string>, k: seq<string>, i: nat)
    requires i <= |t|
    ensures ListSlice(t, i, i + |k|) == k <==> RunAt(t, k, i)
  {
    if i + |k| > |t| {
      assert |ListSlice(t, i, i + |k|)| < |k|;
    }
  }

  /** `list.remove(x)`: drop the first occurrence of `x` (the list is unchanged
      when `x` is absent, where Python raises instead; the model never calls it
      then). */
  function RemoveFirst(xs: seq<string>, x: string): seq<string>
  {
    if xs == [] then []
    else if xs[0] == x then xs[1..]
    else [xs[0]] + RemoveFirst(xs[1..], x)
  }

  /** `list.remove(x)` takes away exactly one copy of a present `x`. */
  lemma {:induction false} RemoveFirstCount(xs: seq<string>, x: string)
    requires x in xs
    ensures multiset(RemoveFirst(xs, x)) == multiset(xs) - multiset{x}
  {
    assert xs == [xs[0]] + xs[1..];
    if xs[0] != x {
      RemoveFirstCount(xs[1..], x);
    }
  }

  /** The inner `for char in char_filter: no_ext = no_ext.replace(char, "")` loop. */
  method StripChars(stem: string, filter: string) returns (r: string)
    ensures r == RemoveChars(stem, CharsOf(filter))
  {
    r := stem;
    RemoveCharsNothing(stem);
    assert CharsOf(filter[..0]) == {};
    var i := 0;
    while i < |filter|
      invariant 0 <= i <= |filter|
      invariant r == RemoveChars(stem, CharsOf(filter[..i]))
    {
      DeleteCharAfterRemove(stem, CharsOf(filter[..i]), filter[i]);
      assert filter[..i + 1] == filter[..i] + [filter[i]];
      assert CharsOf(filter[..i + 1]) == CharsOf(filter[..i]) + {filter[i]};
      r := DeleteAll(r, [filter[i]]);
      i := i + 1;
    }
    assert filter[..i] == filter;
  }

  /** A run of `k` can only start at one of the `first_idxs`, and the tokens at
      those indices are enough to find one. */
  lemma FirstIdxsCoverRuns(t: seq<string>, k: seq<string>)
    requires |k| >= 1
    ensures ContainsRun(t, k) ==>
      exists m :: 0 <= m < |FirstIdxs(t, k[0])| && RunAt(t, k, FirstIdxs(t, k[0])[m])
    ensures (exists m :: 0 <= m < |FirstIdxs(t, k[0])| && RunAt(t, k, FirstIdxs(t, k[0])[m])) ==>
      ContainsRun(t, k)
    ensures ContainsRun(t, k) ==> FirstIdxs(t, k[0]) != []
  {
    var f := FirstIdxs(t, k[0]);
    if ContainsRun(t, k) {
      var i :| 0 <= i <= |t| && RunAt(t, k, i);
      assert t[i] == t[i..i + |k|][0];
      assert i in f;
      var m :| 0 <= m < |f| && f[m] == i;
      assert RunAt(t, k, f[m]);
    }
    if exists m :: 0 <= m < |f| && RunAt(t, k, f[m]) {
      var m :| 0 <= m < |f| && RunAt(t, k, f[m]);
      assert f[m] in f;
      var i: nat := f[m];
      assert 0 <= i <= |t| && RunAt(t, k, i);
      assert ContainsRun(t, k);
    }
  }

  /** The `for idx in first_idxs` loop: append `file` and remove it from the
      working copy once, at the first index where the keyword run starts, unless
      it is already in `filtered`. */
  method ScanFirstIdxs(t: seq<string>, k: seq<string>, firstIdxs: seq<nat>, file: string,
                       filtered: seq<string>, rest: seq<string>)
    returns (filtered': seq<string>, rest': seq<string>)
    requires |k| >= 1 && firstIdxs == FirstIdxs(t, k[0])
    ensures ContainsRun(t, k) && file !in filtered ==>
      filtered' == filtered + [file] && rest' == RemoveFirst(rest, file)
    ensures !(ContainsRun(t, k) && file !in filtered) ==> filtered' == filtered && rest' == rest
  {
    filtered', rest' := filtered, rest;
    var j := 0;
    while j < |firstIdxs|
      invariant 0 <= j <= |firstIdxs|
      invariant var found := exists m :: 0 <= m < j && RunAt(t, k, firstIdxs[m]);
        if found && file !in filtered then filtered' == filtered + [file] && rest' == RemoveFirst(rest, file)
        else filtered' == filtered && rest' == rest
    {
      var idx := firstIdxs[j];
      assert idx in firstIdxs;
      ListSliceRun(t, k, idx);
      if ListSlice(t, idx, idx + |k|) == k && file !in filtered' {
        filtered' := filtered' + [file];
        rest' := RemoveFirst(rest', file);
      }
      j := j + 1;
    }
    FirstIdxsCoverRuns(t, k);
  }

  /** The body of the outer loop for one `file`: tokenise, scan the `first_idxs`,
      append the file to `filtered` and remove it from `rest` on a match that is
      not already recorded, with the `elif` branch as written. */
  method MatchFile(file: string, keyword: string, sep: string, filtered: seq<string>, rest: seq<string>)
    returns (filtered': seq<string>, rest': seq<string>)
    requires sep != []
    ensures Matches(file, keyword, sep) && file !in filtered ==>
      filtered' == filtered + [file] && rest' == RemoveFirst(rest, file)
    ensures !Matches(file, keyword, sep) && !ElifMatches(file, keyword, sep) ==>
      filtered' == filtered && rest' == rest
    ensures file in filtered && !ElifMatches(file, keyword, sep) ==> filtered' == filtered && rest' == rest
    ensures ElifMatches(file, keyword, sep) ==>
      filtered' == filtered + [file] && rest' == RemoveFirst(rest, file)
  {
    var noExt := RsplitHead(file);
    var charFilter := DeleteAll(CharFilter, sep);
    noExt := StripChars(noExt, charFilter);
    var splitFile := Split(noExt, sep);
    var splitKeyword := if Contains(keyword, sep) then Split(keyword, sep) else [keyword];
    var firstIdxs := FirstIdxs(splitFile, splitKeyword[0]);
    assert splitFile == FileTokens(file, sep) && splitKeyword == KeywordTokens(keyword, sep);
    FirstIdxsCoverRuns(splitFile, splitKeyword);
    if firstIdxs != [] {
      assert splitFile[firstIdxs[0]] == splitKeyword[0] by {
        assert firstIdxs[0] in firstIdxs;
      }
      filtered', rest' := ScanFirstIdxs(splitFile, splitKeyword, firstIdxs, file, filtered, rest);
    } else if keyword in splitFile {
      filtered' := filtered + [file];
      rest' := RemoveFirst(rest, file);
    } else {
      filtered', rest' := filtered, rest;
    }
  }

  /** The `elif` branch can never be taken: a keyword containing the separator is
      no token (tokens never contain it), and a keyword without it is its own
      first token, which the empty `first_idxs` rules out. */
  lemma ElifBranchDead(file: string, keyword: string, sep: string)
    requires sep != []
    ensures !ElifMatches(file, keyword, sep)
  {
    var t := FileTokens(file, sep);
    if keyword in t {
      if Contains(keyword, sep) {
        SplitPiecesAvoidSep(RemoveChars(RsplitHead(file), StripSet(sep)), sep);
      } else {
        var i :| 0 <= i < |t| && t[i] == keyword;
        assert t[i] == KeywordTokens(keyword, sep)[0];
      }
    }
  }

  /** Splitting the keyword only when it contains the separator is the same as
      always splitting it. */
  lemma KeywordTokensAreSplit(keyword: string, sep: string)
    requires sep != []
    ensures KeywordTokens(keyword, sep) == Split(keyword, sep)
  {
    if !Contains(keyword, sep) {
      SplitWithoutSep(keyword, sep);
    }
  }

  /** The match condition for a fixed keyword and separator, as a predicate on
      file names. */
  function MatchesKeyword(keyword: string, sep: string): string -> bool
    requires sep != []
  {
    file => Matches(file, keyword, sep)
  }

  /** The files `filter_by_keyword` returns as matched, for the input `s`
      processed from the left: each file satisfying `p` the first time it is seen. */
  function Matched(s: seq<string>, p: string -> bool): seq<string>
  {
    if s == [] then []
    else
      var m := Matched(s[..|s| - 1], p);
      var f := s[|s| - 1];
      if p(f) && f !in m then m + [f] else m
  }

  /** The matched files are exactly the files of `s` satisfying `p`, each once. */
  lemma {:induction false} MatchedElements(s: seq<string>, p: string -> bool)
    ensures NoDups(Matched(s, p))
    ensures forall x :: x in Matched(s, p) <==> x in s && p(x)
  {
    if s != [] {
      MatchedElements(s[..|s| - 1], p);
      assert s == s[..|s| - 1] + [s[|s| - 1]];
    }
  }

  /** The working copy after each matched file has been removed once, in order. */
  function RemoveEach(xs: seq<string>, ms: seq<string>): seq<string>
  {
    if ms == [] then xs else RemoveFirst(RemoveEach(xs, ms[..|ms| - 1]), ms[|ms| - 1])
  }

  /** `filter_by_keyword(str_list, keyword, sep_)`, returning `(remaining, matched)`. */
  method FilterByKeyword(strList: seq<string>, keyword: string, sep0: string)
    returns (remaining: seq<string>, matched: seq<string>)
    ensures matched == Matched(strList, MatchesKeyword(keyword, EffectiveSep(sep0)))
    ensures remaining == RemoveEach(strList, matched)
  {
    var sep := sep0;
    if sep == [] {
      sep := " ";
    }
    var rest := strList;
    var filtered := [];
    for i := 0 to |strList|
      invariant filtered == Matched(strList[..i], MatchesKeyword(keyword, sep))
      invariant rest == RemoveEach(strList, filtered)
    {
      var file := strList[i];
      ElifBranchDead(file, keyword, sep);
      var filtered', rest' := MatchFile(file, keyword, sep, filtered, rest);
      FilterStep(strList, i, MatchesKeyword(keyword, sep), filtered, rest, filtered', rest');
      filtered, rest := filtered', rest';
    }
    assert strList[..|strList|] == strList;
    remaining, matched := rest, filtered;
  }

  /** Whatever the input, the two results together hold each input element as
      often as the input does. */
  lemma FilterPartition(s: seq<string>, p: string -> bool)
    ensures multiset(RemoveEach(s, Matched(s, p))) + multiset(Matched(s, p)) == multiset(s)
  {
    PartitionPrefix(s, |s|, p);
    assert s[..|s|] == s;
  }

  lemma {:induction false} PartitionPrefix(s: seq<string>, i: nat, p: string -> bool)
    requires i <= |s|
    ensures multiset(RemoveEach(s, Matched(s[..i], p))) + multiset(Matched(s[..i], p)) == multiset(s)
  {
    if i > 0 {
      PartitionPrefix(s, i - 1, p);
      MatchedSnoc(s, i, p);
      var m := Matched(s[..i - 1], p);
      var f := s[i - 1];
      if p(f) && f !in m {
        PartitionStep(s, m, f);
      }
    }
  }

  /** `Matched` on one more element. */
  lemma MatchedSnoc(s: seq<string>, i: nat, p: string -> bool)
    requires 0 < i <= |s|
    ensures var m := Matched(s[..i - 1], p);
      Matched(s[..i], p) == if p(s[i - 1]) && s[i - 1] !in m then m + [s[i - 1]] else m
  {
    var q := s[..i];
    assert q[..|q| - 1] == s[..i - 1];
  }

  /** One pass of the loop of `filter_by_keyword` keeps `Matched` and
      `RemoveEach` of the prefix scanned so far. */
  lemma FilterStep(s: seq<string>, i: nat, p: string -> bool, filtered: seq<string>, rest: seq<string>,
                   filtered': seq<string>, rest': seq<string>)
    requires i < |s|
    requires filtered == Matched(s[..i], p) && rest == RemoveEach(s, filtered)
    requires p(s[i]) && s[i] !in filtered ==> filtered' == filtered + [s[i]] && rest' == RemoveFirst(rest, s[i])
    requires !(p(s[i]) && s[i] !in filtered) ==> filtered' == filtered && rest' == rest
    ensures filtered' == Matched(s[..i + 1], p) && rest' == RemoveEach(s, filtered')
  {
    MatchedSnoc(s, i + 1, p);
    RemoveEachSnoc(s, filtered, s[i]);
  }

  /** `RemoveEach` on one more element. */
  lemma RemoveEachSnoc(xs: seq<string>, ms: seq<string>, x: string)
    ensures RemoveEach(xs, ms + [x]) == RemoveFirst(RemoveEach(xs, ms), x)
  {
    assert (ms + [x])[..|ms|] == ms;
  }

  /** Removing one more matched element keeps the partition. */
  lemma PartitionStep(s: seq<string>, m: seq<string>, f: string)
    requires multiset(RemoveEach(s, m)) + multiset(m) == multiset(s)
    requires f in s && f !in m
    ensures multiset(RemoveEach(s, m + [f])) + multiset(m + [f]) == multiset(s)
  {
    var rest := RemoveEach(s, m);
    RemoveEachSnoc(s, m, f);
    assert multiset(m)[f] == 0;
    assert f in multiset(s);
    assert f in multiset(rest);
    RemoveFirstCount(rest, f);
  }

  /** The elements of `s` on which `p` is `want`, in input order: the reference
      listing of `matched` (`want`) and of `remaining` (`!want`). */
  function Selected(s: seq<string>, p: string -> bool, want: bool): (r: seq<string>)
    ensures forall x :: x in r <==> x in s && p(x) == want
  {
    if s == [] then []
    else
      var front := Selected(s[..|s| - 1], p, want);
      var f := s[|s| - 1];
      assert forall x :: x in s <==> x in s[..|s| - 1] || x == f by {
        assert s == s[..|s| - 1] + [f];
      }
      front + (if p(f) == want then [f] else [])
  }

  /** For a duplicate-free input, `matched` is the matching files and `remaining`
      the others, each in input order. */
  lemma FilterKeepsOrder(s: seq<string>, p: string -> bool)
    requires NoDups(s)
    ensures Matched(s, p) == Selected(s, p, true)
    ensures RemoveEach(s, Matched(s, p)) == Selected(s, p, false)
  {
    MatchedSelected(s, p);
    RemainingPrefix(s, |s|, p);
    assert s[..|s|] == s;
  }

  lemma {:induction false} MatchedSelected(s: seq<string>, p: string -> bool)
    requires NoDups(s)
    ensures Matched(s, p) == Selected(s, p, true)
  {
    if s != [] {
      var pre := s[..|s| - 1];
      assert NoDups(pre);
      MatchedSelected(pre, p);
      NoDupsLastFresh(s, |s|);
    }
  }

  lemma {:induction false} RemainingPrefix(s: seq<string>, i: nat, p: string -> bool)
    requires NoDups(s) && i <= |s|
    ensures RemoveEach(s, Matched(s[..i], p)) == Selected(s[..i], p, false) + s[i..]
  {
    if i == 0 {
      assert s[..0] == [] && s[0..] == s;
    } else {
      DropOneMore(s, i);
      RemainingPrefix(s, i - 1, p);
      NoDupsLastFresh(s, i);
      var pre := s[..i - 1];
      assert s[..i] == pre + [s[i - 1]];
      ConcatAssoc(Selected(pre, p, false), s[i - 1], s[i..]);
      RemainingStep(s, pre, s[i - 1], s[i..], p);
    }
  }

  /** One step of `RemainingPrefix`: a fresh file `f` is removed from the working
      copy exactly when it matches. */
  lemma RemainingStep(s: seq<string>, pre: seq<string>, f: string, post: seq<string>, p: string -> bool)
    requires f !in pre
    requires RemoveEach(s, Matched(pre, p)) == Selected(pre, p, false) + [f] + post
    ensures RemoveEach(s, Matched(pre + [f], p)) == Selected(pre + [f], p, false) + post
  {
    var q := pre + [f];
    assert q[..|q| - 1] == pre && q[|q| - 1] == f;
    var m := Matched(pre, p);
    var keep := Selected(pre, p, false);
    if p(f) {
      MatchedElements(pre, p);
      assert f !in m;
      assert (m + [f])[..|m|] == m;
      assert f !in keep;
      RemoveFirstAfter(keep, f, post);
    } else {
      assert keep + [f] + post == (keep + [f]) + post;
    }
  }

  lemma ConcatAssoc(a: seq<string>, x: string, b: seq<string>)
    ensures a + ([x] + b) == a + [x] + b
  {}

  lemma DropOneMore(s: seq<string>, i: nat)
    requires 0 < i <= |s|
    ensures s[i - 1..] == [s[i - 1]] + s[i..]
  {}

  /** In a duplicate-free list an element does not occur before its position. */
  lemma NoDupsLastFresh(s: seq<string>, i: nat)
    requires NoDups(s) && 0 < i <= |s|
    ensures s[i - 1] !in s[..i - 1]
  {
    var pre := s[..i - 1];
    forall j | 0 <= j < |pre| ensures pre[j] != s[i - 1] {
      assert pre[j] == s[j];
    }
  }

  lemma {:induction false} RemoveFirstAfter(a: seq<string>, x: string, b: seq<string>)
    requires x !in a
    ensures RemoveFirst(a + [x] + b, x) == a + b
  {
    if a == [] {
      assert [x] + b == a + [x] + b;
      assert ([x] + b)[1..] == b;
    } else {
      RemoveFirstAfter(a[1..], x, b);
      assert a + [x] + b == [a[0]] + (a[1..] + [x] + b);
      assert a + b == [a[0]] + (a[1..] + b);
    }
  }

  /** When nothing matches, `matched` is empty and `remaining` is the input. */
  lemma {:induction false} NoMatchKeepsAll(s: seq<string>, p: string -> bool)
    requires forall x :: x in s ==> !p(x)
    ensures Matched(s, p) == []
    ensures RemoveEach(s, Matched(s, p)) == s
    decreases |s|
  {
    if s != [] {
      NoMatchKeepsAll(s[..|s| - 1], p);
      assert s[|s| - 1] in s;
    }
  }

  /** Tokens never contain the separator, and joined back with it they give the
      stem with the strip set deleted. */
  lemma FileTokensShape(file: string, sep: string)
    requires sep != []
    ensures JoinWith(FileTokens(file, sep), sep) == RemoveChars(RsplitHead(file), StripSet(sep))
    ensures forall t :: t in FileTokens(file, sep) ==> !Contains(t, sep)
  {
    var stem := RemoveChars(RsplitHead(file), StripSet(sep));
    JoinSplit(stem, sep);
    SplitPiecesAvoidSep(stem, sep);
  }

  /** A multi-word keyword matches a file only through the whole phrase: the run
      must be contiguous, so tokens with another token between them do not match. */
  lemma ContiguousRunExample()
    ensures ContainsRun(["a", "big", "cat"], ["big", "cat"])
    ensures !ContainsRun(["a", "big", "fat", "cat"], ["big", "cat"])
    ensures !ContainsRun(["small", "cat"], ["big", "cat"])
  {
    assert RunAt(["a", "big", "cat"], ["big", "cat"], 1) by {
      assert ["a", "big", "cat"][1..3] == ["big", "cat"];
    }
    var t := ["a", "big", "fat", "cat"];
    forall i | 0 <= i <= |t| ensures !RunAt(t, ["big", "cat"], i) {
      if i + 2 <= 4 {
        assert t[i..i + 2][0] == t[i] && t[i..i + 2][1] == t[i + 1];
      }
    }
    var u := ["small", "cat"];
    forall i | 0 <= i <= |u| ensures !RunAt(u, ["big", "cat"], i) {
      if i + 2 <= 2 {
        assert u[i..i + 2][0] == u[i];
      }
    }
  }
}
