/**
  Combining several keyword phrases, on top of `filter_by_keyword`:

  - the active listing of `get_imgs` (and the older `filter_all_keywords`): in
    OR mode the concatenation of each keyword's matches against the whole
    listing; in AND mode each keyword filters the previous keyword's result, or
    the whole listing again whenever that result is empty; either way the result
    is deduplicated and sorted;
  - the keyword grouping of `get_keyword_file_dict`: each keyword takes its
    matches from the files no earlier keyword took.

  The spec functions take the match conditions as a sequence of predicates on
  file names, one per keyword, so their properties do not depend on how a
  single keyword matches.
*/
module Keywords {
  import opened Ordering
  import opened KeywordFilter

  /** The match condition of each keyword for the separator `sep`. */
  function Preds(keywords: seq<string>, sep: string): (ps: seq<string -> bool>)
    ensures |ps| == |keywords|
  {
    seq(|keywords|, i requires 0 <= i < |keywords| => MatchesKeyword(keywords[i], EffectiveSep(sep)))
  }

  /** OR mode: every keyword's matches against the whole listing, concatenated. */
  function OrUnion(files: seq<string>, ps: seq<string -> bool>): seq<string>
  {
    if ps == [] then [] else OrUnion(files, ps[..|ps| - 1]) + Matched(files, ps[|ps| - 1])
  }

  /** AND mode: the result after the keywords `ps`, each filtering the previous
      result, or the whole listing when the previous result is empty. */
  function AndFold(files: seq<string>, ps: seq<string -> bool>): seq<string>
  {
    if ps == [] then []
    else
      var acc := AndFold(files, ps[..|ps| - 1]);
      Matched(if acc == [] then files else acc, ps[|ps| - 1])
  }

  /** The last keyword position at which AND mode went back to the whole listing:
      the last `j` whose preceding result was empty. */
  function LastRestart(files: seq<string>, ps: seq<string -> bool>): (j: nat)
    requires ps != []
    ensures j < |ps|
  {
    var n := |ps| - 1;
    if n == 0 then 0
    else if AndFold(files, ps[..n]) == [] then n
    else LastRestart(files, ps[..n])
  }

  /** The restart position is one where the previous result was empty, and after
      it none was. */
  lemma {:induction false} LastRestartSpec(files: seq<string>, ps: seq<string -> bool>)
    requires ps != []
    ensures var j := LastRestart(files, ps);
      (j == 0 || AndFold(files, ps[..j]) == []) &&
      forall i :: j < i < |ps| ==> AndFold(files, ps[..i]) != []
  {
    var n := |ps| - 1;
    if n > 0 && AndFold(files, ps[..n]) != [] {
      LastRestartSpec(files, ps[..n]);
      PrefixOfPrefix(ps, n);
    }
  }

  lemma PrefixOfPrefix<T>(s: seq<T>, n: nat)
    requires n <= |s|
    ensures forall i :: 0 <= i <= n ==> s[..n][..i] == s[..i]
  {}

  /** A file is in the OR result exactly when it is listed and some keyword
      matches it. */
  lemma {:induction false} OrUnionMembers(files: seq<string>, ps: seq<string -> bool>, x: string)
    ensures x in OrUnion(files, ps) <==> x in files && exists i :: 0 <= i < |ps| && ps[i](x)
  {
    if ps != [] {
      var front := ps[..|ps| - 1];
      OrUnionMembers(files, front, x);
      MatchedElements(files, ps[|ps| - 1]);
      if exists i :: 0 <= i < |front| && front[i](x) {
        var i :| 0 <= i < |front| && front[i](x);
        assert ps[i](x);
      }
      if exists i :: 0 <= i < |ps| && ps[i](x) {
        var i :| 0 <= i < |ps| && ps[i](x);
        if i < |front| { assert front[i](x); }
      }
    }
  }

  /** A file is in the AND result exactly when it is listed and every keyword from
      the last restart on matches it. */
  lemma {:induction false} AndFoldMembers(files: seq<string>, ps: seq<string -> bool>, x: string)
    requires ps != []
    ensures x in AndFold(files, ps) <==>
      x in files && forall i :: LastRestart(files, ps) <= i < |ps| ==> ps[i](x)
  {
    var n := |ps| - 1;
    var front := ps[..n];
    var acc := AndFold(files, front);
    assert AndFold(files, ps) == Matched(if acc == [] then files else acc, ps[n]);
    MatchedElements(if acc == [] then files else acc, ps[n]);
    if n == 0 || acc == [] {
      assert LastRestart(files, ps) == n;
      assert (forall i :: n <= i < |ps| ==> ps[i](x)) <==> ps[n](x);
    } else {
      AndFoldMembers(files, front, x);
      assert LastRestart(files, ps) == LastRestart(files, front);
      AllFromSplit(ps, front, LastRestart(files, front), x);
    }
  }

  /** "Every keyword from `j` on" is "every one of the front from `j` on, and the
      last". */
  lemma AllFromSplit(ps: seq<string -> bool>, front: seq<string -> bool>, j: nat, x: string)
    requires j < |ps| && front == ps[..|ps| - 1]
    ensures (forall i :: j <= i < |ps| ==> ps[i](x)) <==>
      (forall i :: j <= i < |front| ==> front[i](x)) && ps[|ps| - 1](x)
  {
    if forall i :: j <= i < |front| ==> front[i](x) {
      forall i | j <= i < |front| ensures ps[i](x) {
        assert front[i] == ps[i];
      }
    }
  }

  /** When some listed file matches every keyword, AND mode never restarts and its
      result is the files matching all keywords. */
  lemma AndFoldIsConjunction(files: seq<string>, ps: seq<string -> bool>, w: string)
    requires ps != []
    requires w in files && forall i :: 0 <= i < |ps| ==> ps[i](w)
    ensures LastRestart(files, ps) == 0
    ensures forall x :: x in AndFold(files, ps) <==> x in files && forall i :: 0 <= i < |ps| ==> ps[i](x)
  {
    var j := LastRestart(files, ps);
    LastRestartSpec(files, ps);
    if j > 0 {
      WitnessSurvives(files, ps[..j], w);
      assert false;
    }
    forall x ensures x in AndFold(files, ps) <==> x in files && forall i :: 0 <= i < |ps| ==> ps[i](x) {
      AndFoldMembers(files, ps, x);
    }
  }

  /** A listed file matching every keyword survives every AND step. */
  lemma {:induction false} WitnessSurvives(files: seq<string>, ps: seq<string -> bool>, w: string)
    requires ps != []
    requires w in files && forall i :: 0 <= i < |ps| ==> ps[i](w)
    ensures w in AndFold(files, ps)
  {
    var n := |ps| - 1;
    var acc := AndFold(files, ps[..n]);
    if n > 0 {
      WitnessSurvives(files, ps[..n], w);
    }
    MatchedElements(if acc == [] then files else acc, ps[n]);
  }

  /** The AND result is a part of the listing matched by the last keyword, hence a
      part of the OR result. */
  lemma AndWithinOr(files: seq<string>, ps: seq<string -> bool>, x: string)
    requires x in AndFold(files, ps)
    ensures x in files && ps[|ps| - 1](x)
    ensures x in OrUnion(files, ps)
  {
    AndFoldMembers(files, ps, x);
    OrUnionMembers(files, ps, x);
  }

  /** AND mode is not the conjunction in general: when the second keyword
      matches nothing the first kept, the third filters the whole listing again,
      and the result holds a file the first keyword does not match. */
  lemma AndRestartExample()
    ensures var ps: seq<string -> bool> := [x => x == "a", x => x == "c", x => x == "b"];
      AndFold(["a", "b"], ps) == ["b"] && !ps[0]("b")
  {
    var files := ["a", "b"];
    var ps: seq<string -> bool> := [x => x == "a", x => x == "c", x => x == "b"];
    assert ps[..2][..1] == ps[..1] && ps[..1][..0] == [];
    assert AndFold(files, ps[..1]) == ["a"] by {
      assert Matched(files[..1], ps[0]) == ["a"];
      assert files[..2] == files;
    }
    assert AndFold(files, ps[..2]) == [] by {
      assert Matched(["a"][..0], ps[1]) == [];
    }
    assert Matched(files, ps[2]) == ["b"] by {
      assert files[..1] == ["a"];
      assert Matched(files[..1], ps[2]) == [] by {
        assert Matched(files[..1][..0], ps[2]) == [];
      }
    }
    assert ps[..3] == ps;
  }

  /** The combined listing, deduplicated and sorted. */
  function Combine(files: seq<string>, keywords: seq<string>, andMode: bool, sep: string): seq<string>
  {
    SortedSet(if andMode then AndFold(files, Preds(keywords, sep)) else OrUnion(files, Preds(keywords, sep)))
  }

  /** The keyword loop of `get_imgs` and `filter_all_keywords` on the listing
      `files`, followed by `list(set(...))` and `sort()`. */
  method CombineKeywords(files: seq<string>, keywords: seq<string>, andMode: bool, sep: string)
    returns (r: seq<string>)
    ensures r == Combine(files, keywords, andMode, sep)
  {
    var ps := Preds(keywords, sep);
    var keywordFiltered: seq<string> := [];
    for i := 0 to |keywords|
      invariant keywordFiltered == if andMode then AndFold(files, ps[..i]) else OrUnion(files, ps[..i])
    {
      assert ps[..i + 1][..i] == ps[..i];
      assert ps[i] == MatchesKeyword(keywords[i], EffectiveSep(sep));
      if andMode {
        var filterFiles := if keywordFiltered == [] then files else keywordFiltered;
        var _, filtered := FilterByKeyword(filterFiles, keywords[i], sep);
        keywordFiltered := filtered;
      } else {
        var _, filtered := FilterByKeyword(files, keywords[i], sep);
        keywordFiltered := keywordFiltered + filtered;
      }
    }
    assert ps[..|keywords|] == ps;
    r := SortedSet(keywordFiltered);
  }

  /** AND mode depends only on which files are listed, not on their order or
      repetition. */
  lemma {:induction false} AndFoldSameMembers(a: seq<string>, b: seq<string>, ps: seq<string -> bool>)
    requires forall x :: x in a <==> x in b
    ensures forall x :: x in AndFold(a, ps) <==> x in AndFold(b, ps)
  {
    if ps != [] {
      var n := |ps| - 1;
      AndFoldSameMembers(a, b, ps[..n]);
      var accA, accB := AndFold(a, ps[..n]), AndFold(b, ps[..n]);
      SameElementsBothEmpty(accA, accB);
      MatchedElements(if accA == [] then a else accA, ps[n]);
      MatchedElements(if accB == [] then b else accB, ps[n]);
    }
  }

  /** The combined listing depends only on which files are listed. */
  lemma CombineSameMembers(a: seq<string>, b: seq<string>, keywords: seq<string>, andMode: bool, sep: string)
    requires forall x :: x in a <==> x in b
    ensures Combine(a, keywords, andMode, sep) == Combine(b, keywords, andMode, sep)
  {
    var ps := Preds(keywords, sep);
    var xa := if andMode then AndFold(a, ps) else OrUnion(a, ps);
    var xb := if andMode then AndFold(b, ps) else OrUnion(b, ps);
    if andMode {
      AndFoldSameMembers(a, b, ps);
    } else {
      forall x ensures x in xa <==> x in xb {
        OrUnionMembers(a, ps, x);
        OrUnionMembers(b, ps, x);
      }
    }
    SortedSetElements(xa);
    SortedSetElements(xb);
    StrictlySortedUnique(SortedSet(xa), SortedSet(xb));
  }

  /** What the combined listing holds: in OR mode the listed files some keyword
      matches; in either mode only listed files; the AND result always lies within
      the OR result. */
  lemma CombinedMembers(files: seq<string>, keywords: seq<string>, sep: string, x: string)
    ensures x in SortedSet(OrUnion(files, Preds(keywords, sep))) <==>
      x in files && exists i :: 0 <= i < |keywords| && Matches(x, keywords[i], EffectiveSep(sep))
    ensures x in SortedSet(AndFold(files, Preds(keywords, sep))) ==>
      x in files && x in SortedSet(OrUnion(files, Preds(keywords, sep)))
  {
    var ps := Preds(keywords, sep);
    SortedSetElements(OrUnion(files, ps));
    SortedSetElements(AndFold(files, ps));
    OrUnionMembers(files, ps, x);
    if exists i :: 0 <= i < |keywords| && Matches(x, keywords[i], EffectiveSep(sep)) {
      var i :| 0 <= i < |keywords| && Matches(x, keywords[i], EffectiveSep(sep));
      assert ps[i](x);
    }
    if exists i :: 0 <= i < |ps| && ps[i](x) {
      var i :| 0 <= i < |ps| && ps[i](x);
      assert Matches(x, keywords[i], EffectiveSep(sep));
    }
    if x in AndFold(files, ps) {
      AndWithinOr(files, ps, x);
    }
  }

  /** What `get_imgs` returns for the extension-filtered listing `names`: the
      sorted listing when no keywords are set, the combined listing otherwise. */
  function ActiveListing(names: seq<string>, keywords: seq<string>, andMode: bool, sep: string): seq<string>
  {
    if keywords == [] then Sort(names) else Combine(Sort(names), keywords, andMode, sep)
  }

  /** The active listing is sorted and drawn from the listing; with no keywords it
      is the whole listing, with keywords it has no duplicates, in OR mode it holds
      exactly the files some keyword matches, and the AND listing lies within the
      OR listing. */
  lemma ActiveListingShape(names: seq<string>, keywords: seq<string>, sep: string, andMode: bool, x: string)
    ensures Sorted(ActiveListing(names, keywords, andMode, sep))
    ensures x in ActiveListing(names, keywords, andMode, sep) ==> x in names
    ensures keywords == [] ==> multiset(ActiveListing(names, keywords, andMode, sep)) == multiset(names)
    ensures keywords != [] ==> StrictlySorted(ActiveListing(names, keywords, andMode, sep))
    ensures keywords != [] ==>
      (x in ActiveListing(names, keywords, false, sep) <==>
        x in names && exists i :: 0 <= i < |keywords| && Matches(x, keywords[i], EffectiveSep(sep)))
    ensures x in ActiveListing(names, keywords, true, sep) ==> x in ActiveListing(names, keywords, false, sep)
  {
    var sorted := Sort(names);
    SortSorts(names);
    SortedSetElements(OrUnion(sorted, Preds(keywords, sep)));
    SortedSetElements(AndFold(sorted, Preds(keywords, sep)));
    assert x in sorted <==> x in multiset(sorted);
    assert x in names <==> x in multiset(names);
    if keywords != [] {
      CombinedMembers(sorted, keywords, sep, x);
      var r := ActiveListing(names, keywords, andMode, sep);
      assert forall i, j :: 0 <= i < j < |r| ==> LexLe(r[i], r[j]);
    }
  }

  /** The files still unclaimed after the keywords `ps` have each taken their
      matches, in the grouping of `get_keyword_file_dict`. */
  function RestAfter(pool: seq<string>, ps: seq<string -> bool>): seq<string>
  {
    if ps == [] then pool
    else
      var rest := RestAfter(pool, ps[..|ps| - 1]);
      RemoveEach(rest, Matched(rest, ps[|ps| - 1]))
  }

  /** The files the keyword at position `j` takes. */
  function GroupAt(pool: seq<string>, ps: seq<string -> bool>, j: nat): seq<string>
    requires j < |ps|
  {
    Matched(RestAfter(pool, ps[..j]), ps[j])
  }

  /** A duplicate-free list keeps no duplicates after a filter step, and what
      remains is exactly what the keyword does not match. */
  lemma RemainingOfNoDups(s: seq<string>, p: string -> bool)
    requires NoDups(s)
    ensures NoDups(RemoveEach(s, Matched(s, p)))
    ensures forall x :: x in RemoveEach(s, Matched(s, p)) <==> x in s && !p(x)
  {
    var rem := RemoveEach(s, Matched(s, p));
    FilterKeepsOrder(s, p);
    FilterPartition(s, p);
    forall i, j | 0 <= i < j < |rem| ensures rem[i] != rem[j] {
      if rem[i] == rem[j] {
        MultisetCountAtLeastTwo(rem, i, j);
        MultisetCountNoDups(s, rem[i]);
        assert false;
      }
    }
  }

  /** Whatever the list, what a filter step leaves comes from the list. */
  lemma RemainingWithin(s: seq<string>, p: string -> bool, x: string)
    requires x in RemoveEach(s, Matched(s, p))
    ensures x in s
  {
    FilterPartition(s, p);
    assert x in multiset(RemoveEach(s, Matched(s, p)));
    assert x in multiset(s);
  }

  /** Whatever the pool, the unclaimed files are pool files. */
  lemma {:induction false} RestAfterWithinPool(pool: seq<string>, ps: seq<string -> bool>, x: string)
    requires x in RestAfter(pool, ps)
    ensures x in pool
  {
    if ps != [] {
      var front := ps[..|ps| - 1];
      RemainingWithin(RestAfter(pool, front), ps[|ps| - 1], x);
      RestAfterWithinPool(pool, front, x);
    }
  }

  /** For a duplicate-free pool, a file stays unclaimed exactly when no keyword
      matches it. */
  lemma {:induction false} RestAfterMembers(pool: seq<string>, ps: seq<string -> bool>)
    requires NoDups(pool)
    ensures NoDups(RestAfter(pool, ps))
    ensures forall x :: x in RestAfter(pool, ps) <==> x in pool && forall i :: 0 <= i < |ps| ==> !ps[i](x)
  {
    if ps != [] {
      var front := ps[..|ps| - 1];
      RestAfterMembers(pool, front);
      RemainingOfNoDups(RestAfter(pool, front), ps[|ps| - 1]);
      assert forall i :: 0 <= i < |front| ==> front[i] == ps[i];
    }
  }

  /** First match wins: for a duplicate-free pool, keyword `j` takes exactly the
      pool files it matches and no earlier keyword matches. */
  lemma GroupMembers(pool: seq<string>, ps: seq<string -> bool>, j: nat, x: string)
    requires NoDups(pool) && j < |ps|
    ensures x in GroupAt(pool, ps, j) <==>
      x in pool && ps[j](x) && forall i :: 0 <= i < j ==> !ps[i](x)
  {
    RestAfterMembers(pool, ps[..j]);
    MatchedElements(RestAfter(pool, ps[..j]), ps[j]);
    assert forall i :: 0 <= i < j ==> ps[..j][i] == ps[i];
  }

  /** Whatever the pool, a group holds only pool files its keyword matches. */
  lemma GroupWithinPool(pool: seq<string>, ps: seq<string -> bool>, j: nat, x: string)
    requires j < |ps| && x in GroupAt(pool, ps, j)
    ensures x in pool && ps[j](x)
  {
    MatchedElements(RestAfter(pool, ps[..j]), ps[j]);
    RestAfterWithinPool(pool, ps[..j], x);
  }

  /** For a duplicate-free pool the groups of two keyword positions are disjoint. */
  lemma GroupsDisjoint(pool: seq<string>, ps: seq<string -> bool>, i: nat, j: nat, x: string)
    requires NoDups(pool) && i < j < |ps|
    ensures !(x in GroupAt(pool, ps, i) && x in GroupAt(pool, ps, j))
  {
    GroupMembers(pool, ps, i, x);
    GroupMembers(pool, ps, j, x);
  }

  /** The dictionary built by assigning each keyword of `ks` its group in `gs`,
      in order, so that a repeated keyword keeps its last group. */
  function AssignAll(ks: seq<string>, gs: seq<seq<string>>): map<string, seq<string>>
    requires |gs| == |ks|
  {
    if ks == [] then map[]
    else AssignAll(ks[..|ks| - 1], gs[..|gs| - 1])[ks[|ks| - 1] := gs[|gs| - 1]]
  }

  /** What `get_keyword_file_dict` builds from the file list `pool`. */
  function KeywordDict(pool: seq<string>, keywords: seq<string>, sep: string): map<string, seq<string>>
  {
    AssignAll(keywords, GroupsOf(pool, Preds(keywords, sep)))
  }

  /** The keyword dictionary maps exactly the keywords, each to the files it takes;
      a keyword given twice keeps its last group. */
  lemma KeywordDictGroups(pool: seq<string>, keywords: seq<string>, sep: string)
    ensures forall k :: k in KeywordDict(pool, keywords, sep) <==> k in keywords
    ensures forall j :: 0 <= j < |keywords| && (forall i :: j < i < |keywords| ==> keywords[i] != keywords[j]) ==>
      KeywordDict(pool, keywords, sep)[keywords[j]] == GroupAt(pool, Preds(keywords, sep), j)
  {
    var ps := Preds(keywords, sep);
    AssignAllLastGroups(keywords, GroupsOf(pool, ps));
    GroupsOfAt(pool, ps);
  }

  lemma {:induction false} AssignAllLastGroups(ks: seq<string>, gs: seq<seq<string>>)
    requires |gs| == |ks|
    ensures LastGroups(AssignAll(ks, gs), ks, gs)
  {
    if ks != [] {
      var n := |ks| - 1;
      AssignAllLastGroups(ks[..n], gs[..n]);
      LastGroupsStep(AssignAll(ks[..n], gs[..n]), ks, n, gs[..n], gs[n]);
      assert ks[..n + 1] == ks && gs[..n] + [gs[n]] == gs;
    }
  }

  /** One more keyword assigned. */
  lemma AssignStep(ks: seq<string>, gs: seq<seq<string>>, n: nat, g: seq<string>)
    requires n < |ks| && |gs| == n
    ensures AssignAll(ks[..n + 1], gs + [g]) == AssignAll(ks[..n], gs)[ks[n] := g]
  {
    assert ks[..n + 1][..n] == ks[..n] && (gs + [g])[..n] == gs;
  }

  /** `get_keyword_file_dict` on the file list `pool`: each keyword mapped to the
      files it takes, computed by filtering the still unclaimed files. */
  method KeywordFileDict(pool: seq<string>, keywords: seq<string>, sep: string)
    returns (dict: map<string, seq<string>>)
    ensures dict == KeywordDict(pool, keywords, sep)
  {
    var ps := Preds(keywords, sep);
    var fileList := pool;
    dict := map[];
    for n := 0 to |keywords|
      invariant fileList == RestAfter(pool, ps[..n])
      invariant dict == AssignAll(keywords[..n], GroupsOf(pool, ps[..n]))
    {
      var remaining, filtered := FilterByKeyword(fileList, keywords[n], sep);
      GroupStep(pool, ps, n, fileList, MatchesKeyword(keywords[n], EffectiveSep(sep)), remaining, filtered);
      AssignStep(keywords, GroupsOf(pool, ps[..n]), n, filtered);
      fileList := remaining;
      dict := dict[keywords[n] := filtered];
    }
    assert keywords[..|keywords|] == keywords && ps[..|keywords|] == ps;
  }

  /** The groups of all the keywords `ps`, in keyword order. */
  function GroupsOf(pool: seq<string>, ps: seq<string -> bool>): (gs: seq<seq<string>>)
    ensures |gs| == |ps|
  {
    if ps == [] then []
    else
      var front := ps[..|ps| - 1];
      GroupsOf(pool, front) + [Matched(RestAfter(pool, front), ps[|ps| - 1])]
  }

  lemma {:induction false} GroupsOfAt(pool: seq<string>, ps: seq<string -> bool>)
    ensures forall j :: 0 <= j < |ps| ==> GroupsOf(pool, ps)[j] == GroupAt(pool, ps, j)
  {
    if ps != [] {
      var front := ps[..|ps| - 1];
      GroupsOfAt(pool, front);
      forall j | 0 <= j < |ps| ensures GroupsOf(pool, ps)[j] == GroupAt(pool, ps, j) {
        if j < |front| {
          assert front[..j] == ps[..j] && front[j] == ps[j];
          assert GroupAt(pool, front, j) == GroupAt(pool, ps, j);
        }
      }
    }
  }

  /** `dict` maps exactly the keywords `ks`, each to the group of its last
      occurrence. */
  ghost predicate LastGroups(dict: map<string, seq<string>>, ks: seq<string>, groups: seq<seq<string>>)
    requires |groups| == |ks|
  {
    (forall k :: k in dict <==> k in ks) &&
    forall j :: 0 <= j < |ks| && (forall i :: j < i < |ks| ==> ks[i] != ks[j]) ==> dict[ks[j]] == groups[j]
  }

  lemma LastGroupsStep(dict: map<string, seq<string>>, keywords: seq<string>, n: nat,
                       groups: seq<seq<string>>, g: seq<string>)
    requires n < |keywords| && |groups| == n && LastGroups(dict, keywords[..n], groups)
    ensures LastGroups(dict[keywords[n] := g], keywords[..n + 1], groups + [g])
  {
    var ks := keywords[..n];
    var k := keywords[n];
    var ks' := keywords[..n + 1];
    assert ks' == ks + [k];
    var gs' := groups + [g];
    forall j | 0 <= j < |ks'| && (forall i :: j < i < |ks'| ==> ks'[i] != ks'[j])
      ensures dict[k := g][ks'[j]] == gs'[j]
    {
      if j < |ks| {
        assert ks'[|ks|] == k;
        assert forall i :: j < i < |ks| ==> ks[i] == ks'[i];
      }
    }
  }

  /** One keyword of the grouping: it takes its matches from the unclaimed files,
      which then lose them. */
  lemma GroupStep(pool: seq<string>, ps: seq<string -> bool>, n: nat, fileList: seq<string>,
                  p: string -> bool, remaining: seq<string>, filtered: seq<string>)
    requires n < |ps| && p == ps[n] && fileList == RestAfter(pool, ps[..n])
    requires filtered == Matched(fileList, p) && remaining == RemoveEach(fileList, filtered)
    ensures GroupsOf(pool, ps[..n + 1]) == GroupsOf(pool, ps[..n]) + [filtered]
    ensures remaining == RestAfter(pool, ps[..n + 1])
  {
    assert ps[..n + 1][..n] == ps[..n];
  }

  /** The groups stated per keyword: for a duplicate-free pool and distinct
      keywords, a file is in a keyword's group exactly when that keyword is the
      first to match it. */
  lemma KeywordGroupMembers(pool: seq<string>, keywords: seq<string>, sep: string, j: nat, x: string)
    requires NoDups(pool) && j < |keywords|
    ensures x in GroupAt(pool, Preds(keywords, sep), j) <==>
      x in pool && Matches(x, keywords[j], EffectiveSep(sep)) &&
      forall i :: 0 <= i < j ==> !Matches(x, keywords[i], EffectiveSep(sep))
  {
    var ps := Preds(keywords, sep);
    GroupMembers(pool, ps, j, x);
    assert forall i :: 0 <= i < |keywords| ==> (ps[i](x) <==> Matches(x, keywords[i], EffectiveSep(sep)));
  }
}
