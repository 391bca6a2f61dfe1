/**
  The Python string and list built-ins the application relies on, with the
  semantics CPython gives them: `str.find`, `in` on strings, `str.split` with an
  explicit separator, `str.replace(old, "")`, `str.strip()`, `str.rsplit(".", 1)`,
  `os.path.splitext` (POSIX) and indexing with negative indices.
*/
module PyStr {
  import opened Wrappers

  /** `sub` occurs in `s` starting at index `k`. */
  predicate OccursAt(s: string, sub: string, k: nat)
  {
    k + |sub| <= |s| && s[k..k + |sub|] == sub
  }

  /** `sub in s`. */
  predicate Contains(s: string, sub: string)
  {
    exists k :: 0 <= k <= |s| && OccursAt(s, sub, k)
  }

  /** `s.find(sub)`: the first index at which `sub` occurs, or -1. */
  function IndexOf(s: string, sub: string): (r: int)
    ensures -1 <= r
    ensures r >= 0 ==> OccursAt(s, sub, r) && forall j: nat :: j < r ==> !OccursAt(s, sub, j)
    ensures r < 0 <==> !Contains(s, sub)
    decreases |s|
  {
    if |s| < |sub| then
      assert forall j: nat :: !OccursAt(s, sub, j);
      -1
    else if s[..|sub|] == sub then 0
    else
      var j := IndexOf(s[1..], sub);
      if j < 0 then
        AbsentAfterHead(s, sub, |s|);
        -1
      else
        AbsentAfterHead(s, sub, j);
        j + 1
  }

  /** With no occurrence at the head, the occurrences in `s` are those of `s[1..]`
      shifted by one. */
  lemma AbsentAfterHead(s: string, sub: string, n: int)
    requires |s| >= |sub| && s[..|sub|] != sub
    requires forall k: nat :: k < n ==> !OccursAt(s[1..], sub, k)
    ensures forall k: nat :: k < n + 1 ==> !OccursAt(s, sub, k)
  {
    forall k: nat | k < n + 1 ensures !OccursAt(s, sub, k) {
      if k > 0 && k + |sub| <= |s| {
        SliceOfTail(s, k - 1, |sub|);
        assert !OccursAt(s[1..], sub, k - 1);
      }
    }
  }

  lemma SliceOfTail(s: string, k: nat, n: nat)
    requires 1 <= k + 1 + n <= |s|
    ensures s[1..][k..k + n] == s[k + 1..k + 1 + n]
  {
    var t := s[1..][k..k + n];
    var u := s[k + 1..k + 1 + n];
    forall m | 0 <= m < n ensures t[m] == u[m] {
      assert s[1..][k + m] == s[k + 1 + m];
    }
  }

  /** `s.split(sep)` for a non-empty separator: the pieces between successive
      non-overlapping occurrences of `sep`, scanned from the left. */
  function Split(s: string, sep: string): (r: seq<string>)
    requires sep != []
    ensures |r| >= 1
    decreases |s|
  {
    var i := IndexOf(s, sep);
    if i < 0 then [s] else [s[..i]] + Split(s[i + |sep|..], sep)
  }

  /** `sep.join(parts)`. */
  function JoinWith(parts: seq<string>, sep: string): string
  {
    if parts == [] then ""
    else if |parts| == 1 then parts[0]
    else parts[0] + sep + JoinWith(parts[1..], sep)
  }

  /** Joining the pieces of a split with the same separator gives back the string. */
  lemma {:induction false} JoinSplit(s: string, sep: string)
    requires sep != []
    ensures JoinWith(Split(s, sep), sep) == s
    decreases |s|
  {
    var i := IndexOf(s, sep);
    if i >= 0 {
      var rest := s[i + |sep|..];
      JoinSplit(rest, sep);
      JoinWithCons(s[..i], Split(rest, sep), sep);
      SplitAround(s, i, |sep|);
    }
  }

  lemma JoinWithCons(head: string, tail: seq<string>, sep: string)
    requires tail != []
    ensures JoinWith([head] + tail, sep) == head + sep + JoinWith(tail, sep)
  {
    assert ([head] + tail)[1..] == tail;
  }

  lemma SplitAround(s: string, i: nat, n: nat)
    requires i + n <= |s|
    ensures s == s[..i] + s[i..i + n] + s[i + n..]
  {
  }

  /** No piece of a split contains the separator. */
  lemma {:induction false} SplitPiecesAvoidSep(s: string, sep: string)
    requires sep != []
    ensures forall t :: t in Split(s, sep) ==> !Contains(t, sep)
    decreases |s|
  {
    var i := IndexOf(s, sep);
    if i >= 0 {
      SplitPiecesAvoidSep(s[i + |sep|..], sep);
      var head := s[..i];
      forall k: nat | OccursAt(head, sep, k) ensures false {
        assert s[k..k + |sep|] == head[k..k + |sep|];
        assert OccursAt(s, sep, k);
      }
    }
  }

  /** A string without the separator splits into itself alone. */
  lemma SplitWithoutSep(s: string, sep: string)
    requires sep != [] && !Contains(s, sep)
    ensures Split(s, sep) == [s]
  {}

  /** Number of occurrences of the character `c` in `s`. */
  function CountChar(s: string, c: char): nat
  {
    if s == [] then 0 else (if s[0] == c then 1 else 0) + CountChar(s[1..], c)
  }

  /** Splitting on a one-character separator yields one more piece than there are
      separator characters. */
  lemma {:induction false} SplitCharLength(s: string, c: char)
    ensures |Split(s, [c])| == CountChar(s, c) + 1
    decreases |s|
  {
    var i := IndexOf(s, [c]);
    if i < 0 {
      CountCharAbsent(s, c);
    } else {
      SplitCharLength(s[i + 1..], c);
      forall k | 0 <= k <= i && OccursAt(s[..i], [c], k) ensures false {
        assert s[k..k + 1] == s[..i][k..k + 1];
        assert OccursAt(s, [c], k);
      }
      CountCharAbsent(s[..i], c);
      CountCharConcat(s[..i], [c] + s[i + 1..], c);
      assert s == s[..i] + ([c] + s[i + 1..]);
      assert ([c] + s[i + 1..])[1..] == s[i + 1..];
    }
  }

  lemma {:induction false} CountCharAbsent(s: string, c: char)
    requires !Contains(s, [c])
    ensures CountChar(s, c) == 0
  {
    if s != [] {
      assert !OccursAt(s, [c], 0);
      assert s[..1] == [s[0]];
      forall k | 0 <= k <= |s[1..]| && OccursAt(s[1..], [c], k) ensures false {
        SliceOfTail(s, k, 1);
        assert OccursAt(s, [c], k + 1);
      }
      CountCharAbsent(s[1..], c);
    }
  }

  lemma {:induction false} CountCharConcat(a: string, b: string, c: char)
    ensures CountChar(a + b, c) == CountChar(a, c) + CountChar(b, c)
  {
    if a != [] {
      assert (a + b)[0] == a[0];
      assert (a + b)[1..] == a[1..] + b;
      CountCharConcat(a[1..], b, c);
    } else {
      assert a + b == b;
    }
  }

  /** `s.replace(sub, "")` for a non-empty `sub`: delete every non-overlapping
      occurrence, scanning from the left. */
  function DeleteAll(s: string, sub: string): (r: string)
    requires sub != []
    ensures |r| <= |s|
    decreases |s|
  {
    if |s| < |sub| then s
    else if s[..|sub|] == sub then DeleteAll(s[|sub|..], sub)
    else [s[0]] + DeleteAll(s[1..], sub)
  }

  /** `s` with every character of `cs` removed. */
  function RemoveChars(s: string, cs: set<char>): (r: string)
    ensures forall c :: c in r <==> c in s && c !in cs
  {
    if s == [] then "" else (if s[0] in cs then "" else [s[0]]) + RemoveChars(s[1..], cs)
  }

  /** Replacing a single character by "" removes it, so deleting characters one at
      a time amounts to removing the set of them at once. */
  lemma {:induction false} DeleteCharAfterRemove(s: string, cs: set<char>, c: char)
    ensures DeleteAll(RemoveChars(s, cs), [c]) == RemoveChars(s, cs + {c})
  {
    if s != [] {
      DeleteCharAfterRemove(s[1..], cs, c);
      var t := RemoveChars(s, cs);
      var t' := RemoveChars(s[1..], cs);
      if s[0] in cs {
        assert t == t';
        assert RemoveChars(s, cs + {c}) == RemoveChars(s[1..], cs + {c});
      } else {
        assert t == [s[0]] + t';
        assert t[..1] == [s[0]];
        assert t[1..] == t';
        if s[0] == c {
          assert DeleteAll(t, [c]) == DeleteAll(t', [c]);
          assert RemoveChars(s, cs + {c}) == RemoveChars(s[1..], cs + {c});
        } else {
          assert DeleteAll(t, [c]) == [s[0]] + DeleteAll(t', [c]);
          assert RemoveChars(s, cs + {c}) == [s[0]] + RemoveChars(s[1..], cs + {c});
        }
      }
    }
  }

  /** Python's `str.isspace` for one character: the characters `str.strip()` removes. */
  predicate IsSpace(c: char)
  {
    var n := c as int;
    (9 <= n <= 13) || (0x1c <= n <= 0x20) || n == 0x85 || n == 0xa0 || n == 0x1680
    || (0x2000 <= n <= 0x200a) || n == 0x2028 || n == 0x2029 || n == 0x202f
    || n == 0x205f || n == 0x3000
  }

  function LStrip(s: string): (r: string)
    ensures r == [] || !IsSpace(r[0])
    ensures |r| <= |s| && r == s[|s| - |r|..]
    ensures forall i :: 0 <= i < |s| - |r| ==> IsSpace(s[i])
  {
    if s != [] && IsSpace(s[0]) then LStrip(s[1..]) else s
  }

  function RStrip(s: string): (r: string)
    ensures r == [] || !IsSpace(r[|r| - 1])
    ensures |r| <= |s| && r == s[..|r|]
    ensures forall i :: |r| <= i < |s| ==> IsSpace(s[i])
  {
    if s != [] && IsSpace(s[|s| - 1]) then RStrip(s[..|s| - 1]) else s
  }

  /** `s.strip()`: the longest infix that neither starts nor ends with whitespace and
      leaves only whitespace around it. */
  function Strip(s: string): (r: string)
    ensures r == [] || (!IsSpace(r[0]) && !IsSpace(r[|r| - 1]))
    ensures StripStart(s) + |r| <= |s| && r == s[StripStart(s)..StripStart(s) + |r|]
    ensures forall i :: 0 <= i < StripStart(s) ==> IsSpace(s[i])
    ensures forall i :: StripStart(s) + |r| <= i < |s| ==> IsSpace(s[i])
  {
    var l := LStrip(s);
    var r := RStrip(l);
    var a := |s| - |l|;
    assert r == s[a..a + |r|];
    assert r != [] ==> r[0] == l[0];
    r
  }

  /** Where `s.strip()` starts: the number of leading whitespace characters. */
  function StripStart(s: string): nat
  {
    |s| - |LStrip(s)|
  }

  /** `[opt.strip() for opt in s.split(",")]`, the parse of a comma-separated
      category or keyword string. */
  function SplitStrip(s: string): (r: seq<string>)
    ensures |r| == CountChar(s, ',') + 1
  {
    SplitCharLength(s, ',');
    var parts := Split(s, ",");
    seq(|parts|, i requires 0 <= i < |parts| => Strip(parts[i]))
  }

  /** The last index of `c` in `s`, or -1. */
  function LastIndexOf(s: string, c: char): (r: int)
    ensures -1 <= r < |s|
    ensures r >= 0 ==> s[r] == c
    ensures forall i :: r < i < |s| ==> s[i] != c
  {
    if s == [] then -1
    else if s[|s| - 1] == c then |s| - 1
    else LastIndexOf(s[..|s| - 1], c)
  }

  /** `s.rsplit(".", 1)[0]`: everything before the last dot (the whole string when
      there is none). */
  function RsplitHead(s: string): (r: string)
    ensures '.' !in s ==> r == s
    ensures '.' in s ==> |r| < |s| && r == s[..|r|] && s[|r|] == '.' && '.' !in s[|r| + 1..]
  {
    var k := LastIndexOf(s, '.');
    if k < 0 then s else s[..k]
  }

  /** `s.rsplit(".", 1)[-1]`: everything after the last dot (the whole string when
      there is none). */
  function RsplitTail(s: string): (r: string)
    ensures |r| <= |s| && r == s[|s| - |r|..]
    ensures '.' in s ==> |r| < |s| && '.' !in r && s[|s| - |r| - 1] == '.'
    ensures '.' !in s ==> r == s
  {
    var k := LastIndexOf(s, '.');
    if k < 0 then s else s[k + 1..]
  }

  /** The extension part of `os.path.splitext(p)` on POSIX: from the last dot of
      the last path component, provided that component has a character other than
      a dot before it; otherwise "". */
  function SplitExt(p: string): (r: string)
    ensures r == [] || (r[0] == '.' && '.' !in r[1..] && '/' !in r)
    ensures |r| <= |p| && r == p[|p| - |r|..]
  {
    var sepIdx := LastIndexOf(p, '/');
    var dotIdx := LastIndexOf(p, '.');
    if dotIdx > sepIdx && (exists k :: sepIdx + 1 <= k < dotIdx && p[k] != '.') then
      assert forall i :: dotIdx < i < |p| ==> p[i] != '.' && p[i] != '/';
      p[dotIdx..]
    else ""
  }

  /** `xs[i]` with Python's negative indices; None stands for IndexError. */
  function PyIndex<T>(xs: seq<T>, i: int): (r: Option<T>)
    ensures r.Some? <==> -|xs| <= i < |xs|
    ensures 0 <= i < |xs| ==> r == Some(xs[i])
    ensures -|xs| <= i < 0 ==> r == Some(xs[|xs| + i])
  {
    if 0 <= i < |xs| then Some(xs[i])
    else if -|xs| <= i < 0 then Some(xs[|xs| + i])
    else None
  }
}
