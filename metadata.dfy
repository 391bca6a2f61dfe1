/**
  `concat_arr`, the step of the metadata parser that glues continuation rows
  onto the row they continue: every row containing `:` starts a new entry, and
  the colon-free rows after it are appended to that entry.
*/
module Metadata {
  import opened Wrappers

  /** The rows concatenated, in order. */
  function Concat(rows: seq<string>): string
  {
    if rows == [] then "" else Concat(rows[..|rows| - 1]) + rows[|rows| - 1]
  }

  /** No row contains a colon. */
  predicate ColonFree(rows: seq<string>)
  {
    forall i :: 0 <= i < |rows| ==> ':' !in rows[i]
  }

  /** The intended result: each colon row followed by the colon-free rows up to
      the next colon row; colon-free rows before the first colon row have nothing
      to anchor to and are dropped. */
  function Anchor(rows: seq<string>): (r: seq<string>)
  {
    if rows == [] then []
    else
      var front := Anchor(rows[..|rows| - 1]);
      var row := rows[|rows| - 1];
      if ':' in row then front + [row]
      else if front == [] then []
      else front[..|front| - 1] + [front[|front| - 1] + row]
  }

  /** The number of rows containing a colon. */
  function ColonRows(rows: seq<string>): nat
  {
    if rows == [] then 0
    else ColonRows(rows[..|rows| - 1]) + (if ':' in rows[|rows| - 1] then 1 else 0)
  }

  /** One entry per colon row. */
  lemma {:induction false} AnchorLength(rows: seq<string>)
    ensures |Anchor(rows)| == ColonRows(rows)
    ensures Anchor(rows) == [] <==> ColonFree(rows)
  {
    if rows != [] {
      var front := rows[..|rows| - 1];
      AnchorLength(front);
      assert forall i :: 0 <= i < |front| ==> front[i] == rows[i];
    }
  }

  /** Every entry starts with its colon row, so it contains a colon. */
  lemma {:induction false} AnchorEntriesHaveColons(rows: seq<string>)
    ensures forall e :: e in Anchor(rows) ==> ':' in e
  {
    if rows != [] {
      var front := rows[..|rows| - 1];
      AnchorEntriesHaveColons(front);
      var a := Anchor(front);
      var row := rows[|rows| - 1];
      if ':' !in row && a != [] {
        var last := a[|a| - 1];
        assert last in a;
        var i :| 0 <= i < |last| && last[i] == ':';
        assert (last + row)[i] == ':';
        forall e | e in a[..|a| - 1] ensures ':' in e {
          var j :| 0 <= j < |a| - 1 && a[..|a| - 1][j] == e;
          assert a[j] == e;
        }
      }
    }
  }

  /** As written, `concat_arr` raises `IndexError` when a non-empty colon-free row
      comes before the first colon row: `result[-1]` is read while `result` is
      still empty. */
  predicate RaisesIndexError(rows: seq<string>)
  {
    exists i :: 0 <= i < |rows| && ':' in rows[i] && ColonFree(rows[..i]) && Concat(rows[..i]) != ""
  }

  /** The pending continuation added to the last entry. */
  function Flush(result: seq<string>, current: string): seq<string>
  {
    if current != "" && result != [] then result[..|result| - 1] + [result[|result| - 1] + current] else result
  }

  lemma ConcatStep(rows: seq<string>, i: nat)
    requires i < |rows|
    ensures Concat(rows[..i + 1]) == Concat(rows[..i]) + rows[i]
  {
    assert rows[..i + 1][..i] == rows[..i];
  }

  lemma ColonFreeStep(rows: seq<string>, i: nat)
    requires i < |rows|
    ensures ColonFree(rows[..i + 1]) <==> ColonFree(rows[..i]) && ':' !in rows[i]
  {
    assert forall j :: 0 <= j < i ==> rows[..i + 1][j] == rows[..i][j];
    assert rows[..i + 1][i] == rows[i];
  }

  /** `Anchor` on one more row. */
  lemma AnchorStep(rows: seq<string>, i: nat)
    requires i < |rows|
    ensures var front := Anchor(rows[..i]);
      Anchor(rows[..i + 1]) ==
        if ':' in rows[i] then front + [rows[i]]
        else if front == [] then []
        else front[..|front| - 1] + [front[|front| - 1] + rows[i]]
  {
    assert rows[..i + 1][..i] == rows[..i];
  }

  /** The crash condition on one more row. */
  lemma RaisesStep(rows: seq<string>, i: nat)
    requires i < |rows|
    ensures RaisesIndexError(rows[..i + 1]) <==>
      RaisesIndexError(rows[..i]) || (':' in rows[i] && ColonFree(rows[..i]) && Concat(rows[..i]) != "")
  {
    var p := rows[..i + 1];
    assert forall j :: 0 <= j <= i ==> p[..j] == rows[..j];
    if RaisesIndexError(p) {
      var j :| 0 <= j < |p| && ':' in p[j] && ColonFree(p[..j]) && Concat(p[..j]) != "";
      if j < i {
        assert rows[..i][j] == p[j] && rows[..i][..j] == p[..j];
      }
    }
    if RaisesIndexError(rows[..i]) {
      var j :| 0 <= j < i && ':' in rows[..i][j] && ColonFree(rows[..i][..j]) && Concat(rows[..i][..j]) != "";
      assert rows[..i][..j] == p[..j] && p[j] == rows[..i][j];
    }
    if ':' in rows[i] && ColonFree(rows[..i]) && Concat(rows[..i]) != "" {
      assert p[i] == rows[i] && p[..i] == rows[..i];
    }
  }

  /** Adding a colon-free row to the pending continuation extends the last entry. */
  lemma FlushAppend(result: seq<string>, current: string, row: string)
    requires result != []
    ensures var f := Flush(result, current);
      f != [] && Flush(result, current + row) == f[..|f| - 1] + [f[|f| - 1] + row]
  {
    var f := Flush(result, current);
    var last := result[|result| - 1];
    if current == [] {
      assert current + row == row;
      assert f == result;
      if row == [] {
        assert last + row == last;
        assert result == result[..|result| - 1] + [last];
      }
    } else {
      assert f == result[..|result| - 1] + [last + current];
      assert f[..|f| - 1] == result[..|result| - 1];
      assert f[|f| - 1] == last + current;
      assert current + row != [];
      assert last + (current + row) == (last + current) + row;
    }
  }

  /** `concat_arr(arr)` as written; `None` stands for the `IndexError`. */
  method ConcatArr(arr: seq<string>) returns (r: Option<seq<string>>)
    ensures r.None? <==> RaisesIndexError(arr)
    ensures r.Some? ==> r.value == Anchor(arr)
  {
    var result: seq<string> := [];
    var current := "";
    for i := 0 to |arr|
      invariant result == [] <==> ColonFree(arr[..i])
      invariant result == [] ==> current == Concat(arr[..i])
      invariant Anchor(arr[..i]) == Flush(result, current)
      invariant !RaisesIndexError(arr[..i])
    {
      var row := arr[i];
      ColonFreeStep(arr, i);
      ConcatStep(arr, i);
      AnchorStep(arr, i);
      RaisesStep(arr, i);
      if result != [] {
        FlushAppend(result, current, row);
      }
      if ':' in row {
        if current != "" {
          if result == [] {
            assert RaisesIndexError(arr[..i + 1]);
            RaisesPrefix(arr, i + 1);
            return None;
          }
          result := result[..|result| - 1] + [result[|result| - 1] + current];
          current := "";
        }
        result := result + [row];
      } else {
        current := current + row;
      }
    }
    assert arr[..|arr|] == arr;
    if current != "" && result != [] {
      result := result[..|result| - 1] + [result[|result| - 1] + current];
    }
    return Some(result);
  }

  /** A crash on a prefix is a crash on the whole input. */
  lemma RaisesPrefix(rows: seq<string>, n: nat)
    requires n <= |rows| && RaisesIndexError(rows[..n])
    ensures RaisesIndexError(rows)
  {
    var j :| 0 <= j < n && ':' in rows[..n][j] && ColonFree(rows[..n][..j]) && Concat(rows[..n][..j]) != "";
    assert rows[..n][..j] == rows[..j] && rows[..n][j] == rows[j];
  }

  /** The smallest input that shows the crash: a continuation row before any
      colon row. */
  lemma ConcatArrRaisesOnLeadingRow()
    ensures RaisesIndexError(["x", "a:b"])
    ensures Anchor(["x", "a:b"]) == ["a:b"]
  {
    var rows := ["x", "a:b"];
    assert ':' in rows[1] by { assert rows[1][1] == ':'; }
    assert rows[..1] == ["x"];
    assert Concat(rows[..1]) == "x" by {
      assert Concat(["x"]) == Concat([]) + "x";
    }
    assert ColonFree(rows[..1]) by {
      assert rows[..1][0] == "x";
    }
    assert rows[..1] == ["x"];
    assert Anchor(rows[..1]) == [] by {
      assert ':' !in "x";
      assert Anchor(["x"][..0]) == [];
    }
  }

  /** `get_metadata_dict` always hands `concat_arr` a first row starting with
      `"Prompt: "`: the joined rows, or the first `", "` piece of the last row,
      both begin with that prefix. A colon in the first row leaves nothing to
      come before the first colon row, so the `IndexError` is out of the app's
      reach. */
  lemma PromptRowsNeverRaise(rows: seq<string>)
    requires rows != [] && |rows[0]| >= 8 && rows[0][..8] == "Prompt: "
    ensures !RaisesIndexError(rows)
  {
    assert rows[0][6] == "Prompt: "[6] == ':';
    forall i | 0 <= i < |rows| && ColonFree(rows[..i])
      ensures Concat(rows[..i]) == ""
    {
      assert rows[..i] == [];
    }
  }

  /** `concat_arr` with the guard its final flush already has (`if current_string
      and result`) applied inside the loop as well: a continuation with nothing to
      anchor to is dropped instead of being added to a missing last entry. */
  method ConcatArrGuarded(arr: seq<string>) returns (r: seq<string>)
    ensures r == Anchor(arr)
    ensures |r| == ColonRows(arr)
  {
    var result: seq<string> := [];
    var current := "";
    for i := 0 to |arr|
      invariant result == [] <==> ColonFree(arr[..i])
      invariant Anchor(arr[..i]) == Flush(result, current)
    {
      var row := arr[i];
      assert arr[..i + 1][..i] == arr[..i] && arr[..i + 1][i] == row;
      ColonFreeStep(arr, i);
      AnchorStep(arr, i);
      if result != [] {
        FlushAppend(result, current, row);
      }
      if ':' in row {
        if current != "" {
          if result != [] {
            result := result[..|result| - 1] + [result[|result| - 1] + current];
          }
          current := "";
        }
        result := result + [row];
      } else {
        current := current + row;
      }
    }
    assert arr[..|arr|] == arr;
    if current != "" && result != [] {
      result := result[..|result| - 1] + [result[|result| - 1] + current];
    }
    AnchorLength(arr);
    return result;
  }
}
