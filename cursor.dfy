/**
  The arithmetic of the image cursor `counter` under the three stepping policies
  of the app's copies, and the guarded `files[counter]` read that selects the
  current file.
*/
module Cursor {
  import opened Wrappers
  import opened PyStr

  /** The annotators' `change_img`: add `val`, then reset to 0 when the result is
      below 1. */
  function FloorStep(counter: int, val: int): (r: int)
    ensures r >= 0
    ensures counter + val >= 0 ==> r == counter + val
    ensures counter + val <= 0 ==> r == 0
  {
    var c := counter + val;
    if c < 1 then 0 else c
  }

  /** Stepping forward from `c` `k` times. */
  function FloorForward(c: int, k: nat): int
  {
    if k == 0 then c else FloorStep(FloorForward(c, k - 1), 1)
  }

  /** Nothing clamps the floor policy at the end of the list: `k` steps forward
      from 0 reach `k`, whatever the number of files. */
  lemma {:induction false} FloorForwardUnbounded(k: nat)
    ensures FloorForward(0, k) == k
  {
    if k > 0 {
      FloorForwardUnbounded(k - 1);
    }
  }

  /** Stepping back at the start stays at the start, so back-then-forward from 0
      does not return to 0. */
  lemma FloorBackAtStart()
    ensures FloorStep(0, -1) == 0
    ensures FloorStep(FloorStep(0, -1), 1) == 1
  {
  }

  /** The viewer's `change_img`: add `val`, then reset to 0 when the result is
      below 1 or past the last index of a list of `n` files. */
  function WrapStep(counter: int, val: int, n: nat): (r: int)
    ensures 0 <= r && (r < n || r == 0)
    ensures 1 <= counter + val < n ==> r == counter + val
    ensures counter + val <= 0 || counter + val >= n ==> r == 0
  {
    var c := counter + val;
    if c < 1 || c >= n then 0 else c
  }

  /** Forward from the last file wraps to the first, but back from the first stays
      there instead of wrapping to the last. */
  lemma WrapEnds(n: nat)
    requires n > 0
    ensures WrapStep(n - 1, 1, n) == 0
    ensures WrapStep(0, -1, n) == 0
  {
  }

  /** The slideshow step: at the last index with `continuous` set the counter
      restarts at 0; otherwise it is incremented without a wrap. */
  function SlideStep(counter: int, n: nat, continuous: bool): (r: int)
    ensures counter == n - 1 && continuous ==> r == 0
    ensures !(counter == n - 1 && continuous) ==> r == counter + 1
  {
    if counter == n - 1 && continuous then 0 else counter + 1
  }

  /** `k` slideshow steps from `c`. */
  function Slides(c: int, n: nat, continuous: bool, k: nat): int
  {
    if k == 0 then c else SlideStep(Slides(c, n, continuous, k - 1), n, continuous)
  }

  /** A continuous slideshow cycles through the list: it is at `(c + k) % n` after
      `k` steps from any valid index `c`. */
  lemma {:induction false} ContinuousSlidesCycle(c: int, n: nat, k: nat)
    requires 0 <= c < n
    ensures Slides(c, n, true, k) == (c + k) % n
  {
    if k > 0 {
      ContinuousSlidesCycle(c, n, k - 1);
      ModSucc(c + k - 1, n);
    }
  }

  /** Counting one further modulo `n`. */
  lemma ModSucc(x: nat, n: nat)
    requires n > 0
    ensures (x + 1) % n == if x % n == n - 1 then 0 else x % n + 1
  {
    var q, r := x / n, x % n;
    assert x == q * n + r;
    if r == n - 1 {
      assert x + 1 == (q + 1) * n;
      ModOfMultiple(q + 1, n);
    } else {
      ModUnique(x + 1, n, q, r + 1);
    }
  }

  lemma ModOfMultiple(q: nat, n: nat)
    requires n > 0
    ensures (q * n) % n == 0
  {
    ModUnique(q * n, n, q, 0);
  }

  lemma ModUnique(x: int, n: nat, q: int, r: int)
    requires n > 0 && 0 <= r < n && x == q * n + r
    ensures x % n == r
  {
    var q', r' := x / n, x % n;
    assert (q - q') * n == r' - r by {
      assert x == q' * n + r';
      assert (q - q') * n == q * n - q' * n;
    }
    if q > q' {
      MulAtLeast(q - q', n);
    } else if q < q' {
      MulAtLeast(q' - q, n);
    }
  }

  lemma MulAtLeast(a: int, n: nat)
    requires a >= 1
    ensures a * n >= n
  {
    assert a * n == (a - 1) * n + n;
  }

  /** A non-continuous slideshow from `c` walks one file at a time and leaves the
      list after its last file: the counter then equals `n`, the guard `counter <
      len(files)` fails, and the slideshow stops. */
  lemma {:induction false} PlainSlidesStop(c: int, n: nat, k: nat)
    requires 0 <= c < n && k <= n - c
    ensures Slides(c, n, false, k) == c + k
    ensures k == n - c ==> Slides(c, n, false, k) == n
  {
    if k > 0 {
      PlainSlidesStop(c, n, k - 1);
    }
  }

  /** The outcome of `if counter < len(files): current_file = files[counter]`. */
  datatype Pick = Unchanged | Chosen(file: string) | IndexError

  /** `files[counter]` behind the guard `counter < len(files)`, with Python's
      negative indices. */
  function Select(files: seq<string>, counter: int): (r: Pick)
    ensures r.Unchanged? <==> counter >= |files|
    ensures r.IndexError? <==> counter < -|files|
    ensures r.Chosen? ==> |files| > 0 && r.file == files[counter % |files|]
  {
    if counter < |files| then
      match PyIndex(files, counter)
      case Some(f) => Chosen(f)
      case None => IndexError
    else Unchanged
  }
}
