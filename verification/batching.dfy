/**
 * Python slicing and the fixed-size batches that a cursor walking over a buffer
 * in steps of `b` hands out (AicInputCsv.get_next_batch).
 */
module Batching {

  function Min(a: int, b: int): int {
    if a <= b then a else b
  }

  /** Python's `s[i:j]` for non-negative bounds: out-of-range bounds are clamped. */
  function Slice<T>(s: seq<T>, i: nat, j: nat): (r: seq<T>)
    ensures |r| == if i < j && i < |s| then Min(j, |s|) - i else 0
    ensures forall k :: 0 <= k < |r| ==> r[k] == s[i + k]
  {
    if i < j && i < |s| then s[i..Min(j, |s|)] else []
  }

  /** The concatenation of a sequence of batches. */
  function Flatten<T>(ss: seq<seq<T>>): seq<T> {
    if ss == [] then [] else ss[0] + Flatten(ss[1..])
  }

  /** Where a cursor that starts at 0 and moves by `b` on every call stands after k calls. */
  function Cursor(k: nat, b: nat): nat {
    if k == 0 then 0 else Cursor(k - 1, b) + b
  }

  /** That is, k * b. */
  lemma {:induction false} CursorIsProduct(k: nat, b: nat)
    ensures Cursor(k, b) == k * b
  {
    if k > 0 {
      CursorIsProduct(k - 1, b);
      assert (k - 1) * b + b == k * b;
    }
  }

  /** ceil(n / b): the fewest steps of `b` that cover `n`. */
  function CeilDiv(n: nat, b: nat): (c: nat)
    requires b >= 1
    ensures Cursor(c, b) >= n
    ensures c > 0 ==> Cursor(c - 1, b) < n
    ensures n == 0 <==> c == 0
  {
    if n == 0 then 0 else if n <= b then 1 else 1 + CeilDiv(n - b, b)
  }

  /** The buffer cut into consecutive batches of `b` rows, the last one possibly shorter. */
  function Batches<T>(s: seq<T>, b: nat): (r: seq<seq<T>>)
    requires b >= 1
    decreases |s|
  {
    if |s| == 0 then [] else if |s| <= b then [s] else [s[..b]] + Batches(s[b..], b)
  }

  /**
   * The batches partition the buffer: there are ceil(n/b) of them, none is empty,
   * none is longer than `b`, and together, in order, they are the buffer.
   */
  lemma {:induction false} BatchesPartition<T>(s: seq<T>, b: nat)
    requires b >= 1
    ensures |Batches(s, b)| == CeilDiv(|s|, b)
    ensures Flatten(Batches(s, b)) == s
    ensures forall k :: 0 <= k < |Batches(s, b)| ==> 0 < |Batches(s, b)[k]| <= b
    decreases |s|
  {
    if |s| == 0 {
    } else if |s| <= b {
      assert Flatten([s]) == s + Flatten([]);
    } else {
      var rest := Batches(s[b..], b);
      BatchesPartition(s[b..], b);
      var all := [s[..b]] + rest;
      assert Batches(s, b) == all;
      assert all[1..] == rest;
      assert Flatten(all) == s[..b] + Flatten(rest);
      assert s == s[..b] + s[b..];
      forall k | 0 <= k < |all|
        ensures 0 < |all[k]| <= b
      {
        if k > 0 {
          assert all[k] == rest[k - 1];
        }
      }
    }
  }

  lemma {:induction false} FlattenSnoc<T>(ss: seq<seq<T>>, last: seq<T>)
    ensures Flatten(ss + [last]) == Flatten(ss) + last
  {
    if ss != [] {
      assert (ss + [last])[1..] == ss[1..] + [last];
      FlattenSnoc(ss[1..], last);
    }
  }

  /** Every element of every batch comes from the buffer. */
  lemma {:induction false} BatchesFromBuffer<T>(s: seq<T>, b: nat)
    requires b >= 1
    ensures forall k, x :: 0 <= k < |Batches(s, b)| && x in Batches(s, b)[k] ==> x in s
    decreases |s|
  {
    if |s| > b {
      BatchesFromBuffer(s[b..], b);
      var rest := Batches(s[b..], b);
      assert Batches(s, b) == [s[..b]] + rest;
      forall k, x | 0 <= k < |Batches(s, b)| && x in Batches(s, b)[k]
        ensures x in s
      {
        if k == 0 {
          assert x in s[..b];
        } else {
          assert Batches(s, b)[k] == rest[k - 1];
          assert x in s[b..];
        }
      }
    }
  }

  /** Dropping `b` elements shifts every slice by `b`. */
  lemma SliceShift<T>(s: seq<T>, b: nat, i: nat, j: nat)
    requires b <= |s|
    ensures Slice(s[b..], i, j) == Slice(s, i + b, j + b)
  {
  }

  /** Once k reaches ceil(n/b), the cursor is at or past the end of the buffer. */
  lemma {:induction false} CursorPastEnd(n: nat, b: nat, k: nat)
    requires b >= 1 && k >= CeilDiv(n, b)
    ensures Cursor(k, b) >= n
  {
    if k > CeilDiv(n, b) {
      CursorPastEnd(n, b, k - 1);
    }
  }

  /** Batch k starts where the cursor stands after k calls and holds the next b rows, or fewer at the end. */
  lemma {:induction false} BatchAt<T>(s: seq<T>, b: nat, k: nat)
    requires b >= 1 && k < |Batches(s, b)|
    ensures Batches(s, b)[k] == Slice(s, Cursor(k, b), Cursor(k, b) + b)
    decreases |s|
  {
    if |s| <= b {
      assert Batches(s, b) == [s];
      assert Slice(s, 0, b) == s[0..|s|];
    } else if k == 0 {
      assert Batches(s, b)[0] == s[..b];
      assert Slice(s, 0, b) == s[0..b];
    } else {
      var c := Cursor(k - 1, b);
      assert Cursor(k, b) == c + b;
      var rest := Batches(s[b..], b);
      assert Batches(s, b) == [s[..b]] + rest;
      BatchAt(s[b..], b, k - 1);
      assert rest[k - 1] == Slice(s[b..], c, c + b);
      SliceShift(s, b, c, c + b);
      assert Batches(s, b)[k] == rest[k - 1];
    }
  }

  /** The number of batches is the number of iterations the loop runs. */
  lemma BatchCount<T>(s: seq<T>, b: nat)
    requires b >= 1
    ensures |Batches(s, b)| == CeilDiv(|s|, b)
  {
    BatchesPartition(s, b);
  }

  /**
   * The cursor after k whole batches reads `s[c : c+b]` with c = k*b: that is
   * batch k, which is never empty, while batches remain, and the empty sequence
   * afterwards.
   */
  lemma CursorBatch<T>(s: seq<T>, b: nat, k: nat)
    requires b >= 1
    ensures Slice(s, Cursor(k, b), Cursor(k, b) + b) == if k < |Batches(s, b)| then Batches(s, b)[k] else []
    ensures k < |Batches(s, b)| ==> Batches(s, b)[k] != []
  {
    BatchesPartition(s, b);
    if k < |Batches(s, b)| {
      BatchAt(s, b, k);
    } else {
      CursorPastEnd(|s|, b, k);
    }
  }
}
