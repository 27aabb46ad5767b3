/**
 The batch splitter of the upload engine: the rows of one submission are cut
 into contiguous slices of at most BatchSize rows, in order, by a loop whose
 start index runs over range(0, N, BatchSize).
 */
module Batching {

  /** Rows sent in one request (batch_size in the engine). */
  const BatchSize: nat := 10

  function Min(a: int, b: int): int {
    if a <= b then a else b
  }

  /** How many batches a submission of n rows is cut into: ceil(n / BatchSize). */
  function NumBatches(n: nat): nat {
    (n + BatchSize - 1) / BatchSize
  }

  /** The first row of batch b: the engine's loop variable i on iteration b. */
  function Start(b: nat): nat {
    b * BatchSize
  }

  /** The start indices produced by range(i, n, BatchSize). */
  function RangeFrom(i: nat, n: nat): seq<nat>
    decreases n - i
  {
    if i >= n then [] else [i] + RangeFrom(i + BatchSize, n)
  }

  /** The loop's start indices over a submission of n rows: range(0, n, BatchSize). */
  function Starts(n: nat): seq<nat> {
    RangeFrom(0, n)
  }

  /** Batch b as the slice rows[i:i+BatchSize] with i = Start(b); the slice end is clamped to |rows|. */
  function Batch<T>(rows: seq<T>, b: nat): (r: seq<T>)
    requires Start(b) < |rows|
    ensures 1 <= |r| <= BatchSize
    ensures Start(b) + |r| == Min(Start(b + 1), |rows|)
    ensures forall j :: 0 <= j < |r| ==> r[j] == rows[Start(b) + j]
  {
    rows[Start(b) .. Min(Start(b) + BatchSize, |rows|)]
  }

  /** The batches from batch b onwards, in loop order. */
  function BatchesFrom<T>(rows: seq<T>, b: nat): seq<seq<T>>
    decreases |rows| - Start(b)
  {
    if Start(b) >= |rows| then [] else [Batch(rows, b)] + BatchesFrom(rows, b + 1)
  }

  /** All batches of a submission, in the order the engine sends them. */
  function Batches<T>(rows: seq<T>): seq<seq<T>> {
    BatchesFrom(rows, 0)
  }

  /** Concatenation of a sequence of batches. */
  function Flatten<T>(parts: seq<seq<T>>): seq<T> {
    if parts == [] then [] else parts[0] + Flatten(parts[1..])
  }

  lemma BeyondLastBatch(n: nat, b: nat)
    ensures Start(b) < n <==> b < NumBatches(n)
  {
  }

  lemma {:induction false} RangeFromShape(b: nat, n: nat)
    ensures |RangeFrom(Start(b), n)| == if Start(b) >= n then 0 else NumBatches(n) - b
    ensures forall k :: 0 <= k < |RangeFrom(Start(b), n)| ==> RangeFrom(Start(b), n)[k] == Start(b + k)
    decreases n - Start(b)
  {
    BeyondLastBatch(n, b);
    if Start(b) < n {
      assert Start(b) + BatchSize == Start(b + 1);
      RangeFromShape(b + 1, n);
      BeyondLastBatch(n, b + 1);
      var s := RangeFrom(Start(b), n);
      assert s == [Start(b)] + RangeFrom(Start(b + 1), n);
      forall k | 0 <= k < |s|
        ensures s[k] == Start(b + k)
      {
        if k > 0 {
          assert s[k] == RangeFrom(Start(b + 1), n)[k - 1];
        }
      }
    }
  }

  /** The loop visits exactly the multiples of BatchSize below n, in increasing order, ceil(n / BatchSize) of them. */
  lemma StartsAreMultiples(n: nat)
    ensures |Starts(n)| == NumBatches(n)
    ensures forall k :: 0 <= k < |Starts(n)| ==> Starts(n)[k] == Start(k)
    ensures forall i: nat :: i in Starts(n) <==> i < n && i % BatchSize == 0
  {
    RangeFromShape(0, n);
    assert Start(0) == 0;
    var s := Starts(n);
    forall i: nat
      ensures i in s <==> i < n && i % BatchSize == 0
    {
      if i in s {
        var k :| 0 <= k < |s| && s[k] == i;
        BeyondLastBatch(n, k);
      }
      if i < n && i % BatchSize == 0 {
        var k := i / BatchSize;
        assert Start(k) == i;
        BeyondLastBatch(n, k);
        assert s[k] == i;
      }
    }
  }

  lemma {:induction false} BatchesFromCount<T>(rows: seq<T>, b: nat)
    ensures |BatchesFrom(rows, b)| == if Start(b) >= |rows| then 0 else NumBatches(|rows|) - b
    decreases |rows| - Start(b)
  {
    BeyondLastBatch(|rows|, b);
    if Start(b) < |rows| {
      BatchesFromCount(rows, b + 1);
      BeyondLastBatch(|rows|, b + 1);
    }
  }

  lemma {:induction false} BatchesFromAt<T>(rows: seq<T>, b: nat, k: nat)
    requires k < |BatchesFrom(rows, b)|
    ensures Start(b + k) < |rows| && BatchesFrom(rows, b)[k] == Batch(rows, b + k)
    decreases k
  {
    assert Start(b) < |rows|;
    if k > 0 {
      BatchesFromAt(rows, b + 1, k - 1);
      assert b + 1 + (k - 1) == b + k;
    }
  }

  lemma {:induction false} BatchesFromFlatten<T>(rows: seq<T>, b: nat)
    ensures Start(b) < |rows| ==> Flatten(BatchesFrom(rows, b)) == rows[Start(b)..]
    ensures Start(b) >= |rows| ==> Flatten(BatchesFrom(rows, b)) == []
    decreases |rows| - Start(b)
  {
    if Start(b) < |rows| {
      BatchesFromFlatten(rows, b + 1);
      var s := BatchesFrom(rows, b);
      var tail := BatchesFrom(rows, b + 1);
      assert s[0] == Batch(rows, b);
      assert s[1..] == tail;
      assert Flatten(s) == Batch(rows, b) + Flatten(tail);
      if Start(b + 1) < |rows| {
        assert rows[Start(b)..] == rows[Start(b) .. Start(b + 1)] + rows[Start(b + 1)..];
      } else {
        assert Batch(rows, b) == rows[Start(b)..];
      }
    }
  }

  /**
   The split covers the input exactly: ceil(N / BatchSize) batches, batch k
   being the contiguous slice starting at row Start(k) with 1 to BatchSize
   rows, and their concatenation in order is the input.
   */
  lemma SplitCoversRows<T>(rows: seq<T>)
    ensures |Batches(rows)| == NumBatches(|rows|) == |Starts(|rows|)|
    ensures forall k :: 0 <= k < |Batches(rows)| ==>
              Start(k) < |rows| && Starts(|rows|)[k] == Start(k) && Batches(rows)[k] == Batch(rows, k)
    ensures forall k :: 0 <= k < |Batches(rows)| ==> 1 <= |Batches(rows)[k]| <= BatchSize
    ensures Flatten(Batches(rows)) == rows
  {
    BatchesFromCount(rows, 0);
    forall k | 0 <= k < |Batches(rows)|
      ensures Start(k) < |rows| && Batches(rows)[k] == Batch(rows, k)
    {
      BatchesFromAt(rows, 0, k);
    }
    BatchesFromFlatten(rows, 0);
    StartsAreMultiples(|rows|);
    assert Start(0) == 0;
    assert rows[0..] == rows;
  }

  lemma {:induction false} FlattenSnoc<T>(parts: seq<seq<T>>, last: seq<T>)
    ensures Flatten(parts + [last]) == Flatten(parts) + last
    decreases |parts|
  {
    if parts == [] {
      assert parts + [last] == [last];
      assert [last][1..] == [];
    } else {
      assert (parts + [last])[0] == parts[0];
      assert (parts + [last])[1..] == parts[1..] + [last];
      FlattenSnoc(parts[1..], last);
      assert parts[0] + (Flatten(parts[1..]) + last) == (parts[0] + Flatten(parts[1..])) + last;
    }
  }

  /**
   The first b batches hold exactly the first min(Start(b), N) rows, in
   order: the rows a run has sent once b batches are committed.
   */
  lemma {:induction false} FirstBatchesArePrefix<T>(rows: seq<T>, b: nat)
    requires b <= NumBatches(|rows|)
    ensures b <= |Batches(rows)|
    ensures Flatten(Batches(rows)[..b]) == rows[..Min(Start(b), |rows|)]
  {
    BatchesFromCount(rows, 0);
    assert Start(0) == 0;
    BeyondLastBatch(|rows|, 0);
    if b == 0 {
      assert Batches(rows)[..0] == [];
    } else {
      var s := Batches(rows);
      FirstBatchesArePrefix(rows, b - 1);
      BatchesFromAt(rows, 0, b - 1);
      assert s[..b] == s[..b - 1] + [s[b - 1]];
      FlattenSnoc(s[..b - 1], s[b - 1]);
      assert Start(b - 1) + BatchSize == Start(b);
      assert rows[..Min(Start(b), |rows|)] == rows[..Start(b - 1)] + Batch(rows, b - 1);
    }
  }
}
