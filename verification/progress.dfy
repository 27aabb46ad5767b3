/**
 Progress accounting of the upload engine. The engine computes percentages
 with Python floats, int(x / n * 100); this model idealises them as the
 exact integer floor x * 100 / n (all operands are non-negative, so
 truncation and floor agree). A float rounding such as 290 / 1000 * 100
 landing just below 29, so that the engine stores 28, is not modelled.
 */
module Progress {
  import opened Batching

  /** The integer percentage done * 100 / n. */
  function Percent(done: nat, n: nat): nat
    requires n > 0
  {
    done * 100 / n
  }

  /** Progress written once the batch starting at row i is committed: min(int((i + BatchSize) / n * 100), 100). */
  function AfterBatch(i: nat, n: nat): (p: nat)
    requires n > 0
    ensures p <= 100
  {
    Min(Percent(i + BatchSize, n), 100)
  }

  /** Progress written on every retry of the batch starting at row i: int(i / n * 100). */
  function AtRetry(i: nat, n: nat): nat
    requires n > 0
  {
    Percent(i, n)
  }

  /**
   Reference definition: the share, in percent, of the n rows that lie in the
   first b batches, i.e. the rows the remote table has confirmed once those
   batches are committed.
   */
  function Share(b: nat, n: nat): nat
    requires n > 0
  {
    Percent(Min(Start(b), n), n)
  }

  lemma MulCancel(a: int, b: int, n: nat)
    requires n > 0 && n * a < n * b
    ensures a < b
  {
  }

  lemma DivMonotone(x: nat, y: nat, n: nat)
    requires n > 0 && x <= y
    ensures x / n <= y / n
  {
    assert n * (x / n) <= x;
    assert y < n * (y / n + 1);
    MulCancel(x / n, y / n + 1, n);
  }

  lemma DivBelow(x: nat, n: nat, c: nat)
    requires n > 0 && x < n * c
    ensures x / n < c
  {
    assert n * (x / n) <= x;
    MulCancel(x / n, c, n);
  }

  lemma DivSelf(n: nat)
    requires n > 0
    ensures n * 100 / n == 100
  {
  }

  /**
   Share is the percentage of the rows that the first b batches carry, as the
   splitter cuts them: the rows the remote table holds once those batches are
   committed.
   */
  lemma ShareIsCommittedRows<T>(rows: seq<T>, b: nat)
    requires |rows| > 0 && b <= NumBatches(|rows|)
    ensures b <= |Batches(rows)|
    ensures Share(b, |rows|) == Percent(|Flatten(Batches(rows)[..b])|, |rows|)
  {
    FirstBatchesArePrefix(rows, b);
  }

  /** Share grows with the number of committed batches, starts at 0 and never exceeds 100. */
  lemma ShareBounds(b: nat, n: nat)
    requires n > 0
    ensures Share(0, n) == 0
    ensures Share(b, n) <= 100
    ensures Share(b, n) == 100 <==> Start(b) >= n
  {
    var m := Min(Start(b), n);
    DivSelf(n);
    if m < n {
      DivBelow(m * 100, n, 100);
    }
  }

  lemma ShareMonotone(b1: nat, b2: nat, n: nat)
    requires n > 0 && b1 <= b2
    ensures Share(b1, n) <= Share(b2, n)
  {
    DivMonotone(Min(Start(b1), n) * 100, Min(Start(b2), n) * 100, n);
  }

  /**
   The progress written after committing batch b is the share of rows in
   batches 0..b: never above 100 and 100 exactly when b is the last batch.
   */
  lemma AfterBatchIsShare(b: nat, n: nat)
    requires n > 0
    ensures AfterBatch(Start(b), n) == Share(b + 1, n)
    ensures AfterBatch(Start(b), n) == 100 <==> Start(b + 1) >= n
  {
    var x := Start(b) + BatchSize;
    assert x == Start(b + 1);
    ShareBounds(b + 1, n);
    DivSelf(n);
    if x >= n {
      DivMonotone(n * 100, x * 100, n);
    } else {
      DivBelow(x * 100, n, 100);
    }
  }

  /**
   A retry of batch b rewrites exactly the progress already recorded before
   the batch (0 for the first batch), so retrying never lowers progress.
   */
  lemma AtRetryIsShare(b: nat, n: nat)
    requires n > 0 && Start(b) < n
    ensures AtRetry(Start(b), n) == Share(b, n) < 100
    ensures b == 0 ==> AtRetry(Start(b), n) == 0
    ensures b > 0 ==> AtRetry(Start(b), n) == AfterBatch(Start(b - 1), n)
  {
    ShareBounds(b, n);
    if b > 0 {
      AfterBatchIsShare(b - 1, n);
    }
  }

  /** Progress after committing a later batch is never lower than after an earlier one. */
  lemma AfterBatchMonotone(b1: nat, b2: nat, n: nat)
    requires n > 0 && b1 <= b2
    ensures AfterBatch(Start(b1), n) <= AfterBatch(Start(b2), n)
  {
    AfterBatchIsShare(b1, n);
    AfterBatchIsShare(b2, n);
    ShareMonotone(b1 + 1, b2 + 1, n);
  }
}
