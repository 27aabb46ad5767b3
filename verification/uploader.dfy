/**
 The retrying uploader: one batch is posted up to MaxAttempts times. A 200
 response commits it; a transport exception (RequestException) is retried,
 and each retry writes a "Retrying" status and the progress recorded so far;
 the third transport exception writes an error status, resets progress to 0
 and gives up. Any other status code raises a plain exception that the
 retry loop does not catch, so it is never retried.

 The network is an oracle: Network(b, a) is what attempt a (counted from 0)
 of batch b meets. Sleeps between attempts have no effect on the ledger and
 are not modelled.
 */
module Uploader {
  import opened Batching
  import opened Progress
  import opened Ledger

  /** What one requests.post meets: a response with its status code, or a transport exception. */
  datatype Outcome = Response(code: int) | TransportError

  type Network = (nat, nat) -> Outcome

  /** Attempts per batch (retries in the engine). */
  const MaxAttempts: nat := 3

  /** One request sent: attempt `attempt` of batch `batch`, carrying `rows`. */
  datatype Post<T> = Post(batch: nat, attempt: nat, rows: seq<T>)

  /** How a batch's retry loop ends. */
  datatype BatchEnd =
    | Committed        // a 200 response
    | GaveUp           // the last allowed attempt met a transport exception
    | Raised(code: int) // a non-200 response escaped the retry loop

  /** The requests a batch's retry loop sent, the ledger writes it made, and how it ended. */
  datatype BatchRun<T> = BatchRun(posts: seq<Post<T>>, writes: seq<Write>, end: BatchEnd)
  {
    /** The number of transport exceptions met: every request but an answered last one. */
    function Retries(): int {
      if end == GaveUp then |posts| else |posts| - 1
    }
  }

  /**
   The retry loop of batch b from attempt a on. Every request carries the
   batch's rows; attempts are numbered consecutively; every request but the
   last met a transport exception, and the last one's outcome decides the
   end. The writes are, per transport exception k, the status Retrying(k, 3)
   and the progress of the batch's start row, followed on giving up by an
   error status and progress 0.
   */
  function Attempt<T>(net: Network, rows: seq<T>, b: nat, a: nat): (r: BatchRun<T>)
    requires Start(b) < |rows| && a < MaxAttempts
    ensures 1 <= |r.posts| <= MaxAttempts - a
    ensures forall j :: 0 <= j < |r.posts| ==> r.posts[j] == Post(b, a + j, Batch(rows, b))
    ensures forall j :: a <= j < a + |r.posts| - 1 ==> net(b, j) == TransportError
    ensures r.end == Committed ==> net(b, a + |r.posts| - 1) == Response(200)
    ensures r.end.Raised? ==> r.end.code != 200 && net(b, a + |r.posts| - 1) == Response(r.end.code)
    ensures r.end == GaveUp ==> a + |r.posts| == MaxAttempts && net(b, MaxAttempts - 1) == TransportError
    decreases MaxAttempts - a
  {
    var post := Post(b, a, Batch(rows, b));
    match net(b, a)
    case Response(code) =>
      if code == 200 then BatchRun([post], [], Committed) else BatchRun([post], [], Raised(code))
    case TransportError =>
      var k := a + 1;
      var retry := [SetStatus(Retrying(k, MaxAttempts)), SetProgress(AtRetry(Start(b), |rows|))];
      if k == MaxAttempts then
        BatchRun([post], retry + [SetStatus(Error(TransportFailure)), SetProgress(0)], GaveUp)
      else
        var rest := Attempt(net, rows, b, k);
        BatchRun([post] + rest.posts, retry + rest.writes, rest.end)
  }

  /** The write of position j among the retry writes of batch b from attempt a on. */
  function RetryWrite(b: nat, n: nat, a: nat, j: nat): Write
    requires Start(b) < n
  {
    if j % 2 == 0 then SetStatus(Retrying(a + j / 2 + 1, MaxAttempts)) else SetProgress(AtRetry(Start(b), n))
  }

  lemma {:induction false} AttemptWritesLength<T>(net: Network, rows: seq<T>, b: nat, a: nat)
    requires Start(b) < |rows| && a < MaxAttempts
    ensures var r := Attempt(net, rows, b, a);
            |r.writes| == 2 * r.Retries() + (if r.end == GaveUp then 2 else 0)
    decreases MaxAttempts - a
  {
    if net(b, a) == TransportError && a + 1 < MaxAttempts {
      AttemptWritesLength(net, rows, b, a + 1);
    }
  }

  lemma {:induction false} AttemptWriteAt<T>(net: Network, rows: seq<T>, b: nat, a: nat, j: nat)
    requires Start(b) < |rows| && a < MaxAttempts
    requires j < 2 * Attempt(net, rows, b, a).Retries()
    ensures j < |Attempt(net, rows, b, a).writes|
    ensures Attempt(net, rows, b, a).writes[j] == RetryWrite(b, |rows|, a, j)
    decreases MaxAttempts - a
  {
    AttemptWritesLength(net, rows, b, a);
    var r := Attempt(net, rows, b, a);
    if j >= 2 {
      var rest := Attempt(net, rows, b, a + 1);
      AttemptWriteAt(net, rows, b, a + 1, j - 2);
      assert r.writes[j] == rest.writes[j - 2];
      assert (j - 2) / 2 + 1 == j / 2;
    }
  }

  lemma {:induction false} AttemptGiveUpWrites<T>(net: Network, rows: seq<T>, b: nat, a: nat)
    requires Start(b) < |rows| && a < MaxAttempts
    requires Attempt(net, rows, b, a).end == GaveUp
    ensures var w := Attempt(net, rows, b, a).writes;
            |w| >= 2 && w[|w| - 2..] == [SetStatus(Error(TransportFailure)), SetProgress(0)]
    decreases MaxAttempts - a
  {
    if a + 1 < MaxAttempts {
      AttemptGiveUpWrites(net, rows, b, a + 1);
      var w := Attempt(net, rows, b, a).writes;
      var v := Attempt(net, rows, b, a + 1).writes;
      assert w[|w| - 2..] == v[|v| - 2..];
    }
  }

  /**
   The ledger writes of the retry loop: per transport exception k, the status
   Retrying(k, 3) followed by the progress of the batch's start row; on giving
   up these are followed by an error status and progress 0.
   */
  lemma AttemptWrites<T>(net: Network, rows: seq<T>, b: nat)
    requires Start(b) < |rows|
    ensures var r := Attempt(net, rows, b, 0);
            && |r.writes| == 2 * r.Retries() + (if r.end == GaveUp then 2 else 0)
            && (forall j :: 0 <= j < 2 * r.Retries() ==>
                  r.writes[j] == if j % 2 == 0 then SetStatus(Retrying(j / 2 + 1, MaxAttempts))
                                 else SetProgress(AtRetry(Start(b), |rows|)))
            && (r.end == GaveUp ==>
                  r.writes[|r.writes| - 2..] == [SetStatus(Error(TransportFailure)), SetProgress(0)])
  {
    var r := Attempt(net, rows, b, 0);
    AttemptWritesLength(net, rows, b, 0);
    forall j | 0 <= j < 2 * r.Retries()
      ensures r.writes[j] == if j % 2 == 0 then SetStatus(Retrying(j / 2 + 1, MaxAttempts))
                             else SetProgress(AtRetry(Start(b), |rows|))
    {
      AttemptWriteAt(net, rows, b, 0, j);
    }
    if r.end == GaveUp {
      AttemptGiveUpWrites(net, rows, b, 0);
    }
  }

  /** The batch's retry loop as the engine runs it, from the first attempt. */
  function Upload<T>(net: Network, rows: seq<T>, b: nat): BatchRun<T>
    requires Start(b) < |rows|
  {
    Attempt(net, rows, b, 0)
  }

  /**
   Reference definition of a batch that gets committed: some attempt within
   the budget meets a 200 response and every earlier attempt met a transport
   exception.
   */
  ghost predicate Commits(net: Network, b: nat) {
    exists a :: 0 <= a < MaxAttempts && net(b, a) == Response(200) && AllTransport(net, b, a)
  }

  ghost predicate AllTransport(net: Network, b: nat, upTo: nat) {
    forall j :: 0 <= j < upTo ==> net(b, j) == TransportError
  }

  /**
   A batch is committed exactly when Commits holds; it is given up exactly
   when all MaxAttempts attempts meet transport exceptions; otherwise a
   non-200 response ended it.
   */
  lemma UploadEnds<T>(net: Network, rows: seq<T>, b: nat)
    requires Start(b) < |rows|
    ensures Upload(net, rows, b).end == Committed <==> Commits(net, b)
    ensures Upload(net, rows, b).end == GaveUp <==> AllTransport(net, b, MaxAttempts)
    ensures |Upload(net, rows, b).posts| <= MaxAttempts
  {
    var r := Upload(net, rows, b);
    var last: nat := |r.posts| - 1;
    if r.end == Committed {
      assert net(b, last) == Response(200) && AllTransport(net, b, last);
    } else {
      forall a | 0 <= a < MaxAttempts
        ensures !(net(b, a) == Response(200) && AllTransport(net, b, a))
      {
        if a < last || r.end == GaveUp {
          assert net(b, a) == TransportError;
        } else if a > last {
          assert net(b, last) != TransportError;
        }
      }
    }
    if r.end == GaveUp {
      assert AllTransport(net, b, MaxAttempts);
    } else {
      assert net(b, last) != TransportError;
    }
  }

  /** The retry loop never writes Completed. */
  lemma {:induction false} AttemptNeverCompletes<T>(net: Network, rows: seq<T>, b: nat, a: nat)
    requires Start(b) < |rows| && a < MaxAttempts
    ensures SetStatus(Completed) !in Attempt(net, rows, b, a).writes
    decreases MaxAttempts - a
  {
    if net(b, a) == TransportError && a + 1 < MaxAttempts {
      AttemptNeverCompletes(net, rows, b, a + 1);
    }
  }

  /**
   A non-200 response is not retried: when attempt a of a batch meets one
   after a transport exceptions, the batch ends Raised with that code and
   attempt a is the last request sent for it.
   */
  lemma BadStatusNotRetried<T>(net: Network, rows: seq<T>, b: nat, a: nat)
    requires Start(b) < |rows| && a < MaxAttempts
    requires AllTransport(net, b, a) && net(b, a).Response? && net(b, a).code != 200
    ensures Upload(net, rows, b).end == Raised(net(b, a).code)
    ensures |Upload(net, rows, b).posts| == a + 1
  {
    var r := Upload(net, rows, b);
    var last: nat := |r.posts| - 1;
    assert last < a ==> net(b, last) == TransportError;
    assert a < last ==> net(b, a) == TransportError;
    assert last == a;
  }
}
