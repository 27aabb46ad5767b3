/**
 The retry loop written the way the engine writes it: a while-loop over the
 attempt counter, a break on a 200 response, an early return when the retry
 budget is exhausted, and a non-200 response leaving the loop as an
 exception. It sends the same requests and makes the same ledger writes as
 the recursive definition in module Uploader.
 */
module UploadLoop {
  import opened Batching
  import opened Progress
  import opened Ledger
  import opened Uploader
  import opened Seqs

  /** The retry loop of batch b as a while-loop over the attempt counter. */
  method UploadLoop<T>(net: Network, rows: seq<T>, b: nat) returns (r: BatchRun<T>)
    requires Start(b) < |rows|
    ensures r == Upload(net, rows, b)
  {
    var n := |rows|;
    var i := Start(b);
    var batch := Batch(rows, b);
    var posts: seq<Post<T>> := [];
    var writes: seq<Write> := [];
    var attempt := 0;
    while attempt < MaxAttempts
      invariant attempt < MaxAttempts
      invariant
        var rest := Attempt(net, rows, b, attempt);
        Upload(net, rows, b) == BatchRun(posts + rest.posts, writes + rest.writes, rest.end)
      decreases MaxAttempts - attempt
    {
      ghost var rest := Attempt(net, rows, b, attempt);
      ghost var sent := posts;
      ghost var written := writes;
      posts := posts + [Post(b, attempt, batch)];
      match net(b, attempt)
      case Response(code) =>
        if code == 200 {
          assert rest == BatchRun([Post(b, attempt, batch)], [], Committed);
          return BatchRun(posts, writes, Committed);
        } else {
          // a plain exception: the retry loop does not catch it
          assert rest == BatchRun([Post(b, attempt, batch)], [], Raised(code));
          return BatchRun(posts, writes, Raised(code));
        }
      case TransportError =>
        attempt := attempt + 1;
        var retry := [SetStatus(Retrying(attempt, MaxAttempts)), SetProgress(AtRetry(i, n))];
        writes := writes + retry;
        if attempt == MaxAttempts {
          var fail := [SetStatus(Error(TransportFailure)), SetProgress(0)];
          writes := writes + fail;
          assert rest.writes == retry + fail;
          AppendAssoc(written, retry, fail);
          return BatchRun(posts, writes, GaveUp);
        }
        ghost var next := Attempt(net, rows, b, attempt);
        assert rest == BatchRun([Post(b, attempt - 1, batch)] + next.posts, retry + next.writes, next.end);
        AppendAssoc(sent, [Post(b, attempt - 1, batch)], next.posts);
        AppendAssoc(written, retry, next.writes);
    }
  }
}
