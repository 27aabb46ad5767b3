/**
 The task runner: the engine's loop over the batches of one submission. Each
 batch goes through the retrying uploader; a committed batch raises the
 progress to the share of rows committed so far; a batch that gives up ends
 the task (the uploader already wrote the error); a non-200 response escapes
 to the runner's outer handler, which writes an error status and progress 0.
 When every batch is committed the status becomes Completed.
 */
module Runner {
  import opened Batching
  import opened Progress
  import opened Ledger
  import opened Uploader
  import opened Seqs

  /** What a run did: the requests it sent and the ledger writes it made, in order. */
  datatype Trace<T> = Trace(posts: seq<Post<T>>, writes: seq<Write>)

  /** p was sent before q: an earlier batch, or an earlier attempt of the same batch. */
  predicate Precedes<T>(p: Post<T>, q: Post<T>) {
    p.batch < q.batch || (p.batch == q.batch && p.attempt < q.attempt)
  }

  /** The loop from batch b on. */
  function RunFrom<T>(net: Network, rows: seq<T>, b: nat): Trace<T>
    decreases |rows| - Start(b)
  {
    if Start(b) >= |rows| then
      Trace([], [SetStatus(Completed)])
    else
      var up := Upload(net, rows, b);
      match up.end
      case Committed =>
        var rest := RunFrom(net, rows, b + 1);
        Trace(up.posts + rest.posts, up.writes + [SetProgress(AfterBatch(Start(b), |rows|))] + rest.writes)
      case GaveUp =>
        Trace(up.posts, up.writes)
      case Raised(code) =>
        Trace(up.posts, up.writes + [SetStatus(Error(ApiStatus(code))), SetProgress(0)])
  }

  /** The run from a committed batch b is its requests and writes, then the run from b + 1. */
  lemma CommittedRunFrom<T>(net: Network, rows: seq<T>, b: nat)
    requires Start(b) < |rows| && Upload(net, rows, b).end == Committed
    ensures RunFrom(net, rows, b).posts == Upload(net, rows, b).posts + RunFrom(net, rows, b + 1).posts
    ensures RunFrom(net, rows, b).writes ==
              Upload(net, rows, b).writes + [SetProgress(AfterBatch(Start(b), |rows|))] + RunFrom(net, rows, b + 1).writes
  {
  }

  /** A request of batch b or later, below the attempt budget, carrying exactly that batch's rows. */
  ghost predicate WellSent<T>(rows: seq<T>, b: nat, p: Post<T>) {
    && b <= p.batch
    && Start(p.batch) < |rows|
    && p.attempt < MaxAttempts
    && p.rows == Batch(rows, p.batch)
  }

  /** Every request in ps is well sent for batches b on. */
  ghost predicate AllWellSent<T>(rows: seq<T>, b: nat, ps: seq<Post<T>>) {
    forall j :: 0 <= j < |ps| ==> WellSent(rows, b, ps[j])
  }

  lemma AllWellSentAppend<T>(rows: seq<T>, b: nat, ps: seq<Post<T>>, qs: seq<Post<T>>)
    requires AllWellSent(rows, b, ps) && AllWellSent(rows, b + 1, qs)
    ensures AllWellSent(rows, b, ps + qs)
  {
    forall j | |ps| <= j < |ps + qs|
      ensures WellSent(rows, b, (ps + qs)[j])
    {
      assert (ps + qs)[j] == qs[j - |ps|];
    }
  }

  lemma {:induction false} RunFromWellSent<T>(net: Network, rows: seq<T>, b: nat)
    ensures AllWellSent(rows, b, RunFrom(net, rows, b).posts)
    decreases |rows| - Start(b)
  {
    if Start(b) < |rows| {
      var up := Upload(net, rows, b);
      assert AllWellSent(rows, b, up.posts);
      if up.end == Committed {
        RunFromWellSent(net, rows, b + 1);
        CommittedRunFrom(net, rows, b);
        AllWellSentAppend(rows, b, up.posts, RunFrom(net, rows, b + 1).posts);
      }
    }
  }


  /** Requests in the order they went out: by batch, then by attempt. */
  ghost predicate InOrder<T>(ps: seq<Post<T>>) {
    forall j, k :: 0 <= j < k < |ps| ==> Precedes(ps[j], ps[k])
  }

  lemma InOrderAppend<T>(ps: seq<Post<T>>, qs: seq<Post<T>>)
    requires InOrder(ps) && InOrder(qs)
    requires forall j, k :: 0 <= j < |ps| && 0 <= k < |qs| ==> Precedes(ps[j], qs[k])
    ensures InOrder(ps + qs)
  {
    var m := |ps|;
    forall j, k | 0 <= j < k < |ps + qs|
      ensures Precedes((ps + qs)[j], (ps + qs)[k])
    {
      if k >= m {
        assert (ps + qs)[k] == qs[k - m];
        if j >= m {
          assert (ps + qs)[j] == qs[j - m];
        }
      }
    }
  }

  /** One batch's requests precede those of the run from the next batch on. */
  lemma CommittedPrecedes<T>(net: Network, rows: seq<T>, b: nat)
    requires Start(b) < |rows|
    ensures InOrder(Upload(net, rows, b).posts)
    ensures var ps := Upload(net, rows, b).posts;
            var qs := RunFrom(net, rows, b + 1).posts;
            forall j, k :: 0 <= j < |ps| && 0 <= k < |qs| ==> Precedes(ps[j], qs[k])
  {
    RunFromWellSent(net, rows, b + 1);
  }

  lemma {:induction false} RunFromOrdered<T>(net: Network, rows: seq<T>, b: nat)
    ensures InOrder(RunFrom(net, rows, b).posts)
    decreases |rows| - Start(b)
  {
    if Start(b) < |rows| {
      var up := Upload(net, rows, b);
      CommittedPrecedes(net, rows, b);
      if up.end == Committed {
        RunFromOrdered(net, rows, b + 1);
        CommittedRunFrom(net, rows, b);
        InOrderAppend(up.posts, RunFrom(net, rows, b + 1).posts);
      }
    }
  }

  /**
   Every request the run sends is an attempt below MaxAttempts of one of the
   submission's batches and carries exactly that batch's rows; requests go
   out batch by batch, attempt by attempt, so no batch is sent more than
   MaxAttempts times and no batch is sent again once a later one was.
   */
  lemma RunPosts<T>(net: Network, rows: seq<T>)
    ensures var ps := Run(net, rows).posts;
            && (forall j :: 0 <= j < |ps| ==>
                  Start(ps[j].batch) < |rows| && ps[j].attempt < MaxAttempts && ps[j].rows == Batch(rows, ps[j].batch))
            && (forall j, k :: 0 <= j < k < |ps| ==> Precedes(ps[j], ps[k]))
  {
    RunFromWellSent(net, rows, 0);
    RunFromOrdered(net, rows, 0);
    var ps := Run(net, rows).posts;
    assert forall j :: 0 <= j < |ps| ==> WellSent(rows, 0, ps[j]);
  }

  /** The result of running a task: its final ledger entry, the writes that produced it, and the requests sent. */
  datatype RunResult<T> = RunResult(final: Task, writes: seq<Write>, posts: seq<Post<T>>)

  /** The runner started on the entry a submission of rows created. */
  function Run<T>(net: Network, rows: seq<T>): RunResult<T> {
    var tr := RunFrom(net, rows, 0);
    RunResult(Replay(NewTask(|rows|), tr.writes), tr.writes, tr.posts)
  }

  /** Every batch from b on is committed. */
  ghost predicate AllCommitFrom<T>(net: Network, rows: seq<T>, b: nat) {
    forall k {:trigger Commits(net, k)} :: b <= k && Start(k) < |rows| ==> Commits(net, k)
  }

  /**
   Progress is steady along the writes: after each write it lies in 0..100
   and it is no lower than before, except where an error status resets it to 0.
   */
  ghost predicate Steady(t: Task, ws: seq<Write>)
    decreases |ws|
  {
    ws == [] ||
    var u := Apply(t, ws[0]);
    && 0 <= u.progress <= 100
    && ((u.status.Error? && u.progress == 0) || t.progress <= u.progress)
    && Steady(u, ws[1..])
  }

  lemma {:induction false} SteadyAppend(t: Task, a: seq<Write>, b: seq<Write>)
    requires Steady(t, a) && Steady(Replay(t, a), b)
    ensures Steady(t, a + b)
    decreases |a|
  {
    if a == [] {
      assert a + b == b;
    } else {
      assert (a + b)[0] == a[0];
      assert (a + b)[1..] == a[1..] + b;
      SteadyAppend(Apply(t, a[0]), a[1..], b);
    }
  }

  /** The ledger writes of the retry loop keep progress where it was, or end in an error. */
  lemma {:induction false} AttemptSteady<T>(net: Network, rows: seq<T>, b: nat, a: nat, t: Task)
    requires Start(b) < |rows| && a < MaxAttempts
    requires t.progress == AtRetry(Start(b), |rows|)
    ensures Steady(t, Attempt(net, rows, b, a).writes)
    ensures Attempt(net, rows, b, a).end != GaveUp ==>
              Replay(t, Attempt(net, rows, b, a).writes).progress == t.progress
    decreases MaxAttempts - a
  {
    AtRetryIsShare(b, |rows|);
    var r := Attempt(net, rows, b, a);
    if net(b, a) == TransportError {
      var retry := [SetStatus(Retrying(a + 1, MaxAttempts)), SetProgress(AtRetry(Start(b), |rows|))];
      var u := Replay(t, retry);
      assert Apply(t, retry[0]).progress == t.progress;
      assert retry[1..] == [retry[1]];
      assert Steady(t, retry);
      assert u == Replay(Apply(t, retry[0]), [retry[1]]);
      assert u == Replay(Apply(Apply(t, retry[0]), retry[1]), []);
      if a + 1 == MaxAttempts {
        var fail := [SetStatus(Error(TransportFailure)), SetProgress(0)];
        assert fail[1..] == [fail[1]];
        assert Steady(u, fail);
        SteadyAppend(t, retry, fail);
      } else {
        AttemptSteady(net, rows, b, a + 1, u);
        SteadyAppend(t, retry, Attempt(net, rows, b, a + 1).writes);
        ReplayAppend(t, retry, Attempt(net, rows, b, a + 1).writes);
      }
    }
  }

  /**
   From batch b on, progress is steady, provided it starts at the share of
   the rows in the batches already committed.
   */
  lemma {:induction false} RunFromSteady<T>(net: Network, rows: seq<T>, b: nat, t: Task)
    requires 0 <= t.progress <= 100
    requires Start(b) < |rows| ==> t.progress == Share(b, |rows|)
    ensures Steady(t, RunFrom(net, rows, b).writes)
    decreases |rows| - Start(b)
  {
    var ws := RunFrom(net, rows, b).writes;
    if Start(b) >= |rows| {
      assert ws[1..] == [];
    } else {
      var n := |rows|;
      AtRetryIsShare(b, n);
      var up := Upload(net, rows, b);
      AttemptSteady(net, rows, b, 0, t);
      var u := Replay(t, up.writes);
      match up.end
      case Committed =>
        var p := AfterBatch(Start(b), n);
        AfterBatchIsShare(b, n);
        ShareMonotone(b, b + 1, n);
        var step := [SetProgress(p)];
        assert step[1..] == [];
        assert Steady(u, step);
        SteadyAppend(t, up.writes, step);
        ReplayAppend(t, up.writes, step);
        var v := Replay(t, up.writes + step);
        assert v == Apply(u, SetProgress(p));
        RunFromSteady(net, rows, b + 1, v);
        SteadyAppend(t, up.writes + step, RunFrom(net, rows, b + 1).writes);
      case GaveUp =>
      case Raised(code) =>
        var fail := [SetStatus(Error(ApiStatus(code))), SetProgress(0)];
        assert fail[1..] == [fail[1]];
        assert Steady(u, fail);
        SteadyAppend(t, up.writes, fail);
    }
  }

  /**
   Progress as a poller sees it over a whole run: after every ledger write it
   is within 0..100 and has not decreased, except for the reset to 0 that
   accompanies an error status.
   */
  lemma RunProgressSteady<T>(net: Network, rows: seq<T>)
    ensures Steady(NewTask(|rows|), Run(net, rows).writes)
  {
    if |rows| > 0 {
      ShareBounds(0, |rows|);
    }
    RunFromSteady(net, rows, 0, NewTask(|rows|));
  }

  /** A batch that gives up leaves its entry in error with progress 0. */
  lemma GaveUpEnds<T>(net: Network, rows: seq<T>, b: nat, t: Task)
    requires Start(b) < |rows| && Upload(net, rows, b).end == GaveUp
    ensures Replay(t, Upload(net, rows, b).writes).status == Error(TransportFailure)
    ensures Replay(t, Upload(net, rows, b).writes).progress == 0
  {
    var w := Upload(net, rows, b).writes;
    AttemptGiveUpWrites(net, rows, b, 0);
    assert w == w[..|w| - 2] + [SetStatus(Error(TransportFailure)), SetProgress(0)];
    ReplayEndsWith(t, w[..|w| - 2], Error(TransportFailure), 0);
  }

  lemma AllCommitStep<T>(net: Network, rows: seq<T>, b: nat)
    requires Start(b) < |rows|
    ensures AllCommitFrom(net, rows, b) <==> Commits(net, b) && AllCommitFrom(net, rows, b + 1)
  {
    if Commits(net, b) && AllCommitFrom(net, rows, b + 1) {
      forall k | b <= k && Start(k) < |rows|
        ensures Commits(net, k)
      {
        if k > b {
          assert b + 1 <= k;
        }
      }
    }
  }

  lemma AllCommitBeyond<T>(net: Network, rows: seq<T>, b: nat)
    requires Start(b) >= |rows|
    ensures AllCommitFrom(net, rows, b)
  {
    forall k | b <= k
      ensures Start(k) >= |rows|
    {
      assert Start(k) >= Start(b);
    }
  }

  /** After a committed batch the run continues from the next batch with the new progress recorded. */
  lemma CommittedStep<T>(net: Network, rows: seq<T>, b: nat, t: Task)
    requires Start(b) < |rows| && Upload(net, rows, b).end == Committed
    ensures var v := Replay(t, Upload(net, rows, b).writes + [SetProgress(AfterBatch(Start(b), |rows|))]);
            && v.progress == AfterBatch(Start(b), |rows|)
            && Replay(t, RunFrom(net, rows, b).writes) == Replay(v, RunFrom(net, rows, b + 1).writes)
  {
    var up := Upload(net, rows, b);
    var step := up.writes + [SetProgress(AfterBatch(Start(b), |rows|))];
    var rest := RunFrom(net, rows, b + 1).writes;
    assert RunFrom(net, rows, b).writes == step + rest;
    ReplayAppend(t, step, rest);
    ReplayEndsWith(t, up.writes, Completed, AfterBatch(Start(b), |rows|));
  }

  /**
   How a run from batch b ends, starting from entry t: Completed exactly when
   every remaining batch is committed, with progress 100 if any batch was
   sent; otherwise an error with progress 0.
   */
  ghost predicate EndsWell<T>(net: Network, rows: seq<T>, b: nat, t: Task) {
    var f := Replay(t, RunFrom(net, rows, b).writes);
    && (f.status == Completed <==> AllCommitFrom(net, rows, b))
    && (f.status != Completed ==> f.status.Error? && f.progress == 0)
    && (Start(b) < |rows| && f.status == Completed ==> f.progress == 100)
  }

  lemma EndsBeyond<T>(net: Network, rows: seq<T>, b: nat, t: Task)
    requires Start(b) >= |rows|
    ensures EndsWell(net, rows, b, t)
  {
    assert Replay(t, RunFrom(net, rows, b).writes) == Apply(t, SetStatus(Completed));
    AllCommitBeyond(net, rows, b);
  }

  lemma EndsGaveUp<T>(net: Network, rows: seq<T>, b: nat, t: Task)
    requires Start(b) < |rows| && Upload(net, rows, b).end == GaveUp
    ensures EndsWell(net, rows, b, t)
  {
    UploadEnds(net, rows, b);
    AllCommitStep(net, rows, b);
    GaveUpEnds(net, rows, b, t);
  }

  lemma EndsRaised<T>(net: Network, rows: seq<T>, b: nat, t: Task)
    requires Start(b) < |rows| && Upload(net, rows, b).end.Raised?
    ensures EndsWell(net, rows, b, t)
  {
    var up := Upload(net, rows, b);
    UploadEnds(net, rows, b);
    AllCommitStep(net, rows, b);
    ReplayEndsWith(t, up.writes, Error(ApiStatus(up.end.code)), 0);
  }

  /** A committed batch hands over to the next one, whose run ends as the whole run does. */
  lemma EndsCommitted<T>(net: Network, rows: seq<T>, b: nat, t: Task)
    requires Start(b) < |rows| && Upload(net, rows, b).end == Committed
    requires EndsWell(net, rows, b + 1,
               Replay(t, Upload(net, rows, b).writes + [SetProgress(AfterBatch(Start(b), |rows|))]))
    ensures EndsWell(net, rows, b, t)
  {
    var n := |rows|;
    var v := Replay(t, Upload(net, rows, b).writes + [SetProgress(AfterBatch(Start(b), n))]);
    UploadEnds(net, rows, b);
    AllCommitStep(net, rows, b);
    CommittedStep(net, rows, b, t);
    AfterBatchIsShare(b, n);
    if Start(b + 1) >= n {
      assert RunFrom(net, rows, b + 1).writes == [SetStatus(Completed)];
      assert Replay(v, RunFrom(net, rows, b + 1).writes) == Apply(v, SetStatus(Completed));
    }
  }

  lemma {:induction false} RunFromEnds<T>(net: Network, rows: seq<T>, b: nat, t: Task)
    ensures EndsWell(net, rows, b, t)
    decreases |rows| - Start(b)
  {
    if Start(b) >= |rows| {
      EndsBeyond(net, rows, b, t);
    } else {
      var up := Upload(net, rows, b);
      match up.end
      case Committed =>
        RunFromEnds(net, rows, b + 1, Replay(t, up.writes + [SetProgress(AfterBatch(Start(b), |rows|))]));
        EndsCommitted(net, rows, b, t);
      case GaveUp =>
        EndsGaveUp(net, rows, b, t);
      case Raised(_) =>
        EndsRaised(net, rows, b, t);
    }
  }

  /**
   A run ends in one of the two terminal states: Completed with progress 100
   exactly when every batch is committed (for a non-empty submission), and
   otherwise an error with progress 0; totalemails keeps its value.
   */
  lemma RunEnds<T>(net: Network, rows: seq<T>)
    requires |rows| > 0
    ensures Run(net, rows).final.totalemails == |rows|
    ensures Run(net, rows).final.status.Terminal()
    ensures Run(net, rows).final.status == Completed <==>
              forall k {:trigger Commits(net, k)} :: Start(k) < |rows| ==> Commits(net, k)
    ensures Run(net, rows).final.status == Completed ==> Run(net, rows).final.progress == 100
    ensures Run(net, rows).final.status.Error? ==> Run(net, rows).final.progress == 0
  {
    RunFromEnds(net, rows, 0, NewTask(|rows|));
    assert Start(0) == 0;
  }

  /** The rows carried by each request, in order. */
  function Payloads<T>(ps: seq<Post<T>>): (r: seq<seq<T>>)
    ensures |r| == |ps| && forall j :: 0 <= j < |ps| ==> r[j] == ps[j].rows
  {
    seq(|ps|, j requires 0 <= j < |ps| => ps[j].rows)
  }

  /** Every batch from b on is answered 200 on its first attempt. */
  ghost predicate FirstTryFrom<T>(net: Network, rows: seq<T>, b: nat) {
    forall k {:trigger net(k, 0)} :: b <= k && Start(k) < |rows| ==> net(k, 0) == Response(200)
  }

  lemma {:induction false} FirstTryCount<T>(net: Network, rows: seq<T>, b: nat)
    requires FirstTryFrom(net, rows, b)
    ensures |RunFrom(net, rows, b).posts| == |BatchesFrom(rows, b)|
    decreases |rows| - Start(b)
  {
    if Start(b) < |rows| {
      assert Upload(net, rows, b).posts == [Post(b, 0, Batch(rows, b))];
      FirstTryCount(net, rows, b + 1);
    }
  }

  lemma {:induction false} FirstTryPostAt<T>(net: Network, rows: seq<T>, b: nat, k: nat)
    requires FirstTryFrom(net, rows, b)
    requires k < |RunFrom(net, rows, b).posts|
    ensures Start(b + k) < |rows|
    ensures RunFrom(net, rows, b).posts[k] == Post(b + k, 0, Batch(rows, b + k))
    decreases k
  {
    assert Start(b) < |rows|;
    var up := Upload(net, rows, b);
    assert up.posts == [Post(b, 0, Batch(rows, b))] && up.end == Committed;
    if k > 0 {
      FirstTryPostAt(net, rows, b + 1, k - 1);
      assert b + 1 + (k - 1) == b + k;
    }
  }

  /**
   When every batch's first attempt is answered 200, the task ends Completed
   with progress 100, and exactly one request per batch was sent,
   ceil(N / BatchSize) in all, request k carrying batch k; so the rows sent
   are the submission's rows, each once, in order.
   */
  lemma AllFirstTry<T>(net: Network, rows: seq<T>)
    requires |rows| > 0
    requires forall k {:trigger net(k, 0)} :: Start(k) < |rows| ==> net(k, 0) == Response(200)
    ensures Run(net, rows).final == Task(Completed, 100, |rows|)
    ensures |Run(net, rows).posts| == |Batches(rows)| == NumBatches(|rows|)
    ensures forall k :: 0 <= k < |Run(net, rows).posts| ==>
              Run(net, rows).posts[k] == Post(k, 0, Batches(rows)[k])
    ensures Flatten(Payloads(Run(net, rows).posts)) == rows
  {
    var ps := Run(net, rows).posts;
    assert FirstTryFrom(net, rows, 0);
    FirstTryCount(net, rows, 0);
    SplitCoversRows(rows);
    forall k | 0 <= k < |ps|
      ensures ps[k] == Post(k, 0, Batches(rows)[k])
    {
      FirstTryPostAt(net, rows, 0, k);
    }
    assert Payloads(ps) == Batches(rows);
    forall k | Start(k) < |rows|
      ensures Commits(net, k)
    {
      assert net(k, 0) == Response(200) && AllTransport(net, k, 0);
    }
    RunEnds(net, rows);
  }

  /** The status a task ends in when batch f is the one that is not committed. */
  function FailStatus<T>(net: Network, rows: seq<T>, f: nat): Status
    requires Start(f) < |rows|
  {
    match Upload(net, rows, f).end
    case Raised(code) => Error(ApiStatus(code))
    case _ => Error(TransportFailure)
  }

  /** The batch that is not committed is the run's last: its requests and its error are the end of the trace. */
  lemma FailAt<T>(net: Network, rows: seq<T>, f: nat, t: Task)
    requires Start(f) < |rows| && Upload(net, rows, f).end != Committed
    ensures var tr := RunFrom(net, rows, f);
            && |tr.posts| > 0
            && (forall j :: 0 <= j < |tr.posts| ==> tr.posts[j].batch == f)
            && SetStatus(Completed) !in tr.writes
            && Replay(t, tr.writes) == Task(FailStatus(net, rows, f), 0, t.totalemails)
  {
    var up := Upload(net, rows, f);
    AttemptNeverCompletes(net, rows, f, 0);
    match up.end
    case GaveUp =>
      GaveUpEnds(net, rows, f, t);
    case Raised(code) =>
      ReplayEndsWith(t, up.writes, Error(ApiStatus(code)), 0);
  }

  /** Batches b up to, not including, f are all committed, and batch f is not. */
  ghost predicate FailsAt<T>(net: Network, rows: seq<T>, b: nat, f: nat) {
    && b <= f && Start(f) < |rows|
    && (forall k :: b <= k < f ==> Upload(net, rows, k).end == Committed)
    && Upload(net, rows, f).end != Committed
  }

  /** Peeling off batch b, which is committed, leaves a run that fails at the same batch. */
  lemma FailsAtNext<T>(net: Network, rows: seq<T>, b: nat, f: nat)
    requires FailsAt(net, rows, b, f) && b < f
    ensures FailsAt(net, rows, b + 1, f)
    ensures Start(b) < |rows| && Upload(net, rows, b).end == Committed
  {
  }

  /**
   What the loop does for batches b up to, not including, f when each of them
   is committed: their requests, and per batch its retry writes followed by
   the progress after it.
   */
  ghost function Committing<T>(net: Network, rows: seq<T>, b: nat, f: nat): Trace<T>
    requires Start(f) < |rows|
    decreases f - b
  {
    if b >= f then Trace([], [])
    else
      assert Start(b) <= Start(f);
      var up := Upload(net, rows, b);
      var rest := Committing(net, rows, b + 1, f);
      Trace(up.posts + rest.posts, up.writes + [SetProgress(AfterBatch(Start(b), |rows|))] + rest.writes)
  }

  /** The run from b is the trace of batches b up to f followed by the run from f. */
  ghost predicate SplitsAt<T>(net: Network, rows: seq<T>, b: nat, f: nat)
    requires Start(f) < |rows|
  {
    && RunFrom(net, rows, b).posts == Committing(net, rows, b, f).posts + RunFrom(net, rows, f).posts
    && RunFrom(net, rows, b).writes == Committing(net, rows, b, f).writes + RunFrom(net, rows, f).writes
  }

  /** One committed batch extends the split of the run from the next batch. */
  lemma SplitsStep<T>(net: Network, rows: seq<T>, b: nat, f: nat)
    requires FailsAt(net, rows, b, f) && b < f && SplitsAt(net, rows, b + 1, f)
    ensures SplitsAt(net, rows, b, f)
  {
    FailsAtNext(net, rows, b, f);
    CommittedRunFrom(net, rows, b);
    var up := Upload(net, rows, b);
    var c := Committing(net, rows, b + 1, f);
    var r := RunFrom(net, rows, f);
    AppendAssoc(up.posts, c.posts, r.posts);
    AppendAssoc(up.writes + [SetProgress(AfterBatch(Start(b), |rows|))], c.writes, r.writes);
  }

  /** When batches b up to f are committed, the run from b is their trace followed by the run from f. */
  lemma {:induction false} RunFromSplits<T>(net: Network, rows: seq<T>, b: nat, f: nat)
    requires FailsAt(net, rows, b, f)
    ensures SplitsAt(net, rows, b, f)
    decreases f - b
  {
    if b < f {
      FailsAtNext(net, rows, b, f);
      RunFromSplits(net, rows, b + 1, f);
      SplitsStep(net, rows, b, f);
    } else {
      AppendEmpty(RunFrom(net, rows, f).posts);
      AppendEmpty(RunFrom(net, rows, f).writes);
    }
  }

  /** No request in ps belongs to a batch after f. */
  ghost predicate SentUpTo<T>(ps: seq<Post<T>>, f: nat) {
    forall j :: 0 <= j < |ps| ==> ps[j].batch <= f
  }

  lemma SentUpToConcat<T>(ps: seq<Post<T>>, qs: seq<Post<T>>, f: nat)
    requires SentUpTo(ps, f) && SentUpTo(qs, f)
    ensures SentUpTo(ps + qs, f)
  {
    forall j | |ps| <= j < |ps + qs|
      ensures (ps + qs)[j].batch <= f
    {
      assert (ps + qs)[j] == qs[j - |ps|];
    }
  }

  /** The committed prefix before batch f sends no request of a batch after f. */
  lemma {:induction false} CommittingSent<T>(net: Network, rows: seq<T>, b: nat, f: nat)
    requires Start(f) < |rows|
    ensures SentUpTo(Committing(net, rows, b, f).posts, f)
    decreases f - b
  {
    if b < f {
      assert Start(b) <= Start(f);
      CommittingSent(net, rows, b + 1, f);
      var up := Upload(net, rows, b).posts;
      assert SentUpTo(up, f);
      SentUpToConcat(up, Committing(net, rows, b + 1, f).posts, f);
    }
  }

  /** The committed prefix never writes Completed. */
  lemma {:induction false} CommittingNeverCompletes<T>(net: Network, rows: seq<T>, b: nat, f: nat)
    requires Start(f) < |rows|
    ensures SetStatus(Completed) !in Committing(net, rows, b, f).writes
    decreases f - b
  {
    if b < f {
      assert Start(b) <= Start(f);
      var up := Upload(net, rows, b).writes;
      var p := AfterBatch(Start(b), |rows|);
      AttemptNeverCompletes(net, rows, b, 0);
      NotInAppend(SetStatus(Completed), up, [SetProgress(p)]);
      CommittingNeverCompletes(net, rows, b + 1, f);
      NotInAppend(SetStatus(Completed), up + [SetProgress(p)], Committing(net, rows, b + 1, f).writes);
    }
  }

  /**
   Fail-fast: when batch f is the first batch that is not committed (its
   retry budget is exhausted by transport exceptions, or it meets a non-200
   response), the task ends in error with progress 0, the last request sent
   belongs to batch f, no later batch is ever sent, and Completed is never
   written.
   */
  lemma FailFast<T>(net: Network, rows: seq<T>, f: nat)
    requires Start(f) < |rows|
    requires forall k :: 0 <= k < f ==> Commits(net, k)
    requires !Commits(net, f)
    ensures Run(net, rows).final == Task(FailStatus(net, rows, f), 0, |rows|)
    ensures FailStatus(net, rows, f).Error?
    ensures var ps := Run(net, rows).posts;
            && |ps| > 0 && ps[|ps| - 1].batch == f
            && forall j :: 0 <= j < |ps| ==> ps[j].batch <= f
    ensures SetStatus(Completed) !in Run(net, rows).writes
  {
    forall k | 0 <= k < f
      ensures Start(k) < |rows| && Upload(net, rows, k).end == Committed
    {
      assert Start(k) <= Start(f);
      UploadEnds(net, rows, k);
    }
    UploadEnds(net, rows, f);
    var c := Committing(net, rows, 0, f);
    var t := NewTask(|rows|);
    RunFromSplits(net, rows, 0, f);
    CommittingSent(net, rows, 0, f);
    CommittingNeverCompletes(net, rows, 0, f);
    FailAt(net, rows, f, Replay(t, c.writes));
    ReplayAppend(t, c.writes, RunFrom(net, rows, f).writes);
    SentUpToConcat(c.posts, RunFrom(net, rows, f).posts, f);
    NotInAppend(SetStatus(Completed), c.writes, RunFrom(net, rows, f).writes);
  }
}
