/**
 The two endpoints around the engine, reduced to their effect on the ledger:
 a submission creates an entry and starts a runner on it; the runner's
 writes go to that entry alone; polling reads entries and changes nothing.
 */
module Service {
  import opened Batching
  import opened Ledger
  import opened Uploader
  import opened Runner

  /** The ledger once the runner of task id has run to its end on rows. */
  function RunTask<T>(tasks: Tasks, id: string, net: Network, rows: seq<T>): Tasks
    requires id in tasks
  {
    Commit(tasks, id, Run(net, rows).writes)
  }

  /**
   Submission followed by the run of its task. Right after submission a poll
   of the new id answers in progress, progress 0, and the row count; after
   the run it answers exactly the runner's final entry, which is terminal,
   has progress within 0..100 and keeps the row count; every other id
   answers as it did before the submission.
   */
  lemma SubmitRunPoll<T>(tasks: Tasks, id: string, req: Submission<T>, net: Network)
    requires Submit(tasks, id, req).0.Started?
    ensures req.bulkRows.Some? && |req.bulkRows.value| > 0
    ensures var rows := req.bulkRows.value;
            var created := Submit(tasks, id, req).1;
            var f := Run(net, rows).final;
            && id in created
            && Poll(created, id) == Found(0, InProgress, |rows|)
            && Poll(RunTask(created, id, net, rows), id) == Found(f.progress, f.status, |rows|)
            && f.status.Terminal()
            && 0 <= f.progress <= 100
            && forall k :: k != id ==> Poll(RunTask(created, id, net, rows), k) == Poll(tasks, k)
  {
    var rows := req.bulkRows.value;
    RunEnds(net, rows);
  }
}
