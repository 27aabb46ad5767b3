/**
 The task ledger: the process-wide map from task id to a progress record,
 the submission handler that validates a request and creates an entry, and
 the polling handler that reads one.
 */
module Ledger {
  /** The absent-or-present wrapper used for optional request fields. */
  datatype Option<+T> = None | Some(value: T)

  /** Where a terminal error came from; stands for the message text str(e). */
  datatype Cause =
    | TransportFailure      // the third RequestException of one batch
    | ApiStatus(code: int)  // a response whose status code is not 200

  /** The status text of a task. Retrying(k, m) is "Retrying... Attempt k/m". */
  datatype Status = InProgress | Retrying(attempt: nat, max: nat) | Completed | Error(cause: Cause)
  {
    predicate Terminal() {
      Completed? || Error?
    }
  }

  /** One ledger entry: the dict {'status', 'progress', 'totalemails'}. */
  datatype Task = Task(status: Status, progress: int, totalemails: nat)

  type Tasks = map<string, Task>

  /** One assignment to a field of a ledger entry, in the order the runner performs them. */
  datatype Write = SetStatus(status: Status) | SetProgress(progress: int)

  /** The entry a submission of n rows creates. */
  function NewTask(n: nat): Task {
    Task(InProgress, 0, n)
  }

  function Apply(t: Task, w: Write): Task {
    match w
    case SetStatus(s) => t.(status := s)
    case SetProgress(p) => t.(progress := p)
  }

  /** The entry after performing the writes ws, in order, on t. No write touches totalemails. */
  function Replay(t: Task, ws: seq<Write>): (r: Task)
    ensures r.totalemails == t.totalemails
    ensures (forall j :: 0 <= j < |ws| ==> ws[j].SetProgress?) ==> r.status == t.status
    ensures (forall j :: 0 <= j < |ws| ==> ws[j].SetStatus?) ==> r.progress == t.progress
    decreases |ws|
  {
    if ws == [] then t else Replay(Apply(t, ws[0]), ws[1..])
  }

  lemma {:induction false} ReplayAppend(t: Task, a: seq<Write>, b: seq<Write>)
    ensures Replay(t, a + b) == Replay(Replay(t, a), b)
    decreases |a|
  {
    if a != [] {
      assert (a + b)[0] == a[0];
      assert (a + b)[1..] == a[1..] + b;
      ReplayAppend(Apply(t, a[0]), a[1..], b);
    } else {
      assert a + b == b;
    }
  }

  /** The last status write decides the status, the last progress write the progress. */
  lemma ReplayEndsWith(t: Task, ws: seq<Write>, s: Status, p: int)
    ensures Replay(t, ws + [SetStatus(s), SetProgress(p)]).status == s
    ensures Replay(t, ws + [SetStatus(s), SetProgress(p)]).progress == p
    ensures Replay(t, ws + [SetProgress(p)]).progress == p
    ensures Replay(t, ws + [SetStatus(s)]).status == s
  {
    ReplayAppend(t, ws, [SetStatus(s), SetProgress(p)]);
    ReplayAppend(t, ws, [SetProgress(p)]);
    ReplayAppend(t, ws, [SetStatus(s)]);
    var u := Replay(t, ws);
    assert [SetStatus(s), SetProgress(p)][1..] == [SetProgress(p)];
    assert Replay(u, [SetProgress(p)]) == Replay(Apply(u, SetProgress(p)), []);
  }

  /** A request field that Python reads with data.get: absent, or a string. */
  datatype Field = Missing | Text(value: string)

  /** Python truthiness of a field: present and non-empty. */
  predicate Truthy(f: Field) {
    f.Text? && f.value != ""
  }

  /** The inputs of a submission: the four JSON body fields and the xc-token header. */
  datatype Submission<T> = Submission(
    orgs: Field, baseName: Field, tableName: Field, bulkRows: Option<seq<T>>, token: Field)

  datatype SubmitReply = BadRequest | Started(taskid: string, totalemails: nat)

  /**
   Handles a submission under the freshly generated id. The request is refused
   with 400 and the ledger left alone if any of orgs, baseName, tableName,
   bulkRows or the token is missing or empty; otherwise the entry for id is
   (over)written with a new in-progress record of the submission's row count.
   */
  function Submit<T>(tasks: Tasks, id: string, req: Submission<T>): (r: (SubmitReply, Tasks))
    ensures r.0.BadRequest? <==>
              || !Truthy(req.orgs) || !Truthy(req.baseName) || !Truthy(req.tableName)
              || req.bulkRows == None || req.bulkRows == Some([]) || !Truthy(req.token)
    ensures r.0.BadRequest? ==> r.1 == tasks
    ensures r.0.Started? ==>
              && req.bulkRows.Some?
              && r.0 == Started(id, |req.bulkRows.value|)
              && r.0.totalemails >= 1
              && r.1.Keys == tasks.Keys + {id}
              && r.1[id] == Task(InProgress, 0, |req.bulkRows.value|)
              && (forall k :: k in tasks && k != id ==> r.1[k] == tasks[k])
  {
    if !Truthy(req.orgs) || !Truthy(req.baseName) || !Truthy(req.tableName)
       || req.bulkRows.None? || |req.bulkRows.value| == 0 || !Truthy(req.token)
    then (BadRequest, tasks)
    else
      var n := |req.bulkRows.value|;
      (Started(id, n), tasks[id := NewTask(n)])
  }

  datatype PollReply = NotFound | Found(progress: int, status: Status, totalemails: nat)

  /** Handles a poll: 404 for an unknown id, otherwise the stored fields, unchanged. */
  function Poll(tasks: Tasks, id: string): (r: PollReply)
    ensures r == NotFound <==> id !in tasks
    ensures r.Found? ==> tasks[id] == Task(r.status, r.progress, r.totalemails)
  {
    if id in tasks then
      var t := tasks[id];
      Found(t.progress, t.status, t.totalemails)
    else
      NotFound
  }

  /**
   The runner's writes land in its own entry only: every other entry and the
   set of ids are unchanged, and totalemails of its own entry is kept.
   */
  function Commit(tasks: Tasks, id: string, ws: seq<Write>): (r: Tasks)
    requires id in tasks
    ensures r.Keys == tasks.Keys
    ensures forall k :: k in tasks && k != id ==> r[k] == tasks[k]
    ensures r[id].totalemails == tasks[id].totalemails
    ensures r[id] == Replay(tasks[id], ws)
  {
    tasks[id := Replay(tasks[id], ws)]
  }
}
