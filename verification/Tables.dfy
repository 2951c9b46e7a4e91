/** The rows of the SQL tables that the job engine keeps. */
module Tables {
  import opened Graph
  import opened Strings

  datatype Option<+T> = None | Some(value: T)

  function Elems<T>(s: seq<T>): set<T> {
    set x | x in s
  }

  function One(c: bool): nat {
    if c then 1 else 0
  }

  datatype Status = Pending | Running | Blocked | Processed | Dead

  datatype Job = Job(
    queue: string,
    name: string,
    status: Status,
    attempts: int,
    maxAttempts: int,
    runAt: int,
    createdAt: int,
    uniqueKey: string,
    batchId: string,
    priority: int,
    tags: string)
  {
    /** The job has not reached a final state. */
    predicate Live() {
      status.Pending? || status.Running? || status.Blocked?
    }

    /** The tags as a worker reads them back from their column. */
    function Tags(): seq<string> {
      if tags == "" then [] else Split(tags, ',')
    }
  }

  /** What Ack, Fail and Cancel read of a row before their transaction begins. */
  datatype Columns = Columns(queue: string, uniqueKey: string, batchId: string, attempts: int, maxAttempts: int)

  const NO_COLUMNS := Columns("", "", "", 0, 0)

  function ColumnsOf(job: Job): Columns {
    Columns(job.queue, job.uniqueKey, job.batchId, job.attempts, job.maxAttempts)
  }

  /** The columns agree apart from the attempts. */
  predicate SameColumns(a: Columns, b: Columns) {
    a.queue == b.queue && a.uniqueKey == b.uniqueKey && a.batchId == b.batchId
  }

  datatype Lock = Lock(holder: JobId, expiresAt: int)

  datatype BatchStatus = Open | Sealed | Completed | Failed

  datatype Batch = Batch(
    callbackQueue: string,
    callbackName: string,
    total: int,
    pending: int,
    status: BatchStatus,
    expiresAt: Option<int>)
  {
    /** The deadline, if there is one, lies strictly before `now`. */
    predicate Expired(now: int) {
      expiresAt.Some? && expiresAt.value < now
    }
  }

  datatype Database = Database(
    jobs: map<JobId, Job>,
    deps: set<Edge>,
    locks: map<string, Lock>,
    batches: map<string, Batch>)

  /** What a client asks to be enqueued. */
  datatype Envelope = Envelope(
    jobId: JobId,
    queue: string,
    name: string,
    uniqueKey: string,
    uniqueTTL: int,
    maxAttempts: int,
    runAt: Option<int>,
    priority: int,
    tags: seq<string>,
    dependencies: seq<JobId>)

  /** The lock key is a plain concatenation, so different pairs can share a key. */
  function LockKey(queue: string, uniqueKey: string): string {
    queue + ":" + uniqueKey
  }

  function GetMaxAttempts(max: int): (r: int)
    ensures r >= 1
  {
    if max <= 0 then 3 else max
  }
}
