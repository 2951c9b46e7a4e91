/** The batch operations of the Redis client, each run without interruption. */
module RedisHash {
  import opened Graph
  import opened Tables
  import opened RedisBatch
  import Ops = Operations

  /** The fields of the batch hash and the callbacks enqueued. */
  datatype Hash = Hash(status: BatchStatus, total: int, pending: int, callbacks: nat)

  function HashOf(s: Redis): Hash {
    Hash(s.status, s.total, s.pending, s.callbacks)
  }

  /** The commands of EnqueueInBatch that touch the hash, in a row. */
  function CountedIn(s: Redis, m: JobId): Redis
    requires Enabled(s, IncrTotal(m))
  {
    After(After(s, IncrTotal(m)), IncrPending(m))
  }

  /** The commands of SubmitBatch, in a row. */
  function Submitted(s: Redis): Redis
    requires s.submitter.Idle?
  {
    var t := After(After(s, Seal), ReadPending);
    if t.submitter.SubCompleting? then After(After(t, SubSetCompleted), SubCall) else t
  }

  /** The commands by which a worker counts a member down, in a row. */
  function CountedOff(s: Redis, m: JobId): Redis
    requires At(s, m, Finished)
  {
    var t := After(After(s, Decrement(m)), ReadStatus(m));
    if t.members[m].Completing? then After(After(t, SetCompleted(m)), Call(m)) else t
  }

  class BatchHash {
    var status: BatchStatus
    var total: int
    var pending: int
    var callbacks: nat
    var expiresAt: Option<int>
    var watched: bool // among the batches whose deadline is watched

    ghost function Contents(): Hash
      reads this
    {
      Hash(status, total, pending, callbacks)
    }

    ghost predicate Expired(now: int)
      reads this
    {
      expiresAt.Some? && now > expiresAt.value
    }

    constructor (expiresAt: Option<int>)
      ensures Contents() == HashOf(CREATED) && this.expiresAt == expiresAt && watched == expiresAt.Some?
    {
      status, total, pending, callbacks, this.expiresAt, watched := Open, 0, 0, 0, expiresAt, expiresAt.Some?;
    }

    /** A batch past its deadline fails when somebody looks, and is watched no longer. */
    method CheckBatchExpired(now: int) returns (expired: bool)
      modifies this`status, this`watched
      ensures expired <==> expiresAt.Some? && now > expiresAt.value
      ensures status == if expired then Failed else old(status)
      ensures watched == (old(watched) && !expired)
    {
      if expiresAt.None? {
        return false;
      }
      expired := now > expiresAt.value;
      if expired {
        status, watched := Failed, false;
      }
    }

    method IncrementBatchCounts(ghost s: Redis, ghost m: JobId)
      requires HashOf(s) == Contents() && Enabled(s, IncrTotal(m))
      modifies this`total, this`pending
      ensures Contents() == HashOf(CountedIn(s, m))
    {
      total := total + 1;
      pending := pending + 1;
    }

    method CompleteBatch()
      modifies this`status, this`callbacks
      ensures status == Completed && callbacks == old(callbacks) + 1
    {
      status := Completed;
      callbacks := callbacks + 1;
    }

    method SubmitBatch(ghost s: Redis, now: int)
      requires HashOf(s) == Contents() && s.submitter.Idle?
      modifies this`status, this`callbacks, this`watched
      ensures watched == (old(watched) && !old(Expired(now)))
      ensures old(Expired(now)) ==> Contents() == old(Contents()).(status := Failed)
      ensures !old(Expired(now)) ==> Contents() == HashOf(Submitted(s))
    {
      var expired := CheckBatchExpired(now);
      if expired {
        return;
      }
      status := Sealed;
      if pending == 0 {
        CompleteBatch();
      }
    }

    /** Past the deadline a member is not even counted down. */
    method HandleBatchAck(ghost s: Redis, ghost m: JobId, now: int)
      requires HashOf(s) == Contents() && At(s, m, Finished)
      modifies this`status, this`pending, this`callbacks, this`watched
      ensures watched == (old(watched) && !old(Expired(now)))
      ensures old(Expired(now)) ==> Contents() == old(Contents()).(status := Failed)
      ensures !old(Expired(now)) ==> Contents() == HashOf(CountedOff(s, m))
    {
      var expired := CheckBatchExpired(now);
      if expired {
        return;
      }
      pending := pending - 1;
      CompleteBatchIfSealedAndDone(pending);
    }

    method CompleteBatchIfSealedAndDone(count: int)
      modifies this`status, this`callbacks
      ensures Contents() == if old(status).Sealed? && count == 0
        then old(Contents()).(status := Completed, callbacks := old(callbacks) + 1) else old(Contents())
    {
      if status != Sealed || count != 0 {
        return;
      }
      CompleteBatch();
    }
  }

  /** Where commands do not interleave, the Redis protocol and the SQL transactions do the same to a batch in time. */
  lemma SubmitAgreesWithSql(s: Redis, db: Database, b: string, now: int, callbackId: JobId)
    requires b in db.batches && !db.batches[b].Expired(now) && callbackId !in db.jobs
    requires db.batches[b].status == s.status && db.batches[b].pending == s.pending && s.submitter.Idle?
    ensures var r := Ops.SubmitBatch(db, b, now, callbackId).value;
            && r.db.batches[b].status == Submitted(s).status && r.db.batches[b].pending == Submitted(s).pending
            && Submitted(s).callbacks == s.callbacks + One(r.fired)
  {
  }

  lemma AckAgreesWithSql(s: Redis, m: JobId, db: Database, b: string, now: int, callbackId: JobId)
    requires b in db.batches && !db.batches[b].Expired(now) && callbackId !in db.jobs
    requires db.batches[b].status == s.status && db.batches[b].pending == s.pending && At(s, m, Finished)
    ensures var r := Ops.HandleBatchAck(db, b, now, callbackId).value;
            && r.db.batches[b].status == CountedOff(s, m).status && r.db.batches[b].pending == CountedOff(s, m).pending
            && CountedOff(s, m).callbacks == s.callbacks + One(r.fired)
  {
  }
}
