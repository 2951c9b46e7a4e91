/** Which job a worker is given. */
module Dequeuing {
  import opened Graph
  import opened Strings
  import opened Tables
  import opened Operations

  ghost predicate Candidate(db: Database, queue: string, now: int, workerTags: seq<string>, id: JobId) {
    id in db.jobs && Due(db.jobs[id], queue, now) && Eligible(db.jobs[id], workerTags)
  }

  lemma {:induction false} FirstEligibleIs(jobs: map<JobId, Job>, rows: seq<JobId>, workerTags: seq<string>)
    returns (k: nat)
    requires forall id :: id in rows ==> id in jobs
    ensures k <= |rows| && forall i :: 0 <= i < k ==> !Eligible(jobs[rows[i]], workerTags)
    ensures FirstEligible(jobs, rows, workerTags) == if k < |rows| then Some(rows[k]) else None
    ensures k < |rows| ==> Eligible(jobs[rows[k]], workerTags)
    decreases |rows|
  {
    if rows == [] || Eligible(jobs[rows[0]], workerTags) {
      k := 0;
    } else {
      k := FirstEligibleIs(jobs, rows[1..], workerTags);
      assert forall i :: 0 < i < |rows| ==> rows[i] == rows[1..][i - 1];
      k := k + 1;
    }
  }

  /**
   * A claimed job is due and carries only tags the worker has, and no other such job ranks strictly above it,
   * however many rows are due and however the database breaks ties.
   */
  lemma ClaimsTheBest(db: Database, queue: string, now: int, workerTags: seq<string>, rows: seq<JobId>, other: JobId)
    requires IsQueryResult(db, queue, now, rows)
    requires FirstEligible(db.jobs, rows, workerTags).Some?
    requires Candidate(db, queue, now, workerTags, other)
    ensures var id := FirstEligible(db.jobs, rows, workerTags).value;
            Candidate(db, queue, now, workerTags, id) && !Before(db.jobs[other], db.jobs[id])
  {
    var k := FirstEligibleIs(db.jobs, rows, workerTags);
    if other in rows {
      var i :| 0 <= i < |rows| && rows[i] == other;
      if i > k {
        assert !Before(db.jobs[rows[i]], db.jobs[rows[k]]);
      }
    } else {
      assert !Before(db.jobs[other], db.jobs[rows[k]]);
    }
  }

  /**
   * No job is handed out exactly when every candidate is cut off: none is among the rows returned. A candidate can
   * be cut off only by a hundred due rows, none of which the worker may take and none of which it ranks above.
   */
  lemma NothingOnlyWhenCutOff(db: Database, queue: string, now: int, workerTags: seq<string>, rows: seq<JobId>)
    requires IsQueryResult(db, queue, now, rows)
    ensures FirstEligible(db.jobs, rows, workerTags).None? <==>
            forall id :: Candidate(db, queue, now, workerTags, id) ==> id !in rows
    ensures FirstEligible(db.jobs, rows, workerTags).None? ==>
            forall id :: Candidate(db, queue, now, workerTags, id) ==>
              && |rows| == 100
              && forall i :: 0 <= i < |rows| ==>
                   !Eligible(db.jobs[rows[i]], workerTags) && !Before(db.jobs[id], db.jobs[rows[i]])
  {
    var k := FirstEligibleIs(db.jobs, rows, workerTags);
    if k < |rows| {
      assert Candidate(db, queue, now, workerTags, rows[k]) && rows[k] in rows;
    }
  }

  ghost function DueJobs(db: Database, queue: string, now: int): set<JobId> {
    set id | id in db.jobs && Due(db.jobs[id], queue, now)
  }

  lemma {:induction false} DistinctCard<T>(rows: seq<T>, all: set<T>)
    requires forall i, j :: 0 <= i < j < |rows| ==> rows[i] != rows[j]
    requires forall r :: r in rows ==> r in all
    ensures |rows| <= |all|
    decreases |rows|
  {
    if rows != [] {
      var last := rows[|rows| - 1];
      assert last in rows;
      forall r | r in rows[..|rows| - 1] ensures r in all - {last} {
        var i :| 0 <= i < |rows| - 1 && rows[i] == r;
      }
      DistinctCard(rows[..|rows| - 1], all - {last});
    }
  }

  /**
   * With at most a hundred due rows nothing is cut off: a worker goes away empty-handed only if there is no candidate.
   */
  lemma NothingMeansNone(db: Database, queue: string, now: int, workerTags: seq<string>, rows: seq<JobId>)
    requires IsQueryResult(db, queue, now, rows) && |DueJobs(db, queue, now)| <= 100
    ensures FirstEligible(db.jobs, rows, workerTags).None? <==> forall id :: !Candidate(db, queue, now, workerTags, id)
  {
    var due := DueJobs(db, queue, now);
    NothingOnlyWhenCutOff(db, queue, now, workerTags, rows);
    forall id | Candidate(db, queue, now, workerTags, id) ensures id in rows {
      if id !in rows {
        assert |due - {id}| == |due| - 1;
        DistinctCard(rows, due - {id});
      }
    }
  }

  lemma TagsReadBack(tags: seq<string>, job: Job)
    requires job.tags == Join(tags, ',') && tags != [""] && forall t :: t in tags ==> ',' !in t
    ensures job.Tags() == tags
  {
    if tags != [] {
      SplitJoin(tags, ',');
      if |tags| > 1 {
        assert Join(tags, ',') == tags[0] + [','] + Join(tags[1..], ',');
      }
    }
  }

  predicate Covers(tags: seq<string>, workerTags: seq<string>) {
    forall t :: t in tags ==> t in workerTags
  }

  ghost predicate AskedForAlways(job: Job, tags: seq<string>) {
    forall workerTags :: Eligible(job, workerTags) <==> Covers(tags, workerTags)
  }

  /**
   * The tags a worker must have are, for every worker, the tags the job was enqueued with, exactly when no tag holds a
   * comma and the tags are not one empty tag.
   */
  lemma TagsSurviveIff(db: Database, env: Envelope, now: int)
    requires Enqueue(db, env, now).Some?
    ensures AskedForAlways(Enqueue(db, env, now).value.jobs[env.jobId], env.tags) <==>
            env.tags != [""] && forall t :: t in env.tags ==> ',' !in t
  {
    var job := Enqueue(db, env, now).value.jobs[env.jobId];
    if env.tags != [""] && forall t :: t in env.tags ==> ',' !in t {
      TagsReadBack(env.tags, job);
    } else {
      assert Eligible(job, job.Tags());
      var t :| t in env.tags && (t == "" || ',' in t);
      assert !Covers(env.tags, job.Tags());
    }
  }
}
