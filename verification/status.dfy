/** The output page (views.py, `image_output`): the handle is split back
    into job ids, each job's state is looked up in the job queue, and every
    job gets one outcome, in handle order. The job queue is outside the
    model: `poll` gives the state the queue reports for an id. */
module Status {
  import opened PyStr
  import opened Records
  import opened Worker
  import opened Prompts
  import opened Dispatch

  /** What the job queue reports for one job: still waiting (queued, started
      or retrying; also any id the queue does not know), finished with the
      task's return value, or finished with an exception (or revoked). */
  datatype JobState = Waiting | Succeeded(result: int) | Failed(error: string)
  {
    /** The job has reached a final state. */
    predicate Ready()
    {
      !Waiting?
    }

    /** The job finished without raising. */
    predicate Successful()
    {
      Succeeded?
    }
  }

  /** What the page shows for one job. */
  datatype Outcome = Success(image: ImageRecord) | Error(message: string) | Pending(message: string)

  const NotFoundMessage := "Image not found in database."
  const PendingMessage := "Image is still being generated. Please wait."

  /** The outcome of one job. A finished, successful job shows its record,
      or an error when the returned id has no record; every other job is
      reported as still being generated, including a job whose task failed. */
  function Classify(job: JobState, records: map<int, ImageRecord>): (r: Outcome)
    ensures r.Success? <==> job.Succeeded? && job.result in records
    ensures r.Success? ==> r.image == records[job.result]
    ensures r.Error? <==> job.Succeeded? && job.result !in records
    ensures r.Error? ==> r.message == NotFoundMessage
    ensures r.Pending? <==> !job.Succeeded?
    ensures r.Pending? ==> r.message == PendingMessage
  {
    if job.Ready() then
      if job.Successful() then
        if job.result in records then Success(records[job.result])
        else Error(NotFoundMessage)
      else
        Pending(PendingMessage)
    else
      Pending(PendingMessage)
  }

  /** A failed job cannot be told apart from one that has not finished. */
  lemma FailureLooksPending(error: string, records: map<int, ImageRecord>)
    ensures Classify(Failed(error), records) == Classify(Waiting, records)
    ensures Classify(Failed(error), records).Pending?
  {
  }

  /** The outcomes of a batch: one per id in the handle, in handle order. */
  function Aggregate(handle: string, poll: string -> JobState, records: map<int, ImageRecord>): (r: seq<Outcome>)
    ensures |r| == |DecodeHandle(handle)| >= 1
    ensures forall k :: 0 <= k < |r| ==> r[k] == Classify(poll(DecodeHandle(handle)[k]), records)
  {
    var ids := DecodeHandle(handle);
    seq(|ids|, k requires 0 <= k < |ids| => Classify(poll(ids[k]), records))
  }

  /** How the queue records a finished run of the generation task. */
  function StateAfter(result: TaskResult): (s: JobState)
    ensures s.Ready()
    ensures s.Successful() <==> result.Returned?
    ensures result.Returned? ==> s == Succeeded(result.imageId)
    ensures result.Raised? ==> s == Failed(result.message)
  {
    match result
    case Returned(id) => Succeeded(id)
    case Raised(message) => Failed(message)
  }

  /** End to end for one job: once its task has run, the page shows the
      record it created (the job's prompt, the file name asked for, the first
      artifact and the creation time) as long as that record is still in the
      table; a failed task shows as pending. */
  lemma RunThenClassify(prompt: string, resp: ApiResponse, st: Store, now: int, later: Store)
    requires Valid(st)
    requires Extends(GenerateImage(prompt, resp, st, now).store, later)
    ensures var run := GenerateImage(prompt, resp, st, now);
            var r := Classify(StateAfter(run.result), later.records);
            && (run.result.Returned? ==>
                  r == Success(ImageRecord(prompt, ImageFileName(prompt), resp.artifacts[0], now)))
            && (run.result.Raised? ==> r == Pending(PendingMessage))
  {
  }

  /** Once a job shows its image, it keeps showing the same image as more
      records are added. */
  lemma SuccessIsStable(job: JobState, st: Store, later: Store)
    requires Extends(st, later)
    requires Classify(job, st.records).Success?
    ensures Classify(job, later.records) == Classify(job, st.records)
  {
  }

  /** End to end for a batch: the output page for a submitted batch has one
      outcome per normalised prompt, and the k-th outcome is that of the job
      submitted for the k-th prompt. */
  lemma DispatchThenAggregate(raw: string, backendId: nat -> string, poll: string -> JobState, records: map<int, ImageRecord>)
    requires forall k: nat :: ',' !in backendId(k)
    requires !AllSpace(raw)
    ensures var d := DispatchBatch(raw, backendId);
            var r := Aggregate(d.handle, poll, records);
            && d.Redirected?
            && |r| == |NormalisePrompts(raw)|
            && forall k :: 0 <= k < |r| ==> r[k] == Classify(poll(backendId(k)), records)
  {
    DispatchHandleDecodes(raw, backendId);
  }
}
