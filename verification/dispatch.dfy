/** Submission of a prompt batch (views.py, `generate_images_in_parallel`,
    POST branch): one generation job per normalised prompt, in prompt order,
    and the comma-joined job ids as the handle the output page is keyed by.
    The job queue assigns the ids; `backendId(k)` is the id it gives the k-th
    job of the group. */
module Dispatch {
  import opened PyStr
  import opened Prompts

  /** One submitted job: the id the queue gave it and the prompt it runs. */
  datatype Job = Job(id: string, prompt: string)

  /** Either the form is shown again with an error and nothing is submitted,
      or the jobs are submitted and the caller is sent to the output page
      for `handle`. */
  datatype DispatchResult = Rejected(error: string) | Redirected(jobs: seq<Job>, handle: string)

  const NoPromptsError := "Please provide prompts."

  /** The ids of the jobs, in submission order. */
  function JobIds(jobs: seq<Job>): (ids: seq<string>)
    ensures |ids| == |jobs|
    ensures forall k :: 0 <= k < |jobs| ==> ids[k] == jobs[k].id
  {
    seq(|jobs|, k requires 0 <= k < |jobs| => jobs[k].id)
  }

  /** The handle of a batch: its job ids joined with commas. */
  function EncodeHandle(ids: seq<string>): string
  {
    Join(ids, ',')
  }

  /** The job ids a handle stands for: the handle split at commas. */
  function DecodeHandle(handle: string): (ids: seq<string>)
    ensures |ids| >= 1
    ensures forall k :: 0 <= k < |ids| ==> ',' !in ids[k]
  {
    Split(handle, ',')
  }

  /** Decoding an encoded non-empty id list gives it back when no id contains
      a comma. */
  lemma HandleRoundTrip(ids: seq<string>)
    requires |ids| >= 1
    requires forall k :: 0 <= k < |ids| ==> ',' !in ids[k]
    ensures DecodeHandle(EncodeHandle(ids)) == ids
  {
    SplitJoin(ids, ',');
  }

  /** Every handle is the encoding of what it decodes to. */
  lemma HandleCanonical(handle: string)
    ensures EncodeHandle(DecodeHandle(handle)) == handle
  {
    JoinSplit(handle, ',');
  }

  /** An empty id list and a list holding one empty id share the handle "":
      the round trip needs a non-empty list. */
  lemma EmptyListNotRecovered()
    ensures EncodeHandle([]) == EncodeHandle([""])
    ensures DecodeHandle(EncodeHandle([])) != []
  {
  }

  /** The batch submission: rejected with "Please provide prompts." exactly
      when the text is all whitespace; otherwise one job per normalised
      prompt, in prompt order, the k-th job getting the queue's k-th id. */
  function DispatchBatch(raw: string, backendId: nat -> string): (r: DispatchResult)
    ensures r.Rejected? <==> AllSpace(raw)
    ensures r.Rejected? ==> r.error == NoPromptsError
    ensures r.Redirected? ==>
              && |r.jobs| == |NormalisePrompts(raw)| > 0
              && (forall k :: 0 <= k < |r.jobs| ==> r.jobs[k] == Job(backendId(k), NormalisePrompts(raw)[k]))
              && r.handle == EncodeHandle(JobIds(r.jobs))
  {
    var prompts := NormalisePrompts(raw);
    NormaliseEmptyIffBlank(raw);
    if |prompts| == 0 then
      Rejected(NoPromptsError)
    else
      var jobs := seq(|prompts|, k requires 0 <= k < |prompts| => Job(backendId(k), prompts[k]));
      Redirected(jobs, EncodeHandle(JobIds(jobs)))
  }

  /** The handle of a submitted batch decodes to its job ids, in order, when
      the queue's ids contain no comma. */
  lemma DispatchHandleDecodes(raw: string, backendId: nat -> string)
    requires forall k: nat :: ',' !in backendId(k)
    ensures var r := DispatchBatch(raw, backendId);
            r.Redirected? ==> DecodeHandle(r.handle) == JobIds(r.jobs)
  {
    var r := DispatchBatch(raw, backendId);
    if r.Redirected? {
      HandleRoundTrip(JobIds(r.jobs));
    }
  }

  /** Blank lines between prompts are skipped: for prompts `p` and `q` and
      blank lines `w1` and `w2` (for instance "a cat", "", "  ", "a dog"),
      exactly two jobs are submitted, for `p` and then for `q`. */
  lemma BlankLinesSkipped(p: string, w1: string, w2: string, q: string, backendId: nat -> string)
    requires IsPrompt(p) && IsPrompt(q)
    requires '\n' !in w1 && AllSpace(w1)
    requires '\n' !in w2 && AllSpace(w2)
    ensures var r := DispatchBatch(p + "\n" + w1 + "\n" + w2 + "\n" + q, backendId);
            && r.Redirected?
            && r.jobs == [Job(backendId(0), p), Job(backendId(1), q)]
  {
    var raw := p + "\n" + w1 + "\n" + w2 + "\n" + q;
    NormaliseSkipsBlankLines(p, w1, w2, q);
    NormaliseEmptyIffBlank(raw);
  }
}
