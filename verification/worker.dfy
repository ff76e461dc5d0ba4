/** The generation task (tasks.py, `generate_image`): build the request for
    the text-to-image API, and turn its response into either a new image
    record and its id, or a failure that creates nothing. The HTTP call and
    the base64 decoding are outside the model: the response arrives as a
    status code, the body text and the already decoded artifact images. */
module Worker {
  import opened PyStr
  import opened Records

  /** One entry of the request's `text_prompts` list. */
  datatype TextPrompt = TextPrompt(text: string)

  /** The JSON body sent to the API. */
  datatype Payload = Payload(
    textPrompts: seq<TextPrompt>,
    cfgScale: int,
    height: int,
    width: int,
    samples: int,
    steps: int)

  /** The request body for one prompt: the prompt as the single text prompt,
      with fixed guidance scale, resolution, sample count and step count. */
  function RequestPayload(prompt: string): (p: Payload)
    ensures p.textPrompts == [TextPrompt(prompt)]
    ensures p.cfgScale == 7 && p.samples == 1 && p.steps == 30
    ensures p.height == 1024 && p.width == 1024
  {
    Payload([TextPrompt(prompt)], 7, 1024, 1024, 1, 30)
  }

  /** Two requests differ exactly when their prompts do: nothing but the
      prompt varies from one request to the next. */
  lemma PayloadVariesOnlyInPrompt(p: string, q: string)
    ensures RequestPayload(p) == RequestPayload(q) <==> p == q
    ensures RequestPayload(p).(textPrompts := []) == RequestPayload(q).(textPrompts := [])
  {
    if RequestPayload(p) == RequestPayload(q) {
      assert RequestPayload(p).textPrompts[0].text == p;
    }
  }

  /** The file name the image is saved under: the prompt with every space
      turned into an underscore, then ".png". */
  function ImageFileName(prompt: string): (name: string)
    ensures |name| == |prompt| + 4
    ensures name[|prompt|..] == ".png"
    ensures forall i :: 0 <= i < |prompt| ==> name[i] == if prompt[i] == ' ' then '_' else prompt[i]
    ensures ' ' !in name
  {
    Replace(prompt, ' ', '_') + ".png"
  }

  /** The file name is lossy: a space and an underscore give the same name,
      so two different prompts ask to be saved under one file name. */
  lemma FileNameCollision()
    ensures "a cat" != "a_cat"
    ensures ImageFileName("a cat") == ImageFileName("a_cat")
  {
    assert ImageFileName("a cat")[1] == '_';
    assert ImageFileName("a cat") == "a_cat.png";
    assert ImageFileName("a_cat") == "a_cat.png";
  }

  /** Underscores are the only source of collisions: prompts without
      underscores have distinct file names. */
  lemma FileNameInjectiveWithoutUnderscores(p: string, q: string)
    requires '_' !in p && '_' !in q
    requires ImageFileName(p) == ImageFileName(q)
    ensures p == q
  {
    var n := ImageFileName(p);
    assert |p| == |q|;
    forall i | 0 <= i < |p|
      ensures p[i] == q[i]
    {
      assert n[i] == ImageFileName(q)[i];
    }
  }

  /** The response of the API: status code, body text (used for the failure
      message) and the images of its `artifacts` list, already decoded. */
  datatype ApiResponse = ApiResponse(status: int, text: string, artifacts: seq<Bytes>)

  /** What the task hands back to the job queue: the new record's id, or the
      message of the exception it raised. */
  datatype TaskResult = Returned(imageId: int) | Raised(message: string)

  datatype Run = Run(result: TaskResult, store: Store)

  const FailurePrefix := "Failed to generate image: "

  /** Python's message for indexing an empty list. */
  const IndexErrorMessage := "list index out of range"

  /** One run of the task against the record table. On status 200 with at
      least one artifact, the first artifact becomes a new record whose
      prompt is the task's prompt, and its id is returned. On any other
      status the task raises with the response text and the table is left as
      it was; a 200 response without artifacts fails too, on the index. */
  function GenerateImage(prompt: string, resp: ApiResponse, st: Store, now: int): (run: Run)
    requires Valid(st)
    ensures Valid(run.store)
    ensures run.result.Returned? <==> resp.status == 200 && |resp.artifacts| > 0
    ensures run.result.Returned? ==>
              && run.result.imageId !in st.records
              && run.store.records == st.records[run.result.imageId := ImageRecord(prompt, ImageFileName(prompt), resp.artifacts[0], now)]
              && |run.store.records| == |st.records| + 1
    ensures run.result.Raised? ==> run.store == st
    ensures resp.status != 200 ==> run.result == Raised(FailurePrefix + resp.text)
  {
    if resp.status == 200 then
      if |resp.artifacts| == 0 then
        Run(Raised(IndexErrorMessage), st)
      else
        var rec := ImageRecord(prompt, ImageFileName(prompt), resp.artifacts[0], now);
        var ins := Create(st, rec);
        Run(Returned(ins.id), ins.store)
    else
      Run(Raised(FailurePrefix + resp.text), st)
  }

  /** Running the task twice with the same prompt creates two distinct
      records: the task is not idempotent. */
  lemma NotIdempotent(prompt: string, resp: ApiResponse, st: Store, now: int, later: int)
    requires Valid(st)
    requires resp.status == 200 && |resp.artifacts| > 0
    ensures var first := GenerateImage(prompt, resp, st, now);
            var second := GenerateImage(prompt, resp, first.store, later);
            && second.result.Returned?
            && second.result.imageId != first.result.imageId
            && |second.store.records| == |st.records| + 2
  {
  }
}
