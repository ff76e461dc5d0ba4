# Chaotix image generation, modelled in Dafny

Chaotix is a Django site that turns text prompts into images through the
Stability AI text-to-image API. This project models its core:

- **Batch submission** (`generate_images_in_parallel`, the POST branch). The
  multi-line prompt field is normalised: the whole text is stripped, split at
  line feeds, every line is stripped and blank lines are dropped. When no
  prompt is left, the form comes back with "Please provide prompts.".
  Otherwise one generation job per prompt is submitted as a group, and the
  caller is redirected to the output page. That page is keyed by the job ids
  joined with commas (the *handle*).
- **Generation worker** (`generate_image`). It builds the request body. A 200
  response turns the first artifact into a new `GeneratedImage` record saved
  under a file name made from the prompt, and the task returns the record's id.
  Any other status raises "Failed to generate image: " followed by the
  response text, and creates nothing.
- **Output page** (`image_output`). The handle is split back into job ids. For
  each job, the page shows one of three outcomes:
  - the record it produced;
  - "Image not found in database." when the returned id has no record;
  - "Image is still being generated. Please wait." in every other case. This
    includes a job whose task raised, which the code reports exactly like a job
    that has not finished.

The modules follow the program:

| file | module | models |
|---|---|---|
| `pystr.dfy` | `PyStr` | the Python string operations the views rely on: `str.isspace`, `strip`, `split` and `join` with a one-character separator, and `replace` |
| `prompts.dfy` | `Prompts` | normalising the prompt field |
| `records.dfy` | `Records` | the image record and the table with its auto-increment ids |
| `worker.dfy` | `Worker` | the generation task |
| `dispatch.dfy` | `Dispatch` | batch submission and the handle |
| `status.dfy` | `Status` | the output page, plus end-to-end lemmas joining the three steps |

The job queue (Celery) is outside the model, and so is the HTTP call:

- the queue's ids arrive as a function `backendId`, where `backendId(k)` is the
  id of the k-th job of the group;
- the state the queue reports for an id arrives as `poll`;
- the API's answer arrives as an `ApiResponse`: its status, its body text and
  the already decoded artifact images;
- the creation time arrives as the `now` parameter.

Python's `strip()` removes the characters `str.isspace` accepts, including
`\r`, the Unicode separators and U+0085; `PyStr.IsSpace` lists them.

## Model

| member | source | states |
|---|---|---|
| PyStr.Strip | chaotix_ai/image_generator/views.py:54-55 | `strip()` leaves no whitespace at either end, never lengthens the text, and gives "" exactly when the text is all whitespace |
| PyStr.StripUnique | chaotix_ai/image_generator/views.py:54-55 | `strip()` is pinned down by the shape of its result: text without whitespace at either end, with whitespace runs before and after it, strips to exactly that text |
| PyStr.StripKeepsOut | chaotix_ai/image_generator/views.py:54-55 | `strip()` introduces no character that was not in the text |
| PyStr.StripStripped | chaotix_ai/image_generator/views.py:55 | text without whitespace at either end is its own `strip()`, so an already normalised prompt survives a second strip |
| PyStr.TrimLeftSuffix | chaotix_ai/image_generator/views.py:54 | the left half of `strip()` removes a prefix, and that prefix is all whitespace |
| PyStr.TrimRightPrefix | chaotix_ai/image_generator/views.py:54 | the right half of `strip()` removes a suffix, and that suffix is all whitespace |
| PyStr.StripSnocSpace | chaotix_ai/image_generator/views.py:54-55 | one more trailing whitespace character does not change `strip()` |
| PyStr.Split | chaotix_ai/image_generator/views.py:54 | `split(sep)` gives at least one piece, and no piece contains the separator |
| PyStr.SplitNoSep | chaotix_ai/image_generator/views.py:86 | text without the separator splits into itself alone, so a single job id is a one-element list |
| PyStr.SplitAppend | chaotix_ai/image_generator/views.py:54 | splitting `a + sep + b` splits `a` and `b` independently and concatenates the pieces |
| PyStr.Join | chaotix_ai/image_generator/views.py:62 | `sep.join(parts)`; its own contract states only that the first part is a prefix of the result, and SplitJoin and JoinSplit pin it down as the inverse of `split` |
| PyStr.SplitJoin | chaotix_ai/image_generator/views.py:62 | joining a non-empty list of separator-free pieces and splitting again gives the list back |
| PyStr.JoinSplit | chaotix_ai/image_generator/views.py:86 | splitting any text and joining the pieces again gives the text back |
| PyStr.Replace | chaotix_ai/image_generator/tasks.py:62 | `replace` keeps the length and swaps exactly the target characters |
| Prompts.CleanLines | chaotix_ai/image_generator/views.py:55 | the comprehension keeps at most as many lines as it gets, each kept line is non-empty and stripped, and it adds no character the lines lack |
| Prompts.NormalisePrompts | chaotix_ai/image_generator/views.py:54-55 | every prompt is non-empty, has no whitespace at either end and lies on one line |
| Prompts.CleanLinesAppend | chaotix_ai/image_generator/views.py:55 | the comprehension works line by line: on a concatenation it cleans each part |
| Prompts.LineWise | chaotix_ai/image_generator/views.py:54-55 | stripping the whole text before splitting changes nothing: the prompts are those of the raw lines |
| Prompts.NormaliseConcat | chaotix_ai/image_generator/views.py:54-55 | the prompts of `a + "\n" + b` are the prompts of `a` followed by those of `b` |
| Prompts.NormaliseOneLine | chaotix_ai/image_generator/views.py:54-55 | a single line gives its stripped self, or nothing when it is blank |
| Prompts.NormaliseEmptyIffBlank | chaotix_ai/image_generator/views.py:54-57 | there are no prompts exactly when the text is all whitespace |
| Prompts.CleanLinesIndexed | chaotix_ai/image_generator/views.py:55 | the comprehension gives exactly the non-blank lines, stripped, in their original order |
| Prompts.NormaliseIndexed | chaotix_ai/image_generator/views.py:54-55 | the k-th prompt is the k-th non-blank line of the text, stripped; there are as many prompts as non-blank lines |
| Prompts.NonBlankIndices | chaotix_ai/image_generator/views.py:55 | the positions of the non-blank lines, increasing, and no other positions |
| Prompts.NormaliseBlankThen | chaotix_ai/image_generator/views.py:55 | a blank first line contributes no prompt |
| Prompts.NormalisePromptThen | chaotix_ai/image_generator/views.py:55 | a first line that is already a prompt becomes the first prompt |
| Prompts.NormaliseSkipsBlankLines | chaotix_ai/image_generator/views.py:54-55 | two prompts around two blank lines give exactly those two prompts, in order |
| Prompts.NormaliseDropTrailingSpace | chaotix_ai/image_generator/views.py:54 | whitespace at the very end of the text never changes the prompts |
| Prompts.CarriageReturnsIgnored | chaotix_ai/image_generator/views.py:54-55 | CRLF line ends give the same prompts as LF line ends |
| Records.Create | chaotix_ai/image_generator/models.py:5-17 | an insert gives the record a fresh id, keeps every other row, adds exactly one row and keeps the table valid |
| Worker.RequestPayload | chaotix_ai/image_generator/tasks.py:41-48 | the request carries the prompt as its single text prompt, with guidance scale 7, 1024 x 1024 pixels, one sample and 30 steps |
| Worker.PayloadVariesOnlyInPrompt | chaotix_ai/image_generator/tasks.py:41-48 | two requests are equal exactly when their prompts are, and they agree on everything but the prompt |
| Worker.ImageFileName | chaotix_ai/image_generator/tasks.py:62 | the file name is the prompt with spaces turned into underscores, followed by ".png"; it contains no space |
| Worker.FileNameCollision | chaotix_ai/image_generator/tasks.py:62 | "a cat" and "a_cat" ask to be saved under the same file name |
| Worker.FileNameInjectiveWithoutUnderscores | chaotix_ai/image_generator/tasks.py:62 | prompts without underscores never share a file name |
| Worker.GenerateImage | chaotix_ai/image_generator/tasks.py:54-74 | the task returns an id exactly when the status is 200 and there is an artifact. The id is fresh, and its record holds the prompt, the file name and the first artifact. A failing task leaves the table unchanged, and a non-200 status raises "Failed to generate image: " plus the response text |
| Worker.NotIdempotent | chaotix_ai/image_generator/tasks.py:59-71 | running the task twice for one prompt creates two distinct records |
| Dispatch.JobIds | chaotix_ai/image_generator/views.py:61 | one id per submitted job, the k-th id being the k-th job's, so ids are collected in prompt order |
| Dispatch.DecodeHandle | chaotix_ai/image_generator/views.py:86 | a handle decodes to at least one id, and no id contains a comma |
| Dispatch.HandleRoundTrip | chaotix_ai/image_generator/views.py:61-62 | decoding the handle of a non-empty list of comma-free ids gives the ids back in order |
| Dispatch.HandleCanonical | chaotix_ai/image_generator/views.py:86 | every handle is the encoding of the ids it decodes to |
| Dispatch.EmptyListNotRecovered | chaotix_ai/image_generator/views.py:62 | the empty list and the list holding one empty id share the handle "", so the round trip needs a non-empty list |
| Dispatch.DispatchBatch | chaotix_ai/image_generator/views.py:53-66 | the batch is rejected with "Please provide prompts." exactly when the text is all whitespace. Otherwise there is one job per prompt, the k-th job runs the k-th prompt under the queue's k-th id, and the handle is the ids joined with commas |
| Dispatch.DispatchHandleDecodes | chaotix_ai/image_generator/views.py:58-64 | when the queue's ids contain no comma, the handle of a submitted batch decodes to its job ids in submission order |
| Dispatch.BlankLinesSkipped | chaotix_ai/image_generator/views.py:54-59 | blank lines between two prompts submit no job: exactly two jobs are submitted, in prompt order |
| Status.Classify | chaotix_ai/image_generator/views.py:90-103 | a job shows its record exactly when it succeeded and its id has a record, and "Image not found in database." exactly when it succeeded without one. Every other job is pending with "Image is still being generated. Please wait." |
| Status.FailureLooksPending | chaotix_ai/image_generator/views.py:99-101 | a job whose task raised shows exactly as a job that has not finished |
| Status.Aggregate | chaotix_ai/image_generator/views.py:86-105 | one outcome per id of the handle, in handle order, each the outcome of that id's polled state |
| Status.StateAfter | chaotix_ai/image_generator/tasks.py:71-74 | a finished run is ready, and successful exactly when the task returned; the state carries the returned record id (read back as the job's result) or the raised message |
| Status.RunThenClassify | chaotix_ai/image_generator/views.py:90-98 | after a task has run, its job shows exactly the record the task created (its prompt, requested file name, first artifact and creation time) while that record is in the table; a task that raised shows as pending |
| Status.SuccessIsStable | chaotix_ai/image_generator/views.py:92-96 | once a job shows its image, it keeps showing the same image as records are added |
| Status.DispatchThenAggregate | chaotix_ai/image_generator/views.py:54-103 | the output page of a submitted batch has one outcome per prompt, and the k-th is the outcome of the job submitted for the k-th prompt |

## Left out

- `generate_images` (the single-prompt view) is not routed by the app's URL
  table, so it is not modelled.
- `image_list` and `image_detail` are not modelled: ORM ordering and 404
  rendering are outside the core.
- The API URL, the headers and the API key read from the environment are not
  modelled: they do not affect the outcome beyond the response the model
  receives.
- The HTTP call, the JSON parsing of the response and the base64 decoding are
  not modelled; the response arrives already decoded. A response without
  `artifacts`, or one whose body is not JSON, raises in the code; the model
  covers only the empty `artifacts` list (Python's "list index out of range").
- The storage back end is not modelled. `upload_to` puts `generated_images/`
  in front of the name, the name is cleaned to letters, digits, `-`, `_` and
  `.`, and a name that is taken gets a random suffix. `ImageRecord.fileName`
  is the name the task asks for, not the stored path.
- Worker.GenerateImage: storage failures are not modelled. The file save at
  tasks.py line 68 can raise (for instance on a name with a `..` component,
  such as the prompt "a/../b"), in which case the code creates no record; the
  model returns an id whenever the status is 200 and an artifact is present.
- The 255-character limit of the `prompt` column is not modelled; the database
  may reject or truncate longer prompts.
- A POST without a `prompts` field makes the code fail on `None.strip()`; the
  model takes the field's text as given.
- Celery itself is not modelled: scheduling, retries, revocation and result
  expiry. Every non-final state, and any id the queue does not know, is
  `Waiting`.
- The URL route accepts only non-empty handles without "/". `Status.Aggregate`
  accepts any handle, which is more general.
- Status.Aggregate: the ids are treated as an ordered list, as the code splits
  them, rather than as a set of ids. Repeated ids give repeated outcomes.
- Dispatch.DispatchHandleDecodes: requires that the queue's ids contain no
  comma. Celery's ids are UUIDs, so they never do, but the model takes this as
  a precondition rather than modelling UUIDs.
- PyStr.Join: its own contract states only that the first part is a prefix
  of the result; the full meaning is carried by SplitJoin and JoinSplit.
- Status.RunThenClassify: requires that later tables keep every record;
  deleting records through the admin site is not modelled.
