# batchgen dispatch controller and batch front end, in Dafny

This project models the two pieces of logic in the batchgen image-generation
service:

- **The dispatch controller** (`batchgen/controller.py`). It holds a pool of
  four GPU workers on ports 8001 to 8004. A round-robin cursor `next_worker`
  picks a worker for each job. A session table `CLIENTS` maps each client id
  to the time it was last seen. A prune sweep drops sessions idle for more
  than 300 seconds. The `/generate` endpoint records the client, then tries a
  worker and, if that fails, the next one. It returns the first worker reply,
  or `{"error": "All workers failed"}` with status 500. The state lives in the
  class `BatchgenController.Controller`, with fields `workers`, `next` and
  `clients`. `Generate` is proved against the pure function `Dispatch` and
  `Prune` against `Swept`. `NextWorker` moves the cursor by `Advance`, and
  `Cursors` iterates `Advance` to give the slots read by successive picks.
  Lemmas about these functions state the rotation, eviction and failover
  properties.
- **`generate_batch`** (`batchgen_gradio.py`). It splits the prompt text into
  stripped non-blank lines. It wraps each line as
  `f"{front}, {p}, {back}".strip(", ")`. It fills one result slot per prompt
  from that prompt's reply. It then partitions the slots into images,
  metadata and error messages, and joins the errors with line breaks.

Files:

- `Wrappers.dfy` holds `Option`.
- `Text.dfy` models the Python string operations the core uses: `strip`,
  `strip(chars)`, `splitlines`, `"\n".join` and decimal `str(int)`. It also
  holds the round-trip lemmas for them.
- `Controller.dfy` holds module `BatchgenController`.
- `BatchGradio.dfy` holds module `BatchGradio`.

Inputs the model takes as parameters:

- The clock (`time.time()`) is an integer `now`.
- The fresh `uuid4()` is a string `freshId`.
- The `X-Client-ID` header is an `Option<string>`.
- The worker's reply to each attempt is an `Outcome` (`Ok(body)` or `Fail`).
  It comes from a sequence `outcomes` with one entry per possible attempt.
- The reply to each prompt's request in `generate_batch` is a `Reply`. It
  comes from a sequence `replies` with one entry per prompt.

Facts of the code the model keeps:

- The worker count (4), the attempt cap (2), the session timeout (300 s) and
  the sweep interval (60 s) are hard-coded. The model uses them as constants.
- There is no empty-pool error: the pool always has four workers.
- An attempt counts as successful as soon as the worker's body parses as
  JSON. The controller does not check the worker's HTTP status, so a worker
  error reply with a JSON body is returned to the client. The model's
  `Ok(body)` covers that case.
- The session table has no lock.
- The end-to-end failover scenario (`FailoverScenario`) runs on the four
  launched workers.

## Model

| member | source | states |
|---|---|---|
| `Text.TrimLeft` | batchgen_gradio.py:20 | The result is a suffix of the input. Everything dropped is in the strip set. The result does not start with a strip character. |
| `Text.TrimRight` | batchgen_gradio.py:20 | The result is a prefix of the input. Everything dropped is in the strip set. The result does not end with a strip character. |
| `Text.Strip` | batchgen_gradio.py:20-21 | `str.strip(chars)`: the result is a contiguous piece of the input. All characters cut from either side are in the set. A non-empty result neither starts nor ends with a character of the set. |
| `Text.StripUnique` | batchgen_gradio.py:21 | Strip is determined by that contract: a clean core surrounded by strip characters strips to exactly that core. |
| `Text.Split` | batchgen_gradio.py:20 | Splitting at a separator gives at least one piece, and no piece holds the separator. |
| `Text.JoinSplit` | batchgen_gradio.py:20 | Joining the pieces of a split with the separator restores the string. |
| `Text.SplitJoin` | batchgen_gradio.py:51 | Splitting a join of separator-free pieces restores the pieces. |
| `Text.SplitLines` | batchgen_gradio.py:20 | `splitlines()` on `'\n'`: the empty text, and only it, has no lines. No line holds a line break. Joining the lines, plus the final break if there was one, gives back the text. |
| `Text.DecimalString` | batchgen/controller.py:19 | `f"{port}"` is a non-empty string of decimal digits with no leading zero. |
| `Text.ParseDecimalString` | batchgen/controller.py:19 | Reading the decimal rendering back gives the number, so the rendering is injective. |
| `BatchgenController.UrlPortOfWorkerUrl` | batchgen/controller.py:19 | The port can be read back out of `http://127.0.0.1:{port}/generate`. |
| `BatchgenController.PoolShape` | batchgen/controller.py:9-36 | `WORKERS` has NUM_GPUS entries, in `PORTS` order. Worker i has gpu i, port 8001 + i and url `http://127.0.0.1:` + port + `/generate`. No two workers share a url. |
| `BatchgenController.Advance` | batchgen/controller.py:47 | The cursor after a pick is always a valid index into the pool. |
| `BatchgenController.CursorsRotate` | batchgen/controller.py:40-48 | From any cursor c, k successive picks read slots (c + i) mod 4 for i in 0..k-1. |
| `BatchgenController.CursorsFromStart` | batchgen/controller.py:40-48 | From the initial cursor 0, pick i reads slot i mod 4. |
| `BatchgenController.SweptExactly` | batchgen/controller.py:55-58 | One sweep at `now` adds no key. It keeps a session exactly when `now - last_seen <= 300`, and keeps kept timestamps unchanged. |
| `BatchgenController.SweepIdempotent` | batchgen/controller.py:55-58 | A second sweep at the same time removes nothing. |
| `BatchgenController.SurvivesSweeps` | batchgen/controller.py:53-59 | A session that no sweep finds stale survives every sweep with its timestamp. |
| `BatchgenController.SweepAllShrinks` | batchgen/controller.py:56-58 | Repeated sweeps never add a session. |
| `BatchgenController.EvictedBySweeps` | batchgen/controller.py:53-59 | Once any sweep finds a session stale, later sweeps never bring it back. |
| `BatchgenController.SessionLifetime` | batchgen/controller.py:53-61 | A session last seen at T stays listed through sweeps up to T + 299. It is gone once the sweeps have run up to T + 361, provided sweeping began by T + 301. |
| `BatchgenController.DispatchFrom` | batchgen/controller.py:73-81 | From attempt i on: attempts go to consecutive workers from the cursor, and every attempt but the last failed. The result is status 200 with the last attempt's body exactly when that attempt succeeded. Otherwise it is the 500 error, after all attempts were used. |
| `BatchgenController.Dispatch` | batchgen/controller.py:73-81 | One or two attempts, to workers (c + j) mod 4. One attempt exactly when the first succeeds. The first successful body is returned unchanged with status 200. Two failures give `{"error": "All workers failed"}` with status 500. |
| `BatchgenController.RetryMovesOn` | batchgen/controller.py:73-80 | With the launched pool, two workers are tried exactly when the first attempt fails: gpu c, then gpu (c + 1) mod 4, at a different url. |
| `BatchgenController.Controller.constructor` | batchgen/controller.py:31-51 | Startup state: the launched workers, cursor 0, an empty session table. The cursor is in range. |
| `BatchgenController.Controller.NextWorker` | batchgen/controller.py:43-48 | Returns `WORKERS[c]`, where c is the cursor before the call. Leaves the cursor at (c + 1) mod 4, still in range. Changes nothing else. |
| `BatchgenController.Controller.Touch` | batchgen/controller.py:69 | Sets the client's last-seen time to `now`. Every other entry is unchanged. |
| `BatchgenController.Controller.Prune` | batchgen/controller.py:55-58 | The loop over a snapshot of the keys leaves exactly `Swept(old table, now)`. |
| `BatchgenController.Controller.Snapshot` | batchgen/controller.py:83-85 | `list_clients` returns exactly the table's keys, each with its last-seen time. |
| `BatchgenController.Controller.Generate` | batchgen/controller.py:66-81 | Sets the entry for the header id (or the fresh id) to `now`, leaving the rest unchanged. The response and the workers tried are `Dispatch` from the old cursor. The cursor advances by the number of attempts: 1 on first-attempt success, 2 otherwise. The pool is unchanged. |
| `BatchGradio.NonBlankStripped` | batchgen_gradio.py:20 | There are no more prompts than lines. Each prompt is non-empty, with no leading or trailing whitespace. |
| `BatchGradio.NonBlankStrippedAppend` | batchgen_gradio.py:20 | Order is kept: the prompts of two blocks of lines are the first block's followed by the second's. |
| `BatchGradio.NonBlankStrippedLine` | batchgen_gradio.py:20 | A single line contributes its stripped text, or nothing when that is empty. |
| `BatchGradio.PromptsRaw` | batchgen_gradio.py:20 | Every entry of `prompts_raw` is non-empty and has no leading or trailing whitespace. |
| `BatchGradio.Compose` | batchgen_gradio.py:21 | No composed prompt starts or ends with `','` or `' '`. |
| `BatchGradio.Prompts` | batchgen_gradio.py:21 | `len(prompts) == len(prompts_raw)`, and no composed prompt starts or ends with `','` or `' '`. |
| `BatchGradio.ComposeBare` | batchgen_gradio.py:21 | With empty front and back, a raw prompt that neither starts nor ends with `','` is sent unchanged. |
| `BatchGradio.ComposeJoined` | batchgen_gradio.py:21 | With a clean front and back, the prompt is exactly `front, p, back`. |
| `BatchGradio.SlotForError` | batchgen_gradio.py:34-41 | A slot has no image exactly when the request raised or a field was missing. Such a slot always has a non-empty message. An image slot carries the reply's metadata. |
| `BatchGradio.PartitionSizes` | batchgen_gradio.py:47-49 | `len(images) == len(metadata)` and `len(images) + len(errors) == len(results)`. |
| `BatchGradio.ImagesAppend` | batchgen_gradio.py:47 | The images list keeps the relative order of its prompts. |
| `BatchGradio.MetadataAppend` | batchgen_gradio.py:48 | The metadata list keeps the relative order of its prompts. |
| `BatchGradio.ErrorsAppend` | batchgen_gradio.py:49 | The errors list keeps the relative order of its prompts. |
| `BatchGradio.PartitionPairs` | batchgen_gradio.py:47-48 | Image i and metadata entry i come from the same result slot. |
| `BatchGradio.Slots` | batchgen_gradio.py:22 | One result slot per prompt. |
| `BatchGradio.ErrorsNonEmpty` | batchgen_gradio.py:49 | When every failed slot has a message, every entry of `errors` is non-empty. |
| `BatchGradio.ErrorTextEmpty` | batchgen_gradio.py:51 | The returned error text is empty exactly when no prompt failed. |
| `BatchGradio.ErrorTextLines` | batchgen_gradio.py:51 | When no message holds a line break, splitting the error text at line breaks restores the error list. |
| `BatchGradio.FillResults` | batchgen_gradio.py:22-45 | The pre-allocated `results` list ends with slot i holding prompt i's outcome, for every i. |
| `BatchGradio.GenerateBatch` | batchgen_gradio.py:19-51 | Returns the images, the metadata and the newline-joined errors of the slots built from the composed prompts and their replies. |

## Left out

- Process launching (`subprocess.Popen`, the `PORT` and `CUDA_VISIBLE_DEVICES` environment, the launch thread pool). Only the resulting worker records are modelled, without their process handle.
- Concurrency. The model has no worker lock and no daemon prune thread, and runs everything as sequential calls. It does not model the unlocked races on `CLIENTS`. The thread pool in `generate_batch` is modelled as one `send` per index, in index order; each writes only its own slot.
- Prune: one sweep is modelled. The `while True` loop and `time.sleep(60)` become `SweepAll` over a list of sweep times. `SweepTimes` spaces them exactly 60 s apart, ignoring how long a sweep takes.
- HTTP, Flask and Gradio. `requests.post`, `resp.json()`, `jsonify`, `raise_for_status` and header parsing are replaced by the outcome and reply oracles. The job JSON is forwarded unchanged and is not represented. Neither are `width`, `height`, the 60 s and 300 s request timeouts, or the UI wiring.
- The failure log line `Worker {gpu} failed: {e}`. The workers tried are returned instead.
- Float timestamps. Time is an integer number of seconds.
- Images. Base64 and PIL decoding are foreign calls. A decoding error is part of the `Raised` reply, and `Image` keeps the encoded text. `json.dumps(metadata, indent=2)` is not modelled: the metadata text is kept as received.
- Text.Strip: models Python's `str.strip()` with the ten ASCII whitespace characters it removes (space, `\t`, `\n`, `\r`, `\x0b`, `\x0c` and `\x1c`-`\x1f`). Non-ASCII whitespace such as `\x85` or `\xa0` is not stripped.
- Text.SplitLines: breaks lines only at `'\n'`. Python's `splitlines()` also breaks at `\r`, `\x0b`, `\x0c`, `\x1c`-`\x1e`, `\x85`, `\u2028` and `\u2029`. A `\r\n` ending still gives the same prompt, because the `\r` is stripped.
- `worker.py`, `batchgen/worker.py`, `batchgen/client.py`, `test_batchgen.py` and `notebooks/vis_batchgen.py` are not part of this model. They cover GPU inference, HTTP clients with file saving, and a Streamlit viewer.
