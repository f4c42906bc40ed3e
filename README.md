# Atlassian audit input: the event collection loop

This project models `Input.stream_events` of the Atlassian organisation audit-log
input for Splunk. One run works as follows:

- It reads the checkpoint, meaning the time string of the newest event already forwarded. If
  there is no checkpoint, it uses a look-back bootstrap instead.
- It then follows the audit API's page chain (`links.next`).
- On an HTTP 429 it backs off for `X-Retry-After` seconds (30 by default) and repeats the same URL.
- On any other failure it gives up.
- It forwards to the event writer every event whose `attributes.time` string is strictly greater
  than the checkpoint.
- It stops all paging at the first event that is not newer. The API returns events newest
  first, so nothing further can be new.
- Each forwarded time that beats the run's running maximum is written to the checkpoint file
  straight away. The running maximum starts at the literal `"0"`.

The model is imperative where the source is. `Collector.StreamEvents` reads the checkpoint
once and calls `Collector.CollectPages`, the `while url:` loop. The body of
`with session.get(url)` is `Collector.HandleResponse`, and the inner `for event in
resp['data']` loop is `Collector.ScanPage`.

The environment is replaced by values:

- The API is a finite script of `Response`s (`Ok`, `RateLimited`, `Fail`), consumed one per request.
- The event writer, the checkpoint file writes, the sleeps and the requests are returned as an
  effect log (`Trace.Effect`: `Get`, `Sleep`, `Write`, `Save`), in the order the source performs them.
  The log splits into one round per request. Each round is the request itself, then only what
  its response causes: the back-off of a 429, or the writes and saves of a page.

Each method is proved against reference functions:

- `Filter.NewerPrefix`: what one page forwards.
- `Collector.Forwarded`: what a run forwards.
- `Checkpoint.MaxFrom` and `Checkpoint.Records`: the running maximum and the sequence of
  checkpoint saves.
- `Collector.Settle`: how a run ends.

Lemmas about these functions carry the properties the collector promises:

- Every forwarded event is newer than the checkpoint.
- Checkpoint saves strictly increase.
- The checkpoint is saved before anything else happens after the write that raised it.
- A restart never re-forwards an event that was already forwarded, unless the run stopped between
  writing that event and saving its checkpoint.
- When the start checkpoint is at or above `"0"`, a second run over the same responses forwards
  nothing. This holds when it starts from the checkpoint the first run left. It also holds when it
  starts from a later look-back, as happens when the first run left no checkpoint file.
- On a newest-first stream, stopping early loses nothing.

The running maximum starts at `"0"`, so a checkpoint below `"0"` has an edge case: an event
newer than the checkpoint but not above `"0"` is forwarded and never saved. The contracts
state this through `Records` rather than excluding it.

`Collector.StreamEvents` models the checkpoint handling as the code is written. That handling
can lose events when a run is cut short (see "## Findings"). An alternative policy is modelled
next to it as `Collector.DeferredCursorAfter`: it saves the maximum only once a run has finished
normally. It is a trade-off, not a plain correction. It loses nothing when a run is cut short,
but the next run then forwards again every event the interrupted run had already forwarded.
So the loss becomes duplicate delivery. Saving during the run, and the promise that a restart
does not forward an already forwarded event, are given up for interrupted runs.

Python's `>` on `str` is modelled as `TimeOrder.Less`, which compares code points
lexicographically. The model proves that it is a strict total order.

## Model

| member | source | states |
|---|---|---|
| Collector.StreamEvents | bin/atlassian_audit.py:84-136 | A run's outputs follow from the consumed responses and the start checkpoint (the stored one, else the bootstrap): requests start at the input URL, a 429 repeats its URL and an OK page moves to `links.next`; the log is one round per request, holding that request and then only its own response's back-off or page writes and saves; the run ends as the last consumed response decides (finished, aborted with the error body, or the back-off refused); the sink gets the newer prefix of each consumed page, every event strictly newer than the start checkpoint; `count` is the number forwarded; the sleeps are the 429 back-offs; checkpoint saves are exactly the strictly increasing new maxima, all above the start checkpoint, each saved before any other effect; the file ends holding the final maximum, never moves backward from a stored checkpoint, and the next run starts from `CursorAfter` of this run's forwarded events when it reads the clock at the same instant, or at or above it when its look-back is no earlier |
| Collector.CollectPages | bin/atlassian_audit.py:95-134 | The `while url:` loop: at most one request per available response, the first to the start URL, each later one to the URL the previous response leads to; the outcome is the one the last consumed response decides; and the effect log, count and running maximum account for exactly the consumed responses |
| Collector.HandleResponse | bin/atlassian_audit.py:101-134 | One response: a 429 keeps the URL and sleeps `X-Retry-After` seconds (30 when absent), or fails when that wait is negative; any other failure aborts with its body; an OK page moves the URL to `links.next` and scans the page; the loop goes on exactly when the page held no old event and a next link is present |
| Collector.ScanPage | bin/atlassian_audit.py:115-134 | The per-event loop forwards exactly the leading run of events newer than the checkpoint, counts them, saves each new running maximum right after its write, ends with the maximum of the forwarded times, and reports a stop exactly when the page holds an event that is not newer |
| Collector.ForwardedAreNewer | bin/atlassian_audit.py:115-118 | Every event forwarded over any sequence of responses is strictly newer than the start checkpoint |
| Collector.TieNeverForwarded | bin/atlassian_audit.py:117 | An event stamped exactly at the start checkpoint is never forwarded (the comparison is strict) |
| Collector.NothingNewForwardsNothing | bin/atlassian_audit.py:115-134 | When no consumed page holds an event newer than the checkpoint, nothing is forwarded and the checkpoint file is never written |
| Collector.BoundedForwardsNothing | bin/atlassian_audit.py:115-134 | A checkpoint at or above the old one, and at or above every time forwarded from the old one, lets nothing through on the same responses |
| Collector.RerunForwardsNothing | bin/atlassian_audit.py:85-134 | Idempotence across runs: when the start checkpoint is at or above `"0"`, a second run over the same responses forwards nothing if it starts from the checkpoint the first run left or from any later one, such as a fresh, later look-back when the first run left no checkpoint file |
| Collector.AbortLosesOlderEvent | bin/atlassian_audit.py:100-130 | As written, a run that forwards the newest event, saves it, and then aborts before the older page leaves a checkpoint that makes the next run stop at the first page. The older event is newer than the original checkpoint and is never forwarded by either run |
| Collector.DeferredCheckpointSound | bin/atlassian_audit.py:100-130 | With the save deferred until the run finishes normally: after a run that ends any other way, the next run starts from the same checkpoint, so every event newer than it still passes the next run's filter, including those already forwarded; after a finished run, a rerun over the same responses still forwards nothing |
| Collector.DeferredRecoversLostEvent | bin/atlassian_audit.py:100-130 | With the deferred save, the run after the abort in `AbortLosesOlderEvent` restarts from the original checkpoint and forwards both the older event and, a second time, the newest one, which the aborted run had already forwarded |
| Collector.CheckpointWrittenIffForwarded | bin/atlassian_audit.py:85-130 | When the start checkpoint is at or above `"0"`, the checkpoint file is written if and only if at least one event is forwarded |
| Collector.RerunSkipsForwarded | bin/atlassian_audit.py:85-130 | Restart safety: if the run stops at any point other than between an event's write and its save, the next run starts from a checkpoint that filters out every event already forwarded above `"0"` |
| Collector.ProgressRound | bin/atlassian_audit.py:100-113 | One request handled as `HandleResponse` promises keeps the paging invariant: routing follows the rules and the loop's state is the one the last response decides |
| Collector.ProgressEnd | bin/atlassian_audit.py:100 | When `while url:` exits, the outcome is the one the last consumed response decides, and the responses ran out only if all were consumed |
| Collector.FinalAccounts | bin/atlassian_audit.py:118-130 | The loop's accounting invariant yields the run's sink and checkpoint guarantees: strictly newer events, strictly increasing saves above the checkpoint, and no save exactly when the maximum stayed at `"0"` |
| Checkpoint.MaxFromBounds | bin/atlassian_audit.py:126-128 | The running maximum is at least its start and every forwarded time, and is one of them |
| Checkpoint.RecordsShape | bin/atlassian_audit.py:126-130 | The checkpoint saves are forwarded times, each above the starting maximum and strictly increasing; there are none exactly when the maximum did not move; the last one is the final maximum |
| Checkpoint.RecordsAppend | bin/atlassian_audit.py:126-130 | The running maximum and the saves over two consecutive stretches of events compose: the second stretch starts from the first one's maximum |
| Trace.SavedPromptlyAppend | bin/atlassian_audit.py:119-130 | Prompt saving of a run composes from prompt saving of its successive pieces |
| Trace.SavedCoversWritten | bin/atlassian_audit.py:118-130 | At any point not between a write and its save, every forwarded time above the starting maximum is covered by the last checkpoint saved |
| Filter.NewerPrefixShape | bin/atlassian_audit.py:115-134 | A page's forwarded events are a prefix of the page, all newer than the checkpoint; that prefix is shorter than the page exactly when the page holds an event that is not newer, and then the event right after it is not newer |
| Filter.EarlyStopLosesNothing | bin/atlassian_audit.py:131-134 | On a newest-first page, breaking at the first old event forwards exactly the newer events of the whole page |
| Filter.PagesAfterStopAreStale | bin/atlassian_audit.py:131-134 | On a newest-first stream, once a page holds an old event, every event on later pages is old too, so abandoning the page chain (`url = False`) loses nothing |
| TimeOrder.LessIrreflexive | bin/atlassian_audit.py:117 | No time string is newer than itself |
| TimeOrder.LessAsymmetric | bin/atlassian_audit.py:117 | Two time strings are never each newer than the other |
| TimeOrder.LessTransitive | bin/atlassian_audit.py:126 | The string order is transitive |
| TimeOrder.LessTotal | bin/atlassian_audit.py:126 | Any two distinct time strings are ordered one way or the other |

## Left out

- `get_scheme` (bin/atlassian_audit.py:16-44) is not modelled. It declares the input's configuration scheme.
- The credential masking in `stream_events` (bin/atlassian_audit.py:57-82) is not modelled. It stores the API key in Splunk's credential store.
- The HTTP session, its headers and JSON decoding are external I/O. A response is modelled as already decoded into events, `links.next` and an `X-Retry-After` value.
- An exception raised by `session.get` itself (a timeout, a reset connection) ends the source's run by propagating, not through the `return` at bin/atlassian_audit.py:110. The model has no response for it: a `Fail` response is the only way a request cuts a run short.
- `X-Retry-After` is modelled as an already parsed integer. A header that `int()` cannot parse makes the source raise, and that path is not modelled.
- `time.sleep` is recorded as a `Sleep` effect. A negative wait, which makes `time.sleep` raise, ends the run as `SleepRejected`.
- There can be any number of 429 retries, but the script of responses is finite. A run that would request past the script ends as `ScriptExhausted`, so an endless run is only seen up to the length of the script.
- The checkpoint file's read and writes, including `json.load` and `json.dump`, become two things. The read is the `stored` parameter, where `None` means the read failed. The writes are `Save` effects. A checkpoint file holding valid JSON that is not a string is not modelled.
- A `Save` is atomic in the model. In the source it is not. `open(checkpointfile, "w")` truncates the file before `json.dump` writes it (bin/atlassian_audit.py:129-130), so a stop in between leaves an unreadable file. The next run then falls back to the look-back bootstrap (bin/atlassian_audit.py:89-92). `Trace.Quiescent` and `Collector.RerunSkipsForwarded` cannot express a stop inside a save.
- The look-back bootstrap `now - history days` (bin/atlassian_audit.py:91-92) is the `bootstrap` parameter, because it reads the clock.
- A forwarded `Event` keeps only the time string and a payload string. Two conversions are not modelled:
  - `strptime(...).timestamp()` (bin/atlassian_audit.py:121);
  - `json.dumps` of the event.
  
  A time string that `strptime` rejects makes the source raise, and that path is not modelled.
- An event without `attributes.time` (a `KeyError`) is not modelled.
- A response body that is not JSON is not modelled.
- A JSON body that lacks `links` or `data` is not modelled. In the source it makes lines 113 or 115 raise `KeyError`, and a `links` that is `null` makes line 113 raise `AttributeError`. The model's `Ok` response always carries both.
- Collector.StreamEvents: the look-back is a parameter, so the clock is not modelled. When a run leaves no checkpoint file, the next run reads the clock again (bin/atlassian_audit.py:91-92). This contract, and Collector.RerunForwardsNothing, cover that next run only when its look-back is no earlier than this run's. That needs a clock that does not go backward and a `history` setting that does not grow between runs.
- `ew.log` lines are not modelled, including the closing summary (bin/atlassian_audit.py:136). They are diagnostics only.
- The script entry point (`__main__`) is not modelled.
- Collector.RerunSkipsForwarded does not cover a stop between an event's write and its checkpoint save. In that case the next run forwards the event a second time. Separately, events can also be lost altogether when a run is cut short (see "## Findings").

## Findings

| source | as written | input that shows it | evidently intended | confidence | as-written member | corrected member |
|---|---|---|---|---|---|---|
| bin/atlassian_audit.py:126-130 | Each new maximum is saved to the checkpoint file as soon as it is written, while older pages of the same run are still unfetched | Start from checkpoint "1". Run 1 gets page 1 `[E5]` with a next link, forwards E5 and saves "5", then the second request fails. Run 2 starts from "5", finds E5 stale on page 1 and stops, so E4 on page 2 is never forwarded | An interrupted run loses no events: the next run still sees every event newer than the checkpoint the interrupted run started from. Saving the maximum only once the run has finished normally gives this, but the events the interrupted run already forwarded are then delivered a second time (`Collector.DeferredRecoversLostEvent`). A fix that keeps both promises would have to save only a maximum below which nothing is still unfetched, and the source has no such point until the page chain ends | high; not executed | Collector.AbortLosesOlderEvent | Collector.DeferredCheckpointSound |
