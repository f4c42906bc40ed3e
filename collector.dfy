/**
 * The collection loop of the Atlassian audit input. The remote API is a
 * finite script of responses, one consumed per `session.get`; the sink and
 * the checkpoint file are observed through the effect log the run returns.
 */
module Collector {
  import opened Optional
  import opened TimeOrder
  import opened Checkpoint
  import opened Trace
  import opened Filter

  /** One reply to `session.get(url)`. */
  datatype Response =
    | Ok(events: seq<Event>, next: Option<string>)   // `data` and `links.next`
    | RateLimited(retryAfter: Option<int>)           // HTTP 429 and its `X-Retry-After` header
    | Fail(body: string)                             // any other non-OK status

  datatype Outcome =
    | Finished               // the page chain ended or an old event was reached
    | Aborted(body: string)  // a non-OK, non-429 response ended the run
    | SleepRejected(wait: int) // `time.sleep` refused a negative back-off
    | ScriptExhausted        // the model's responses ran out while the loop still fetched

  /** The running maximum's initial value. */
  const Unset: string := "0"

  /** The checkpoint read once at the start: the saved value, else the look-back bootstrap. */
  function StartCursor(stored: Option<string>, bootstrap: string): string {
    stored.GetOr(bootstrap)
  }

  /** The back-off after a 429: the header's seconds, 30 when absent. */
  function RetryWait(retryAfter: Option<int>): int {
    retryAfter.GetOr(30)
  }

  /** Python truthiness of `url`: absent, `False` and the empty string all end the loop. */
  predicate Truthy(url: Option<string>) {
    url.Some? && url.value != ""
  }

  /** After this response the loop asks for another one. */
  predicate Continues(r: Response, last: string) {
    match r
    case Ok(events, next) => !HasStale(events, last) && Truthy(next)
    case RateLimited(h) => RetryWait(h) >= 0
    case Fail(_) => false
  }

  /**
   * How a run ends when `r` is the last response it consumes: a failure aborts,
   * a refused back-off raises, and a response after which the loop would
   * fetch again means the script ran out.
   */
  function Settle(r: Response, last: string): Outcome {
    match r
    case Fail(body) => Aborted(body)
    case RateLimited(h) => if RetryWait(h) < 0 then SleepRejected(RetryWait(h)) else ScriptExhausted
    case Ok(_, _) => if Continues(r, last) then ScriptExhausted else Finished
  }

  /** The URL requested after `r` answered a request for `url`. */
  function Follow(r: Response, url: string): string {
    if r.Ok? && r.next.Some? then r.next.value else url
  }

  /** What a consumed response contributes to the sink. */
  function PageWrites(r: Response, last: string): seq<Event> {
    if r.Ok? then NewerPrefix(r.events, last) else []
  }

  /** The events of the consumed responses that reach the sink, in order. */
  function Forwarded(rs: seq<Response>, last: string): seq<Event>
    decreases |rs|
  {
    if rs == [] then [] else Forwarded(rs[..|rs| - 1], last) + PageWrites(rs[|rs| - 1], last)
  }

  /** The back-off slept after a consumed response: only a 429 whose wait `time.sleep` accepts. */
  function PageWaits(r: Response): seq<int> {
    if r.RateLimited? && RetryWait(r.retryAfter) >= 0 then [RetryWait(r.retryAfter)] else []
  }

  /** The back-offs actually slept for the consumed responses. */
  function Waits(rs: seq<Response>): seq<int>
    decreases |rs|
  {
    if rs == [] then [] else Waits(rs[..|rs| - 1]) + PageWaits(rs[|rs| - 1])
  }

  /** The checkpoint file's content after a run that started with `stored`. */
  function FileAfter(stored: Option<string>, tr: seq<Effect>): Option<string> {
    var saves := Saves(tr);
    if saves == [] then stored else Some(saves[|saves| - 1])
  }

  /**
   * The checkpoint the next run starts from after a run that started from
   * `last` and forwarded `w`: the last value saved, or `last` when nothing was.
   */
  function CursorAfter(last: string, w: seq<Event>): string {
    if Records(Unset, Times(w)) == [] then last else MaxFrom(Unset, Times(w))
  }

  /** Every forwarded event is strictly newer than the start-of-run checkpoint. */
  lemma {:induction false} ForwardedAreNewer(rs: seq<Response>, last: string)
    ensures forall e :: e in Forwarded(rs, last) ==> Less(last, e.time)
    decreases |rs|
  {
    if rs != [] {
      ForwardedAreNewer(rs[..|rs| - 1], last);
      if rs[|rs| - 1].Ok? {
        NewerPrefixShape(rs[|rs| - 1].events, last);
      }
    }
  }

  /**
   * The inner `for event in resp['data']` loop: forward newer events, count
   * them, save each new maximum right after writing it, and stop at the
   * first event that is not newer.
   */
  method ScanPage(events: seq<Event>, last: string, first: string, count: nat)
    returns (effects: seq<Effect>, first': string, count': nat, stopped: bool)
    ensures Writes(effects) == NewerPrefix(events, last)
    ensures Gets(effects) == [] && Sleeps(effects) == []
    ensures SavedPromptly(first, effects)
    ensures first' == MaxFrom(first, Times(Writes(effects)))
    ensures count' == count + |Writes(effects)|
    ensures stopped <==> HasStale(events, last)
  {
    effects, first', count', stopped := [], first, count, false;
    QuietSavedPromptly(first, []);
    var i := 0;
    while i < |events| && !stopped
      invariant Scanned(events, last, first, count, i, stopped, effects, first', count')
      decreases |events| - i, !stopped
    {
      var e := events[i];
      if Less(last, e.time) {
        var step := [Write(e)];
        if Less(first', e.time) {
          step := step + [Save(e.time)];
        }
        ScanForward(events, last, first, count, i, effects, first', count', step);
        first', count' := Max(first', e.time), count' + 1;
        effects := effects + step;
        i := i + 1;
      } else {
        stopped := true;
      }
    }
    ScanEnd(events, last, first, count, i, stopped, effects, first', count');
  }

  /** Where the scan of a page stands after examining `i` events (the last of them stale when `stopped`). */
  ghost predicate Scanned(events: seq<Event>, last: string, first: string, count: nat,
                          i: nat, stopped: bool, effects: seq<Effect>, first': string, count': nat) {
    && i <= |events|
    && (forall j :: 0 <= j < i ==> Newer(events[j], last))
    && (stopped ==> i < |events| && !Newer(events[i], last))
    && Writes(effects) == events[..i]
    && Gets(effects) == [] && Sleeps(effects) == []
    && SavedPromptly(first, effects)
    && first' == MaxFrom(first, Times(Writes(effects)))
    && count' == count + i
  }

  /** Forwarding a newer event, and saving it when it beats the running maximum, keeps the scan on track. */
  lemma ScanForward(events: seq<Event>, last: string, first: string, count: nat,
                    i: nat, effects: seq<Effect>, cur: string, count': nat, step: seq<Effect>)
    requires Scanned(events, last, first, count, i, false, effects, cur, count')
    requires i < |events| && Newer(events[i], last)
    requires step == [Write(events[i])] + (if Less(cur, events[i].time) then [Save(events[i].time)] else [])
    ensures Scanned(events, last, first, count, i + 1, false, effects + step, Max(cur, events[i].time), count' + 1)
  {
    var e := events[i];
    ScanStep(first, effects, cur, e, step);
    assert events[..i + 1] == events[..i] + [e];
  }

  /** A finished scan forwarded exactly the page's newer prefix, and stopped exactly when the page held a stale event. */
  lemma ScanEnd(events: seq<Event>, last: string, first: string, count: nat,
                i: nat, stopped: bool, effects: seq<Effect>, first': string, count': nat)
    requires Scanned(events, last, first, count, i, stopped, effects, first', count')
    requires stopped || i == |events|
    ensures Writes(effects) == NewerPrefix(events, last)
    ensures Gets(effects) == [] && Sleeps(effects) == []
    ensures SavedPromptly(first, effects)
    ensures first' == MaxFrom(first, Times(Writes(effects)))
    ensures count' == count + |Writes(effects)|
    ensures stopped <==> HasStale(events, last)
  {
    NewerPrefixAt(events, last, i);
    NewerPrefixShape(events, last);
  }

  /** Appending one forwarded event, and its save when it beats the running maximum, keeps the log's bookkeeping. */
  lemma ScanStep(first: string, effects: seq<Effect>, cur: string, e: Event, step: seq<Effect>)
    requires SavedPromptly(first, effects) && cur == MaxFrom(first, Times(Writes(effects)))
    requires step == [Write(e)] + (if Less(cur, e.time) then [Save(e.time)] else [])
    ensures SavedPromptly(first, effects + step)
    ensures Writes(effects + step) == Writes(effects) + [e]
    ensures Gets(effects + step) == Gets(effects) && Sleeps(effects + step) == Sleeps(effects)
    ensures Max(cur, e.time) == MaxFrom(first, Times(Writes(effects + step)))
  {
    StepSavedPromptly(cur, e, step);
    SavedPromptlyAppend(first, effects, step);
    ProjectionsAppend(effects, step);
    TimesAppend(Writes(effects), [e]);
    RecordsAppend(first, Times(Writes(effects)), [e.time]);
    assert Times([e]) == [e.time];
    assert MaxFrom(cur, [e.time]) == Max(cur, e.time);
  }

  /** One forwarded event, followed by its save exactly when it beats the running maximum. */
  lemma StepSavedPromptly(m: string, e: Event, step: seq<Effect>)
    requires step == [Write(e)] + (if Less(m, e.time) then [Save(e.time)] else [])
    ensures SavedPromptly(m, step)
    ensures Writes(step) == [e] && Gets(step) == [] && Sleeps(step) == []
  {
    ProjectionsSingle(Write(e));
    ProjectionsSingle(Save(e.time));
    assert Times([e]) == [e.time];
    if Less(m, e.time) {
      assert step == [Write(e), Save(e.time)];
      WriteThenSave(m, e);
    } else {
      assert step == [Write(e)];
      WriteAlone(m, e);
    }
  }

  lemma WriteAlone(m: string, e: Event)
    requires !Less(m, e.time) && Times([e]) == [e.time]
    requires Writes([Write(e)]) == [e] && Saves([Write(e)]) == []
    ensures SavedPromptly(m, [Write(e)])
  {
    var step := [Write(e)];
    assert Records(m, [e.time]) == [];
    forall k: nat | k <= |step| && Quiescent(step, k)
      ensures Saves(step[..k]) == Records(m, Times(Writes(step[..k])))
    {
      if k == 0 {
        assert step[..k] == [];
      } else {
        assert step[..k] == step;
      }
    }
  }

  lemma WriteThenSave(m: string, e: Event)
    requires Less(m, e.time) && Times([e]) == [e.time]
    requires Writes([Write(e)]) == [e] && Saves([Write(e)]) == []
    requires Writes([Save(e.time)]) == [] && Saves([Save(e.time)]) == [e.time]
    ensures SavedPromptly(m, [Write(e), Save(e.time)])
  {
    var step := [Write(e), Save(e.time)];
    assert step == [Write(e)] + [Save(e.time)];
    ProjectionsAppend([Write(e)], [Save(e.time)]);
    assert Records(m, [e.time]) == [e.time];
    forall k: nat | k <= |step| && Quiescent(step, k)
      ensures Saves(step[..k]) == Records(m, Times(Writes(step[..k])))
    {
      if k == 0 {
        assert step[..k] == [];
      } else {
        assert k == 2 && step[..k] == step;
      }
    }
  }

  /**
   * `stream_events` from the checkpoint read to the final log line. Returns
   * the outcome, the number of forwarded events, the final running maximum,
   * the log of effects and the number of responses consumed.
   */
  method StreamEvents(script: seq<Response>, start: string, stored: Option<string>, bootstrap: string)
    returns (outcome: Outcome, count: nat, first: string, trace: seq<Effect>, used: nat, ghost rounds: seq<seq<Effect>>)
    // Requests: the first goes to `start`; a 429 repeats the same URL, an OK page moves to `links.next`.
    ensures used <= |script| && |Gets(trace)| == used
    ensures used > 0 ==> Gets(trace)[0] == start
    ensures Routed(script, Gets(trace), StartCursor(stored, bootstrap))
    // The log is one round per request: the request, then only that response's sleep or its page's writes and saves.
    ensures trace == Flatten(rounds) && |rounds| == used
    ensures forall i :: 0 <= i < used ==> RoundOf(script[i], StartCursor(stored, bootstrap), Gets(trace)[i], rounds[i])
    // How the run ends: decided by the last response consumed; the script runs out only when it is used up.
    ensures used == 0 ==> outcome == (if start == "" then Finished else ScriptExhausted)
    ensures used > 0 ==> outcome == Settle(script[used - 1], StartCursor(stored, bootstrap))
    ensures outcome == ScriptExhausted ==> used == |script|
    // The sink: the newer prefix of every consumed page, each strictly newer than the start checkpoint.
    ensures Writes(trace) == Forwarded(script[..used], StartCursor(stored, bootstrap))
    ensures forall e :: e in Writes(trace) ==> Less(StartCursor(stored, bootstrap), e.time)
    ensures count == |Writes(trace)|
    ensures Sleeps(trace) == Waits(script[..used])
    // The checkpoint file: strictly increasing saves of new maxima, saved as soon as each is written.
    ensures first == MaxFrom(Unset, Times(Writes(trace)))
    ensures Saves(trace) == Records(Unset, Times(Writes(trace)))
    ensures SavedPromptly(Unset, trace)
    ensures forall i, j :: 0 <= i < j < |Saves(trace)| ==> Less(Saves(trace)[i], Saves(trace)[j])
    ensures forall i :: 0 <= i < |Saves(trace)| ==> Less(StartCursor(stored, bootstrap), Saves(trace)[i])
    ensures Saves(trace) == [] <==> first == Unset
    ensures Saves(trace) != [] ==> FileAfter(stored, trace) == Some(first)
    ensures stored.Some? ==> FileAfter(stored, trace).Some? && LessEq(stored.value, FileAfter(stored, trace).value)
    ensures StartCursor(FileAfter(stored, trace), bootstrap) == CursorAfter(StartCursor(stored, bootstrap), Writes(trace))
    // A later run, whose look-back `bootstrap'` is no earlier, starts at or above that checkpoint.
    ensures forall bootstrap' :: LessEq(bootstrap, bootstrap') ==>
      LessEq(CursorAfter(StartCursor(stored, bootstrap), Writes(trace)), StartCursor(FileAfter(stored, trace), bootstrap'))
  {
    var last := StartCursor(stored, bootstrap);
    outcome, count, first, trace, used, rounds := CollectPages(script, start, last);
    FinalAccounts(script, used, last, trace, count, first);
    if Saves(trace) != [] {
      assert Less(last, Saves(trace)[|Saves(trace)| - 1]);
    } else {
      assert FileAfter(stored, trace) == stored;
    }
  }

  /**
   * The `while url:` loop, against the start-of-run checkpoint `last`, which
   * is an in-parameter and so cannot be reassigned during the run.
   */
  method CollectPages(script: seq<Response>, start: string, last: string)
    returns (outcome: Outcome, count: nat, first: string, trace: seq<Effect>, used: nat, ghost rounds: seq<seq<Effect>>)
    ensures used <= |script| && |Gets(trace)| == used
    ensures used > 0 ==> Gets(trace)[0] == start
    ensures Routed(script, Gets(trace), last)
    ensures used == 0 ==> outcome == (if start == "" then Finished else ScriptExhausted)
    ensures used > 0 ==> outcome == Settle(script[used - 1], last)
    ensures outcome == ScriptExhausted ==> used == |script|
    ensures Accounted(script, used, last, trace, count, first)
    ensures Rounds(script, last, Gets(trace), rounds, trace)
  {
    var url: Option<string> := Some(start);
    outcome, count, first, trace, used := Finished, 0, Unset, [], 0;
    ghost var urls: seq<string> := [];
    rounds := [];
    QuietSavedPromptly(Unset, []);
    while outcome == Finished && Truthy(url)
      invariant used == |urls| && urls == Gets(trace)
      invariant Progress(script, start, last, url, urls, outcome)
      invariant Accounted(script, used, last, trace, count, first)
      invariant Rounds(script, last, urls, rounds, trace)
      decreases |script| - used, outcome == Finished
    {
      if used == |script| {
        outcome := ScriptExhausted;
      } else {
        var u := url.value;
        var rest, first', count', url', outcome';
        rest, first', count', url', outcome' := HandleResponse(script[used], u, last, first, count);
        ProgressRound(script, start, last, url, urls, url', outcome');
        RoundAccounted(script, used, last, trace, count, first, u, rest, count', first');
        RoundsSnoc(script, last, urls, rounds, trace, u, rest);
        urls, rounds := urls + [u], rounds + [[Get(u)] + rest];
        trace, used, count, first, url, outcome := trace + ([Get(u)] + rest), used + 1, count', first', url', outcome';
      }
    }
    ProgressEnd(script, start, last, url, urls, outcome);
  }

  /**
   * Where the paging stands after the requests `urls`: they followed the
   * rules, and either the loop may go on from `url` or the run has ended
   * as its last response decides.
   */
  ghost predicate Progress(script: seq<Response>, start: string, last: string, url: Option<string>, urls: seq<string>, outcome: Outcome) {
    && Routed(script, urls, last)
    && (urls != [] ==> urls[0] == start)
    && (urls == [] ==> url == Some(start))
    && (urls == [] && outcome != Finished ==> outcome == ScriptExhausted && start != "" && script == [])
    && (urls != [] && outcome == Finished ==>
         && (script[|urls| - 1].Ok? || Continues(script[|urls| - 1], last))
         && (Truthy(url) <==> Continues(script[|urls| - 1], last))
         && (Truthy(url) ==> url.value == Follow(script[|urls| - 1], urls[|urls| - 1])))
    && (urls != [] && outcome != Finished ==> outcome == Settle(script[|urls| - 1], last))
    && (outcome == ScriptExhausted ==> |urls| == |script|)
  }

  /** One request to `url`, answered as `HandleResponse` promises, keeps the paging on its rules. */
  lemma ProgressRound(script: seq<Response>, start: string, last: string, url: Option<string>, urls: seq<string>,
                      url': Option<string>, outcome': Outcome)
    requires Progress(script, start, last, url, urls, Finished) && Truthy(url) && |urls| < |script|
    requires outcome' == Finished <==> script[|urls|].Ok? || (script[|urls|].RateLimited? && RetryWait(script[|urls|].retryAfter) >= 0)
    requires outcome' != Finished ==> outcome' == Settle(script[|urls|], last)
    requires outcome' == Finished ==> (Truthy(url') <==> Continues(script[|urls|], last))
    requires outcome' == Finished && Truthy(url') ==> url'.value == Follow(script[|urls|], url.value)
    ensures Progress(script, start, last, url', urls + [url.value], outcome')
  {
    RoutedSnoc(script, urls, last, url.value);
  }

  /** When the loop stops, the outcome is the one the last response decides. */
  lemma ProgressEnd(script: seq<Response>, start: string, last: string, url: Option<string>, urls: seq<string>, outcome: Outcome)
    requires Progress(script, start, last, url, urls, outcome) && !(outcome == Finished && Truthy(url))
    ensures urls == [] ==> outcome == (if start == "" then Finished else ScriptExhausted)
    ensures urls != [] ==> outcome == Settle(script[|urls| - 1], last)
    ensures outcome == ScriptExhausted ==> |urls| == |script|
  {
  }

  /**
   * The body of `with session.get(url) as r:` for one response: back off and
   * keep the URL on a 429, give up on any other failure, and otherwise move to
   * `links.next` and scan the page. `url'` is the loop variable afterwards.
   */
  method HandleResponse(r: Response, u: string, last: string, first: string, count: nat)
    returns (rest: seq<Effect>, first': string, count': nat, url': Option<string>, outcome: Outcome)
    requires u != ""
    ensures outcome == Finished <==> r.Ok? || (r.RateLimited? && RetryWait(r.retryAfter) >= 0)
    ensures outcome != Finished ==> outcome == Settle(r, last)
    ensures outcome == Finished ==> (Truthy(url') <==> Continues(r, last))
    ensures outcome == Finished && Truthy(url') ==> url'.value == Follow(r, u)
    ensures Writes(rest) == PageWrites(r, last)
    ensures Sleeps(rest) == PageWaits(r) && Gets(rest) == []
    ensures SavedPromptly(first, rest)
    ensures first' == MaxFrom(first, Times(Writes(rest)))
    ensures count' == count + |Writes(rest)|
  {
    rest, first', count', url', outcome := [], first, count, Some(u), Finished;
    match r
    case RateLimited(h) =>
      var wait := RetryWait(h);
      if wait < 0 {
        outcome := SleepRejected(wait);
      } else {
        rest := [Sleep(wait)];
        ProjectionsSingle(Sleep(wait));
      }
      QuietSavedPromptly(first, rest);
    case Fail(body) =>
      outcome := Aborted(body);
      QuietSavedPromptly(first, rest);
    case Ok(events, next) =>
      url' := next;
      var stopped;
      rest, first', count', stopped := ScanPage(events, last, first, count);
      if stopped {
        url' := None;
      }
  }

  /**
   * The URL requests follow the rules: every response before the last one
   * let the loop go on, and the next request went to the URL it pointed at.
   */
  ghost predicate Routed(script: seq<Response>, urls: seq<string>, last: string) {
    && |urls| <= |script|
    && forall i :: 0 <= i < |urls| - 1 ==>
      Continues(script[i], last) && urls[i + 1] == Follow(script[i], urls[i])
  }

  lemma RoutedSnoc(script: seq<Response>, urls: seq<string>, last: string, u: string)
    requires Routed(script, urls, last) && |urls| < |script|
    requires urls != [] ==> Continues(script[|urls| - 1], last) && u == Follow(script[|urls| - 1], urls[|urls| - 1])
    ensures Routed(script, urls + [u], last)
  {
  }

  /** The bookkeeping the collection loop keeps after `used` responses. */
  ghost predicate Accounted(script: seq<Response>, used: nat, last: string, trace: seq<Effect>, count: nat, first: string) {
    && used <= |script|
    && Writes(trace) == Forwarded(script[..used], last)
    && count == |Writes(trace)|
    && Sleeps(trace) == Waits(script[..used])
    && first == MaxFrom(Unset, Times(Writes(trace)))
    && SavedPromptly(Unset, trace)
  }

  /**
   * One round of the log: the request for `u`, then the effects of its
   * response `r` and nothing else: no further request, the back-off of a 429,
   * or the forwarded events of a page.
   */
  ghost predicate RoundOf(r: Response, last: string, u: string, round: seq<Effect>) {
    && round != []
    && round[0] == Get(u)
    && Gets(round[1..]) == []
    && Writes(round[1..]) == PageWrites(r, last)
    && Sleeps(round[1..]) == PageWaits(r)
  }

  /** The log so far splits into one round per request made. */
  ghost predicate Rounds(script: seq<Response>, last: string, urls: seq<string>, rounds: seq<seq<Effect>>, trace: seq<Effect>) {
    && |rounds| == |urls| <= |script|
    && trace == Flatten(rounds)
    && forall i :: 0 <= i < |rounds| ==> RoundOf(script[i], last, urls[i], rounds[i])
  }

  lemma RoundsSnoc(script: seq<Response>, last: string, urls: seq<string>, rounds: seq<seq<Effect>>, trace: seq<Effect>,
                   u: string, rest: seq<Effect>)
    requires Rounds(script, last, urls, rounds, trace) && |urls| < |script|
    requires Gets(rest) == [] && Writes(rest) == PageWrites(script[|urls|], last) && Sleeps(rest) == PageWaits(script[|urls|])
    ensures Rounds(script, last, urls + [u], rounds + [[Get(u)] + rest], trace + ([Get(u)] + rest))
  {
    var round := [Get(u)] + rest;
    assert round[1..] == rest;
    assert (rounds + [round])[..|rounds|] == rounds;
  }

  /** One request and the effects of its response keep the bookkeeping. */
  lemma RoundAccounted(script: seq<Response>, used: nat, last: string, trace: seq<Effect>, count: nat, first: string,
                       u: string, rest: seq<Effect>, count': nat, first': string)
    requires Accounted(script, used, last, trace, count, first) && used < |script|
    requires Writes(rest) == PageWrites(script[used], last)
    requires Sleeps(rest) == PageWaits(script[used]) && Gets(rest) == []
    requires SavedPromptly(first, rest)
    requires first' == MaxFrom(first, Times(Writes(rest)))
    requires count' == count + |Writes(rest)|
    ensures Accounted(script, used + 1, last, trace + ([Get(u)] + rest), count', first')
    ensures Gets(trace + ([Get(u)] + rest)) == Gets(trace) + [u]
  {
    var round := [Get(u)] + rest;
    RoundProjections(u, rest);
    ProjectionsAppend(trace, round);
    ScriptSnoc(script, used, last);
    RoundSaved(trace, first, round);
  }

  /** A request adds its URL and nothing else to the log's projections. */
  lemma RoundProjections(u: string, rest: seq<Effect>)
    requires Gets(rest) == []
    ensures Writes([Get(u)] + rest) == Writes(rest)
    ensures Saves([Get(u)] + rest) == Saves(rest)
    ensures Sleeps([Get(u)] + rest) == Sleeps(rest)
    ensures Gets([Get(u)] + rest) == [u]
  {
    ProjectionsSingle(Get(u));
    ProjectionsAppend([Get(u)], rest);
  }

  lemma ScriptSnoc(script: seq<Response>, used: nat, last: string)
    requires used < |script|
    ensures Forwarded(script[..used + 1], last) == Forwarded(script[..used], last) + PageWrites(script[used], last)
    ensures Waits(script[..used + 1]) == Waits(script[..used]) + PageWaits(script[used])
  {
    assert script[..used + 1][..used] == script[..used];
  }

  /** The running maximum and the save log carry over a round that starts at the current maximum. */
  lemma RoundSaved(trace: seq<Effect>, first: string, round: seq<Effect>)
    requires SavedPromptly(Unset, trace) && first == MaxFrom(Unset, Times(Writes(trace)))
    requires round != [] && round[0].Get? && SavedPromptly(first, round[1..])
    ensures SavedPromptly(Unset, trace + round)
    ensures MaxFrom(first, Times(Writes(round[1..]))) == MaxFrom(Unset, Times(Writes(trace + round)))
  {
    ProjectionsSingle(round[0]);
    assert round == [round[0]] + round[1..];
    ProjectionsAppend([round[0]], round[1..]);
    assert Writes(round) == Writes(round[1..]);
    QuietSavedPromptly(first, [round[0]]);
    SavedPromptlyAppend(first, [round[0]], round[1..]);
    SavedPromptlyAppend(Unset, trace, round);
    ProjectionsAppend(trace, round);
    TimesAppend(Writes(trace), Writes(round));
    RecordsAppend(Unset, Times(Writes(trace)), Times(Writes(round)));
  }

  /** From the loop's bookkeeping to the promises about the sink and the checkpoint file. */
  lemma FinalAccounts(script: seq<Response>, used: nat, last: string, trace: seq<Effect>, count: nat, first: string)
    requires Accounted(script, used, last, trace, count, first)
    ensures Writes(trace) == Forwarded(script[..used], last)
    ensures count == |Writes(trace)|
    ensures Sleeps(trace) == Waits(script[..used])
    ensures first == MaxFrom(Unset, Times(Writes(trace)))
    ensures SavedPromptly(Unset, trace)
    ensures forall e :: e in Writes(trace) ==> Less(last, e.time)
    ensures Saves(trace) == Records(Unset, Times(Writes(trace)))
    ensures forall i, j :: 0 <= i < j < |Saves(trace)| ==> Less(Saves(trace)[i], Saves(trace)[j])
    ensures forall i :: 0 <= i < |Saves(trace)| ==> Less(last, Saves(trace)[i])
    ensures Saves(trace) == [] <==> first == Unset
    ensures Saves(trace) != [] ==> Saves(trace)[|Saves(trace)| - 1] == first
  {
    ForwardedAreNewer(script[..used], last);
    SavedPromptlyEnd(Unset, trace);
    RecordsShape(Unset, Times(Writes(trace)));
    TimesAppend(Writes(trace), []);
    forall i | 0 <= i < |Saves(trace)|
      ensures Less(last, Saves(trace)[i])
    {
      var t := Saves(trace)[i];
      assert t in Times(Writes(trace));
      var j :| 0 <= j < |Times(Writes(trace))| && Times(Writes(trace))[j] == t;
      assert Writes(trace)[j] in Writes(trace);
    }
  }

  /** The tie boundary is exclusive: an event stamped exactly at the start checkpoint is never forwarded. */
  lemma TieNeverForwarded(rs: seq<Response>, last: string, e: Event)
    requires e in Forwarded(rs, last)
    ensures e.time != last
  {
    ForwardedAreNewer(rs, last);
    LessIrreflexive(last);
  }

  /**
   * No newer event, no forwarding: when no consumed page holds an event newer than the start
   * checkpoint, the run forwards nothing, and so never writes the checkpoint.
   */
  lemma {:induction false} NothingNewForwardsNothing(rs: seq<Response>, last: string)
    requires forall i, j :: 0 <= i < |rs| && rs[i].Ok? && 0 <= j < |rs[i].events| ==> !Newer(rs[i].events[j], last)
    ensures Forwarded(rs, last) == []
    ensures Records(Unset, Times(Forwarded(rs, last))) == []
    decreases |rs|
  {
    if rs != [] {
      var r := rs[|rs| - 1];
      NothingNewForwardsNothing(rs[..|rs| - 1], last);
      if r.Ok? && r.events != [] {
        assert !Newer(r.events[0], last);
      }
    }
  }

  /**
   * With a start checkpoint at or above the literal "0" the running maximum
   * starts from, the checkpoint file is written exactly when something is
   * forwarded. (Below "0", events newer than the checkpoint but not above
   * "0" are forwarded without a save.)
   */
  lemma CheckpointWrittenIffForwarded(w: seq<Event>, last: string)
    requires LessEq(Unset, last)
    requires forall e :: e in w ==> Less(last, e.time)
    ensures Records(Unset, Times(w)) == [] <==> w == []
  {
    if w != [] {
      LessEqLessTransitive(Unset, last, w[0].time);
      TimesAppend(w, []);
      MaxFromBounds(Unset, Times(w));
      RecordsShape(Unset, Times(w));
      LessAsymmetric(Unset, w[0].time);
      LessIrreflexive(Unset);
    }
  }

  /**
   * A checkpoint at or above `last` and at or above every time forwarded
   * from `last` lets nothing through on the same responses.
   */
  lemma {:induction false} BoundedForwardsNothing(rs: seq<Response>, last: string, c: string)
    requires LessEq(last, c)
    requires forall e :: e in Forwarded(rs, last) ==> LessEq(e.time, c)
    ensures Forwarded(rs, c) == []
    decreases |rs|
  {
    if rs != [] {
      var r := rs[|rs| - 1];
      BoundedForwardsNothing(rs[..|rs| - 1], last, c);
      if r.Ok? && r.events != [] {
        var e0 := r.events[0];
        if Less(last, e0.time) {
          assert PageWrites(r, last)[0] == e0;
          assert e0 in Forwarded(rs, last);
        } else {
          NotLessIsLessEq(e0.time, last);
          LessEqTransitive(e0.time, last, c);
        }
        NotLessIsLessEq(e0.time, c);
      }
    }
  }

  /**
   * Idempotence across runs: a second run over the same responses forwards
   * nothing when it starts from the checkpoint the first run left, or from
   * any later one (a fresh look-back when the first run left no file).
   */
  lemma RerunForwardsNothing(rs: seq<Response>, last: string, next: string)
    requires LessEq(Unset, last)
    requires LessEq(CursorAfter(last, Forwarded(rs, last)), next)
    ensures Forwarded(rs, next) == []
  {
    var w := Forwarded(rs, last);
    var c := CursorAfter(last, w);
    ForwardedAreNewer(rs, last);
    CheckpointWrittenIffForwarded(w, last);
    if w != [] {
      MaxFromBounds(Unset, Times(w));
      TimesAppend(w, []);
      forall e | e in w
        ensures LessEq(e.time, next)
      {
        var j :| 0 <= j < |w| && w[j] == e;
        assert Times(w)[j] == e.time;
        LessEqTransitive(e.time, c, next);
      }
      LessLessEqTransitive(last, w[0].time, c);
    }
    LessEqTransitive(last, c, next);
    BoundedForwardsNothing(rs, last, next);
  }

  /**
   * Saving each new maximum as soon as it is written loses events when a run
   * aborts: the first page carries the newest event, the failure comes before
   * the older page, and the next run's checkpoint already filters that page out.
   */
  lemma AbortLosesOlderEvent()
    ensures var e5, e4 := Event("5", "newer"), Event("4", "older");
      var run1 := [Ok([e5], Some("p2")), Fail("boom")];
      var run2 := [Ok([e5], Some("p2")), Ok([e4], None)];
      && Continues(run1[0], "1") && Settle(run1[1], "1") == Aborted("boom")
      && Forwarded(run1, "1") == [e5]
      && CursorAfter("1", Forwarded(run1, "1")) == "5"
      && Newer(e4, "1") && e4 !in Forwarded(run1, "1")
      && Settle(run2[0], "5") == Finished
      && Forwarded(run2, "5") == []
  {
    var e5, e4 := Event("5", "newer"), Event("4", "older");
    var run1 := [Ok([e5], Some("p2")), Fail("boom")];
    var run2 := [Ok([e5], Some("p2")), Ok([e4], None)];
    assert Less("1", "5") && Less("1", "4");
    assert Forwarded(run1, "1") == [e5] by {
      assert NewerPrefix([e5], "1") == [e5];
      assert run1[..1] == [run1[0]] && Forwarded([run1[0]], "1") == [e5];
    }
    assert CursorAfter("1", [e5]) == "5" by {
      var ts := ["5"];
      assert Less(Unset, "5") && ts[0] == "5" && ts[1..] == [];
      assert Times([e5]) == ts by { assert [e5][1..] == []; }
      assert Records(Unset, ts) == [ts[0]] + Records(ts[0], ts[1..]) == ["5"];
      assert Max(Unset, "5") == "5";
      assert MaxFrom(Unset, ts) == MaxFrom(Max(Unset, ts[0]), ts[1..]) == "5";
    }
    assert Forwarded(run2, "5") == [] by {
      assert !Less("5", "5") && !Less("5", "4");
      assert HasStale([e5], "5");
      assert run2[..1] == [run2[0]] && Forwarded([run2[0]], "5") == [];
    }
  }

  /**
   * The checkpoint the next run starts from when a run saves its maximum only
   * once it has finished normally, instead of after every new maximum.
   */
  function DeferredCursorAfter(last: string, outcome: Outcome, w: seq<Event>): string {
    if outcome == Finished then CursorAfter(last, w) else last
  }

  /**
   * With the save deferred to a normal finish, a run that ends early leaves
   * every event newer than its checkpoint to the next run, while a finished
   * run keeps the cross-run idempotence.
   */
  lemma DeferredCheckpointSound(rs: seq<Response>, last: string, outcome: Outcome)
    requires LessEq(Unset, last)
    ensures outcome != Finished ==>
      forall e :: Newer(e, last) ==> Newer(e, DeferredCursorAfter(last, outcome, Forwarded(rs, last)))
    ensures outcome == Finished ==> Forwarded(rs, DeferredCursorAfter(last, outcome, Forwarded(rs, last))) == []
  {
    RerunForwardsNothing(rs, last, CursorAfter(last, Forwarded(rs, last)));
  }

  /**
   * With the deferred save, the run after the abort above forwards the event
   * that was lost, at the price of forwarding again the event the aborted run
   * had already forwarded: the loss becomes a duplicate delivery.
   */
  lemma DeferredRecoversLostEvent()
    ensures var e5, e4 := Event("5", "newer"), Event("4", "older");
      var run1 := [Ok([e5], Some("p2")), Fail("boom")];
      var run2 := [Ok([e5], Some("p2")), Ok([e4], None)];
      var next := DeferredCursorAfter("1", Settle(run1[1], "1"), Forwarded(run1, "1"));
      && next == "1"
      && Continues(run2[0], next)
      && Forwarded(run2, next) == [e5, e4]
      && e5 in Forwarded(run1, "1") && e5 in Forwarded(run2, next)
  {
    var e5, e4 := Event("5", "newer"), Event("4", "older");
    var run1 := [Ok([e5], Some("p2")), Fail("boom")];
    var run2 := [Ok([e5], Some("p2")), Ok([e4], None)];
    assert Less("1", "5") && Less("1", "4");
    assert Forwarded(run1, "1") == [e5] by {
      assert NewerPrefix([e5], "1") == [e5];
      assert run1[..1] == [run1[0]] && Forwarded([run1[0]], "1") == [e5];
    }
    assert Forwarded(run2, "1") == [e5, e4] by {
      assert !HasStale([e5], "1");
      assert NewerPrefix([e5], "1") == [e5] && NewerPrefix([e4], "1") == [e4];
      assert run2[..1] == [run2[0]] && Forwarded(run2[..1], "1") == [e5];
    }
  }

  /**
   * Restart without duplication: if the process is stopped at any quiescent
   * point of a run, the next run's start checkpoint is the file's value, and
   * no event forwarded before the stop passes that run's filter again.
   */
  lemma RerunSkipsForwarded(stored: Option<string>, bootstrap: string, tr: seq<Effect>, k: nat, e: Event)
    requires SavedPromptly(Unset, tr) && k <= |tr| && Quiescent(tr, k)
    requires e in Writes(tr[..k]) && Less(Unset, e.time)
    ensures FileAfter(stored, tr[..k]).Some?
    ensures !Newer(e, StartCursor(FileAfter(stored, tr[..k]), bootstrap))
  {
    SavedCoversWritten(Unset, tr, k, e);
    var saves := Saves(tr[..k]);
    NotLessIsLessEq(e.time, saves[|saves| - 1]);
  }
}
