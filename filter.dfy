/**
 * The incremental filter: an event is forwarded when its time string is
 * strictly greater than the start-of-run checkpoint `last`; the first event
 * that is not ends the scan of its page and the paging altogether.
 */
module Filter {
  import opened TimeOrder
  import opened Trace

  predicate Newer(e: Event, last: string) {
    Less(last, e.time)
  }

  /** Some event of the page is not newer than `last`: the page ends the run. */
  predicate HasStale(events: seq<Event>, last: string) {
    exists i :: 0 <= i < |events| && !Newer(events[i], last)
  }

  /** The events of a page that precede its first stale event. */
  function NewerPrefix(events: seq<Event>, last: string): seq<Event>
    decreases |events|
  {
    if events == [] || !Newer(events[0], last) then []
    else [events[0]] + NewerPrefix(events[1..], last)
  }

  /** All newer events, wherever they stand: what an exhaustive scan would forward. */
  function AllNewer(events: seq<Event>, last: string): seq<Event>
    decreases |events|
  {
    if events == [] then []
    else (if Newer(events[0], last) then [events[0]] else []) + AllNewer(events[1..], last)
  }

  /** The API's ordering contract: newest first, ties allowed. */
  predicate NewestFirst(events: seq<Event>) {
    forall i, j :: 0 <= i < j < |events| ==> LessEq(events[j].time, events[i].time)
  }

  /**
   * `NewerPrefix` is the longest run of newer events at the head of the page:
   * any prefix of newer events followed by a stale event or by the end is it.
   */
  lemma {:induction false} NewerPrefixAt(events: seq<Event>, last: string, n: nat)
    requires n <= |events|
    requires forall j :: 0 <= j < n ==> Newer(events[j], last)
    requires n == |events| || !Newer(events[n], last)
    ensures NewerPrefix(events, last) == events[..n]
    decreases n
  {
    if n > 0 {
      NewerPrefixAt(events[1..], last, n - 1);
      assert events[..n] == [events[0]] + events[1..][..n - 1];
    }
  }

  /** The prefix is exactly as long as the whole page unless the page holds a stale event. */
  lemma {:induction false} NewerPrefixShape(events: seq<Event>, last: string)
    ensures |NewerPrefix(events, last)| <= |events|
    ensures NewerPrefix(events, last) == events[..|NewerPrefix(events, last)|]
    ensures forall e :: e in NewerPrefix(events, last) ==> Newer(e, last)
    ensures |NewerPrefix(events, last)| < |events| <==> HasStale(events, last)
    ensures |NewerPrefix(events, last)| < |events| ==> !Newer(events[|NewerPrefix(events, last)|], last)
    decreases |events|
  {
    if events != [] && Newer(events[0], last) {
      NewerPrefixShape(events[1..], last);
      if HasStale(events[1..], last) {
        var i :| 0 <= i < |events[1..]| && !Newer(events[1..][i], last);
        assert events[i + 1] == events[1..][i];
      }
      if HasStale(events, last) {
        var i :| 0 <= i < |events| && !Newer(events[i], last);
        assert i > 0 && events[1..][i - 1] == events[i];
      }
    }
  }

  /**
   * Early stop loses nothing when the page is newest first: every event after
   * a stale one is stale too, so the newer prefix is every newer event.
   */
  lemma {:induction false} EarlyStopLosesNothing(events: seq<Event>, last: string)
    requires NewestFirst(events)
    ensures NewerPrefix(events, last) == AllNewer(events, last)
    decreases |events|
  {
    if events != [] {
      if Newer(events[0], last) {
        EarlyStopLosesNothing(events[1..], last);
      } else {
        forall j | 0 <= j < |events|
          ensures !Newer(events[j], last)
        {
          NotLessIsLessEq(events[0].time, last);
          LessEqTransitive(events[j].time, events[0].time, last);
          NotLessIsLessEq(events[j].time, last);
        }
        NoneNewer(events, last);
      }
    }
  }

  lemma {:induction false} NoneNewer(events: seq<Event>, last: string)
    requires forall j :: 0 <= j < |events| ==> !Newer(events[j], last)
    ensures AllNewer(events, last) == []
    decreases |events|
  {
    if events != [] {
      NoneNewer(events[1..], last);
    }
  }

  /**
   * Across pages: when the whole stream is newest first, a page that holds a
   * stale event leaves nothing newer in the pages that were never requested.
   */
  lemma PagesAfterStopAreStale(before: seq<Event>, page: seq<Event>, after: seq<Event>, last: string)
    requires NewestFirst(before + page + after)
    requires HasStale(page, last)
    ensures forall e :: e in after ==> !Newer(e, last)
  {
    var s := before + page + after;
    var i :| 0 <= i < |page| && !Newer(page[i], last);
    assert s[|before| + i] == page[i];
    forall e | e in after
      ensures !Newer(e, last)
    {
      var j :| 0 <= j < |after| && after[j] == e;
      assert s[|before| + |page| + j] == e;
      NotLessIsLessEq(page[i].time, last);
      LessEqTransitive(e.time, page[i].time, last);
      NotLessIsLessEq(e.time, last);
    }
  }
}
