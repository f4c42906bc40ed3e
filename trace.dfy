/**
 * What one collection run does to the outside world, in order: HTTP
 * requests, back-off sleeps, events handed to the sink, and values written
 * to the checkpoint file.
 */
module Trace {
  import opened TimeOrder
  import opened Checkpoint

  /** One audit record: its `attributes.time` string and the rest of its payload. */
  datatype Event = Event(time: string, data: string)

  datatype Effect =
    | Get(url: string)       // one `session.get`
    | Sleep(seconds: int)    // one rate-limit back-off
    | Write(event: Event)    // one `ew.write_event`
    | Save(cursor: string)   // one overwrite of the checkpoint file

  function Times(es: seq<Event>): seq<string>
    decreases |es|
  {
    if es == [] then [] else [es[0].time] + Times(es[1..])
  }

  function Writes(tr: seq<Effect>): seq<Event>
    decreases |tr|
  {
    if tr == [] then []
    else (if tr[0].Write? then [tr[0].event] else []) + Writes(tr[1..])
  }

  function Saves(tr: seq<Effect>): seq<string>
    decreases |tr|
  {
    if tr == [] then []
    else (if tr[0].Save? then [tr[0].cursor] else []) + Saves(tr[1..])
  }

  function Gets(tr: seq<Effect>): seq<string>
    decreases |tr|
  {
    if tr == [] then []
    else (if tr[0].Get? then [tr[0].url] else []) + Gets(tr[1..])
  }

  function Sleeps(tr: seq<Effect>): seq<int>
    decreases |tr|
  {
    if tr == [] then []
    else (if tr[0].Sleep? then [tr[0].seconds] else []) + Sleeps(tr[1..])
  }

  /** The projections of a one-effect log. */
  lemma ProjectionsSingle(x: Effect)
    ensures Writes([x]) == (if x.Write? then [x.event] else [])
    ensures Saves([x]) == (if x.Save? then [x.cursor] else [])
    ensures Gets([x]) == (if x.Get? then [x.url] else [])
    ensures Sleeps([x]) == (if x.Sleep? then [x.seconds] else [])
  {
    assert [x][1..] == [];
  }

  lemma {:induction false} TimesAppend(a: seq<Event>, b: seq<Event>)
    ensures Times(a + b) == Times(a) + Times(b)
    ensures |Times(a)| == |a| && forall i :: 0 <= i < |a| ==> Times(a)[i] == a[i].time
    decreases |a|
  {
    if a != [] {
      assert (a + b)[1..] == a[1..] + b;
      TimesAppend(a[1..], b);
    } else {
      assert a + b == b;
    }
  }

  /** Every projection of a concatenated log is the concatenation of the projections. */
  lemma ProjectionsAppend(a: seq<Effect>, b: seq<Effect>)
    ensures Writes(a + b) == Writes(a) + Writes(b)
    ensures Saves(a + b) == Saves(a) + Saves(b)
    ensures Gets(a + b) == Gets(a) + Gets(b)
    ensures Sleeps(a + b) == Sleeps(a) + Sleeps(b)
  {
    SinkAppend(a, b);
    RequestsAppend(a, b);
  }

  lemma {:induction false} SinkAppend(a: seq<Effect>, b: seq<Effect>)
    ensures Writes(a + b) == Writes(a) + Writes(b)
    ensures Saves(a + b) == Saves(a) + Saves(b)
    decreases |a|
  {
    if a != [] {
      assert (a + b)[1..] == a[1..] + b;
      SinkAppend(a[1..], b);
    } else {
      assert a + b == b;
    }
  }

  lemma {:induction false} RequestsAppend(a: seq<Effect>, b: seq<Effect>)
    ensures Gets(a + b) == Gets(a) + Gets(b)
    ensures Sleeps(a + b) == Sleeps(a) + Sleeps(b)
    decreases |a|
  {
    if a != [] {
      assert (a + b)[1..] == a[1..] + b;
      RequestsAppend(a[1..], b);
    } else {
      assert a + b == b;
    }
  }

  /** The log of a run as the concatenation of its per-request rounds. */
  function Flatten(rounds: seq<seq<Effect>>): seq<Effect>
    decreases |rounds|
  {
    if rounds == [] then [] else Flatten(rounds[..|rounds| - 1]) + rounds[|rounds| - 1]
  }

  /**
   * A point in the log where a crash leaves the checkpoint file consistent:
   * the end, or any point not between a sink write and the save that follows it.
   */
  predicate Quiescent(tr: seq<Effect>, k: nat)
    requires k <= |tr|
  {
    k == |tr| || !tr[k].Save?
  }

  /**
   * At every quiescent point, the checkpoint file has been overwritten exactly
   * with the successive maxima (above `m`) of the timestamps forwarded so far.
   */
  predicate SavedPromptly(m: string, tr: seq<Effect>) {
    forall k: nat {:trigger Quiescent(tr, k)} :: k <= |tr| && Quiescent(tr, k) ==>
      Saves(tr[..k]) == Records(m, Times(Writes(tr[..k])))
  }

  lemma SavedPromptlyEnd(m: string, tr: seq<Effect>)
    requires SavedPromptly(m, tr)
    ensures Saves(tr) == Records(m, Times(Writes(tr)))
  {
    assert Quiescent(tr, |tr|);
    assert tr[..|tr|] == tr;
  }

  /** A log with no write and no save keeps the property trivially. */
  lemma QuietSavedPromptly(m: string, tr: seq<Effect>)
    requires forall i :: 0 <= i < |tr| ==> !tr[i].Write? && !tr[i].Save?
    ensures SavedPromptly(m, tr)
  {
    forall k: nat | k <= |tr|
      ensures Writes(tr[..k]) == [] && Saves(tr[..k]) == []
    {
      QuietPrefix(tr[..k]);
    }
  }

  lemma {:induction false} QuietPrefix(tr: seq<Effect>)
    requires forall i :: 0 <= i < |tr| ==> !tr[i].Write? && !tr[i].Save?
    ensures Writes(tr) == [] && Saves(tr) == []
    decreases |tr|
  {
    if tr != [] {
      QuietPrefix(tr[1..]);
    }
  }

  /** The property composes: `b` continues from the running maximum `a` left behind. */
  lemma SavedPromptlyAppend(m: string, a: seq<Effect>, b: seq<Effect>)
    requires SavedPromptly(m, a)
    requires SavedPromptly(MaxFrom(m, Times(Writes(a))), b)
    ensures SavedPromptly(m, a + b)
  {
    var ab := a + b;
    SavedPromptlyEnd(m, a);
    forall k: nat | k <= |ab| && Quiescent(ab, k)
      ensures Saves(ab[..k]) == Records(m, Times(Writes(ab[..k])))
    {
      if k <= |a| {
        assert ab[..k] == a[..k];
        assert Quiescent(a, k);
      } else {
        var j := k - |a|;
        assert ab[..k] == a + b[..j];
        assert Quiescent(b, j);
        ProjectionsAppend(a, b[..j]);
        TimesAppend(Writes(a), Writes(b[..j]));
        RecordsAppend(m, Times(Writes(a)), Times(Writes(b[..j])));
      }
    }
  }

  /**
   * Crash safety: stopped at any quiescent point, every forwarded event above
   * `m` is covered by the checkpoint file, so a restart from the file's value
   * does not forward it again.
   */
  lemma SavedCoversWritten(m: string, tr: seq<Effect>, k: nat, e: Event)
    requires SavedPromptly(m, tr) && k <= |tr| && Quiescent(tr, k)
    requires e in Writes(tr[..k]) && Less(m, e.time)
    ensures Saves(tr[..k]) != []
    ensures LessEq(e.time, Saves(tr[..k])[|Saves(tr[..k])| - 1])
  {
    var w := Writes(tr[..k]);
    var ts := Times(w);
    TimesAppend(w, []);
    var i :| 0 <= i < |w| && w[i] == e;
    assert ts[i] == e.time;
    MaxFromBounds(m, ts);
    RecordsShape(m, ts);
    if MaxFrom(m, ts) == m {
      LessEqLessTransitive(e.time, m, e.time);
      LessIrreflexive(e.time);
    }
  }
}
