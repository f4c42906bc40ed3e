/**
 * The checkpoint cursor of one run. The collector starts its running maximum
 * `first` at the literal "0" and, for every forwarded timestamp that beats it,
 * raises it and rewrites the checkpoint file. `MaxFrom` is that running
 * maximum; `Records` is the sequence of values written to the file.
 */
module Checkpoint {
  import opened TimeOrder

  /** The running maximum after scanning `ts`, starting from `m`. */
  function MaxFrom(m: string, ts: seq<string>): string
    decreases |ts|
  {
    if ts == [] then m else MaxFrom(Max(m, ts[0]), ts[1..])
  }

  /** The values that beat the running maximum, in the order they do: the checkpoint saves. */
  function Records(m: string, ts: seq<string>): seq<string>
    decreases |ts|
  {
    if ts == [] then []
    else if Less(m, ts[0]) then [ts[0]] + Records(ts[0], ts[1..])
    else Records(m, ts[1..])
  }

  /** The running maximum bounds the start and every scanned value, and is one of them. */
  lemma {:induction false} MaxFromBounds(m: string, ts: seq<string>)
    ensures LessEq(m, MaxFrom(m, ts))
    ensures forall i :: 0 <= i < |ts| ==> LessEq(ts[i], MaxFrom(m, ts))
    ensures MaxFrom(m, ts) == m || MaxFrom(m, ts) in ts
    decreases |ts|
  {
    if ts != [] {
      var m' := Max(m, ts[0]);
      MaxBounds(m, ts[0]);
      MaxFromBounds(m', ts[1..]);
      LessEqTransitive(m, m', MaxFrom(m', ts[1..]));
      LessEqTransitive(ts[0], m', MaxFrom(m', ts[1..]));
      forall i | 1 <= i < |ts|
        ensures LessEq(ts[i], MaxFrom(m, ts))
      {
        assert ts[i] == ts[1..][i - 1];
      }
    }
  }

  /**
   * The saved values are strictly increasing, each beats the start, each is
   * a scanned value, and the file is written at all exactly when the running
   * maximum moves; the last save is then the final maximum.
   */
  lemma {:induction false} RecordsShape(m: string, ts: seq<string>)
    ensures forall i :: 0 <= i < |Records(m, ts)| ==> Less(m, Records(m, ts)[i])
    ensures forall i, j :: 0 <= i < j < |Records(m, ts)| ==> Less(Records(m, ts)[i], Records(m, ts)[j])
    ensures forall t :: t in Records(m, ts) ==> t in ts
    ensures Records(m, ts) == [] <==> MaxFrom(m, ts) == m
    ensures Records(m, ts) != [] ==> Records(m, ts)[|Records(m, ts)| - 1] == MaxFrom(m, ts)
    decreases |ts|
  {
    if ts != [] {
      var t := ts[0];
      RecordsShape(Max(m, t), ts[1..]);
      if Less(m, t) {
        var r := Records(t, ts[1..]);
        assert Records(m, ts) == [t] + r;
        forall i | 0 <= i < |r|
          ensures Less(m, r[i])
        {
          LessTransitive(m, t, r[i]);
        }
        MaxFromBounds(t, ts[1..]);
        assert MaxFrom(m, ts) == MaxFrom(t, ts[1..]);
        if MaxFrom(m, ts) == m {
          LessEqLessTransitive(t, m, t);
          LessIrreflexive(t);
        }
      } else {
        assert Max(m, t) == m;
      }
    }
  }

  /** Scanning `a` and then `b` is scanning `a` and continuing from where it left off. */
  lemma {:induction false} RecordsAppend(m: string, a: seq<string>, b: seq<string>)
    ensures MaxFrom(m, a + b) == MaxFrom(MaxFrom(m, a), b)
    ensures Records(m, a + b) == Records(m, a) + Records(MaxFrom(m, a), b)
    decreases |a|
  {
    if a == [] {
      assert a + b == b;
    } else {
      assert (a + b)[0] == a[0] && (a + b)[1..] == a[1..] + b;
      RecordsAppend(Max(m, a[0]), a[1..], b);
    }
  }
}
