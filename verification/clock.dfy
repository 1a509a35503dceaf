/** The Lamport clock of one peer: an unbounded integer (Python `int`).
    The only rule the program applies is the receive rule; sending a message
    does not advance the clock.
 */
module LamportClock {

  /** The receive rule: after reading a message stamped `t`, the clock
      becomes `max(clock, t) + 1`, the least value above both. */
  function Observe(clock: int, t: int): (r: int)
    ensures r > clock && r > t
    ensures r == clock + 1 || r == t + 1
  {
    (if clock >= t then clock else t) + 1
  }

  /** The clock after reading messages stamped `ts`, in that order. */
  function ObserveAll(clock: int, ts: seq<int>): (r: int)
    ensures r >= clock + |ts|
    ensures forall k :: 0 <= k < |ts| ==> r > ts[k]
    decreases |ts|
  {
    if |ts| == 0 then clock else ObserveAll(Observe(clock, ts[0]), ts[1..])
  }

  /** A later start never gives an earlier clock: the rule is monotone in
      the clock it starts from. */
  lemma {:induction false} ObserveAllMonotone(c1: int, c2: int, ts: seq<int>)
    requires c1 <= c2
    ensures ObserveAll(c1, ts) <= ObserveAll(c2, ts)
    decreases |ts|
  {
    if |ts| > 0 {
      ObserveAllMonotone(Observe(c1, ts[0]), Observe(c2, ts[0]), ts[1..]);
    }
  }

  /** Reading messages one batch after another is the same as reading them
      all at once, so the clock never goes back between batches. */
  lemma {:induction false} ObserveAllAppend(clock: int, ts: seq<int>, us: seq<int>)
    ensures ObserveAll(clock, ts + us) == ObserveAll(ObserveAll(clock, ts), us)
    decreases |ts|
  {
    if |ts| == 0 {
      assert ts + us == us;
    } else {
      assert (ts + us)[0] == ts[0];
      assert (ts + us)[1..] == ts[1..] + us;
      ObserveAllAppend(Observe(clock, ts[0]), ts[1..], us);
    }
  }

  /** When no stamp is ahead of the starting clock, every read advances the
      clock by exactly one. */
  lemma {:induction false} ObserveAllBelow(clock: int, ts: seq<int>)
    requires forall k :: 0 <= k < |ts| ==> ts[k] <= clock
    ensures ObserveAll(clock, ts) == clock + |ts|
    decreases |ts|
  {
    if |ts| > 0 {
      ObserveAllBelow(Observe(clock, ts[0]), ts[1..]);
    }
  }

  /** The clock after the reads stays below any bound `b` that the starting
      clock and every stamp stay below, plus one per read. */
  lemma {:induction false} ObserveAllAtMost(clock: int, ts: seq<int>, b: int)
    requires clock < b && forall k :: 0 <= k < |ts| ==> ts[k] < b
    ensures ObserveAll(clock, ts) < b + |ts|
    decreases |ts|
  {
    if |ts| > 0 {
      ObserveAllAtMost(Observe(clock, ts[0]), ts[1..], b + 1);
    }
  }
}
