/** The conference: how many philosophers sit down, and the state each one
    starts the round with.
 */
module Conference {
  import opened Results
  import opened Topology
  import opened Philosopher

  /** Fewest and most philosophers a conference seats. */
  const MIN_PEERS := 3
  const MAX_PEERS := 10

  /** The requested count; Python's `None` is `Unset`. */
  datatype Requested = Unset | Count(n: int)

  /** `Conference.__init__`: a missing or too small count becomes the
      minimum, a too large one the maximum, anything in between stays. */
  function ClampPeers(requested: Requested): (n: int)
    ensures MIN_PEERS <= n <= MAX_PEERS
    ensures requested.Count? && MIN_PEERS <= requested.n <= MAX_PEERS ==> n == requested.n
    ensures requested.Unset? || requested.n < MIN_PEERS ==> n == MIN_PEERS
    ensures requested.Count? && requested.n > MAX_PEERS ==> n == MAX_PEERS
  {
    var n := if requested.Unset? || requested.n < MIN_PEERS then MIN_PEERS else requested.n;
    if n > MAX_PEERS then MAX_PEERS else n
  }

  /** The philosophers of `Conference.start` once `connect_philosophers`
      has run and `do(k)` has set the ids: philosopher `k` has id `k`, the
      given starting clock, an empty queue, and the pipe lists of the
      topology. The starting clocks are random in the source and are a
      parameter here. */
  function Seated(clocks: seq<int>): (peers: seq<State>)
    ensures |peers| == |clocks|
    ensures forall k :: 0 <= k < |clocks| ==>
              peers[k] == State(k, clocks[k], [], Others(|clocks|, k), Others(|clocks|, k))
  {
    seq(|clocks|, k requires 0 <= k < |clocks| => State(k, clocks[k], [], Others(|clocks|, k), Others(|clocks|, k)))
  }
}
