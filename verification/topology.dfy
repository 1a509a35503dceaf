/** The pipe network of a conference of `n` philosophers: one pipe for every
    ordered pair of distinct peers, created pair by pair in a fixed order,
    so that every peer knows which of its read pipes belongs to which peer.
 */
module Topology {

  /** The pipe written by `writer` and read by `reader`. */
  datatype Channel = Channel(writer: int, reader: int)

  /** One file descriptor of the conference's pipe list. */
  datatype Fd = ReadEnd(ch: Channel) | WriteEnd(ch: Channel)

  /** `lo, lo+1, ..., hi-1`. */
  function Range(lo: int, hi: int): (r: seq<int>)
    requires lo <= hi
    ensures |r| == hi - lo
    ensures forall x :: 0 <= x < |r| ==> r[x] == lo + x
  {
    seq(hi - lo, x requires 0 <= x < hi - lo => lo + x)
  }

  /** The peers other than `k` among `0..n-1`, in ascending order: the
      order of peer `k`'s read pipes, and of its write pipes. */
  function Others(n: nat, k: nat): (r: seq<int>)
    requires k < n
    ensures |r| == n - 1
    ensures forall x :: 0 <= x < |r| ==> 0 <= r[x] < n && r[x] != k
  {
    Range(0, k) + Range(k + 1, n)
  }

  /** Both ends of a pipe belong to the conference and are distinct. */
  ghost predicate InMesh(n: nat, c: Channel) {
    0 <= c.writer < n && 0 <= c.reader < n && c.writer != c.reader
  }

  /** The loop of `ConnectPhilosophers`, standing at row `i`, column `j`,
      has already created the pipes of `c`'s pair of peers. */
  ghost predicate Wired(i: int, j: int, c: Channel) {
    var lo := if c.writer < c.reader then c.writer else c.reader;
    var hi := if c.writer < c.reader then c.reader else c.writer;
    lo < i || (lo == i && hi < j)
  }

  /** The read lists after the loop of `ConnectPhilosophers` has handled
      every pair before `(i, j)`: rows before `i` are complete, row `i` has
      its lower peers and the columns before `j`, and every later peer has
      heard from the rows before it. (The write lists are identical.) */
  ghost predicate ReadsAt(n: nat, i: nat, j: nat, readFrom: seq<seq<int>>)
    requires i < j <= n + 1
  {
    && |readFrom| == n
    && (forall k :: 0 <= k < n && k < i ==> readFrom[k] == Others(n, k))
    && (i < n ==> readFrom[i] == Range(0, i) + Range(i + 1, j))
    && (forall k :: i < k < j && k < n ==> readFrom[k] == Range(0, i + 1))
    && (forall k :: j <= k < n ==> readFrom[k] == Range(0, i))
  }

  /** The descriptor list after the same pairs: four per pair, each pipe end
      of a handled pair exactly once, nothing else. */
  ghost predicate PipesAt(n: nat, i: nat, j: nat, pipes: seq<Fd>) {
    && i <= n && |pipes| == 4 * (RowPairs(n, i) + (j - i - 1))
    && (forall x :: 0 <= x < |pipes| ==> InMesh(n, pipes[x].ch) && Wired(i, j, pipes[x].ch))
    && (forall x, y :: 0 <= x < y < |pipes| ==> pipes[x] != pipes[y])
    && (forall a, b :: 0 <= a < n && 0 <= b < n && a != b && Wired(i, j, Channel(a, b)) ==>
          ReadEnd(Channel(a, b)) in pipes && WriteEnd(Channel(a, b)) in pipes)
  }

  /** The four descriptors created for the pair `i < j`, in the order the
      source lists them. */
  function PairFds(i: int, j: int): seq<Fd> {
    [ReadEnd(Channel(i, j)), WriteEnd(Channel(i, j)), ReadEnd(Channel(j, i)), WriteEnd(Channel(j, i))]
  }

  /** `Conference.connect_philosophers`: for every pair `i < j`, in row-major
      order, two pipes, one per direction. `readFrom[k]` lists the peers
      behind peer `k`'s read pipes, `writeTo[k]` the peers behind its write
      pipes, both in the order they were handed out; `pipes` lists every
      descriptor created. */
  method ConnectPhilosophers(n: nat) returns (readFrom: seq<seq<int>>, writeTo: seq<seq<int>>, pipes: seq<Fd>)
    ensures |readFrom| == n && |writeTo| == n
    ensures forall k :: 0 <= k < n ==> readFrom[k] == Others(n, k) && writeTo[k] == Others(n, k)
    ensures |pipes| == 2 * n * (n - 1)
    ensures forall x :: 0 <= x < |pipes| ==> InMesh(n, pipes[x].ch)
    ensures forall a, b :: 0 <= a < n && 0 <= b < n && a != b ==>
              ReadEnd(Channel(a, b)) in pipes && WriteEnd(Channel(a, b)) in pipes
    ensures forall x, y :: 0 <= x < y < |pipes| ==> pipes[x] != pipes[y]
  {
    readFrom := seq(n, _ => []);
    writeTo := readFrom;
    pipes := [];
    var i := 0;
    while i < n
      invariant 0 <= i <= n
      invariant writeTo == readFrom
      invariant (readFrom, pipes) == Connected(n, i, i + 1)
    {
      var j := i + 1;
      while j < n
        invariant i + 1 <= j <= n
        invariant writeTo == readFrom
        invariant (readFrom, pipes) == Connected(n, i, j)
      {
        readFrom := readFrom[i := readFrom[i] + [j]];
        readFrom := readFrom[j := readFrom[j] + [i]];
        writeTo := writeTo[i := writeTo[i] + [j]];
        writeTo := writeTo[j := writeTo[j] + [i]];
        pipes := pipes + PairFds(i, j);
        j := j + 1;
      }
      i := i + 1;
    }
    ConnectedAll(n);
  }

  /** The read lists and descriptor list of `ConnectPhilosophers` before it
      handles the pair `(i, j)`. */
  function Connected(n: nat, i: nat, j: nat): (r: (seq<seq<int>>, seq<Fd>))
    requires i <= n && i < j && (j <= n || j == i + 1)
    ensures |r.0| == n
    decreases i, j
  {
    if j == i + 1 then
      if i == 0 then (seq(n, _ => []), []) else Connected(n, i - 1, n)
    else
      var (readFrom, pipes) := Connected(n, i, j - 1);
      (readFrom[i := readFrom[i] + [j - 1]][j - 1 := readFrom[j - 1] + [i]], pipes + PairFds(i, j - 1))
  }

  /** What the loop has built before the pair `(i, j)`. */
  lemma {:induction false} ConnectedAt(n: nat, i: nat, j: nat)
    requires i <= n && i < j && (j <= n || j == i + 1)
    ensures ReadsAt(n, i, j, Connected(n, i, j).0)
    ensures PipesAt(n, i, j, Connected(n, i, j).1)
    decreases i, j, 1
  {
    if j == i + 1 {
      ConnectedRowStart(n, i);
    } else {
      ConnectedAt(n, i, j - 1);
      ConnectedPair(n, i, j);
    }
  }

  /** What the loop has built when it starts row `i`. */
  lemma {:induction false} ConnectedRowStart(n: nat, i: nat)
    requires i <= n
    ensures ReadsAt(n, i, i + 1, Connected(n, i, i + 1).0)
    ensures PipesAt(n, i, i + 1, Connected(n, i, i + 1).1)
    decreases i, i + 1, 0
  {
    if i == 0 {
      ConnectedStart(n);
    } else {
      ConnectedAt(n, i - 1, n);
      ConnectedRow(n, i);
    }
  }

  /** Before the first pair: every read list empty, no descriptors. */
  lemma ConnectedStart(n: nat)
    ensures ReadsAt(n, 0, 1, Connected(n, 0, 1).0) && PipesAt(n, 0, 1, Connected(n, 0, 1).1)
  {
    var readFrom: seq<seq<int>> := seq(n, _ => []);
    assert Connected(n, 0, 1) == (readFrom, []);
    assert Range(0, 0) == [] && Range(1, 1) == [];
    assert forall k :: 0 <= k < n ==> readFrom[k] == [];
  }

  /** Handling the pair `(i, j - 1)`. */
  lemma ConnectedPair(n: nat, i: nat, j: nat)
    requires i + 1 < j <= n
    requires ReadsAt(n, i, j - 1, Connected(n, i, j - 1).0) && PipesAt(n, i, j - 1, Connected(n, i, j - 1).1)
    ensures ReadsAt(n, i, j, Connected(n, i, j).0) && PipesAt(n, i, j, Connected(n, i, j).1)
  {
    var (readFrom, pipes) := Connected(n, i, j - 1);
    ReadsStep(n, i, j, readFrom);
    PipesStep(n, i, j, pipes);
  }

  /** Moving on from the finished row `i - 1` to row `i`. */
  lemma ConnectedRow(n: nat, i: nat)
    requires 0 < i <= n
    requires ReadsAt(n, i - 1, n, Connected(n, i - 1, n).0) && PipesAt(n, i - 1, n, Connected(n, i - 1, n).1)
    ensures ReadsAt(n, i, i + 1, Connected(n, i, i + 1).0) && PipesAt(n, i, i + 1, Connected(n, i, i + 1).1)
  {
    var (readFrom, pipes) := Connected(n, i - 1, n);
    ReadsRow(n, i, readFrom);
    PipesRow(n, i, pipes);
  }

  /** Once every pair is handled, each peer reads from and writes to every
      other peer, and each pipe end is listed once. */
  lemma ConnectedAll(n: nat)
    ensures var (readFrom, pipes) := Connected(n, n, n + 1);
            && (forall k :: 0 <= k < n ==> readFrom[k] == Others(n, k))
            && |pipes| == 2 * n * (n - 1)
            && (forall x :: 0 <= x < |pipes| ==> InMesh(n, pipes[x].ch))
            && (forall a, b :: 0 <= a < n && 0 <= b < n && a != b ==>
                  ReadEnd(Channel(a, b)) in pipes && WriteEnd(Channel(a, b)) in pipes)
            && (forall x, y :: 0 <= x < y < |pipes| ==> pipes[x] != pipes[y])
  {
    ConnectedAt(n, n, n + 1);
    PipesDone(n, Connected(n, n, n + 1).1);
  }

  lemma ReadsStep(n: nat, i: nat, j: nat, readFrom: seq<seq<int>>)
    requires i + 1 < j <= n && ReadsAt(n, i, j - 1, readFrom)
    ensures ReadsAt(n, i, j, readFrom[i := readFrom[i] + [j - 1]][j - 1 := readFrom[j - 1] + [i]])
  {
    assert Range(0, i) + Range(i + 1, j) == readFrom[i] + [j - 1];
    assert Range(0, i + 1) == Range(0, i) + [i];
  }

  lemma ReadsRow(n: nat, i: nat, readFrom: seq<seq<int>>)
    requires 0 < i <= n && ReadsAt(n, i - 1, n, readFrom)
    ensures ReadsAt(n, i, i + 1, readFrom)
  {
    assert Range(0, i - 1) + Range(i, n) == Others(n, i - 1);
  }

  lemma PipesStep(n: nat, i: nat, j: nat, pipes: seq<Fd>)
    requires i + 1 < j <= n && PipesAt(n, i, j - 1, pipes)
    ensures PipesAt(n, i, j, pipes + PairFds(i, j - 1))
  {
    PipesStepDistinct(n, i, j, pipes);
    PipesStepComplete(n, i, j, pipes);
  }

  /** The four new descriptors are new. */
  lemma PipesStepDistinct(n: nat, i: nat, j: nat, pipes: seq<Fd>)
    requires i + 1 < j <= n && PipesAt(n, i, j - 1, pipes)
    ensures var p := pipes + PairFds(i, j - 1);
            forall x, y :: 0 <= x < y < |p| ==> p[x] != p[y]
  {
    var k := j - 1;
    var p := pipes + PairFds(i, k);
    forall x, y | 0 <= x < y < |p|
      ensures p[x] != p[y]
    {
      if y >= |pipes| && x < |pipes| {
        assert Wired(i, k, p[x].ch) && !Wired(i, k, p[y].ch);
      }
    }
  }

  /** Every channel wired so far has both its descriptors listed. */
  lemma PipesStepComplete(n: nat, i: nat, j: nat, pipes: seq<Fd>)
    requires i + 1 < j <= n && PipesAt(n, i, j - 1, pipes)
    ensures var p := pipes + PairFds(i, j - 1);
            forall a, b :: 0 <= a < n && 0 <= b < n && a != b && Wired(i, j, Channel(a, b)) ==>
              ReadEnd(Channel(a, b)) in p && WriteEnd(Channel(a, b)) in p
  {
    var k := j - 1;
    var p := pipes + PairFds(i, k);
    forall a, b | 0 <= a < n && 0 <= b < n && a != b && Wired(i, j, Channel(a, b))
      ensures ReadEnd(Channel(a, b)) in p && WriteEnd(Channel(a, b)) in p
    {
      if !Wired(i, k, Channel(a, b)) {
        assert Channel(a, b) == Channel(i, k) || Channel(a, b) == Channel(k, i);
        assert p[|pipes|] == ReadEnd(Channel(i, k)) && p[|pipes| + 1] == WriteEnd(Channel(i, k));
        assert p[|pipes| + 2] == ReadEnd(Channel(k, i)) && p[|pipes| + 3] == WriteEnd(Channel(k, i));
      } else {
        assert ReadEnd(Channel(a, b)) in pipes && WriteEnd(Channel(a, b)) in pipes;
      }
    }
  }

  lemma PipesRow(n: nat, i: nat, pipes: seq<Fd>)
    requires 0 < i <= n && PipesAt(n, i - 1, n, pipes)
    ensures PipesAt(n, i, i + 1, pipes)
  {
    forall a, b | 0 <= a < n && 0 <= b < n && a != b
      ensures Wired(i, i + 1, Channel(a, b)) <==> Wired(i - 1, n, Channel(a, b))
    {
    }
  }

  lemma PipesDone(n: nat, pipes: seq<Fd>)
    requires PipesAt(n, n, n + 1, pipes)
    ensures |pipes| == 2 * n * (n - 1)
    ensures forall a, b :: 0 <= a < n && 0 <= b < n && a != b ==>
              ReadEnd(Channel(a, b)) in pipes && WriteEnd(Channel(a, b)) in pipes
  {
    forall a, b | 0 <= a < n && 0 <= b < n && a != b
      ensures Wired(n, n + 1, Channel(a, b))
    {
    }
    RowPairsCount(n, n);
  }

  /** The number of pairs `(a, b)`, `a < b < n`, in the rows `a < i`. */
  function RowPairs(n: nat, i: nat): nat
    requires i <= n
  {
    if i == 0 then 0 else RowPairs(n, i - 1) + (n - i)
  }

  /** The rows before `i` hold `i * (2n - i - 1) / 2` pairs. */
  lemma {:induction false} RowPairsCount(n: nat, i: nat)
    requires i <= n
    ensures 2 * RowPairs(n, i) == i * (2 * n - i - 1)
  {
    if i > 0 {
      RowPairsCount(n, i - 1);
    }
  }

  /** Peer `k` has one pipe from, and one pipe to, every other peer, and no
      pipe to itself. */
  lemma OthersComplete(n: nat, k: nat)
    requires k < n
    ensures |Others(n, k)| == n - 1
    ensures forall x :: 0 <= x < n - 1 ==> 0 <= Others(n, k)[x] < n && Others(n, k)[x] != k
    ensures forall x, y :: 0 <= x < y < n - 1 ==> Others(n, k)[x] < Others(n, k)[y]
    ensures forall m :: 0 <= m < n && m != k ==> m in Others(n, k)
  {
    var o := Others(n, k);
    forall m | 0 <= m < n && m != k
      ensures m in o
    {
      if m < k {
        assert o[m] == m;
      } else {
        assert o[m - 1] == m;
      }
    }
  }

  /** The index `wait_for_exits` computes for the peer it waits on: the
      target id itself, less one when the target is above the waiting peer's
      own id. */
  function WaitIndex(self: int, target: int): (x: int)
    ensures target != self ==> (x < self <==> target < self)
  {
    if target > self then target - 1 else target
  }

  /** The index arithmetic picks the read pipe written by the target peer,
      and no other read pipe of the waiting peer comes from that target. */
  lemma WaitIndexSelects(n: nat, k: nat, m: int)
    requires k < n && 0 <= m < n && m != k
    ensures 0 <= WaitIndex(k, m) < |Others(n, k)|
    ensures Others(n, k)[WaitIndex(k, m)] == m
    ensures forall x :: 0 <= x < |Others(n, k)| && Others(n, k)[x] == m ==> x == WaitIndex(k, m)
  {
    OthersComplete(n, k);
  }

  /** The pipes agree end to end: `m` is among the peers `k` writes to
      exactly when `k` is among the peers `m` reads from. */
  lemma PipesPair(n: nat, k: nat, m: nat)
    requires k < n && m < n
    ensures m in Others(n, k) <==> k in Others(n, m)
  {
    if m != k {
      OthersComplete(n, k);
      OthersComplete(n, m);
    }
  }
}
