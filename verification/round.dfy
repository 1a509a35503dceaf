/** One round of the conference run on a sequential schedule: every
    philosopher requests, then every philosopher collects the Requests and
    replies, then every philosopher collects the Replies, and finally the
    philosophers take their turns in the admission order, each waiting for
    the Exits of those ahead of it and then leaving with its own Exit.

    Every read in the protocol is a blocking read of one pipe, and each pipe
    has one writer and one reader, so what a philosopher reads does not
    depend on how the processes interleave; the schedule below is one
    interleaving in which no read waits, and the results carry over.
 */
module Round {
  import opened Results
  import opened Sequences
  import opened Wire
  import opened LamportClock
  import opened AdmissionQueue
  import opened Topology
  import opened Fabric
  import opened Philosopher
  import opened Conference

  /** The Request line peer `w` sends with its starting clock. */
  function RequestLine(clocks: seq<int>, w: int): string
    requires 0 <= w < |clocks|
  {
    Encode(Message(REQUEST, w, clocks[w]))
  }

  /** The stamps of the Requests from the peers `ws`. */
  function Stamps(clocks: seq<int>, ws: seq<int>): (ts: seq<int>)
    requires forall x :: 0 <= x < |ws| ==> 0 <= ws[x] < |clocks|
    ensures |ts| == |ws|
    ensures forall x :: 0 <= x < |ws| ==> ts[x] == clocks[ws[x]]
  {
    seq(|ws|, x requires 0 <= x < |ws| => clocks[ws[x]])
  }

  /** The queue entries of the Requests from the peers `ws`. */
  function Requests(clocks: seq<int>, ws: seq<int>): (es: seq<Entry>)
    requires forall x :: 0 <= x < |ws| ==> 0 <= ws[x] < |clocks|
    ensures |es| == |ws|
    ensures forall x :: 0 <= x < |ws| ==> es[x] == Entry(clocks[ws[x]], REQUEST, ws[x])
  {
    seq(|ws|, x requires 0 <= x < |ws| => Entry(clocks[ws[x]], REQUEST, ws[x]))
  }

  /** Peer `k`'s clock once it has read every other peer's Request, which is
      the stamp of its Reply. */
  function ReplyClock(clocks: seq<int>, k: int): (c: int)
    requires 0 <= k < |clocks|
    ensures c >= clocks[k] + |clocks| - 1
    ensures forall j :: 0 <= j < |clocks| ==> c > clocks[j] || j == k
  {
    var ts := Stamps(clocks, Others(|clocks|, k));
    assert forall j :: 0 <= j < |clocks| && j != k ==> clocks[j] in ts by {
      OthersComplete(|clocks|, k);
      forall j | 0 <= j < |clocks| && j != k
        ensures clocks[j] in ts
      {
        var o := Others(|clocks|, k);
        assert j in o;
        var x :| 0 <= x < |o| && o[x] == j;
        assert ts[x] == clocks[j];
      }
    }
    ObserveAll(clocks[k], ts)
  }

  /** The Reply line peer `w` sends. */
  function ReplyLine(clocks: seq<int>, w: int): string
    requires 0 <= w < |clocks|
  {
    Encode(Message(REPLY, w, ReplyClock(clocks, w)))
  }

  /** The Exit line peer `w` sends: its id and the stamp of its own
      Request. */
  function ExitLine(clocks: seq<int>, w: int): string
    requires 0 <= w < |clocks|
  {
    Encode(Message(EXIT, w, clocks[w]))
  }

  /** Peer `k` of a conference of `n` with the pipes of the topology. */
  ghost predicate Wiring(n: nat, k: nat, p: State) {
    k < n && p.id == k && p.readFrom == Others(n, k) && p.writeTo == Others(n, k)
  }

  /** A broadcast by a wired peer puts one copy on each of its pipes to
      the other peers and nothing anywhere else. */
  lemma FanOthers(n: nat, k: nat, p: State, c: Channel)
    requires Wiring(n, k, p)
    ensures Fan(p, c) == if c.writer == k && InMesh(n, c) then 1 else 0
  {
    OthersComplete(n, k);
    OthersDistinct(n, k);
    DistinctCount(Others(n, k), c.reader);
  }

  lemma OthersDistinct(n: nat, k: nat)
    requires k < n
    ensures Distinct(Others(n, k))
  {
    OthersComplete(n, k);
  }

  /** Every Request entry is peer `k`'s own or another peer's. */
  lemma RequestsSplit(clocks: seq<int>, k: nat)
    requires k < |clocks|
    ensures multiset(RequestEntries(clocks))
            == multiset{Entry(clocks[k], REQUEST, k)} + multiset(Requests(clocks, Others(|clocks|, k)))
  {
    var n := |clocks|;
    var es := RequestEntries(clocks);
    var lo, hi := Requests(clocks, Range(0, k)), Requests(clocks, Range(k + 1, n));
    assert es == lo + [Entry(clocks[k], REQUEST, k)] + hi;
    assert Requests(clocks, Others(n, k)) == lo + hi;
  }

  // ---------------------------------------------------------------------
  // Phase 1: every philosopher sends its Request.

  /** `request` run by peers `k..|peers|-1`, in id order. */
  function RequestAll(peers: seq<State>, f: Pipes, k: nat): (r: (seq<State>, Pipes))
    requires k <= |peers|
    ensures |r.0| == |peers|
    decreases |peers| - k
  {
    if k == |peers| then (peers, f)
    else
      var s := Request(peers[k], f);
      RequestAll(peers[k := s.0], s.1, k + 1)
  }

  /** After the Requests of peers `0..k-1`: those peers hold their own entry
      and each has one Request line on every pipe it writes. */
  ghost predicate AfterRequests(clocks: seq<int>, k: nat, peers: seq<State>, f: Pipes) {
    && k <= |clocks| && |peers| == |clocks|
    && (forall j {:trigger PeerRequested(clocks, k, j, peers[j])} :: 0 <= j < |clocks| ==> PeerRequested(clocks, k, j, peers[j]))
    && (forall c {:trigger RequestPending(clocks, k, c)} :: Pending(f, c) == RequestPending(clocks, k, c))
  }

  /** Peer `j` once peers `0..k-1` have requested. */
  ghost predicate PeerRequested(clocks: seq<int>, k: nat, j: int, p: State)
    requires 0 <= j < |clocks|
  {
    Wiring(|clocks|, j, p) && p.clock == clocks[j] && p.queue == if j < k then [Entry(clocks[j], REQUEST, j)] else []
  }

  /** What pipe `c` holds after peers `0..k-1` have requested: the Request
      of its writer, if that writer has sent it. */
  ghost function RequestPending(clocks: seq<int>, k: nat, c: Channel): seq<string> {
    if InMesh(|clocks|, c) && c.writer < k then [RequestLine(clocks, c.writer)] else []
  }

  /** Peer `k`'s Request lands once on each pipe it writes. */
  lemma RequestPipe(clocks: seq<int>, k: nat, p: State, f: Pipes, c: Channel)
    requires k < |clocks| && Wiring(|clocks|, k, p) && p.clock == clocks[k]
    requires Pending(f, c) == RequestPending(clocks, k, c)
    ensures Pending(Request(p, f).1, c) == RequestPending(clocks, k + 1, c)
  {
    FanOthers(|clocks|, k, p, c);
  }

  lemma RequestPipes(clocks: seq<int>, k: nat, p: State, f: Pipes)
    requires k < |clocks| && Wiring(|clocks|, k, p) && p.clock == clocks[k]
    requires forall c {:trigger RequestPending(clocks, k, c)} :: Pending(f, c) == RequestPending(clocks, k, c)
    ensures forall c {:trigger RequestPending(clocks, k + 1, c)} :: Pending(Request(p, f).1, c) == RequestPending(clocks, k + 1, c)
  {
    forall c
      ensures Pending(Request(p, f).1, c) == RequestPending(clocks, k + 1, c)
    {
      assert Pending(f, c) == RequestPending(clocks, k, c);
      RequestPipe(clocks, k, p, f, c);
    }
  }

  lemma RequestStep(clocks: seq<int>, k: nat, peers: seq<State>, f: Pipes)
    requires k < |clocks| && AfterRequests(clocks, k, peers, f)
    ensures var s := Request(peers[k], f);
            AfterRequests(clocks, k + 1, peers[k := s.0], s.1)
  {
    var n := |clocks|;
    var s := Request(peers[k], f);
    assert PeerRequested(clocks, k, k, peers[k]);
    RequestPipes(clocks, k, peers[k], f);
    assert s.0.queue == [Entry(clocks[k], REQUEST, k)] by {
      assert multiset(s.0.queue) == multiset{Entry(clocks[k], REQUEST, k)};
      assert |s.0.queue| == 1;
    }
    var peers' := peers[k := s.0];
    forall j | 0 <= j < n
      ensures PeerRequested(clocks, k + 1, j, peers'[j])
    {
      assert PeerRequested(clocks, k, j, peers[j]);
    }
  }

  lemma {:induction false} RequestAllRun(clocks: seq<int>, k: nat, peers: seq<State>, f: Pipes)
    requires AfterRequests(clocks, k, peers, f)
    ensures var r := RequestAll(peers, f, k); AfterRequests(clocks, |clocks|, r.0, r.1)
    decreases |clocks| - k
  {
    if k < |clocks| {
      RequestStep(clocks, k, peers, f);
      var s := Request(peers[k], f);
      RequestAllRun(clocks, k + 1, peers[k := s.0], s.1);
    }
  }

  // ---------------------------------------------------------------------
  // Phase 2: every philosopher collects the Requests and replies.

  /** `wait_for_requests` run by peers `k..|peers|-1`, in id order. */
  function Collect(peers: seq<State>, f: Pipes, k: nat): (r: Result<(seq<State>, Pipes)>)
    requires k <= |peers|
    ensures r.Ok? ==> |r.value.0| == |peers|
    decreases |peers| - k
  {
    if k == |peers| then Ok((peers, f))
    else
      var s :- WaitForRequests(peers[k], f);
      Collect(peers[k := s.0], s.1, k + 1)
  }

  /** A well-formed line waits on each pipe `p` reads from position `i`
      on, and the pipe list names each peer once. */
  ghost predicate LinesWaiting(self: int, readFrom: seq<int>, f: Pipes, i: nat) {
    && i <= |readFrom| && Distinct(readFrom)
    && (forall x :: i <= x < |readFrom| ==> |Pending(f, Channel(readFrom[x], self))| > 0)
    && (forall x :: i <= x < |readFrom| ==> Decode(Pending(f, Channel(readFrom[x], self))[0]).Ok?)
  }

  /** Reading the line of pipe `i` leaves the later pipes waiting. */
  lemma LinesWaitingStep(self: int, readFrom: seq<int>, f: Pipes, i: nat)
    requires LinesWaiting(self, readFrom, f, i) && i < |readFrom|
    ensures LinesWaiting(self, readFrom, Receive(f, Channel(readFrom[i], self)).value.1, i + 1)
  {
    var g := Receive(f, Channel(readFrom[i], self)).value.1;
    forall x | i + 1 <= x < |readFrom|
      ensures Pending(g, Channel(readFrom[x], self)) == Pending(f, Channel(readFrom[x], self))
    {
      assert readFrom[x] != readFrom[i];
    }
  }

  /** One read of the first pipe, then the reads of the rest, is one read
      of every pipe in the list. */
  lemma CombinePipeReads(self: int, ws: seq<int>, f: Pipes, g: Pipes, out: Pipes, c: Channel)
    requires |ws| > 0 && ws[0] !in ws[1..]
    requires Pending(g, c) == if c == Channel(ws[0], self) then Tail(Pending(f, c)) else Pending(f, c)
    requires Pending(out, c) == if c.reader == self && c.writer in ws[1..] then Tail(Pending(g, c)) else Pending(g, c)
    ensures Pending(out, c) == if c.reader == self && c.writer in ws then Tail(Pending(f, c)) else Pending(f, c)
  {
    assert ws == [ws[0]] + ws[1..];
  }

  /** The loop of `wait_for_requests` from pipe `i` on succeeds when a
      well-formed line waits on each pipe, and reads exactly one line from
      each of them. */
  lemma {:induction false} ReceiveRequestsReads(p: State, f: Pipes, i: nat, c: Channel)
    requires LinesWaiting(p.id, p.readFrom, f, i)
    ensures ReceiveRequests(p, f, i).Ok?
    ensures Pending(ReceiveRequests(p, f, i).value.1, c)
            == if c.reader == p.id && c.writer in p.readFrom[i..] then Tail(Pending(f, c)) else Pending(f, c)
    decreases |p.readFrom| - i
  {
    if i == |p.readFrom| {
      assert p.readFrom[i..] == [];
    } else {
      var c0 := Channel(p.readFrom[i], p.id);
      var got := Receive(f, c0).value;
      var m := Decode(got.0).value;
      LinesWaitingStep(p.id, p.readFrom, f, i);
      var q := Absorb(p, m);
      ReceiveRequestsReads(q, got.1, i + 1, c);
      assert ReceiveRequests(p, f, i) == ReceiveRequests(q, got.1, i + 1);
      var ws := p.readFrom[i..];
      assert ws[1..] == p.readFrom[i + 1..];
      assert ws[0] !in ws[1..];
      CombinePipeReads(p.id, ws, f, got.1, ReceiveRequests(q, got.1, i + 1).value.1, c);
    }
  }

  /** A Request line from every pipe `p` reads from position `i` on. */
  ghost predicate RequestsWaiting(clocks: seq<int>, p: State, f: Pipes, i: nat) {
    && i <= |p.readFrom| && Distinct(p.readFrom)
    && (forall x :: i <= x < |p.readFrom| ==>
          && 0 <= p.readFrom[x] < |clocks|
          && |Pending(f, Channel(p.readFrom[x], p.id))| > 0
          && Pending(f, Channel(p.readFrom[x], p.id))[0] == RequestLine(clocks, p.readFrom[x]))
  }

  lemma RequestsAreLines(clocks: seq<int>, p: State, f: Pipes, i: nat)
    requires RequestsWaiting(clocks, p, f, i)
    ensures LinesWaiting(p.id, p.readFrom, f, i)
  {
    forall x | i <= x < |p.readFrom|
      ensures Decode(Pending(f, Channel(p.readFrom[x], p.id))[0]).Ok?
    {
      RoundTrip(Message(REQUEST, p.readFrom[x], clocks[p.readFrom[x]]));
    }
  }

  /** One round of the loop of `wait_for_requests`, when the pipe holds a
      well-formed line. */
  lemma ReceiveRequestsStep(p: State, f: Pipes, i: nat)
    requires i < |p.readFrom|
    requires |Pending(f, Channel(p.readFrom[i], p.id))| > 0
    requires Decode(Pending(f, Channel(p.readFrom[i], p.id))[0]).Ok?
    ensures var c0 := Channel(p.readFrom[i], p.id);
            ReceiveRequests(p, f, i)
            == ReceiveRequests(Absorb(p, Decode(Pending(f, c0)[0]).value), Receive(f, c0).value.1, i + 1)
  {
  }

  lemma RequestsWaitingStep(clocks: seq<int>, p: State, q: State, f: Pipes, i: nat)
    requires RequestsWaiting(clocks, p, f, i) && i < |p.readFrom|
    requires q.id == p.id && q.readFrom == p.readFrom
    ensures RequestsWaiting(clocks, q, Receive(f, Channel(p.readFrom[i], p.id)).value.1, i + 1)
  {
    var g := Receive(f, Channel(p.readFrom[i], p.id)).value.1;
    forall x | i + 1 <= x < |p.readFrom|
      ensures Pending(g, Channel(p.readFrom[x], p.id)) == Pending(f, Channel(p.readFrom[x], p.id))
    {
      assert p.readFrom[x] != p.readFrom[i];
    }
  }

  /** The stamps and entries of a list of peers are those of its first peer
      followed by those of the rest. */
  lemma RequestsCons(clocks: seq<int>, ws: seq<int>)
    requires |ws| > 0 && forall x :: 0 <= x < |ws| ==> 0 <= ws[x] < |clocks|
    ensures Stamps(clocks, ws) == [clocks[ws[0]]] + Stamps(clocks, ws[1..])
    ensures Requests(clocks, ws) == [Entry(clocks[ws[0]], REQUEST, ws[0])] + Requests(clocks, ws[1..])
  {
  }

  /** Absorbing the Requests from pipe `i` on applies the receive rule to
      their stamps in pipe order and queues their entries. */
  lemma {:induction false} ReceiveRequestsAbsorbs(clocks: seq<int>, p: State, f: Pipes, i: nat)
    requires RequestsWaiting(clocks, p, f, i)
    ensures ReceiveRequests(p, f, i).Ok?
    ensures ReceiveRequests(p, f, i).value.0.clock == ObserveAll(p.clock, Stamps(clocks, p.readFrom[i..]))
    ensures multiset(ReceiveRequests(p, f, i).value.0.queue)
            == multiset(p.queue) + multiset(Requests(clocks, p.readFrom[i..]))
    decreases |p.readFrom| - i, 1
  {
    if i == |p.readFrom| {
      assert Stamps(clocks, p.readFrom[i..]) == [];
      assert Requests(clocks, p.readFrom[i..]) == [];
    } else {
      AbsorbNext(clocks, p, f, i);
    }
  }

  /** The inductive step of `ReceiveRequestsAbsorbs`: absorb the Request on
      pipe `i`, then the rest. */
  lemma {:induction false} AbsorbNext(clocks: seq<int>, p: State, f: Pipes, i: nat)
    requires RequestsWaiting(clocks, p, f, i) && i < |p.readFrom|
    ensures ReceiveRequests(p, f, i).Ok?
    ensures ReceiveRequests(p, f, i).value.0.clock == ObserveAll(p.clock, Stamps(clocks, p.readFrom[i..]))
    ensures multiset(ReceiveRequests(p, f, i).value.0.queue)
            == multiset(p.queue) + multiset(Requests(clocks, p.readFrom[i..]))
    decreases |p.readFrom| - i, 0
  {
    var q, g := AbsorbAdvance(clocks, p, f, i);
    ReceiveRequestsAbsorbs(clocks, q, g, i + 1);
    var ws := p.readFrom[i..];
    assert ws[1..] == q.readFrom[i + 1..];
    AbsorbCons(clocks, p, q, ReceiveRequests(q, g, i + 1).value.0, ws);
  }

  /** Pipe `i` of `wait_for_requests`: the Request waiting there is read
      and absorbed, and the later pipes still hold theirs. */
  lemma AbsorbAdvance(clocks: seq<int>, p: State, f: Pipes, i: nat) returns (q: State, g: Pipes)
    requires RequestsWaiting(clocks, p, f, i) && i < |p.readFrom|
    ensures RequestsWaiting(clocks, q, g, i + 1) && q.readFrom == p.readFrom
    ensures 0 <= p.readFrom[i] < |clocks|
    ensures q.clock == Observe(p.clock, clocks[p.readFrom[i]])
    ensures multiset(q.queue) == multiset(p.queue) + multiset{Entry(clocks[p.readFrom[i]], REQUEST, p.readFrom[i])}
    ensures ReceiveRequests(p, f, i) == ReceiveRequests(q, g, i + 1)
  {
    var w := p.readFrom[i];
    var m := Message(REQUEST, w, clocks[w]);
    RoundTrip(m);
    ReceiveRequestsStep(p, f, i);
    q := Absorb(p, m);
    g := Receive(f, Channel(w, p.id)).value.1;
    RequestsWaitingStep(clocks, p, q, f, i);
  }

  /** Absorbing the first Request and then the rest is absorbing them
      all. */
  lemma AbsorbCons(clocks: seq<int>, p: State, q: State, r: State, ws: seq<int>)
    requires |ws| > 0 && forall x :: 0 <= x < |ws| ==> 0 <= ws[x] < |clocks|
    requires q.clock == Observe(p.clock, clocks[ws[0]])
    requires multiset(q.queue) == multiset(p.queue) + multiset{Entry(clocks[ws[0]], REQUEST, ws[0])}
    requires r.clock == ObserveAll(q.clock, Stamps(clocks, ws[1..]))
    requires multiset(r.queue) == multiset(q.queue) + multiset(Requests(clocks, ws[1..]))
    ensures r.clock == ObserveAll(p.clock, Stamps(clocks, ws))
    ensures multiset(r.queue) == multiset(p.queue) + multiset(Requests(clocks, ws))
  {
    RequestsCons(clocks, ws);
    var es := Requests(clocks, ws);
    assert multiset(es) == multiset{es[0]} + multiset(es[1..]) by {
      assert es == [es[0]] + es[1..];
    }
  }

  /** What pipe `c` holds after peers `0..k-1` have collected: a Request
      not yet read, unless the reader has collected, then a Reply, if the
      writer has collected. */
  ghost function CollectPending(clocks: seq<int>, k: nat, c: Channel): seq<string> {
    var n := |clocks|;
    if !InMesh(n, c) then []
    else (if c.reader >= k then [RequestLine(clocks, c.writer)] else [])
         + (if c.writer < k then [ReplyLine(clocks, c.writer)] else [])
  }

  /** After peers `0..k-1` have run `wait_for_requests`: those hold the
      agreed queue and their Reply clock, the others only their own entry. */
  ghost predicate AfterCollect(clocks: seq<int>, k: nat, peers: seq<State>, f: Pipes) {
    PeersCollected(clocks, k, peers) && PipesCollected(clocks, k, f)
  }

  ghost predicate PeersCollected(clocks: seq<int>, k: nat, peers: seq<State>) {
    && k <= |clocks| && |peers| == |clocks|
    && (forall j {:trigger PeerCollected(clocks, k, j, peers[j])} :: 0 <= j < |clocks| ==> PeerCollected(clocks, k, j, peers[j]))
  }

  /** Peer `j` once peers `0..k-1` have collected. */
  ghost predicate PeerCollected(clocks: seq<int>, k: nat, j: int, p: State)
    requires 0 <= j < |clocks|
  {
    && Wiring(|clocks|, j, p)
    && p.clock == (if j < k then ReplyClock(clocks, j) else clocks[j])
    && p.queue == if j < k then RequestQueue(clocks) else [Entry(clocks[j], REQUEST, j)]
  }

  ghost predicate PipesCollected(clocks: seq<int>, k: nat, f: Pipes) {
    forall c {:trigger CollectPending(clocks, k, c)} :: Pending(f, c) == CollectPending(clocks, k, c)
  }

  lemma CollectStart(clocks: seq<int>, peers: seq<State>, f: Pipes)
    requires AfterRequests(clocks, |clocks|, peers, f)
    ensures AfterCollect(clocks, 0, peers, f)
  {
    forall j | 0 <= j < |clocks|
      ensures PeerCollected(clocks, 0, j, peers[j])
    {
      assert PeerRequested(clocks, |clocks|, j, peers[j]);
    }
    forall c
      ensures Pending(f, c) == CollectPending(clocks, 0, c)
    {
      assert Pending(f, c) == RequestPending(clocks, |clocks|, c);
    }
  }

  /** Peer `k` before it collects, in a conference where peers `0..k-1`
      have collected. */
  ghost predicate ReadyToCollect(clocks: seq<int>, k: nat, p: State, f: Pipes) {
    && k < |clocks| && Wiring(|clocks|, k, p)
    && p.clock == clocks[k] && p.queue == [Entry(clocks[k], REQUEST, k)]
    && PipesCollected(clocks, k, f)
  }

  lemma CollectWaiting(clocks: seq<int>, k: nat, p: State, f: Pipes)
    requires ReadyToCollect(clocks, k, p, f)
    ensures RequestsWaiting(clocks, p, f, 0)
  {
    var n := |clocks|;
    OthersDistinct(n, k);
    forall x | 0 <= x < |p.readFrom|
      ensures 0 <= p.readFrom[x] < |clocks| && |Pending(f, Channel(p.readFrom[x], k))| > 0
      ensures Pending(f, Channel(p.readFrom[x], k))[0] == RequestLine(clocks, p.readFrom[x])
    {
      var c := Channel(p.readFrom[x], k);
      assert InMesh(n, c);
      assert Pending(f, c) == CollectPending(clocks, k, c);
    }
  }

  /** Peer `k` collects: it reads one Request from each other peer and ends
      up with the agreed queue and its Reply clock. */
  lemma CollectPeer(clocks: seq<int>, k: nat, p: State, f: Pipes)
    requires k < |clocks| && Wiring(|clocks|, k, p)
    requires p.clock == clocks[k] && p.queue == [Entry(clocks[k], REQUEST, k)]
    requires RequestsWaiting(clocks, p, f, 0)
    ensures ReceiveRequests(p, f, 0).Ok?
    ensures ReceiveRequests(p, f, 0).value.0.clock == ReplyClock(clocks, k)
    ensures ReceiveRequests(p, f, 0).value.0.queue == RequestQueue(clocks)
  {
    ReceiveRequestsAbsorbs(clocks, p, f, 0);
    assert p.readFrom[0..] == p.readFrom;
    assert Sorted(p.queue);
    AgreedQueue(clocks, k, ReceiveRequests(p, f, 0).value.0.queue);
  }

  /** A peer holding its own Request and one from each other peer, in
      order, holds the Request queue of the round. */
  lemma AgreedQueue(clocks: seq<int>, k: nat, q: seq<Entry>)
    requires k < |clocks| && Sorted(q)
    requires multiset(q)
             == multiset([Entry(clocks[k], REQUEST, k)]) + multiset(Requests(clocks, Others(|clocks|, k)))
    ensures q == RequestQueue(clocks)
  {
    RequestsSplit(clocks, k);
    SortedUnique(q, RequestQueue(clocks));
  }

  /** Collecting takes the Request off each pipe peer `k` reads, and its
      Reply joins each pipe it writes. */
  lemma CollectPipe(clocks: seq<int>, k: nat, p: State, f: Pipes, c: Channel)
    requires ReadyToCollect(clocks, k, p, f)
    ensures ReceiveRequests(p, f, 0).Ok?
    ensures var got := ReceiveRequests(p, f, 0).value;
            Pending(Reply(got.0, got.1), c) == CollectPending(clocks, k + 1, c)
  {
    CollectWaiting(clocks, k, p, f);
    CollectPeer(clocks, k, p, f);
    CollectPipeReads(clocks, k, p, f, c);
    var got := ReceiveRequests(p, f, 0).value;
    CollectPipeReply(clocks, k, got.0, got.1, c);
  }

  /** Peer `k`'s reads take the Request off each pipe into `k`. */
  lemma CollectPipeReads(clocks: seq<int>, k: nat, p: State, f: Pipes, c: Channel)
    requires ReadyToCollect(clocks, k, p, f)
    ensures ReceiveRequests(p, f, 0).Ok?
    ensures Pending(ReceiveRequests(p, f, 0).value.1, c)
            == if c.reader == k && c.writer in Others(|clocks|, k) then Tail(CollectPending(clocks, k, c))
               else CollectPending(clocks, k, c)
  {
    CollectWaiting(clocks, k, p, f);
    RequestsAreLines(clocks, p, f, 0);
    ReceiveRequestsReads(p, f, 0, c);
    assert p.readFrom[0..] == p.readFrom;
    assert Pending(f, c) == CollectPending(clocks, k, c);
  }

  /** Peer `k`, its reads done, sends its Reply. */
  lemma CollectPipeReply(clocks: seq<int>, k: nat, q: State, g: Pipes, c: Channel)
    requires k < |clocks| && Wiring(|clocks|, k, q) && q.clock == ReplyClock(clocks, k)
    requires Pending(g, c)
             == if c.reader == k && c.writer in Others(|clocks|, k) then Tail(CollectPending(clocks, k, c))
                else CollectPending(clocks, k, c)
    ensures Pending(Reply(q, g), c) == CollectPending(clocks, k + 1, c)
  {
    FanOthers(|clocks|, k, q, c);
    CollectPipeLines(clocks, k, g, Reply(q, g), c);
  }

  /** The same, line by line: the reads empty the Request slot of the
      pipes into `k`, the Reply fills the Reply slot of the pipes out of
      `k`. */
  lemma CollectPipeLines(clocks: seq<int>, k: nat, g: Pipes, out: Pipes, c: Channel)
    requires k < |clocks|
    requires Pending(g, c)
             == if c.reader == k && c.writer in Others(|clocks|, k) then Tail(CollectPending(clocks, k, c))
                else CollectPending(clocks, k, c)
    requires Pending(out, c)
             == Pending(g, c) + Copies(ReplyLine(clocks, k), if c.writer == k && InMesh(|clocks|, c) then 1 else 0)
    ensures Pending(out, c) == CollectPending(clocks, k + 1, c)
  {
    var n := |clocks|;
    if InMesh(n, c) && c.reader == k {
      OthersComplete(n, k);
      assert c.writer in Others(n, k);
    }
  }

  /** Peer `k`'s collect moves every pipe to the next stage. */
  lemma CollectPipes(clocks: seq<int>, k: nat, p: State, f: Pipes)
    requires ReadyToCollect(clocks, k, p, f)
    ensures ReceiveRequests(p, f, 0).Ok?
    ensures var got := ReceiveRequests(p, f, 0).value;
            PipesCollected(clocks, k + 1, Reply(got.0, got.1))
  {
    CollectPipe(clocks, k, p, f, Channel(0, 0));
    var got := ReceiveRequests(p, f, 0).value;
    forall c
      ensures Pending(Reply(got.0, got.1), c) == CollectPending(clocks, k + 1, c)
    {
      CollectPipe(clocks, k, p, f, c);
    }
  }

  lemma CollectStep(clocks: seq<int>, k: nat, peers: seq<State>, f: Pipes)
    requires k < |clocks| && AfterCollect(clocks, k, peers, f)
    ensures ReceiveRequests(peers[k], f, 0).Ok?
    ensures var got := ReceiveRequests(peers[k], f, 0).value;
            AfterCollect(clocks, k + 1, peers[k := got.0], Reply(got.0, got.1))
  {
    var p := peers[k];
    assert PeerCollected(clocks, k, k, p);
    assert ReadyToCollect(clocks, k, p, f);
    CollectPipes(clocks, k, p, f);
    CollectWaiting(clocks, k, p, f);
    CollectPeer(clocks, k, p, f);
    var got := ReceiveRequests(p, f, 0).value;
    CollectPeersStep(clocks, k, peers, got.0);
  }

  lemma CollectPeersStep(clocks: seq<int>, k: nat, peers: seq<State>, p: State)
    requires k < |clocks| && PeersCollected(clocks, k, peers)
    requires p == peers[k].(clock := ReplyClock(clocks, k), queue := RequestQueue(clocks))
    ensures PeersCollected(clocks, k + 1, peers[k := p])
  {
    var next := peers[k := p];
    forall j | 0 <= j < |clocks|
      ensures PeerCollected(clocks, k + 1, j, next[j])
    {
      assert PeerCollected(clocks, k, j, peers[j]);
    }
  }

  /** Peer `k`'s collect advances the round by one peer, and `Collect`
      continues from there. */
  lemma CollectAdvance(clocks: seq<int>, k: nat, peers: seq<State>, f: Pipes)
    returns (next: seq<State>, g: Pipes)
    requires k < |clocks| && AfterCollect(clocks, k, peers, f)
    ensures AfterCollect(clocks, k + 1, next, g)
    ensures Collect(peers, f, k) == Collect(next, g, k + 1)
  {
    CollectStep(clocks, k, peers, f);
    var got := ReceiveRequests(peers[k], f, 0).value;
    next, g := peers[k := got.0], Reply(got.0, got.1);
  }

  lemma {:induction false} CollectRun(clocks: seq<int>, k: nat, peers: seq<State>, f: Pipes)
    returns (done: seq<State>, g: Pipes)
    requires AfterCollect(clocks, k, peers, f)
    ensures Collect(peers, f, k) == Ok((done, g))
    ensures AfterCollect(clocks, |clocks|, done, g)
    decreases |clocks| - k, 1
  {
    if k < |clocks| {
      done, g := CollectRunStep(clocks, k, peers, f);
    } else {
      done, g := peers, f;
      CollectDone(peers, f, k);
    }
  }

  /** The inductive step of `CollectRun`: peer `k` collects, then the rest. */
  lemma {:induction false} CollectRunStep(clocks: seq<int>, k: nat, peers: seq<State>, f: Pipes)
    returns (done: seq<State>, g: Pipes)
    requires k < |clocks| && AfterCollect(clocks, k, peers, f)
    ensures Collect(peers, f, k) == Ok((done, g))
    ensures AfterCollect(clocks, |clocks|, done, g)
    decreases |clocks| - k, 0
  {
    var next, f' := CollectAdvance(clocks, k, peers, f);
    done, g := CollectRun(clocks, k + 1, next, f');
  }

  lemma CollectDone(peers: seq<State>, f: Pipes, k: nat)
    requires k == |peers|
    ensures Collect(peers, f, k) == Ok((peers, f))
  {
  }

  // ---------------------------------------------------------------------
  // Phase 3: every philosopher collects the Replies.

  /** `wait_for_replies` run by peers `k..|peers|-1`, in id order. */
  function ReplyAll(peers: seq<State>, f: Pipes, k: nat): (r: Result<Pipes>)
    requires k <= |peers|
    decreases |peers| - k
  {
    if k == |peers| then Ok(f)
    else
      var g :- WaitForReplies(peers[k], f, 0);
      ReplyAll(peers, g, k + 1)
  }

  /** One round of the loop of `wait_for_replies`, when the pipe holds a
      well-formed line. */
  lemma WaitForRepliesStep(p: State, f: Pipes, i: nat)
    requires i < |p.readFrom|
    requires |Pending(f, Channel(p.readFrom[i], p.id))| > 0
    requires Decode(Pending(f, Channel(p.readFrom[i], p.id))[0]).Ok?
    ensures WaitForReplies(p, f, i) == WaitForReplies(p, Receive(f, Channel(p.readFrom[i], p.id)).value.1, i + 1)
  {
  }

  /** `wait_for_replies` from pipe `i` on succeeds when a well-formed line
      waits on each pipe, and reads exactly one line from each of them. */
  lemma {:induction false} WaitForRepliesReads(p: State, f: Pipes, i: nat, c: Channel)
    requires LinesWaiting(p.id, p.readFrom, f, i)
    ensures WaitForReplies(p, f, i).Ok?
    ensures Pending(WaitForReplies(p, f, i).value, c)
            == if c.reader == p.id && c.writer in p.readFrom[i..] then Tail(Pending(f, c)) else Pending(f, c)
    decreases |p.readFrom| - i
  {
    if i == |p.readFrom| {
      assert p.readFrom[i..] == [];
    } else {
      var c0 := Channel(p.readFrom[i], p.id);
      var g := Receive(f, c0).value.1;
      WaitForRepliesStep(p, f, i);
      LinesWaitingStep(p.id, p.readFrom, f, i);
      WaitForRepliesReads(p, g, i + 1, c);
      var ws := p.readFrom[i..];
      assert ws[1..] == p.readFrom[i + 1..];
      assert ws[0] !in ws[1..];
      CombinePipeReads(p.id, ws, f, g, WaitForReplies(p, g, i + 1).value, c);
    }
  }

  /** What pipe `c` holds after peers `0..k-1` have collected the Replies:
      the Reply of its writer, unless its reader has collected. */
  ghost function ReplyPending(clocks: seq<int>, k: nat, c: Channel): seq<string> {
    if InMesh(|clocks|, c) && c.reader >= k then [ReplyLine(clocks, c.writer)] else []
  }

  ghost predicate PipesReplied(clocks: seq<int>, k: nat, f: Pipes) {
    forall c {:trigger ReplyPending(clocks, k, c)} :: Pending(f, c) == ReplyPending(clocks, k, c)
  }

  /** Every philosopher has the pipes of the topology. */
  ghost predicate PeersWired(clocks: seq<int>, peers: seq<State>) {
    |peers| == |clocks| && forall j :: 0 <= j < |clocks| ==> Wiring(|clocks|, j, peers[j])
  }

  lemma RepliesWaiting(clocks: seq<int>, k: nat, p: State, f: Pipes)
    requires k < |clocks| && Wiring(|clocks|, k, p) && PipesReplied(clocks, k, f)
    ensures LinesWaiting(p.id, p.readFrom, f, 0)
  {
    var n := |clocks|;
    OthersDistinct(n, k);
    forall x | 0 <= x < |p.readFrom|
      ensures |Pending(f, Channel(p.readFrom[x], k))| > 0
      ensures Decode(Pending(f, Channel(p.readFrom[x], k))[0]).Ok?
    {
      var w := p.readFrom[x];
      assert InMesh(n, Channel(w, k));
      assert Pending(f, Channel(w, k)) == ReplyPending(clocks, k, Channel(w, k));
      RoundTrip(Message(REPLY, w, ReplyClock(clocks, w)));
    }
  }

  /** Peer `k` collecting the Replies empties the pipes it reads. */
  lemma ReplyPipe(clocks: seq<int>, k: nat, p: State, f: Pipes, c: Channel)
    requires k < |clocks| && Wiring(|clocks|, k, p) && PipesReplied(clocks, k, f)
    ensures WaitForReplies(p, f, 0).Ok?
    ensures Pending(WaitForReplies(p, f, 0).value, c) == ReplyPending(clocks, k + 1, c)
  {
    RepliesWaiting(clocks, k, p, f);
    WaitForRepliesReads(p, f, 0, c);
    assert Pending(f, c) == ReplyPending(clocks, k, c);
    assert p.readFrom[0..] == p.readFrom;
    if InMesh(|clocks|, c) && c.reader == k {
      OthersComplete(|clocks|, k);
      assert c.writer in p.readFrom;
    }
  }

  /** Peer `k`'s collect of the Replies moves every pipe to the next
      stage. */
  lemma ReplyPipes(clocks: seq<int>, k: nat, p: State, f: Pipes)
    requires k < |clocks| && Wiring(|clocks|, k, p) && PipesReplied(clocks, k, f)
    ensures WaitForReplies(p, f, 0).Ok?
    ensures PipesReplied(clocks, k + 1, WaitForReplies(p, f, 0).value)
  {
    ReplyPipe(clocks, k, p, f, Channel(0, 0));
    forall c
      ensures Pending(WaitForReplies(p, f, 0).value, c) == ReplyPending(clocks, k + 1, c)
    {
      ReplyPipe(clocks, k, p, f, c);
    }
  }

  lemma ReplyAdvance(clocks: seq<int>, k: nat, peers: seq<State>, f: Pipes) returns (g: Pipes)
    requires k < |clocks| && PeersWired(clocks, peers) && PipesReplied(clocks, k, f)
    ensures PipesReplied(clocks, k + 1, g)
    ensures ReplyAll(peers, f, k) == ReplyAll(peers, g, k + 1)
  {
    ReplyPipes(clocks, k, peers[k], f);
    g := WaitForReplies(peers[k], f, 0).value;
  }

  lemma {:induction false} ReplyRun(clocks: seq<int>, k: nat, peers: seq<State>, f: Pipes) returns (g: Pipes)
    requires k <= |clocks| && PeersWired(clocks, peers) && PipesReplied(clocks, k, f)
    ensures ReplyAll(peers, f, k) == Ok(g)
    ensures PipesReplied(clocks, |clocks|, g)
    decreases |clocks| - k
  {
    if k < |clocks| {
      var f' := ReplyAdvance(clocks, k, peers, f);
      g := ReplyRun(clocks, k + 1, peers, f');
    } else {
      g := f;
    }
  }

  // ---------------------------------------------------------------------
  // Phase 4: the philosophers take their turns in the admission order.

  /** Where peer `j` stands in the admission order. */
  function Rank(clocks: seq<int>, j: int): (x: nat)
    requires 0 <= j < |clocks|
    ensures x < |clocks| && AdmissionOrder(clocks)[x] == j
  {
    IndexOf(AdmissionOrder(clocks), j)
  }

  /** The admission order lists the ids of the Request queue. */
  lemma OrderOfQueue(clocks: seq<int>)
    ensures forall x :: 0 <= x < |clocks| ==> AdmissionOrder(clocks)[x] == RequestQueue(clocks)[x].id
  {
  }

  /** Each place in the order has its own peer. */
  lemma RankOf(clocks: seq<int>, x: nat)
    requires x < |clocks|
    ensures Rank(clocks, AdmissionOrder(clocks)[x]) == x
  {
  }

  /** Turns `t..` in the order: each philosopher waits for its turn,
      enters, and leaves with an Exit. The result lists the queue entry at
      the head of each philosopher's queue as it enters, in the order they
      enter. */
  function Exits(peers: seq<State>, f: Pipes, t: nat, order: seq<int>): (r: Result<seq<Entry>>)
    requires t <= |order|
    requires forall x :: 0 <= x < |order| ==> 0 <= order[x] < |peers|
    ensures r.Ok? ==> |r.value| == |order| - t
    ensures r.Ok? && t < |order| ==> r.value[0].id == peers[order[t]].id
    decreases |order| - t
  {
    if t == |order| then Ok([])
    else
      var a := order[t];
      var turn :- AwaitTurn(peers[a], f);
      var left :- Exit(turn.0, turn.1);
      var rest :- Exits(peers[a := left.0], left.1, t + 1, order);
      Ok([turn.0.queue[0]] + rest)
  }

  /** The queue of each peer after turns `0..t-1`: the entries behind its
      own once it has left, the whole Request queue before. */
  ghost predicate PeersExited(clocks: seq<int>, t: nat, peers: seq<State>) {
    var n := |clocks|;
    && t <= n && |peers| == n
    && (forall j {:trigger PeerExited(clocks, t, j, peers[j])} :: 0 <= j < n ==> PeerExited(clocks, t, j, peers[j]))
  }

  /** Peer `j` after turns `0..t-1`. */
  ghost predicate PeerExited(clocks: seq<int>, t: nat, j: int, p: State)
    requires 0 <= j < |clocks|
  {
          && Wiring(|clocks|, j, p)
          && p.clock == ReplyClock(clocks, j)
          && p.queue == if Rank(clocks, j) < t then RequestQueue(clocks)[Rank(clocks, j) + 1..] else RequestQueue(clocks)
  }

  /** What pipe `c` holds after turns `0..t-1`: the Exit of its writer once
      the writer has left, until the reader reads it on its own turn. */
  ghost function ExitPending(clocks: seq<int>, t: nat, c: Channel): seq<string> {
    if InMesh(|clocks|, c) && Rank(clocks, c.writer) < t && !(Rank(clocks, c.writer) < Rank(clocks, c.reader) < t)
    then [ExitLine(clocks, c.writer)]
    else []
  }

  ghost predicate PipesExited(clocks: seq<int>, t: nat, f: Pipes) {
    forall c {:trigger ExitPending(clocks, t, c)} :: Pending(f, c) == ExitPending(clocks, t, c)
  }

  /** On turn `t` its peer finds an Exit from each peer ahead of it. */
  lemma ExitsWaiting(clocks: seq<int>, t: nat, p: State, f: Pipes)
    requires t < |clocks| && Wiring(|clocks|, AdmissionOrder(clocks)[t], p)
    requires p.queue == RequestQueue(clocks) && PipesExited(clocks, t, f)
    ensures p.queue[t].id == p.id
    ensures ExitsReady(|clocks|, p, f, t)
  {
    var n, q := |clocks|, RequestQueue(clocks);
    var a := AdmissionOrder(clocks)[t];
    OrderOfQueue(clocks);
    RankOf(clocks, t);
    forall x | 0 <= x < t
      ensures 0 <= q[x].id < n && q[x].id != a
      ensures |Pending(f, Channel(q[x].id, a))| > 0
      ensures Decode(Pending(f, Channel(q[x].id, a))[0]).Ok?
    {
      var w := q[x].id;
      RankOf(clocks, x);
      assert InMesh(n, Channel(w, a));
      assert Pending(f, Channel(w, a)) == ExitPending(clocks, t, Channel(w, a));
      RoundTrip(Message(EXIT, w, clocks[w]));
    }
  }

  /** Out of turn, a philosopher cannot get past its head check: after
      turns `0..t-1`, a philosopher ranked after `t` reads the Exits of the
      peers ahead of turn `t`, and then cannot complete in this state: it
      waits on the pipe from the philosopher whose turn it is until that
      philosopher has exited. */
  lemma OutOfTurnBlocks(clocks: seq<int>, t: nat, peers: seq<State>, f: Pipes, b: int)
    requires PeersExited(clocks, t, peers) && PipesExited(clocks, t, f)
    requires 0 <= b < |clocks| && t < Rank(clocks, b)
    ensures AwaitTurn(peers[b], f) == Err(Blocked)
  {
    var n, q, p := |clocks|, RequestQueue(clocks), peers[b];
    var a := AdmissionOrder(clocks)[t];
    assert PeerExited(clocks, t, b, p);
    OrderOfQueue(clocks);
    RankOf(clocks, t);
    AheadReady(clocks, t, b, p, f);
    assert q[t].id == a && a != b;
    forall x | 0 <= x < t
      ensures q[x].id != a
    {
      RankOf(clocks, x);
    }
    assert InMesh(n, Channel(a, b));
    assert Pending(f, Channel(a, b)) == ExitPending(clocks, t, Channel(a, b));
    WaitForExitsBlocks(n, p, f, t);
  }

  /** After turns `0..t-1`, a philosopher ranked after `t` finds an Exit
      from each peer ahead of turn `t`. */
  lemma AheadReady(clocks: seq<int>, t: nat, b: int, p: State, f: Pipes)
    requires 0 <= b < |clocks| && t < Rank(clocks, b) && Wiring(|clocks|, b, p)
    requires p.queue == RequestQueue(clocks) && PipesExited(clocks, t, f)
    ensures ExitsReady(|clocks|, p, f, t)
  {
    var n, q := |clocks|, RequestQueue(clocks);
    RequestQueueFacts(clocks);
    OrderOfQueue(clocks);
    forall x | 0 <= x < t
      ensures 0 <= q[x].id < n && q[x].id != b
      ensures |Pending(f, Channel(q[x].id, b))| > 0
      ensures Decode(Pending(f, Channel(q[x].id, b))[0]).Ok?
    {
      var w := q[x].id;
      RankOf(clocks, x);
      assert InMesh(n, Channel(w, b));
      assert Pending(f, Channel(w, b)) == ExitPending(clocks, t, Channel(w, b));
      RoundTrip(Message(EXIT, w, clocks[w]));
    }
  }

  /** The ids ahead of turn `t` are the peers of rank below `t`. */
  lemma AheadRank(clocks: seq<int>, t: nat, w: int)
    requires t <= |clocks|
    ensures w in IdSet(RequestQueue(clocks)[..t]) <==> 0 <= w < |clocks| && Rank(clocks, w) < t
  {
    var q := RequestQueue(clocks);
    OrderOfQueue(clocks);
    if w in IdSet(q[..t]) {
      var x :| 0 <= x < t && q[..t][x].id == w;
      RankOf(clocks, x);
    }
    if 0 <= w < |clocks| && Rank(clocks, w) < t {
      assert q[..t][Rank(clocks, w)].id == w;
    }
  }

  /** Turn `t`, pipe by pipe: the reads take the Exits of the peers ahead
      off the pipes into the entering peer, its own Exit joins the pipes
      out of it. */
  lemma ExitPipeLines(clocks: seq<int>, t: nat, f: Pipes, g: Pipes, out: Pipes, c: Channel)
    requires t < |clocks|
    requires var a := AdmissionOrder(clocks)[t];
             Pending(g, c)
             == if c.reader == a && c.writer in IdSet(RequestQueue(clocks)[..t]) then Tail(ExitPending(clocks, t, c))
                else ExitPending(clocks, t, c)
    requires var a := AdmissionOrder(clocks)[t];
             Pending(out, c)
             == Pending(g, c) + Copies(ExitLine(clocks, a), if c.writer == a && InMesh(|clocks|, c) then 1 else 0)
    ensures Pending(out, c) == ExitPending(clocks, t + 1, c)
  {
    var n := |clocks|;
    var a := AdmissionOrder(clocks)[t];
    RankOf(clocks, t);
    AheadRank(clocks, t, c.writer);
    var line := ExitLine(clocks, a);
    if !InMesh(n, c) {
      assert Copies(line, 0) == [];
    } else if c.writer == a {
      assert Rank(clocks, c.writer) == t;
      assert Copies(line, 1) == [line];
    } else {
      assert Copies(line, 0) == [];
      if c.reader == a {
        assert Rank(clocks, c.reader) == t;
      } else {
        assert Rank(clocks, c.reader) != t && Rank(clocks, c.writer) != t;
      }
    }
  }

  /** Turn `t`: its peer waits for the Exits of the peers ahead of it,
      finds its own entry at the head, and leaves holding the entries
      behind it. */
  lemma ExitPeer(clocks: seq<int>, t: nat, p: State, f: Pipes)
    requires t < |clocks| && Wiring(|clocks|, AdmissionOrder(clocks)[t], p)
    requires p.queue == RequestQueue(clocks) && PipesExited(clocks, t, f)
    ensures AwaitTurn(p, f).Ok?
    ensures AwaitTurn(p, f).value.0 == p.(queue := RequestQueue(clocks)[t..])
    ensures Exit(AwaitTurn(p, f).value.0, AwaitTurn(p, f).value.1).Ok?
    ensures Exit(AwaitTurn(p, f).value.0, AwaitTurn(p, f).value.1).value.0 == p.(queue := RequestQueue(clocks)[t + 1..])
  {
    ExitsWaiting(clocks, t, p, f);
    WaitForExitsPops(|clocks|, p, f, t);
    assert RequestQueue(clocks)[t..][1..] == RequestQueue(clocks)[t + 1..];
  }

  /** Turn `t`, for one pipe. */
  lemma ExitPipe(clocks: seq<int>, t: nat, p: State, f: Pipes, c: Channel)
    requires t < |clocks| && Wiring(|clocks|, AdmissionOrder(clocks)[t], p)
    requires p.queue == RequestQueue(clocks) && PipesExited(clocks, t, f)
    ensures AwaitTurn(p, f).Ok?
    ensures var turn := AwaitTurn(p, f).value;
            Exit(turn.0, turn.1).Ok? && Pending(Exit(turn.0, turn.1).value.1, c) == ExitPending(clocks, t + 1, c)
  {
    var n, q, a := |clocks|, RequestQueue(clocks), AdmissionOrder(clocks)[t];
    ExitsWaiting(clocks, t, p, f);
    ExitPeer(clocks, t, p, f);
    WaitForExitsReads(n, p, f, t, c);
    var turn := AwaitTurn(p, f).value;
    RequestQueueFacts(clocks);
    assert turn.0.queue[0] == q[t] == Entry(clocks[a], REQUEST, a);
    FanOthers(n, a, turn.0, c);
    ExitPipeLines(clocks, t, f, turn.1, Exit(turn.0, turn.1).value.1, c);
  }

  /** Turn `t` moves every pipe to the next stage. */
  lemma ExitPipes(clocks: seq<int>, t: nat, p: State, f: Pipes)
    requires t < |clocks| && Wiring(|clocks|, AdmissionOrder(clocks)[t], p)
    requires p.queue == RequestQueue(clocks) && PipesExited(clocks, t, f)
    ensures AwaitTurn(p, f).Ok?
    ensures var turn := AwaitTurn(p, f).value;
            Exit(turn.0, turn.1).Ok? && PipesExited(clocks, t + 1, Exit(turn.0, turn.1).value.1)
  {
    ExitPipe(clocks, t, p, f, Channel(0, 0));
    var turn := AwaitTurn(p, f).value;
    forall c
      ensures Pending(Exit(turn.0, turn.1).value.1, c) == ExitPending(clocks, t + 1, c)
    {
      ExitPipe(clocks, t, p, f, c);
    }
  }

  /** Turn `t` changes only its own peer, which leaves with the entries
      behind its own. */
  lemma ExitPeersStep(clocks: seq<int>, t: nat, peers: seq<State>, s: State)
    requires t < |clocks| && PeersExited(clocks, t, peers)
    requires var a := AdmissionOrder(clocks)[t];
             s == peers[a].(queue := RequestQueue(clocks)[t + 1..])
    ensures PeersExited(clocks, t + 1, peers[AdmissionOrder(clocks)[t] := s])
  {
    var a := AdmissionOrder(clocks)[t];
    var next := peers[a := s];
    forall j | 0 <= j < |clocks|
      ensures PeerExited(clocks, t + 1, j, next[j])
    {
      assert PeerExited(clocks, t, j, peers[j]);
      ExitPeerNext(clocks, t, j, peers[j], next[j]);
    }
  }

  /** Peer `j` across turn `t`: the peer of the turn drops the entries up
      to its own, every other peer keeps its queue. */
  lemma ExitPeerNext(clocks: seq<int>, t: nat, j: int, p: State, s: State)
    requires t < |clocks| && 0 <= j < |clocks| && PeerExited(clocks, t, j, p)
    requires s == if j == AdmissionOrder(clocks)[t] then p.(queue := RequestQueue(clocks)[t + 1..]) else p
    ensures PeerExited(clocks, t + 1, j, s)
  {
    RankOf(clocks, t);
    if j == AdmissionOrder(clocks)[t] {
      assert Rank(clocks, j) == t;
    } else {
      assert Rank(clocks, j) != t;
    }
  }

  /** One turn of `Exits`, unfolded. */
  lemma ExitsUnfold(peers: seq<State>, f: Pipes, t: nat, order: seq<int>)
    requires t < |order|
    requires forall x :: 0 <= x < |order| ==> 0 <= order[x] < |peers|
    requires AwaitTurn(peers[order[t]], f).Ok?
    requires var turn := AwaitTurn(peers[order[t]], f).value;
             Exit(turn.0, turn.1).Ok?
    ensures var turn := AwaitTurn(peers[order[t]], f).value;
            var left := Exit(turn.0, turn.1).value;
            var rest := Exits(peers[order[t] := left.0], left.1, t + 1, order);
            rest.Ok? ==> Exits(peers, f, t, order) == Ok([turn.0.queue[0]] + rest.value)
  {
  }

  lemma ExitsAdvance(clocks: seq<int>, t: nat, peers: seq<State>, f: Pipes) returns (next: seq<State>, g: Pipes)
    requires t < |clocks| && PeersExited(clocks, t, peers) && PipesExited(clocks, t, f)
    ensures PeersExited(clocks, t + 1, next) && PipesExited(clocks, t + 1, g)
    ensures Exits(next, g, t + 1, AdmissionOrder(clocks)) == Ok(RequestQueue(clocks)[t + 1..]) ==>
              Exits(peers, f, t, AdmissionOrder(clocks)) == Ok(RequestQueue(clocks)[t..])
  {
    var a := AdmissionOrder(clocks)[t];
    RankOf(clocks, t);
    var p := peers[a];
    assert PeerExited(clocks, t, a, p);
    ExitPeer(clocks, t, p, f);
    ExitPipes(clocks, t, p, f);
    var turn := AwaitTurn(p, f).value;
    var left := Exit(turn.0, turn.1).value;
    next, g := peers[a := left.0], left.1;
    ExitPeersStep(clocks, t, peers, left.0);
    ExitsUnfold(peers, f, t, AdmissionOrder(clocks));
    var rest := Exits(next, g, t + 1, AdmissionOrder(clocks));
    if rest == Ok(RequestQueue(clocks)[t + 1..]) {
      ConsSuffix(Exits(peers, f, t, AdmissionOrder(clocks)), rest, RequestQueue(clocks), t);
    }
  }

  lemma {:induction false} ExitsRun(clocks: seq<int>, t: nat, peers: seq<State>, f: Pipes)
    requires PeersExited(clocks, t, peers) && PipesExited(clocks, t, f)
    ensures Exits(peers, f, t, AdmissionOrder(clocks)) == Ok(RequestQueue(clocks)[t..])
    decreases |clocks| - t, 1
  {
    if t < |clocks| {
      ExitsRunStep(clocks, t, peers, f);
    } else {
      assert RequestQueue(clocks)[t..] == [];
    }
  }

  lemma {:induction false} ExitsRunStep(clocks: seq<int>, t: nat, peers: seq<State>, f: Pipes)
    requires t < |clocks| && PeersExited(clocks, t, peers) && PipesExited(clocks, t, f)
    ensures Exits(peers, f, t, AdmissionOrder(clocks)) == Ok(RequestQueue(clocks)[t..])
    decreases |clocks| - t, 0
  {
    var next, g := ExitsAdvance(clocks, t, peers, f);
    ExitsRun(clocks, t + 1, next, g);
  }

  /** A result that adds entry `t` in front of the entries after `t`
      lists the entries from `t` on. */
  lemma ConsSuffix(x: Result<seq<Entry>>, y: Result<seq<Entry>>, q: seq<Entry>, t: nat)
    requires t < |q| && y == Ok(q[t + 1..])
    requires y.Ok? ==> x == Ok([q[t]] + y.value)
    ensures x == Ok(q[t..])
  {
    assert q[t..] == [q[t]] + q[t + 1..];
  }

  // ---------------------------------------------------------------------
  // The round.

  /** `Conference.start` followed by each philosopher's `do`, on the
      sequential schedule: the queue entries that head each philosopher's
      queue as it enters the critical section, in the order they enter. */
  function Round(clocks: seq<int>): (r: Result<seq<Entry>>)
    ensures r.Ok? ==> |r.value| == |clocks|
  {
    var requested := RequestAll(Seated(clocks), map[], 0);
    var collected :- Collect(requested.0, requested.1, 0);
    var replied :- ReplyAll(collected.0, collected.1, 0);
    Exits(collected.0, replied, 0, AdmissionOrder(clocks))
  }

  /** The seated philosophers before anyone has requested. */
  lemma SeatedStart(clocks: seq<int>)
    ensures AfterRequests(clocks, 0, Seated(clocks), map[])
  {
  }

  /** Once everyone has collected the Requests, only Replies are left. */
  lemma CollectedReplies(clocks: seq<int>, peers: seq<State>, f: Pipes)
    requires AfterCollect(clocks, |clocks|, peers, f)
    ensures PeersWired(clocks, peers) && PipesReplied(clocks, 0, f)
  {
    forall j | 0 <= j < |clocks|
      ensures Wiring(|clocks|, j, peers[j])
    {
      assert PeerCollected(clocks, |clocks|, j, peers[j]);
    }
    forall c
      ensures Pending(f, c) == ReplyPending(clocks, 0, c)
    {
      assert Pending(f, c) == CollectPending(clocks, |clocks|, c);
    }
  }

  /** Once everyone has collected the Replies, the pipes are empty and
      every philosopher holds the agreed queue: no turn has been taken. */
  lemma RepliedExits(clocks: seq<int>, peers: seq<State>, f: Pipes, g: Pipes)
    requires AfterCollect(clocks, |clocks|, peers, f) && PipesReplied(clocks, |clocks|, g)
    ensures PeersExited(clocks, 0, peers) && PipesExited(clocks, 0, g)
  {
    forall j | 0 <= j < |clocks|
      ensures PeerExited(clocks, 0, j, peers[j])
    {
      assert PeerCollected(clocks, |clocks|, j, peers[j]);
    }
    forall c
      ensures Pending(g, c) == ExitPending(clocks, 0, c)
    {
      assert Pending(g, c) == ReplyPending(clocks, |clocks|, c);
    }
  }

  /** Every philosopher ends the Request phase holding the same queue: the
      Request of every peer, in tuple order, with its clock past every
      other peer's starting clock. */
  lemma Agreement(clocks: seq<int>)
    ensures var requested := RequestAll(Seated(clocks), map[], 0);
            var collected := Collect(requested.0, requested.1, 0);
            && collected.Ok?
            && (forall k :: 0 <= k < |clocks| ==> collected.value.0[k].queue == RequestQueue(clocks))
            && (forall k, j :: 0 <= k < |clocks| && 0 <= j < |clocks| && j != k ==>
                  collected.value.0[k].clock > clocks[j])
  {
    SeatedStart(clocks);
    RequestAllRun(clocks, 0, Seated(clocks), map[]);
    var requested := RequestAll(Seated(clocks), map[], 0);
    CollectStart(clocks, requested.0, requested.1);
    var done, g := CollectRun(clocks, 0, requested.0, requested.1);
    forall k | 0 <= k < |clocks|
      ensures done[k].queue == RequestQueue(clocks) && done[k].clock == ReplyClock(clocks, k)
    {
      assert PeerCollected(clocks, |clocks|, k, done[k]);
    }
  }

  /** The whole round: when the turns are taken in admission order, every
      read of every phase finds its line, and the philosophers enter one at
      a time in that order, each with its own Request at the head of its
      queue. */
  lemma RoundAdmitsInOrder(clocks: seq<int>)
    ensures Round(clocks) == Ok(RequestQueue(clocks))
  {
    SeatedStart(clocks);
    RequestAllRun(clocks, 0, Seated(clocks), map[]);
    var requested := RequestAll(Seated(clocks), map[], 0);
    CollectStart(clocks, requested.0, requested.1);
    var done, g := CollectRun(clocks, 0, requested.0, requested.1);
    CollectedReplies(clocks, done, g);
    var h := ReplyRun(clocks, 0, done, g);
    RepliedExits(clocks, done, g, h);
    ExitsRun(clocks, 0, done, h);
    RoundIs(clocks, done, g, h);
    assert RequestQueue(clocks)[0..] == RequestQueue(clocks);
  }

  /** `Round` once its first three phases are known. */
  lemma RoundIs(clocks: seq<int>, done: seq<State>, g: Pipes, h: Pipes)
    requires |done| == |clocks|
    requires var requested := RequestAll(Seated(clocks), map[], 0);
             Collect(requested.0, requested.1, 0) == Ok((done, g))
    requires ReplyAll(done, g, 0) == Ok(h)
    ensures Round(clocks) == Exits(done, h, 0, AdmissionOrder(clocks))
  {
  }
}
