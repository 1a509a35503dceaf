/** One philosopher's side of the protocol, step by step: announce a Request,
    collect everyone's Requests and answer with one Reply, collect the
    Replies, wait until its own entry heads the queue, then leave with an
    Exit. Each step is a pure function of the philosopher's state and the
    pipes.
 */
module Philosopher {
  import opened Results
  import opened Wire
  import opened LamportClock
  import opened AdmissionQueue
  import opened Topology
  import opened Fabric

  /** What one philosopher process keeps: its id, its clock, its admission
      queue, and the peers behind its read and write pipes, in pipe order.
      The `replies` queue is filled but never read, so it is not kept. */
  datatype State = State(id: int, clock: int, queue: seq<Entry>, readFrom: seq<int>, writeTo: seq<int>)

  /** `a` and `b` are the same philosopher, with the same pipes. */
  predicate SameSeat(a: State, b: State) {
    a.id == b.id && a.readFrom == b.readFrom && a.writeTo == b.writeTo
  }

  /** How many copies of a broadcast by `p` land on channel `c`: one per
      write pipe of `p` that `c`'s reader reads. */
  function Fan(p: State, c: Channel): nat {
    if c.writer == p.id then multiset(p.writeTo)[c.reader] else 0
  }

  /** `m` written on every write pipe of `p`. */
  function Announce(p: State, f: Pipes, m: Message): (r: Pipes)
    ensures forall c {:trigger Pending(r, c)} :: Pending(r, c) == Pending(f, c) + Copies(Encode(m), Fan(p, c))
  {
    var r := Broadcast(f, p.id, p.writeTo, Encode(m));
    assert forall c :: Pending(r, c) == Pending(f, c) + Copies(Encode(m), Fan(p, c)) by {
      forall c
        ensures Pending(r, c) == Pending(f, c) + Copies(Encode(m), Fan(p, c))
      {
        BroadcastPending(f, p.id, p.writeTo, Encode(m), c);
      }
    }
    r
  }

  /** `request`: queue the own entry `(clock, 0, id)` and send a Request
      stamped with the current clock on every write pipe. Sending does not
      advance the clock. */
  function Request(p: State, f: Pipes): (r: (State, Pipes))
    ensures SameSeat(p, r.0) && r.0.clock == p.clock
    ensures multiset(r.0.queue) == multiset(p.queue) + multiset{Entry(p.clock, REQUEST, p.id)}
    ensures Sorted(p.queue) ==> Sorted(r.0.queue)
    ensures forall c {:trigger Pending(r.1, c)} :: Pending(r.1, c) == Pending(f, c) + Copies(Encode(Message(REQUEST, p.id, p.clock)), Fan(p, c))
  {
    (p.(queue := Insert(p.queue, Entry(p.clock, REQUEST, p.id))), Announce(p, f, Message(REQUEST, p.id, p.clock)))
  }

  /** `reply`: one Reply stamped with the current clock on every write pipe;
      the state, clock included, is unchanged. */
  function Reply(p: State, f: Pipes): (r: Pipes)
    ensures forall c {:trigger Pending(r, c)} :: Pending(r, c) == Pending(f, c) + Copies(Encode(Message(REPLY, p.id, p.clock)), Fan(p, c))
  {
    Announce(p, f, Message(REPLY, p.id, p.clock))
  }

  /** What `wait_for_requests` does with one message it read: queue
      `(stamp, kind, sender)` and apply the receive rule to the clock. The
      kind is not checked. */
  function Absorb(p: State, m: Message): (r: State)
    ensures SameSeat(p, r)
    ensures r.clock == Observe(p.clock, m.stamp) && r.clock > p.clock && r.clock > m.stamp
    ensures multiset(r.queue) == multiset(p.queue) + multiset{Entry(m.stamp, m.kind, m.sender)}
    ensures Sorted(p.queue) ==> Sorted(r.queue)
  {
    p.(queue := Insert(p.queue, Entry(m.stamp, m.kind, m.sender)), clock := Observe(p.clock, m.stamp))
  }

  /** The loop of `wait_for_requests` from read pipe `i` on: read one line
      per pipe and absorb the message it holds. */
  function ReceiveRequests(p: State, f: Pipes, i: nat): (r: Result<(State, Pipes)>)
    requires i <= |p.readFrom|
    ensures r.Ok? ==> SameSeat(p, r.value.0)
    ensures r.Ok? ==> r.value.0.clock >= p.clock + (|p.readFrom| - i)
    ensures r.Ok? ==> |r.value.0.queue| == |p.queue| + (|p.readFrom| - i)
    ensures r.Ok? && Sorted(p.queue) ==> Sorted(r.value.0.queue)
    decreases |p.readFrom| - i
  {
    if i == |p.readFrom| then Ok((p, f))
    else
      var got :- Receive(f, Channel(p.readFrom[i], p.id));
      var m :- Decode(got.0);
      var q := Absorb(p, m);
      assert |q.queue| == |p.queue| + 1 by {
        assert |multiset(q.queue)| == |multiset(p.queue)| + 1;
      }
      ReceiveRequests(q, got.1, i + 1)
  }

  /** `wait_for_requests`: one line from every read pipe, in pipe order,
      then one Reply broadcast. The clock rises by at least one per line
      read, and the queue gains one entry per line. */
  function WaitForRequests(p: State, f: Pipes): (r: Result<(State, Pipes)>)
    ensures r.Ok? ==> SameSeat(p, r.value.0)
    ensures r.Ok? ==> r.value.0.clock >= p.clock + |p.readFrom|
    ensures r.Ok? ==> |r.value.0.queue| == |p.queue| + |p.readFrom|
    ensures r.Ok? && Sorted(p.queue) ==> Sorted(r.value.0.queue)
    ensures r.Ok? ==> forall c: Channel {:trigger Pending(r.value.1, c)} :: c.reader != p.id ==>
              Pending(r.value.1, c) == Pending(f, c) + Copies(Encode(Message(REPLY, p.id, r.value.0.clock)), Fan(p, c))
  {
    var got :- ReceiveRequests(p, f, 0);
    assert forall c: Channel {:trigger Pending(got.1, c)} :: c.reader != p.id ==> Pending(got.1, c) == Pending(f, c) by {
      forall c: Channel | c.reader != p.id
        ensures Pending(got.1, c) == Pending(f, c)
      {
        ReceiveRequestsFrame(p, f, 0, c);
      }
    }
    Ok((got.0, Reply(got.0, got.1)))
  }

  /** The loop of `wait_for_requests` reads only from pipes into `p`: a
      pipe with another reader keeps its lines. */
  lemma {:induction false} ReceiveRequestsFrame(p: State, f: Pipes, i: nat, c: Channel)
    requires i <= |p.readFrom| && c.reader != p.id
    ensures ReceiveRequests(p, f, i).Ok? ==> Pending(ReceiveRequests(p, f, i).value.1, c) == Pending(f, c)
    decreases |p.readFrom| - i
  {
    if i == |p.readFrom| {
      assert ReceiveRequests(p, f, i) == Ok((p, f));
    } else if ReceiveRequests(p, f, i).Ok? {
      var q, g := ReceiveRequestsNext(p, f, i, c);
      ReceiveRequestsFrame(q, g, i + 1, c);
    }
  }

  /** One pipe of a successful loop: the line read from pipe `i` is
      absorbed, the loop goes on from pipe `i + 1`, and only the pipe read
      has changed. */
  lemma ReceiveRequestsNext(p: State, f: Pipes, i: nat, c: Channel) returns (q: State, g: Pipes)
    requires i < |p.readFrom| && ReceiveRequests(p, f, i).Ok? && c.reader != p.id
    ensures SameSeat(p, q) && ReceiveRequests(p, f, i) == ReceiveRequests(q, g, i + 1)
    ensures Pending(g, c) == Pending(f, c)
  {
    var got := Receive(f, Channel(p.readFrom[i], p.id)).value;
    q, g := Absorb(p, Decode(got.0).value), got.1;
  }

  /** `wait_for_replies` from read pipe `i` on: one line per pipe, which
      must decode to at least three fields. Only the philosopher's own read
      pipes are consumed. */
  function WaitForReplies(p: State, f: Pipes, i: nat): (r: Result<Pipes>)
    requires i <= |p.readFrom|
    ensures r.Ok? ==> forall c: Channel {:trigger Pending(r.value, c)} :: c.reader != p.id ==> Pending(r.value, c) == Pending(f, c)
    decreases |p.readFrom| - i
  {
    if i == |p.readFrom| then Ok(f)
    else
      var got :- Receive(f, Channel(p.readFrom[i], p.id));
      var _ :- Decode(got.0);
      WaitForReplies(p, got.1, i + 1)
  }

  /** Python's `s[x]`: a negative index counts from the end. */
  function PyIndex(s: seq<int>, x: int): (r: Result<int>)
    ensures r.Ok? <==> -|s| <= x < |s|
    ensures r.Err? ==> r.failure == IndexError
    ensures 0 <= x < |s| ==> r == Ok(s[x])
    ensures -|s| <= x < 0 ==> r == Ok(s[|s| + x])
  {
    if 0 <= x < |s| then Ok(s[x])
    else if -|s| <= x < 0 then Ok(s[|s| + x])
    else Err(IndexError)
  }

  /** `wait_for_exits`: while the head of the queue is someone else, read
      one line from the pipe the index arithmetic picks for the head's id
      and drop the head. On success the own id heads the queue and what is
      left is a suffix of the queue it started with. */
  function WaitForExits(p: State, f: Pipes): (r: Result<(State, Pipes)>)
    ensures r.Ok? ==> |r.value.0.queue| > 0 && r.value.0.queue[0].id == p.id
    ensures r.Ok? ==> r.value.0 == p.(queue := r.value.0.queue)
    ensures r.Ok? ==> exists k :: 0 <= k < |p.queue| && r.value.0.queue == p.queue[k..]
    decreases |p.queue|
  {
    var head :- Head(p.queue);
    if head.id == p.id then
      assert p.queue == p.queue[0..];
      Ok((p, f))
    else
      var from :- PyIndex(p.readFrom, WaitIndex(p.id, head.id));
      var got :- Receive(f, Channel(from, p.id));
      var popped := Pop(p.queue).value;
      var _ :- Decode(got.0);
      var r := WaitForExits(p.(queue := popped.1), got.1);
      assert r.Ok? ==> exists k :: 0 <= k < |p.queue| && r.value.0.queue == p.queue[k..] by {
        if r.Ok? {
          var k :| 0 <= k < |popped.1| && r.value.0.queue == popped.1[k..];
          assert popped.1[k..] == p.queue[k + 1..];
        }
      }
      r
  }

  /** The check in `do`: wait for the exits only when the head is someone
      else. The check is the loop's own first test, so it never changes the
      outcome. */
  function AwaitTurn(p: State, f: Pipes): (r: Result<(State, Pipes)>)
    ensures r == WaitForExits(p, f)
  {
    var head :- Head(p.queue);
    if head.id != p.id then WaitForExits(p, f) else Ok((p, f))
  }

  /** `exit`: take the head of the queue and send an Exit carrying that
      entry's id and stamp on every write pipe. On an empty queue `get`
      cannot complete in this state. */
  function Exit(p: State, f: Pipes): (r: Result<(State, Pipes)>)
    ensures r.Ok? <==> |p.queue| > 0
    ensures r.Err? ==> r.failure == Blocked
    ensures r.Ok? ==> r.value.0 == p.(queue := p.queue[1..])
    ensures r.Ok? ==> forall c {:trigger Pending(r.value.1, c)} :: Pending(r.value.1, c)
                                  == Pending(f, c) + Copies(Encode(Message(EXIT, p.queue[0].id, p.queue[0].stamp)), Fan(p, c))
  {
    var popped :- Pop(p.queue);
    var e := popped.0;
    Ok((p.(queue := popped.1), Announce(p, f, Message(EXIT, e.id, e.stamp))))
  }

  /** The ids of the entries `q`, as a set. */
  function IdSet(q: seq<Entry>): set<int> {
    set x | 0 <= x < |q| :: q[x].id
  }

  /** The ids of a non-empty prefix: the first entry's, and the rest's. */
  lemma IdSetCons(q: seq<Entry>, pos: nat)
    requires 0 < pos <= |q|
    ensures IdSet(q[..pos]) == {q[0].id} + IdSet(q[1..][..pos - 1])
  {
    var a, b := q[..pos], q[1..][..pos - 1];
    assert forall x :: 0 <= x < |b| ==> b[x] == a[x + 1];
    forall v | v in IdSet(a)
      ensures v == q[0].id || v in IdSet(b)
    {
      var x :| 0 <= x < |a| && a[x].id == v;
      if x > 0 {
        assert b[x - 1].id == v;
      }
    }
    assert a[0] == q[0];
  }

  /** With distinct ids ahead of position `pos`, the first id is not among
      the later ones. */
  lemma FirstIdUnique(q: seq<Entry>, pos: nat)
    requires 0 < pos <= |q|
    requires forall x, y :: 0 <= x < y < pos ==> q[x].id != q[y].id
    ensures q[0].id !in IdSet(q[1..][..pos - 1])
  {
    var b := q[1..][..pos - 1];
    forall x | 0 <= x < |b|
      ensures b[x].id != q[0].id
    {
      assert b[x] == q[x + 1];
    }
  }

  /** One round of the `wait_for_exits` loop when the head belongs to peer
      `m`, the pipe from `m` holds a well-formed line, and the index
      arithmetic finds that pipe. */
  lemma WaitForExitsStep(n: nat, p: State, f: Pipes)
    requires 0 <= p.id < n && p.readFrom == Others(n, p.id)
    requires |p.queue| > 0 && 0 <= p.queue[0].id < n && p.queue[0].id != p.id
    requires |Pending(f, Channel(p.queue[0].id, p.id))| > 0
    requires Decode(Pending(f, Channel(p.queue[0].id, p.id))[0]).Ok?
    ensures WaitForExits(p, f)
            == WaitForExits(p.(queue := p.queue[1..]), Receive(f, Channel(p.queue[0].id, p.id)).value.1)
  {
    WaitIndexSelects(n, p.id, p.queue[0].id);
  }

  /** The peers ahead of position `pos` in `p`'s queue are other members of
      the conference, each named once, and each has a well-formed line
      waiting on its pipe to `p`. */
  ghost predicate ExitsReady(n: nat, p: State, f: Pipes, pos: nat)
    requires pos <= |p.queue|
  {
    && (forall x :: 0 <= x < pos ==> 0 <= p.queue[x].id < n && p.queue[x].id != p.id)
    && (forall x, y :: 0 <= x < y < pos ==> p.queue[x].id != p.queue[y].id)
    && (forall x :: 0 <= x < pos ==> |Pending(f, Channel(p.queue[x].id, p.id))| > 0)
    && (forall x :: 0 <= x < pos ==> Decode(Pending(f, Channel(p.queue[x].id, p.id))[0]).Ok?)
  }

  /** Popping the head after reading its line keeps the peers behind it
      ready. */
  lemma ExitsReadyStep(n: nat, p: State, f: Pipes, pos: nat)
    requires 0 < pos <= |p.queue| && ExitsReady(n, p, f, pos)
    ensures ExitsReady(n, p.(queue := p.queue[1..]), Receive(f, Channel(p.queue[0].id, p.id)).value.1, pos - 1)
  {
    var q := p.queue;
    var g := Receive(f, Channel(q[0].id, p.id)).value.1;
    var p' := p.(queue := q[1..]);
    assert p'.id == p.id;
    AheadShift(n, p.id, q, pos);
    forall x | 0 <= x < pos - 1
      ensures Pending(g, Channel(p'.queue[x].id, p'.id)) == Pending(f, Channel(q[x + 1].id, p.id))
    {
      assert p'.queue[x] == q[x + 1];
      assert q[x + 1].id != q[0].id;
    }
  }

  /** Dropping the head keeps the peers behind it distinct members of the
      conference other than `self`. */
  lemma AheadShift(n: nat, self: int, q: seq<Entry>, pos: nat)
    requires 0 < pos <= |q|
    requires forall x :: 0 <= x < pos ==> 0 <= q[x].id < n && q[x].id != self
    requires forall x, y :: 0 <= x < y < pos ==> q[x].id != q[y].id
    ensures forall x :: 0 <= x < pos - 1 ==> 0 <= q[1..][x].id < n && q[1..][x].id != self
    ensures forall x, y :: 0 <= x < y < pos - 1 ==> q[1..][x].id != q[1..][y].id
  {
    var r := q[1..];
    forall x | 0 <= x < pos - 1
      ensures 0 <= r[x].id < n && r[x].id != self
    {
      assert r[x] == q[x + 1];
    }
    forall x, y | 0 <= x < y < pos - 1
      ensures r[x].id != r[y].id
    {
      assert r[x] == q[x + 1] && r[y] == q[y + 1];
    }
  }

  /** The loop of `wait_for_exits`, run with the own entry at position `pos`
      and one well-formed line waiting from each peer ahead of it: it
      succeeds and pops exactly the `pos` entries ahead, leaving the own
      entry at the head. */
  lemma {:induction false} WaitForExitsPops(n: nat, p: State, f: Pipes, pos: nat)
    requires 0 <= p.id < n && p.readFrom == Others(n, p.id)
    requires pos < |p.queue| && p.queue[pos].id == p.id
    requires ExitsReady(n, p, f, pos)
    ensures WaitForExits(p, f).Ok?
    ensures WaitForExits(p, f).value.0 == p.(queue := p.queue[pos..])
    decreases pos, 1
  {
    if pos == 0 {
      assert p.queue[0..] == p.queue;
    } else {
      WaitForExitsPopsStep(n, p, f, pos);
    }
  }

  lemma {:induction false} WaitForExitsPopsStep(n: nat, p: State, f: Pipes, pos: nat)
    requires 0 <= p.id < n && p.readFrom == Others(n, p.id)
    requires 0 < pos < |p.queue| && p.queue[pos].id == p.id
    requires ExitsReady(n, p, f, pos)
    ensures WaitForExits(p, f).Ok?
    ensures WaitForExits(p, f).value.0 == p.(queue := p.queue[pos..])
    decreases pos, 0
  {
    var p', g := WaitAdvance(n, p, f, pos);
    WaitForExitsPops(n, p', g, pos - 1);
    assert p'.queue[pos - 1..] == p.queue[pos..];
  }

  /** One round of the loop with the own entry at position `pos > 0`: the
      head is popped, its line read, and the rest stays ready. */
  lemma WaitAdvance(n: nat, p: State, f: Pipes, pos: nat) returns (p': State, g: Pipes)
    requires 0 <= p.id < n && p.readFrom == Others(n, p.id)
    requires 0 < pos < |p.queue| && p.queue[pos].id == p.id
    requires ExitsReady(n, p, f, pos)
    ensures p' == p.(queue := p.queue[1..])
    ensures 0 <= p'.id < n && p'.readFrom == Others(n, p'.id)
    ensures pos - 1 < |p'.queue| && p'.queue[pos - 1].id == p'.id
    ensures ExitsReady(n, p', g, pos - 1)
    ensures WaitForExits(p, f) == WaitForExits(p', g)
    ensures forall c {:trigger Pending(g, c)} ::
              Pending(g, c) == if c == Channel(p.queue[0].id, p.id) then Tail(Pending(f, c)) else Pending(f, c)
  {
    WaitForExitsStep(n, p, f);
    ExitsReadyStep(n, p, f, pos);
    p', g := p.(queue := p.queue[1..]), Receive(f, Channel(p.queue[0].id, p.id)).value.1;
  }

  /** The loop of `wait_for_exits` when the entry at position `pos` belongs
      to another peer `m` whose pipe is empty, and a well-formed line waits
      from each peer ahead of it: the loop reads past the peers ahead and
      then cannot complete in this state; it waits on the pipe from `m`
      until `m` sends a line. */
  lemma {:induction false} WaitForExitsBlocks(n: nat, p: State, f: Pipes, pos: nat)
    requires 0 <= p.id < n && p.readFrom == Others(n, p.id)
    requires pos < |p.queue| && ExitsReady(n, p, f, pos)
    requires 0 <= p.queue[pos].id < n && p.queue[pos].id != p.id
    requires forall x :: 0 <= x < pos ==> p.queue[x].id != p.queue[pos].id
    requires Pending(f, Channel(p.queue[pos].id, p.id)) == []
    ensures WaitForExits(p, f) == Err(Blocked)
    decreases pos, 1
  {
    if pos == 0 {
      WaitIndexSelects(n, p.id, p.queue[0].id);
    } else {
      WaitForExitsBlocksStep(n, p, f, pos);
    }
  }

  lemma {:induction false} WaitForExitsBlocksStep(n: nat, p: State, f: Pipes, pos: nat)
    requires 0 <= p.id < n && p.readFrom == Others(n, p.id)
    requires 0 < pos < |p.queue| && ExitsReady(n, p, f, pos)
    requires 0 <= p.queue[pos].id < n && p.queue[pos].id != p.id
    requires forall x :: 0 <= x < pos ==> p.queue[x].id != p.queue[pos].id
    requires Pending(f, Channel(p.queue[pos].id, p.id)) == []
    ensures WaitForExits(p, f) == Err(Blocked)
    decreases pos, 0
  {
    var p', g := WaitPast(n, p, f, pos);
    BlockerShift(p.queue, pos);
    assert Pending(g, Channel(p.queue[pos].id, p.id)) == [];
    WaitForExitsBlocks(n, p', g, pos - 1);
  }

  /** Dropping the head keeps the entry at `pos` apart from the ones ahead
      of it, one position closer. */
  lemma BlockerShift(q: seq<Entry>, pos: nat)
    requires 0 < pos < |q|
    requires forall x :: 0 <= x < pos ==> q[x].id != q[pos].id
    ensures q[0].id != q[pos].id && q[1..][pos - 1] == q[pos]
    ensures forall x :: 0 <= x < pos - 1 ==> q[1..][x].id != q[1..][pos - 1].id
  {
    forall x | 0 <= x < pos - 1
      ensures q[1..][x].id != q[pos].id
    {
      assert q[1..][x] == q[x + 1];
    }
  }

  /** One round of the loop past a peer ahead of position `pos`: the head
      is popped, its line read, and the peers behind it stay ready. */
  lemma WaitPast(n: nat, p: State, f: Pipes, pos: nat) returns (p': State, g: Pipes)
    requires 0 <= p.id < n && p.readFrom == Others(n, p.id)
    requires 0 < pos <= |p.queue| && ExitsReady(n, p, f, pos)
    ensures p' == p.(queue := p.queue[1..])
    ensures ExitsReady(n, p', g, pos - 1)
    ensures WaitForExits(p, f) == WaitForExits(p', g)
    ensures forall c {:trigger Pending(g, c)} ::
              Pending(g, c) == if c == Channel(p.queue[0].id, p.id) then Tail(Pending(f, c)) else Pending(f, c)
  {
    WaitForExitsStep(n, p, f);
    ExitsReadyStep(n, p, f, pos);
    p', g := p.(queue := p.queue[1..]), Receive(f, Channel(p.queue[0].id, p.id)).value.1;
  }

  /** In the same run, the loop reads exactly one line from the pipe of
      each peer ahead of the own entry, and nothing else. */
  lemma {:induction false} WaitForExitsReads(n: nat, p: State, f: Pipes, pos: nat, c: Channel)
    requires 0 <= p.id < n && p.readFrom == Others(n, p.id)
    requires pos < |p.queue| && p.queue[pos].id == p.id
    requires ExitsReady(n, p, f, pos)
    ensures WaitForExits(p, f).Ok?
    ensures Pending(WaitForExits(p, f).value.1, c)
            == if c.reader == p.id && c.writer in IdSet(p.queue[..pos]) then Tail(Pending(f, c)) else Pending(f, c)
    decreases pos, 1
  {
    WaitForExitsPops(n, p, f, pos);
    if pos == 0 {
      assert IdSet(p.queue[..0]) == {};
    } else {
      WaitForExitsReadsStep(n, p, f, pos, c);
    }
  }

  lemma {:induction false} WaitForExitsReadsStep(n: nat, p: State, f: Pipes, pos: nat, c: Channel)
    requires 0 <= p.id < n && p.readFrom == Others(n, p.id)
    requires 0 < pos < |p.queue| && p.queue[pos].id == p.id
    requires ExitsReady(n, p, f, pos)
    ensures WaitForExits(p, f).Ok?
    ensures Pending(WaitForExits(p, f).value.1, c)
            == if c.reader == p.id && c.writer in IdSet(p.queue[..pos]) then Tail(Pending(f, c)) else Pending(f, c)
    decreases pos, 0
  {
    var q := p.queue;
    var p', g := WaitAdvance(n, p, f, pos);
    WaitForExitsReads(n, p', g, pos - 1, c);
    assert q[1..][..pos - 1] == p'.queue[..pos - 1];
    assert Pending(g, c) == if c == Channel(q[0].id, p.id) then Tail(Pending(f, c)) else Pending(f, c);
    CombineReads(p.id, q, pos, f, g, WaitForExits(p', g).value.1, c);
  }

  /** One pipe read followed by the reads for the rest of the prefix is the
      reads for the whole prefix. */
  lemma CombineReads(self: int, q: seq<Entry>, pos: nat, f: Pipes, g: Pipes, out: Pipes, c: Channel)
    requires 0 < pos <= |q|
    requires forall x, y :: 0 <= x < y < pos ==> q[x].id != q[y].id
    requires Pending(g, c) == if c == Channel(q[0].id, self) then Tail(Pending(f, c)) else Pending(f, c)
    requires Pending(out, c)
             == if c.reader == self && c.writer in IdSet(q[1..][..pos - 1]) then Tail(Pending(g, c)) else Pending(g, c)
    ensures Pending(out, c)
            == if c.reader == self && c.writer in IdSet(q[..pos]) then Tail(Pending(f, c)) else Pending(f, c)
  {
    IdSetCons(q, pos);
    FirstIdUnique(q, pos);
  }
}
