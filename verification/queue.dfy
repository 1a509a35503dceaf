/** The admission queue of one peer: a priority queue of integer triples
    `(timestamp, kind, id)` compared as Python tuples, lexicographically.
    The model keeps the queue as a sequence sorted by that order; its first
    element is what the heap keeps at index 0.
 */
module AdmissionQueue {
  import opened Results
  import opened Sequences

  datatype Entry = Entry(stamp: int, kind: int, id: int)

  /** Python's tuple comparison `a <= b` on `(stamp, kind, id)`. */
  predicate Precedes(a: Entry, b: Entry) {
    || a.stamp < b.stamp
    || (a.stamp == b.stamp && a.kind < b.kind)
    || (a.stamp == b.stamp && a.kind == b.kind && a.id <= b.id)
  }

  /** Tuple comparison is a total order on entries. */
  lemma PrecedesTotalOrder(a: Entry, b: Entry, c: Entry)
    ensures Precedes(a, a)
    ensures Precedes(a, b) || Precedes(b, a)
    ensures Precedes(a, b) && Precedes(b, a) ==> a == b
    ensures Precedes(a, b) && Precedes(b, c) ==> Precedes(a, c)
  {
  }

  ghost predicate Sorted(q: seq<Entry>) {
    forall i, j :: 0 <= i < j < |q| ==> Precedes(q[i], q[j])
  }

  /** `PriorityQueue.put`: the entry joins the queue and the queue stays
      ordered. */
  function Insert(q: seq<Entry>, e: Entry): (r: seq<Entry>)
    ensures multiset(r) == multiset(q) + multiset{e}
    ensures Sorted(q) ==> Sorted(r)
  {
    if |q| == 0 then [e]
    else if Precedes(e, q[0]) then [e] + q
    else
      var rest := Insert(q[1..], e);
      assert q == [q[0]] + q[1..];
      assert Sorted(q) ==> Sorted([q[0]] + rest) by {
        if Sorted(q) {
          FirstPrecedesInsert(q, e, rest);
          SortedCons(q[0], rest);
        }
      }
      [q[0]] + rest
  }

  /** The head of a sorted queue precedes whatever is inserted behind it. */
  lemma FirstPrecedesInsert(q: seq<Entry>, e: Entry, rest: seq<Entry>)
    requires |q| > 0 && Sorted(q) && !Precedes(e, q[0])
    requires multiset(rest) == multiset(q[1..]) + multiset{e}
    ensures forall x :: x in rest ==> Precedes(q[0], x)
  {
    forall x | x in rest
      ensures Precedes(q[0], x)
    {
      assert x in multiset(rest);
      if x != e {
        assert x in multiset(q[1..]);
        assert x in q[1..];
      }
    }
  }

  lemma SortedCons(h: Entry, t: seq<Entry>)
    requires Sorted(t)
    requires forall x :: x in t ==> Precedes(h, x)
    ensures Sorted([h] + t)
  {
    var s := [h] + t;
    forall i, j | 0 <= i < j < |s|
      ensures Precedes(s[i], s[j])
    {
      if i == 0 {
        assert s[j] == t[j - 1];
        assert s[j] in t;
      } else {
        assert s[i] == t[i - 1] && s[j] == t[j - 1];
      }
    }
  }

  /** `queue.queue[0]`: the least entry; IndexError on an empty queue. */
  function Head(q: seq<Entry>): (r: Result<Entry>)
    ensures r.Ok? <==> |q| > 0
    ensures r.Err? ==> r.failure == IndexError
    ensures r.Ok? ==> r.value in q
    ensures r.Ok? && Sorted(q) ==> forall x :: x in q ==> Precedes(r.value, x)
  {
    if |q| == 0 then Err(IndexError) else Ok(q[0])
  }

  /** `queue.get()`: removes and returns the least entry. On an empty queue
      the call cannot complete in this state. */
  function Pop(q: seq<Entry>): (r: Result<(Entry, seq<Entry>)>)
    ensures r.Ok? <==> |q| > 0
    ensures r.Err? ==> r.failure == Blocked
    ensures r.Ok? ==> multiset(r.value.1) + multiset{r.value.0} == multiset(q)
    ensures r.Ok? && Sorted(q) ==> Sorted(r.value.1)
                                   && forall x :: x in q ==> Precedes(r.value.0, x)
  {
    if |q| == 0 then Err(Blocked)
    else
      assert q == [q[0]] + q[1..];
      Ok((q[0], q[1..]))
  }

  /** The queue after putting `es` one by one into an empty queue. */
  function Build(es: seq<Entry>): (r: seq<Entry>)
    ensures Sorted(r)
    ensures multiset(r) == multiset(es)
  {
    if |es| == 0 then []
    else
      assert es == es[..|es| - 1] + [es[|es| - 1]];
      Insert(Build(es[..|es| - 1]), es[|es| - 1])
  }

  /** A sorted queue is determined by its contents: two peers holding the
      same entries hold them in the same order. */
  lemma {:induction false} SortedUnique(a: seq<Entry>, b: seq<Entry>)
    requires Sorted(a) && Sorted(b)
    requires multiset(a) == multiset(b)
    ensures a == b
    decreases |a|
  {
    if |a| > 0 {
      SameHead(a, b);
      assert Sorted(a[1..]) && Sorted(b[1..]);
      SortedUnique(a[1..], b[1..]);
      assert a == [a[0]] + a[1..] && b == [b[0]] + b[1..];
    }
  }

  /** Two sorted queues with the same entries start with the same entry,
      and hold the same entries behind it. */
  lemma SameHead(a: seq<Entry>, b: seq<Entry>)
    requires Sorted(a) && Sorted(b)
    requires multiset(a) == multiset(b)
    requires |a| > 0
    ensures |b| == |a| && a[0] == b[0]
    ensures multiset(a[1..]) == multiset(b[1..])
  {
    assert |b| == |multiset(b)| == |a|;
    assert a[0] in multiset(b) && b[0] in multiset(a);
    assert a[0] in b && b[0] in a;
    assert Precedes(b[0], a[0]) && Precedes(a[0], b[0]);
    DropHead(a, b);
  }

  /** Dropping the same first entry from two lists with the same entries
      leaves the same entries. */
  lemma DropHead(a: seq<Entry>, b: seq<Entry>)
    requires |a| > 0 && |b| > 0 && a[0] == b[0]
    requires multiset(a) == multiset(b)
    ensures multiset(a[1..]) == multiset(b[1..])
  {
    assert a == [a[0]] + a[1..] && b == [b[0]] + b[1..];
    assert multiset(a) == multiset{a[0]} + multiset(a[1..]);
    assert multiset(b) == multiset{b[0]} + multiset(b[1..]);
    assert multiset(a[1..]) == multiset(a) - multiset{a[0]};
    assert multiset(b[1..]) == multiset(b) - multiset{b[0]};
  }

  /** Putting the same entries in any order gives the same queue. */
  lemma BuildPermutation(es: seq<Entry>, fs: seq<Entry>)
    requires multiset(es) == multiset(fs)
    ensures Build(es) == Build(fs)
  {
    SortedUnique(Build(es), Build(fs));
  }

  /** The Request entries `(c_k, 0, k)` of peers `0..|clocks|-1`. */
  function RequestEntries(clocks: seq<int>): (es: seq<Entry>)
    ensures |es| == |clocks|
    ensures forall k :: 0 <= k < |es| ==> es[k] == Entry(clocks[k], 0, k)
  {
    seq(|clocks|, k requires 0 <= k < |clocks| => Entry(clocks[k], 0, k))
  }

  /** The ids of a queue, head first. */
  function Ids(q: seq<Entry>): (ids: seq<int>)
    ensures |ids| == |q|
    ensures forall k :: 0 <= k < |q| ==> ids[k] == q[k].id
  {
    seq(|q|, k requires 0 <= k < |q| => q[k].id)
  }

  /** The queue every peer holds once all the Requests of a round are in:
      the Request entries of peers `0..|clocks|-1`, in tuple order. */
  function RequestQueue(clocks: seq<int>): (q: seq<Entry>)
    ensures |q| == |clocks|
    ensures Sorted(q)
    ensures multiset(q) == multiset(RequestEntries(clocks))
  {
    var q := Build(RequestEntries(clocks));
    assert |q| == |multiset(q)| == |RequestEntries(clocks)|;
    q
  }

  /** The Request queue holds each peer's own entry exactly once: position
      `x` carries the entry `(c_k, 0, k)` of some peer `k`, no peer twice,
      and every peer somewhere. */
  lemma RequestQueueFacts(clocks: seq<int>)
    ensures forall x :: 0 <= x < |clocks| ==>
              0 <= RequestQueue(clocks)[x].id < |clocks|
              && RequestQueue(clocks)[x] == Entry(clocks[RequestQueue(clocks)[x].id], 0, RequestQueue(clocks)[x].id)
    ensures forall x, y :: 0 <= x < y < |clocks| ==> RequestQueue(clocks)[x].id != RequestQueue(clocks)[y].id
    ensures forall k :: 0 <= k < |clocks| ==> Entry(clocks[k], 0, k) in RequestQueue(clocks)
  {
    var es, q := RequestEntries(clocks), RequestQueue(clocks);
    forall x | 0 <= x < |q|
      ensures 0 <= q[x].id < |clocks| && q[x] == Entry(clocks[q[x].id], 0, q[x].id)
    {
      assert q[x] in multiset(es);
      var k :| 0 <= k < |es| && es[k] == q[x];
    }
    forall x, y | 0 <= x < y < |q|
      ensures q[x].id != q[y].id
    {
      assert Distinct(es);
      DistinctCount(es, q[y]);
      CountedOnce(q, x, y);
    }
    forall k | 0 <= k < |clocks|
      ensures Entry(clocks[k], 0, k) in q
    {
      assert es[k] in multiset(q);
    }
  }

  /** The admission order of a round: ids sorted by their clock, ties going
      to the lower id. It names every peer exactly once. */
  function AdmissionOrder(clocks: seq<int>): (order: seq<int>)
    ensures |order| == |clocks|
    ensures forall x :: 0 <= x < |order| ==> 0 <= order[x] < |clocks|
    ensures forall x, y :: 0 <= x < y < |order| ==> order[x] != order[y]
    ensures forall k :: 0 <= k < |clocks| ==> k in order
  {
    var q := RequestQueue(clocks);
    RequestQueueFacts(clocks);
    var order := Ids(q);
    assert forall k :: 0 <= k < |clocks| ==> k in order by {
      forall k | 0 <= k < |clocks|
        ensures k in order
      {
        var x :| 0 <= x < |q| && q[x] == Entry(clocks[k], 0, k);
        assert order[x] == k;
      }
    }
    order
  }

  /** The order sorts the peers by clock, and peers with equal clocks by
      id. */
  lemma AdmissionOrderSorted(clocks: seq<int>, x: nat, y: nat)
    requires x < y < |clocks|
    ensures var a, b := AdmissionOrder(clocks)[x], AdmissionOrder(clocks)[y];
            clocks[a] < clocks[b] || (clocks[a] == clocks[b] && a < b)
  {
    RequestQueueFacts(clocks);
    var q := RequestQueue(clocks);
    assert Precedes(q[x], q[y]);
  }

  /** Among Request entries, an earlier stamp goes first, and equal stamps
      are broken by ascending id. */
  lemma RequestPrecedes(a: Entry, b: Entry)
    requires a.kind == 0 && b.kind == 0
    ensures Precedes(a, b) <==> a.stamp < b.stamp || (a.stamp == b.stamp && a.id <= b.id)
  {
  }

  /** Any ordered arrangement of the Requests spells the admission order:
      whichever order the Requests arrive in, a peer reads the same ids off
      its queue. */
  lemma AdmissionOrderOf(clocks: seq<int>, q: seq<Entry>)
    requires Sorted(q) && multiset(q) == multiset(RequestEntries(clocks))
    ensures AdmissionOrder(clocks) == Ids(q)
  {
    SortedUnique(RequestQueue(clocks), q);
  }

  /** When every clock reads the same, the peers are admitted by id. */
  lemma TiesById(clocks: seq<int>)
    requires forall i, j :: 0 <= i < j < |clocks| ==> clocks[i] == clocks[j]
    ensures forall x :: 0 <= x < |clocks| ==> AdmissionOrder(clocks)[x] == x
  {
    var es := RequestEntries(clocks);
    assert Sorted(es);
    AdmissionOrderOf(clocks, es);
  }

  /** Three peers whose clocks all read 5 are admitted as 0, 1, 2. */
  lemma TieBreakExample()
    ensures AdmissionOrder([5, 5, 5]) == [0, 1, 2]
  {
    TiesById([5, 5, 5]);
  }
}
