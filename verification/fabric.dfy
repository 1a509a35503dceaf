/** The pipes as first-in first-out queues of text lines, one queue per
    channel. Writing appends a line; `readline` takes the oldest one.
 */
module Fabric {
  import opened Results
  import opened Topology

  /** The lines written to each channel and not yet read. */
  type Pipes = map<Channel, seq<string>>

  /** The lines waiting on `c`; a channel never written holds none. */
  function Pending(f: Pipes, c: Channel): seq<string> {
    if c in f then f[c] else []
  }

  /** The lines after the oldest one. */
  function Tail(lines: seq<string>): seq<string> {
    if |lines| == 0 then [] else lines[1..]
  }

  /** `os.write` of one line to the pipe `c`. */
  function Send(f: Pipes, c: Channel, line: string): (r: Pipes)
    ensures Pending(r, c) == Pending(f, c) + [line]
    ensures forall d {:trigger Pending(r, d)} :: d != c ==> Pending(r, d) == Pending(f, d)
  {
    f[c := Pending(f, c) + [line]]
  }

  /** `k` copies of `line`. */
  function Copies(line: string, k: nat): (r: seq<string>)
    ensures |r| == k
    ensures forall x :: 0 <= x < k ==> r[x] == line
  {
    seq(k, _ => line)
  }

  /** The same line written on every write pipe of peer `from`, one pipe per
      entry of `to`, in order. */
  function Broadcast(f: Pipes, from: int, to: seq<int>, line: string): (r: Pipes)
    ensures forall c: Channel {:trigger Pending(r, c)} :: c.writer != from ==> Pending(r, c) == Pending(f, c)
    decreases |to|
  {
    if |to| == 0 then f else Broadcast(Send(f, Channel(from, to[0]), line), from, to[1..], line)
  }

  /** A broadcast gives each of the sender's channels one copy of the line
      per occurrence of its reader in `to`, and leaves every other channel
      as it was. */
  lemma {:induction false} BroadcastPending(f: Pipes, from: int, to: seq<int>, line: string, c: Channel)
    ensures Pending(Broadcast(f, from, to, line), c)
            == Pending(f, c) + Copies(line, if c.writer == from then multiset(to)[c.reader] else 0)
    decreases |to|, 1
  {
    if |to| > 0 {
      BroadcastPendingStep(f, from, to, line, c);
    }
  }

  lemma {:induction false} BroadcastPendingStep(f: Pipes, from: int, to: seq<int>, line: string, c: Channel)
    requires |to| > 0
    ensures Pending(Broadcast(f, from, to, line), c)
            == Pending(f, c) + Copies(line, if c.writer == from then multiset(to)[c.reader] else 0)
    decreases |to|, 0
  {
    var g := Send(f, Channel(from, to[0]), line);
    assert Broadcast(f, from, to, line) == Broadcast(g, from, to[1..], line);
    BroadcastPending(g, from, to[1..], line, c);
    CountCons(to, c.reader);
    if c == Channel(from, to[0]) {
      CopiesCons(line, multiset(to[1..])[c.reader]);
    }
  }

  /** The count of `v` in `s` is its count in the tail, plus one when `v`
      is the head. */
  lemma CountCons(s: seq<int>, v: int)
    requires |s| > 0
    ensures multiset(s)[v] == multiset(s[1..])[v] + if v == s[0] then 1 else 0
  {
    assert s == [s[0]] + s[1..];
  }

  /** One more copy is one line in front. */
  lemma CopiesCons(line: string, k: nat)
    ensures Copies(line, k + 1) == [line] + Copies(line, k)
  {
  }

  /** `readline` on the pipe `c`: the oldest line, and the pipe without it.
      On an empty pipe the read cannot complete in this state: the reader
      waits until the writer sends a line. */
  function Receive(f: Pipes, c: Channel): (r: Result<(string, Pipes)>)
    ensures r.Ok? <==> |Pending(f, c)| > 0
    ensures r.Err? ==> r.failure == Blocked
    ensures r.Ok? ==> r.value.0 == Pending(f, c)[0] && Pending(r.value.1, c) == Pending(f, c)[1..]
    ensures r.Ok? ==> forall d {:trigger Pending(r.value.1, d)} :: d != c ==> Pending(r.value.1, d) == Pending(f, d)
  {
    var q := Pending(f, c);
    if |q| == 0 then Err(Blocked) else Ok((q[0], f[c := q[1..]]))
  }
}
