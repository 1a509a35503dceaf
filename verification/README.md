# Philosophers' conference: a Lamport-clock mutual exclusion, modelled in Dafny

The conference seats between three and ten philosophers. It connects every
pair with two pipes, one per direction, and lets each philosopher into the
critical section ("za stolom") once. The order is fixed by Lamport timestamps:

1. Each philosopher queues its own entry `(clock, 0, id)` and writes a
   Request `0\tid\tclock\n` on every write pipe.
2. It reads one Request from every read pipe. It queues
   `(stamp, kind, sender)` for each and moves its clock to
   `max(clock, stamp) + 1`.
3. It broadcasts one Reply.
4. It reads one Reply from every read pipe.
5. While the head of its priority queue is another philosopher's entry, it
   reads that philosopher's Exit, using index arithmetic on its read pipes,
   and pops the head.
6. When its own entry is at the head, it enters. It then pops that entry and
   broadcasts an Exit carrying the entry's id and stamp.

The model is pure: immutable datatypes and functions. `connect_philosophers`
is a loop method; every other loop of the source is a recursive function.

- `results.dfy` — `Result`/`Failure`. Python's `ValueError` and `IndexError`
  become values. So does a read that cannot complete in the current state
  (`Blocked`): `readline` on an empty pipe or `get` on an empty queue.
- `sequences.dfy` — sequences without repeats, and the first index of a value.
- `text.dfy` — the parts of Python's `str` the wire format uses:
  - `str(int)`;
  - `int(str)`, with surrounding whitespace and an optional sign;
  - `strip`;
  - `split` on one character.
- `wire.dfy` — the message codec (`get_message_tuple` and the f-strings that
  build messages) and the trace labels (`message_to_interpretation`).
- `clock.dfy` — the receive rule of the Lamport clock.
- `queue.dfy` — the `PriorityQueue` of `(stamp, kind, id)` triples. It is a
  sequence kept sorted in Python's tuple order, so its first element is what
  the heap keeps at index 0. The file also defines the admission order of a
  round.
- `topology.dfy` — `connect_philosophers` as a loop method, and the
  `wait_for_exits` index arithmetic.
- `fabric.dfy` — pipes as first-in first-out queues of text lines, one per
  channel `(writer, reader)`.
- `philosopher.dfy` — one philosopher's steps: `request`, `wait_for_requests`,
  `reply`, `wait_for_replies`, `wait_for_exits`, the head check of `do`, and
  `exit`.
- `conference.dfy` — the clamp of `Conference.__init__` and the seated
  philosophers of `Conference.start`.
- `round.dfy` — one whole round on a sequential schedule:
  1. everyone requests;
  2. everyone collects the Requests and replies;
  3. everyone collects the Replies;
  4. everyone takes their turn in admission order.

  Every read is a blocking read of a pipe that has exactly one writer and
  one reader. So what a philosopher reads does not depend on how the
  processes interleave. Two results cover the last phase:
  - `Round.RoundAdmitsInOrder`: when the turns are taken in admission order
    (by starting clock, ties going to the lower id), every read finds its
    line, and each philosopher enters with its own Request at the head of its
    queue.
  - `Round.OutOfTurnBlocks`: the order is forced. After any number `t` of
    turns, a philosopher ranked after turn `t` reads the Exits of the peers
    ahead of turn `t`. It then waits on the pipe from the philosopher whose
    turn it is, who has not left yet.

Two points about the code are easy to miss:

- Unlike the textbook Lamport clock, the code never ticks on send. `request`
  and `reply` stamp their messages with the current clock and leave it
  alone. `exit` re-sends the stamp of the popped head entry, which is the
  philosopher's own Request stamp, not its current clock. Only
  `wait_for_requests` moves the clock; Replies and Exits never do.
- Queue entries are `(stamp, kind, id)` triples, and the kind takes part in
  the tuple ordering. It is 0 for every entry of a round, so it never
  decides the order.

## Model

| member | source | states |
|---|---|---|
| Text.ParseInt | LAB1/src/philosophers.py:61 | `int(x)` fails only with ValueError |
| Text.ParseShow | LAB1/src/philosophers.py:61 | `int(str(x)) == x` for every integer |
| Text.ParseRejectsBlank | LAB1/src/philosophers.py:61 | blank text, such as the empty line `readline` returns on a closed pipe, is a ValueError |
| Text.Show | LAB1/src/philosophers.py:77 | `str(x)` is non-empty, ends with a digit, and starts with a digit or, for negative x, a minus sign; it is canonical: a non-negative x starts with 0 only when it is 0, and a negative x has a nonzero first digit after the minus |
| Text.ShowChars | LAB1/src/philosophers.py:77 | every character of `str(x)` is a digit, except a leading minus |
| Text.Strip | LAB1/src/philosophers.py:61 | the result of `strip()` neither starts nor ends with whitespace |
| Text.StripSlice | LAB1/src/philosophers.py:61 | `strip()` keeps one contiguous slice and cuts away only whitespace |
| Text.StripTrimmed | LAB1/src/philosophers.py:61 | text without surrounding whitespace is left alone by `strip()` |
| Text.StripLine | LAB1/src/philosophers.py:61 | `strip()` removes the trailing newline of a line whose body has no surrounding whitespace |
| Text.Split | LAB1/src/philosophers.py:61 | `split("\t")` gives at least one piece, no piece holds a tab, and joining the pieces with tabs rebuilds the text |
| Text.SplitJoin | LAB1/src/philosophers.py:61 | splitting undoes joining when no piece holds the separator |
| Wire.ParseAll | LAB1/src/philosophers.py:61 | converts every piece in order, or fails with ValueError naming a piece that is not an integer |
| Wire.Fields | LAB1/src/philosophers.py:61 | `get_message_tuple` yields one integer per tab-separated piece of the stripped line |
| Wire.Decode | LAB1/src/philosophers.py:98-99 | kind, sender and stamp are fields 0, 1 and 2; a list shorter than three fields is an IndexError |
| Wire.Encode | LAB1/src/philosophers.py:77 | a message (the f-strings of lines 77, 86 and 120) is exactly one newline-terminated line |
| Wire.StripEncoded | LAB1/src/philosophers.py:61 | stripping an encoded message leaves the three numbers joined by tabs |
| Wire.RoundTrip | LAB1/src/philosophers.py:59-61 | decoding an encoded message gives back exactly `[kind, id, stamp]` and the same message |
| Wire.Label | LAB1/src/philosophers.py:11-16 | kinds 0, 1 and 2 get their own labels; every other kind falls back to "nedefinirano" |
| Wire.Interpretation | LAB1/src/philosophers.py:64-67 | the trace text exists exactly when the list has at least three fields; otherwise it is an IndexError |
| Wire.InterpretationOfDecoded | LAB1/src/philosophers.py:61-67 | every line that decodes has a trace text |
| Wire.InterpretationOfSent | LAB1/src/philosophers.py:64-77 | every line the program sends parses into fields that have a trace text |
| LamportClock.Observe | LAB1/src/philosophers.py:101 | the new clock exceeds both the old clock and the stamp, and is one more than one of them |
| LamportClock.ObserveAll | LAB1/src/philosophers.py:95-101 | after reading k stamps the clock has risen by at least k and exceeds every stamp read |
| LamportClock.ObserveAllMonotone | LAB1/src/philosophers.py:101 | a later starting clock never gives an earlier clock after the same reads |
| LamportClock.ObserveAllAppend | LAB1/src/philosophers.py:95-101 | reading two batches one after the other gives the same clock as reading them together |
| LamportClock.ObserveAllAtMost | LAB1/src/philosophers.py:95-101 | when the clock and every stamp read are below b, the clock after k reads is below b + k |
| LamportClock.ObserveAllBelow | LAB1/src/philosophers.py:95-101 | when no stamp is ahead of the clock, each read advances it by exactly one |
| AdmissionQueue.PrecedesTotalOrder | LAB1/src/philosophers.py:75 | Python's tuple comparison on queue entries is a total order |
| AdmissionQueue.RequestPrecedes | LAB1/src/philosophers.py:75 | among Request entries an earlier stamp goes first, and equal stamps go by ascending id |
| AdmissionQueue.Insert | LAB1/src/philosophers.py:75 | `put` adds exactly the new entry and keeps the queue ordered |
| AdmissionQueue.Head | LAB1/src/philosophers.py:137 | `queue.queue[0]` is the least entry; an empty queue is an IndexError |
| AdmissionQueue.Pop | LAB1/src/philosophers.py:119 | `get` removes exactly the least entry and keeps the rest ordered; an empty queue blocks |
| AdmissionQueue.Build | LAB1/src/philosophers.py:99 | putting entries one by one yields an ordered queue of exactly those entries |
| AdmissionQueue.SortedUnique | LAB1/src/philosophers.py:137 | two ordered queues holding the same entries are identical |
| AdmissionQueue.BuildPermutation | LAB1/src/philosophers.py:99 | the arrival order of the entries does not change the queue |
| AdmissionQueue.RequestQueue | LAB1/src/philosophers.py:75-99 | the round's queue is ordered and holds each peer's Request entry |
| AdmissionQueue.RequestQueueFacts | LAB1/src/philosophers.py:75-99 | each peer's entry `(c_k, 0, k)` is in the round's queue exactly once, and nothing else is |
| AdmissionQueue.AdmissionOrder | LAB1/src/philosophers.py:137 | the ids read off the round's queue name every peer exactly once |
| AdmissionQueue.AdmissionOrderSorted | LAB1/src/philosophers.py:137 | peers are admitted by ascending clock, and equal clocks by ascending id |
| AdmissionQueue.AdmissionOrderOf | LAB1/src/philosophers.py:99 | any ordered arrangement of the Requests spells the admission order |
| AdmissionQueue.TiesById | LAB1/src/philosophers.py:137 | with all clocks equal, peers are admitted by id |
| AdmissionQueue.TieBreakExample | LAB1/src/philosophers.py:137 | clocks 5, 5, 5 give the admission order 0, 1, 2 |
| Topology.Others | LAB1/src/philosophers.py:194-202 | a peer's pipe list names n-1 peers, all in range and none itself |
| Topology.OthersComplete | LAB1/src/philosophers.py:194-202 | a peer's pipe list names every other peer, in strictly ascending order |
| Topology.WaitIndex | LAB1/src/philosophers.py:142-145 | the computed index lies below the own id exactly when the target id does, so the own id's slot, which has no pipe, is skipped |
| Topology.ConnectPhilosophers | LAB1/src/philosophers.py:193-204 | each peer reads from, and writes to, every other peer in ascending id order; the descriptor list has 4·n(n-1)/2 entries, both ends of every ordered pair's pipe, each once |
| Topology.ConnectedAll | LAB1/src/philosophers.py:193-204 | the state the pair loop reaches has complete pipe lists and every descriptor exactly once |
| Topology.RowPairsCount | LAB1/src/philosophers.py:194-195 | the rows before i of the pair loop hold i(2n-i-1)/2 pairs |
| Topology.WaitIndexSelects | LAB1/src/philosophers.py:142-147 | index m, or m-1 when m is above the own id, selects the read pipe written by peer m, and no other read pipe comes from m |
| Topology.PipesPair | LAB1/src/philosophers.py:199-202 | m is among the peers k writes to exactly when k is among the peers m reads from |
| Fabric.Send | LAB1/src/philosophers.py:80 | a write appends one line to its own pipe and leaves every other pipe alone |
| Fabric.Broadcast | LAB1/src/philosophers.py:79-80 | the write loops of `request`, `reply` and `exit` (lines 79-80, 88-89, 122-123) leave every pipe of other writers as it was |
| Fabric.Receive | LAB1/src/philosophers.py:96 | `readline` takes the oldest line of its pipe and touches no other pipe; an empty pipe blocks |
| Fabric.BroadcastPending | LAB1/src/philosophers.py:79-80 | a broadcast puts one copy on a pipe per occurrence of its reader in the write list, and nothing elsewhere |
| Philosopher.Request | LAB1/src/philosophers.py:74-80 | queues the own entry `(clock, 0, id)`, leaves the clock alone, and puts one Request per write pipe |
| Philosopher.Reply | LAB1/src/philosophers.py:85-89 | puts one Reply stamped with the current clock per write pipe |
| Philosopher.Absorb | LAB1/src/philosophers.py:99-101 | queues `(stamp, kind, sender)` and sets the clock to exactly max(clock, stamp) + 1 (LamportClock.Observe), which is above both |
| Philosopher.ReceiveRequests | LAB1/src/philosophers.py:95-101 | after reading its read pipes, the clock has risen by at least one per line and the queue holds one more entry per line, still ordered |
| Philosopher.ReceiveRequestsFrame | LAB1/src/philosophers.py:95-96 | the read loop leaves every pipe with another reader exactly as it was |
| Philosopher.WaitForRequests | LAB1/src/philosophers.py:94-106 | the same philosopher, its clock up by at least one per read pipe, one more queue entry per read pipe, the queue still ordered; every pipe with another reader keeps its lines and gains one Reply stamped with the new clock per occurrence in the write list |
| Philosopher.WaitForReplies | LAB1/src/philosophers.py:108-113 | only the philosopher's own read pipes change |
| Philosopher.PyIndex | LAB1/src/philosophers.py:147 | Python list indexing, negative indices counting from the end, IndexError outside |
| Philosopher.WaitForExits | LAB1/src/philosophers.py:136-152 | on success the own id heads the queue, which is a suffix of the original, and nothing else about the philosopher changes |
| Philosopher.AwaitTurn | LAB1/src/philosophers.py:164-165 | the head check in `do` never changes the outcome of `wait_for_exits` |
| Philosopher.Exit | LAB1/src/philosophers.py:118-123 | pops the head and broadcasts an Exit carrying the head's id and stamp; an empty queue blocks |
| Philosopher.WaitForExitsStep | LAB1/src/philosophers.py:137-149 | one loop round reads the line of the pipe from the head's peer and pops the head |
| Philosopher.WaitForExitsPops | LAB1/src/philosophers.py:136-152 | with the own entry at position pos and a line waiting from each peer ahead, the loop ends with exactly the pos entries ahead popped |
| Philosopher.WaitForExitsReads | LAB1/src/philosophers.py:136-152 | the loop reads one line from the pipe of each peer ahead of the own entry, and nothing else |
| Philosopher.WaitForExitsBlocks | LAB1/src/philosophers.py:136-152 | when the entry at position pos belongs to another peer whose pipe is empty, and a line waits from each peer ahead of it, the loop reads past those peers and then cannot complete in this state: it waits on the empty pipe from that peer |
| Conference.ClampPeers | LAB1/src/philosophers.py:180-184 | the count lies in [3, 10]; a count inside the range is kept; `None` or less than 3 gives 3; more than 10 gives 10 |
| Conference.Seated | LAB1/src/philosophers.py:207-208 | philosopher k has id k, the given starting clock, an empty queue, and read and write lists naming every other peer in ascending order |
| Round.ReplyClock | LAB1/src/philosophers.py:94-106 | the clock a philosopher replies with exceeds every other peer's starting clock and is at least its own plus n-1 |
| Round.ReceiveRequestsAbsorbs | LAB1/src/philosophers.py:95-101 | reading the Requests applies the receive rule to their stamps in pipe order and queues their entries |
| Round.WaitForRepliesReads | LAB1/src/philosophers.py:108-113 | with a well-formed line on every read pipe, `wait_for_replies` succeeds and reads one line from each |
| Round.AgreedQueue | LAB1/src/philosophers.py:99 | holding the own Request and one from every other peer, in order, is holding the round's queue |
| Round.Agreement | LAB1/src/philosophers.py:160-161 | once everyone has collected the Requests, every philosopher holds the same queue, and each one's clock exceeds every other peer's starting clock |
| Round.ExitsRun | LAB1/src/philosophers.py:164-170 | the turns from t on succeed, and the entries heading the queues at entry are the round's queue from t on |
| Round.Exits | LAB1/src/philosophers.py:164-170 | a successful run of turns t.. yields one entry per turn, the first being the entry of the philosopher whose turn it is |
| Round.OutOfTurnBlocks | LAB1/src/philosophers.py:136-149 | after turns 0..t-1, a philosopher ranked after t cannot pass its head check: `wait_for_exits` cannot complete in this state; it waits on the pipe from turn t's philosopher until that philosopher has exited |
| Round.Round | LAB1/src/philosophers.py:155-170 | `start` running `do` for every philosopher (lines 206-217) on the sequential schedule; on success one philosopher enters per seat |
| Round.RoundAdmitsInOrder | LAB1/src/philosophers.py:155-170 | with turns taken in admission order, every read of the whole round finds its line, and each philosopher enters with its own Request at the head of its queue; Round.OutOfTurnBlocks shows no other order gets past the head check |

## Left out

- Processes, pipes as operating-system objects, `os.fdopen`, `os.close`,
  `join` and the sleeps: the model has no processes. Pipes are per-channel
  FIFO queues of text lines, and a round runs on one sequential schedule.
  Because every read blocks on one pipe with one writer and one reader,
  other interleavings read the same lines. This argument is not itself
  proved.
- The random starting clocks (`np.random.randint`) are a parameter of the
  round: the model covers every choice of starting clocks.
- The trace lines `print`ed at each send and read are left out. Their text is
  `Wire.Interpretation`. Wire.InterpretationOfDecoded and
  Wire.InterpretationOfSent show that the text exists for every line the
  program reads or sends.
- The `replies` queue is filled by `wait_for_replies` but never read, so it
  is not kept. `Philosopher.WaitForReplies` still requires every Reply to
  have three fields, because building the queue entry needs them.
- Text.Show / Text.ParseInt: CPython 3.11 and later refuse to convert
  between `int` and `str` beyond 4300 digits. The model has no digit limit, so
  Text.Show, Text.ParseShow and Wire.RoundTrip hold for every integer. Clocks
  start below one million, and every clock in a round stays below one
  million plus n (LamportClock.ObserveAllAtMost), so the program never
  comes near the limit.
- Text.ParseInt: Python's `int` also accepts underscores between digits and
  non-ASCII decimal digits. The wire format never contains either, so the
  model rejects both.
- Whitespace for `strip` is the set of code points Python's `str.isspace`
  accepts. The program only ever strips the trailing newline.
- Mutual exclusion and liveness under truly concurrent schedules are not
  stated beyond the sequential schedule of `Round.RoundAdmitsInOrder` and
  `Round.OutOfTurnBlocks`. Those two show that from every stage of the
  schedule only the philosopher whose turn it is can enter.
- `LAB1/src/carousel.py` is not part of this model. It is a separate exercise
  built on busy-waiting over multiprocessing queues.
- The `LAB2` files are not part of this model. They are wrappers around a
  cryptography library.
