/** The wire format peers exchange over their pipes: one message per line,
    the three integers kind, sender id and timestamp separated by tabs.
 */
module Wire {
  import opened Results
  import opened Text

  /** Message kinds as written on the wire. */
  const REQUEST := 0
  const REPLY := 1
  const EXIT := 2

  /** A decoded message; the source keeps it as the list `[kind, id, stamp]`. */
  datatype Message = Message(kind: int, sender: int, stamp: int)

  /** The text a peer writes for `m`. It is exactly one line: `readline` on
      the receiving end returns it whole. */
  function Encode(m: Message): (line: string)
    ensures |line| > 0 && line[|line| - 1] == '\n'
    ensures '\n' !in line[..|line| - 1]
  {
    ShowPlain(m.kind);
    ShowPlain(m.sender);
    ShowPlain(m.stamp);
    var line := Show(m.kind) + "\t" + Show(m.sender) + "\t" + Show(m.stamp) + "\n";
    assert line[..|line| - 1] == Show(m.kind) + "\t" + Show(m.sender) + "\t" + Show(m.stamp);
    line
  }

  /** `int(x)` for every piece, in order; the first piece that is not an
      integer raises ValueError. */
  function ParseAll(parts: seq<string>): (r: Result<seq<int>>)
    ensures r.Ok? ==> |r.value| == |parts|
                      && forall k :: 0 <= k < |parts| ==> ParseInt(parts[k]) == Ok(r.value[k])
    ensures r.Err? ==> r.failure == ValueError
                       && exists k :: 0 <= k < |parts| && ParseInt(parts[k]).Err?
  {
    if |parts| == 0 then Ok([])
    else
      var head := ParseInt(parts[0]);
      if head.Err? then Err(ValueError)
      else
        var tail := ParseAll(parts[1..]);
        if tail.Err? then
          assert exists k :: 0 <= k < |parts| && ParseInt(parts[k]).Err? by {
            var k :| 0 <= k < |parts| - 1 && ParseInt(parts[1..][k]).Err?;
            assert parts[1..][k] == parts[k + 1];
          }
          Err(ValueError)
        else
          var r := [head.value] + tail.value;
          assert forall k :: 0 <= k < |parts| ==> ParseInt(parts[k]) == Ok(r[k]) by {
            forall k | 0 <= k < |parts|
              ensures ParseInt(parts[k]) == Ok(r[k])
            {
              if k > 0 {
                assert parts[k] == parts[1..][k - 1];
              }
            }
          }
          Ok(r)
  }

  /** `get_message_tuple`: strip the line, split it on tabs and convert every
      piece to an integer. The list may have any length of at least one. */
  function Fields(line: string): (r: Result<seq<int>>)
    ensures r.Ok? ==> |r.value| == |Split(Strip(line), '\t')| >= 1
  {
    ParseAll(Split(Strip(line), '\t'))
  }

  /** The message behind a line, as the callers read it: `t[0]`, `t[1]` and
      `t[2]` of the field list, an IndexError when there are fewer than three
      fields. Fields past the third are ignored. */
  function Decode(line: string): (r: Result<Message>)
    ensures r.Ok? <==> Fields(line).Ok? && |Fields(line).value| >= 3
    ensures r.Ok? ==> && r.value.kind == Fields(line).value[0]
                      && r.value.sender == Fields(line).value[1]
                      && r.value.stamp == Fields(line).value[2]
    ensures r.Err? && Fields(line).Ok? ==> r.failure == IndexError
  {
    var t :- Fields(line);
    if |t| < 3 then Err(IndexError) else Ok(Message(t[0], t[1], t[2]))
  }

  /** Decoding an encoded message gives back exactly its three fields. */
  lemma RoundTrip(m: Message)
    ensures Fields(Encode(m)) == Ok([m.kind, m.sender, m.stamp])
    ensures Decode(Encode(m)) == Ok(m)
  {
    var xs := [m.kind, m.sender, m.stamp];
    var parts := ShowAll(xs);
    assert parts == [Show(m.kind), Show(m.sender), Show(m.stamp)];
    EncodedBody(m);
    SplitJoin(parts, '\t');
    ParseShowAll(xs);
  }

  /** The decimal rendering of every integer of `xs`. */
  function ShowAll(xs: seq<int>): (parts: seq<string>)
    ensures |parts| == |xs|
    ensures forall k :: 0 <= k < |xs| ==> parts[k] == Show(xs[k])
  {
    if |xs| == 0 then [] else [Show(xs[0])] + ShowAll(xs[1..])
  }

  lemma {:induction false} ParseShowAll(xs: seq<int>)
    ensures ParseAll(ShowAll(xs)) == Ok(xs)
  {
    if |xs| > 0 {
      ParseShow(xs[0]);
      assert ShowAll(xs)[1..] == ShowAll(xs[1..]);
      ParseShowAll(xs[1..]);
      assert [xs[0]] + xs[1..] == xs;
    }
  }

  /** Stripping an encoded line leaves the three tab-joined numbers. */
  lemma EncodedBody(m: Message)
    ensures Strip(Encode(m)) == Join([Show(m.kind), Show(m.sender), Show(m.stamp)], '\t')
    ensures forall k :: 0 <= k < 3 ==> '\t' !in [Show(m.kind), Show(m.sender), Show(m.stamp)][k]
  {
    var a, b, c := Show(m.kind), Show(m.sender), Show(m.stamp);
    ShowPlain(m.kind);
    ShowPlain(m.sender);
    ShowPlain(m.stamp);
    StripEncoded(m);
    JoinThree(a, b, c);
  }

  lemma StripEncoded(m: Message)
    ensures Strip(Encode(m)) == Show(m.kind) + "\t" + Show(m.sender) + "\t" + Show(m.stamp)
  {
    var a, b, c := Show(m.kind), Show(m.sender), Show(m.stamp);
    ShowPlain(m.kind);
    var body := a + "\t" + b + "\t" + c;
    assert Encode(m) == body + "\n";
    assert body[0] == a[0] && body[|body| - 1] == c[|c| - 1];
    StripLine(body);
  }

  lemma JoinThree(a: string, b: string, c: string)
    ensures Join([a, b, c], '\t') == a + "\t" + b + "\t" + c
  {
    assert [a, b, c][1..] == [b, c];
    assert [b, c][1..] == [c];
    assert Join([b, c], '\t') == b + "\t" + c;
  }

  /** A rendered integer holds no whitespace, and so no tab or newline. */
  lemma ShowPlain(x: int)
    ensures forall i :: 0 <= i < |Show(x)| ==> !IsSpace(Show(x)[i])
    ensures '\t' !in Show(x) && '\n' !in Show(x)
  {
    ShowChars(x);
  }

  /** The label a trace line gives a message kind; unknown kinds fall back
      to "nedefinirano". */
  function Label(kind: int): (r: string)
    ensures r == "nedefinirano" <==> kind !in {REQUEST, REPLY, EXIT}
  {
    if kind == REQUEST then "zahtjev"
    else if kind == REPLY then "odgovor"
    else if kind == EXIT then "izlazak"
    else "nedefinirano"
  }

  /** `message_to_interpretation`: the human-readable form of a field list.
      Reading `t[1]` and `t[2]` raises IndexError on a shorter list. */
  function Interpretation(fields: seq<int>): (r: Result<string>)
    ensures r.Ok? <==> |fields| >= 3
    ensures r.Err? ==> r.failure == IndexError
  {
    if |fields| < 3 then Err(IndexError)
    else Ok(Label(fields[0]) + "(i = " + Show(fields[1]) + ", T[i] = " + Show(fields[2]) + ")")
  }

  /** Every line the program decodes has a trace text. */
  lemma InterpretationOfDecoded(line: string)
    ensures Decode(line).Ok? ==> Interpretation(Fields(line).value).Ok?
  {
  }

  /** Every line the program sends has a trace text. */
  lemma InterpretationOfSent(m: Message)
    ensures Fields(Encode(m)).Ok? && Interpretation(Fields(Encode(m)).value).Ok?
  {
    RoundTrip(m);
  }
}
