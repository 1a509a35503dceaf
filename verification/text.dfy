/** The pieces of Python's text handling that the wire format relies on:
    `str(int)` (decimal rendering), `int(str)` (decimal parsing), `str.strip()`
    and `str.split(sep)`. Strings are sequences of Unicode scalar values.
 */
module Text {
  import opened Results
  import opened Sequences

  /** `str.isspace()` for one character: the code points Python treats as
      whitespace in `strip()` and `int()`. */
  predicate IsSpace(c: char) {
    var v := c as int;
    || (9 <= v <= 13) || (0x1c <= v <= 0x20) || v == 0x85 || v == 0xa0
    || v == 0x1680 || (0x2000 <= v <= 0x200a) || v == 0x2028 || v == 0x2029
    || v == 0x202f || v == 0x205f || v == 0x3000
  }

  predicate IsDigit(c: char) {
    '0' <= c <= '9'
  }

  /** A non-empty run of ASCII decimal digits. */
  predicate IsDigits(s: string) {
    |s| > 0 && forall i :: 0 <= i < |s| ==> IsDigit(s[i])
  }

  function DigitChar(d: nat): (c: char)
    requires d < 10
    ensures IsDigit(c)
  {
    ('0' as int + d) as char
  }

  function DigitValue(c: char): nat
    requires IsDigit(c)
  {
    c as int - '0' as int
  }

  /** The value of a run of decimal digits, most significant first. */
  function DigitsValue(s: string): nat
    requires forall i :: 0 <= i < |s| ==> IsDigit(s[i])
  {
    if |s| == 0 then 0 else DigitsValue(s[..|s| - 1]) * 10 + DigitValue(s[|s| - 1])
  }

  /** Canonical decimal digits of `n`: no leading zero except for "0" itself. */
  function NatDigits(n: nat): (s: string)
    ensures IsDigits(s)
    ensures s[0] == '0' ==> n == 0 && s == "0"
    ensures DigitsValue(s) == n
  {
    if n < 10 then [DigitChar(n)]
    else
      var init := NatDigits(n / 10);
      var s := init + [DigitChar(n % 10)];
      assert s[..|s| - 1] == init;
      s
  }

  /** Python's `str(x)` for an integer `x`. */
  function Show(x: int): (s: string)
    ensures |s| > 0 && IsDigit(s[|s| - 1])
    ensures IsDigit(s[0]) || (s[0] == '-' && x < 0)
    ensures x >= 0 && s[0] == '0' ==> s == "0"
    ensures x < 0 ==> |s| >= 2 && s[0] == '-' && s[1] != '0'
  {
    if x < 0 then "-" + NatDigits(-x) else NatDigits(x)
  }

  /** Every character of `str(x)` is a digit, except a leading minus sign. */
  lemma ShowChars(x: int)
    ensures forall i :: 0 <= i < |Show(x)| ==> IsDigit(Show(x)[i]) || (i == 0 && Show(x)[i] == '-')
  {
    if x < 0 {
      var d := NatDigits(-x);
      assert Show(x) == "-" + d;
      assert forall i :: 1 <= i < |Show(x)| ==> Show(x)[i] == d[i - 1];
    }
  }

  /** `s.lstrip()`: drop leading whitespace. */
  function TrimStart(s: string): (r: string)
    ensures |r| <= |s| && r == s[|s| - |r|..]
    ensures forall i :: 0 <= i < |s| - |r| ==> IsSpace(s[i])
    ensures |r| > 0 ==> !IsSpace(r[0])
  {
    if |s| > 0 && IsSpace(s[0]) then TrimStart(s[1..]) else s
  }

  /** `s.rstrip()`: drop trailing whitespace. */
  function TrimEnd(s: string): (r: string)
    ensures |r| <= |s| && r == s[..|r|]
    ensures forall i :: |r| <= i < |s| ==> IsSpace(s[i])
    ensures |r| > 0 ==> !IsSpace(r[|r| - 1])
  {
    if |s| > 0 && IsSpace(s[|s| - 1]) then TrimEnd(s[..|s| - 1]) else s
  }

  /** Python's `s.strip()`: the longest slice of `s` that neither starts nor
      ends with whitespace, everything cut away being whitespace. */
  function Strip(s: string): (r: string)
    ensures |r| > 0 ==> !IsSpace(r[0]) && !IsSpace(r[|r| - 1])
  {
    TrimEnd(TrimStart(s))
  }

  /** What `Strip` cuts away is whitespace, and what it keeps is one
      contiguous slice of the input. */
  lemma StripSlice(s: string)
    ensures exists i, j :: 0 <= i <= j <= |s| && Strip(s) == s[i..j]
                           && (forall k :: 0 <= k < i ==> IsSpace(s[k]))
                           && (forall k :: j <= k < |s| ==> IsSpace(s[k]))
  {
    var t := TrimStart(s);
    var r := TrimEnd(t);
    assert r == s[|s| - |t|..|s| - |t| + |r|];
  }

  /** Text that is already stripped is left alone. */
  lemma StripTrimmed(s: string)
    requires |s| > 0 && !IsSpace(s[0]) && !IsSpace(s[|s| - 1])
    ensures Strip(s) == s
  {
  }

  /** A stripped line followed by its newline strips back to the line. */
  lemma StripLine(s: string)
    requires |s| > 0 && !IsSpace(s[0]) && !IsSpace(s[|s| - 1])
    ensures Strip(s + "\n") == s
  {
    var line := s + "\n";
    assert line[0] == s[0];
    assert TrimStart(line) == line;
    assert line[..|line| - 1] == s;
    assert TrimEnd(line) == TrimEnd(s);
    StripTrimmed(s);
  }

  /** Python's `s.split(sep)` for a one-character separator: the pieces
      between separators, at least one, possibly empty. */
  function Split(s: string, sep: char): (parts: seq<string>)
    ensures |parts| >= 1
    ensures forall k :: 0 <= k < |parts| ==> sep !in parts[k]
    ensures Join(parts, sep) == s
    decreases |s|
  {
    if sep !in s then [s]
    else
      var i := IndexOf(s, sep);
      var rest := Split(s[i + 1..], sep);
      assert s == s[..i] + [sep] + s[i + 1..];
      [s[..i]] + rest
  }

  /** `sep.join(parts)`. */
  function Join(parts: seq<string>, sep: char): string
    requires |parts| >= 1
  {
    if |parts| == 1 then parts[0] else parts[0] + [sep] + Join(parts[1..], sep)
  }

  /** Splitting undoes joining when no piece contains the separator. */
  lemma {:induction false} SplitJoin(parts: seq<string>, sep: char)
    requires |parts| >= 1
    requires forall k :: 0 <= k < |parts| ==> sep !in parts[k]
    ensures Split(Join(parts, sep), sep) == parts
  {
    if |parts| > 1 {
      SplitJoinCons(parts, sep);
      SplitJoin(parts[1..], sep);
    }
  }

  /** Splitting a join of several pieces cuts off the first piece and
      splits the join of the rest. */
  lemma SplitJoinCons(parts: seq<string>, sep: char)
    requires |parts| > 1 && sep !in parts[0]
    ensures Split(Join(parts, sep), sep) == [parts[0]] + Split(Join(parts[1..], sep), sep)
  {
    var s := Join(parts, sep);
    var tail := Join(parts[1..], sep);
    assert s == parts[0] + [sep] + tail;
    IndexOfPrefix(parts[0], sep, tail);
    assert s[|parts[0]| + 1..] == tail;
    assert s[..|parts[0]|] == parts[0];
  }

  lemma {:induction false} IndexOfPrefix(a: string, sep: char, b: string)
    requires sep !in a
    ensures sep in a + [sep] + b && IndexOf(a + [sep] + b, sep) == |a|
  {
    var s := a + [sep] + b;
    assert s[|a|] == sep;
    if |a| > 0 {
      assert s[1..] == a[1..] + [sep] + b;
      IndexOfPrefix(a[1..], sep, b);
    }
  }

  /** Python's `int(s)` for a `str` argument in base 10: surrounding
      whitespace is ignored, one optional sign, then one or more decimal
      digits; anything else is a ValueError. */
  function ParseInt(s: string): (r: Result<int>)
    ensures r.Err? ==> r.failure == ValueError
  {
    var t := Strip(s);
    if |t| > 0 && (t[0] == '-' || t[0] == '+') then
      var body := t[1..];
      if IsDigits(body) then
        var v: int := DigitsValue(body);
        Ok(if t[0] == '-' then -v else v)
      else Err(ValueError)
    else if IsDigits(t) then Ok(DigitsValue(t))
    else Err(ValueError)
  }

  /** `int(str(x)) == x` for every integer. */
  lemma ParseShow(x: int)
    ensures ParseInt(Show(x)) == Ok(x)
  {
    var s := Show(x);
    StripTrimmed(s);
    if x < 0 {
      assert s[1..] == NatDigits(-x);
    }
  }

  /** `int()` rejects text with no digits at all, such as the empty line
      `readline()` returns once a pipe is closed. */
  lemma ParseRejectsBlank(s: string)
    requires forall i :: 0 <= i < |s| ==> IsSpace(s[i])
    ensures ParseInt(s) == Err(ValueError)
  {
  }
}
