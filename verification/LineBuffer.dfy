/** The incremental line buffer both streaming clients use
    (crates/openclaw-agent/src/llm/streaming.rs:72-80 and anthropic.rs:438-447): text
    arrives in chunks, complete lines are taken from the front, the rest waits. */
module LineBuffer {
  import opened Common

  /** Index of the first newline, or the length. */
  function FirstNewline(s: string): (i: nat)
    ensures i <= |s|
    ensures forall j :: 0 <= j < i ==> s[j] != '\n'
    ensures i < |s| ==> s[i] == '\n'
  {
    if s == "" || s[0] == '\n' then 0 else 1 + FirstNewline(s[1..])
  }

  /** The complete lines of a text, without their newlines. */
  function CompleteLines(s: string): seq<string>
    decreases |s|
  {
    var i := FirstNewline(s);
    if i == |s| then [] else [s[..i]] + CompleteLines(s[i + 1..])
  }

  /** What follows the last newline. */
  function Rest(s: string): string
    decreases |s|
  {
    var i := FirstNewline(s);
    if i == |s| then s else Rest(s[i + 1..])
  }

  lemma {:induction false} FirstNewlineUnique(s: string, i: nat)
    requires i <= |s| && (forall j :: 0 <= j < i ==> s[j] != '\n') && (i < |s| ==> s[i] == '\n')
    ensures FirstNewline(s) == i
  {
  }

  /** A newline in a is where a + b has its first newline, too. */
  lemma {:induction false} FirstNewlineOfConcat(a: string, b: string)
    requires FirstNewline(a) < |a|
    ensures var i := FirstNewline(a);
            && FirstNewline(a + b) == i
            && (a + b)[..i] == a[..i]
            && (a + b)[i + 1..] == a[i + 1..] + b
  {
    FirstNewlineUnique(a + b, FirstNewline(a));
  }

  lemma {:induction false} LinesStep(s: string)
    requires FirstNewline(s) < |s|
    ensures CompleteLines(s) == [s[..FirstNewline(s)]] + CompleteLines(s[FirstNewline(s) + 1..])
    ensures Rest(s) == Rest(s[FirstNewline(s) + 1..])
  {
  }

  ghost predicate SplitsLines(a: string, b: string) {
    && CompleteLines(a + b) == CompleteLines(a) + CompleteLines(Rest(a) + b)
    && Rest(a + b) == Rest(Rest(a) + b)
  }

  lemma {:induction false} SplitsLinesStep(a: string, b: string)
    requires FirstNewline(a) < |a| && SplitsLines(a[FirstNewline(a) + 1..], b)
    ensures SplitsLines(a, b)
  {
    var tail := a[FirstNewline(a) + 1..];
    FirstNewlineOfConcat(a, b);
    LinesStep(a);
    LinesStep(a + b);
    ConcatAssociative([a[..FirstNewline(a)]], CompleteLines(tail), CompleteLines(Rest(tail) + b));
  }

  /** Lines may be taken as soon as they are complete: reading a first and keeping its rest
      gives the same lines and the same rest as reading a + b at once. */
  lemma {:induction false} ReadInTwoSteps(a: string, b: string)
    ensures SplitsLines(a, b)
    decreases |a|
  {
    if FirstNewline(a) == |a| {
      assert CompleteLines(a) == [] && Rest(a) == a;
    } else {
      ReadInTwoSteps(a[FirstNewline(a) + 1..], b);
      SplitsLinesStep(a, b);
    }
  }

  /** Joining the lines and the rest with newlines gives the text back. */
  function Joined(lines: seq<string>, rest: string): string {
    if lines == [] then rest else lines[0] + "\n" + Joined(lines[1..], rest)
  }

  lemma {:induction false} JoinedStep(line: string, lines: seq<string>, rest: string)
    ensures Joined([line] + lines, rest) == line + "\n" + Joined(lines, rest)
  {
    assert ([line] + lines)[1..] == lines;
  }

  lemma {:induction false} AroundNewline(s: string, i: nat)
    requires i < |s| && s[i] == '\n'
    ensures s == s[..i] + "\n" + s[i + 1..]
  {
  }

  lemma {:induction false} LinesAreTheText(s: string)
    ensures Joined(CompleteLines(s), Rest(s)) == s
    ensures FirstNewline(Rest(s)) == |Rest(s)|
    ensures forall k :: 0 <= k < |CompleteLines(s)| ==> FirstNewline(CompleteLines(s)[k]) == |CompleteLines(s)[k]|
    decreases |s|
  {
    var i := FirstNewline(s);
    if i < |s| {
      LinesAreTheText(s[i + 1..]);
      LinesStep(s);
      FirstNewlineUnique(s[..i], i);
      JoinedStep(s[..i], CompleteLines(s[i + 1..]), Rest(s));
      AroundNewline(s, i);
    }
  }

  /** The text of a stream that arrives in chunks; a chunk None is a read error. */
  function StreamText(chunks: seq<Option<string>>): string {
    if chunks == [] then "" else StreamText(chunks[..|chunks| - 1]) + chunks[|chunks| - 1].GetOr("")
  }

  lemma {:induction false} StreamTextStep(chunks: seq<Option<string>>, i: nat)
    requires i < |chunks| && chunks[i].Some?
    ensures StreamText(chunks[..i + 1]) == StreamText(chunks[..i]) + chunks[i].value
  {
    assert chunks[..i + 1][..i] == chunks[..i];
  }

  /** Leading and trailing white space removed (the ASCII part of Unicode white space). */
  predicate IsSpace(c: char) {
    c == ' ' || ('\t' <= c <= '\r')
  }

  function TrimStart(s: string): string {
    if s != "" && IsSpace(s[0]) then TrimStart(s[1..]) else s
  }

  function TrimEnd(s: string): string {
    if s != "" && IsSpace(s[|s| - 1]) then TrimEnd(s[..|s| - 1]) else s
  }

  function Trim(s: string): string {
    TrimEnd(TrimStart(s))
  }

  predicate AllSpace(s: string) {
    forall i :: 0 <= i < |s| ==> IsSpace(s[i])
  }

  lemma {:induction false} TrimStartSkips(a: string, s: string)
    requires AllSpace(a) && s != "" && !IsSpace(s[0])
    ensures TrimStart(a + s) == s
    decreases |a|
  {
    if a == "" {
      assert a + s == s;
    } else {
      assert (a + s)[1..] == a[1..] + s;
      TrimStartSkips(a[1..], s);
    }
  }

  lemma {:induction false} TrimEndSkips(s: string, b: string)
    requires AllSpace(b) && s != "" && !IsSpace(s[|s| - 1])
    ensures TrimEnd(s + b) == s
    decreases |b|
  {
    if b == "" {
      assert s + b == s;
    } else {
      assert (s + b)[..|s + b| - 1] == s + b[..|b| - 1];
      TrimEndSkips(s, b[..|b| - 1]);
    }
  }

  /** Trimming takes the white space at both ends, and nothing else. */
  lemma {:induction false} TrimTakesSpace(a: string, s: string, b: string)
    requires AllSpace(a) && AllSpace(b) && s != "" && !IsSpace(s[0]) && !IsSpace(s[|s| - 1])
    ensures Trim(a + s + b) == s
  {
    assert a + s + b == a + (s + b) && (s + b)[0] == s[0];
    TrimStartSkips(a, s + b);
    TrimEndSkips(s, b);
  }
}
