/** crates/openclaw-ui/src/dispatch.rs, strip_ansi: removes terminal control sequences
    (section 5.4 of ECMA-48) from captured output. */
module AnsiStrip {
  import opened Common

  const ESC: char := '\U{1B}'
  const BEL: char := '\U{07}'

  /** The bytes the inner loop skips after `ESC [`. */
  predicate IsSkipped(c: char) {
    '0' <= c <= '9' || c == ';' || c == '?' || ' ' <= c <= '/'
  }

  predicate IsFinal(c: char) {
    '@' <= c <= '~'
  }

  // ----- The stripper as an automaton that sees one character at a time -----

  datatype State = Text | Escape | Control | Command | CommandEscape

  function NextFromText(c: char): State {
    if c == ESC then Escape else Text
  }

  function Next(state: State, c: char): State {
    match state
    case Text => NextFromText(c)
    case Escape => if c == '[' then Control else if c == ']' then Command else NextFromText(c)
    case Control => if IsSkipped(c) then Control else if IsFinal(c) then Text else NextFromText(c)
    case Command => if c == BEL then Text else if c == ESC then CommandEscape else Command
    case CommandEscape => if c == '\\' then Text else NextFromText(c)
  }

  /** Whether the character belongs to a control sequence rather than to the text. */
  predicate Swallows(state: State, c: char) {
    match state
    case Text => c == ESC
    case Escape => c in {'[', ']', ESC}
    case Control => IsSkipped(c) || IsFinal(c) || c == ESC
    case Command => true
    case CommandEscape => c in {'\\', ESC}
  }

  function After(state: State, s: string): State
    decreases |s|
  {
    if s == [] then state else After(Next(state, s[0]), s[1..])
  }

  function Strip(state: State, s: string): string
    decreases |s|
  {
    if s == [] then []
    else
      var rest := Strip(Next(state, s[0]), s[1..]);
      if Swallows(state, s[0]) then rest else [s[0]] + rest
  }

  // ----- The source's loops -----

  method StripAnsi(s: string) returns (out: string)
    ensures out == Strip(Text, s)
  {
    out := [];
    var i := 0;
    while i < |s|
      invariant 0 <= i <= |s|
      invariant out + Strip(Text, s[i..]) == Strip(Text, s)
    {
      Unfold(Text, s, i);
      var ch := s[i];
      i := i + 1;
      if ch == ESC {
        if i < |s| && s[i] == '[' {
          i := SkipControl(s, i + 1);
        } else if i < |s| && s[i] == ']' {
          i := SkipCommand(s, i + 1);
        } else {
          FromEscape(s, i);
        }
      } else {
        ConcatAssociative(out, [ch], Strip(Text, s[i..]));
        out := out + [ch];
      }
    }
    assert s[i..] == [];
  }

  method SkipControl(s: string, start: nat) returns (i: nat)
    requires 0 < start <= |s| && s[start - 1] == '['
    ensures start <= i <= |s| && Strip(Text, s[i..]) == Strip(Escape, s[start - 1..])
  {
    i := start;
    Unfold(Escape, s, start - 1);
    while i < |s| && IsSkipped(s[i])
      invariant start <= i <= |s|
      invariant Strip(Control, s[i..]) == Strip(Escape, s[start - 1..])
    {
      Unfold(Control, s, i);
      i := i + 1;
    }
    if i < |s| {
      Unfold(Control, s, i);
      if IsFinal(s[i]) {
        i := i + 1;
      } else {
        Unfold(Text, s, i);
      }
    }
  }

  method SkipCommand(s: string, start: nat) returns (i: nat)
    requires 0 < start <= |s| && s[start - 1] == ']'
    ensures start <= i <= |s| && Strip(Text, s[i..]) == Strip(Escape, s[start - 1..])
  {
    i := start;
    Unfold(Escape, s, start - 1);
    while i < |s|
      invariant start <= i <= |s|
      invariant Strip(Command, s[i..]) == Strip(Escape, s[start - 1..])
    {
      Unfold(Command, s, i);
      var c := s[i];
      i := i + 1;
      if c == BEL {
        return;
      }
      if c == ESC {
        if i < |s| {
          Unfold(CommandEscape, s, i);
          Unfold(Text, s, i);
          if s[i] == '\\' {
            i := i + 1;
          }
        }
        return;
      }
    }
  }

  lemma {:induction false} Unfold(state: State, s: string, i: nat)
    requires i < |s|
    ensures Swallows(state, s[i]) ==> Strip(state, s[i..]) == Strip(Next(state, s[i]), s[i + 1..])
    ensures !Swallows(state, s[i]) ==> Strip(state, s[i..]) == [s[i]] + Strip(Next(state, s[i]), s[i + 1..])
  {
    assert s[i..][1..] == s[i + 1..];
  }

  /** A lone ESC is dropped and what follows is ordinary text. */
  lemma {:induction false} FromEscape(s: string, i: nat)
    requires i <= |s| && (i < |s| ==> s[i] != '[' && s[i] != ']')
    ensures Strip(Escape, s[i..]) == Strip(Text, s[i..])
  {
    if i < |s| {
      Unfold(Escape, s, i);
      Unfold(Text, s, i);
    }
  }

  // ----- Laws -----

  lemma {:induction false} StripConcat(state: State, a: string, b: string)
    ensures Strip(state, a + b) == Strip(state, a) + Strip(After(state, a), b)
    decreases |a|
  {
    if a == [] {
      assert a + b == b;
    } else {
      assert (a + b)[1..] == a[1..] + b;
      StripConcat(Next(state, a[0]), a[1..], b);
      ConcatAssociative([a[0]], Strip(Next(state, a[0]), a[1..]), Strip(After(state, a), b));
    }
  }

  lemma {:induction false} AfterConcat(state: State, a: string, b: string)
    ensures After(state, a + b) == After(After(state, a), b)
    decreases |a|
  {
    if a == [] {
      assert a + b == b;
    } else {
      assert (a + b)[1..] == a[1..] + b;
      AfterConcat(Next(state, a[0]), a[1..], b);
    }
  }

  /** The output never contains an escape character. */
  lemma {:induction false} NoEscapeInOutput(state: State, s: string)
    ensures ESC !in Strip(state, s)
    decreases |s|
  {
    if s != [] {
      NoEscapeInOutput(Next(state, s[0]), s[1..]);
    }
  }

  /** Text without an escape character is left alone. */
  lemma {:induction false} PlainTextKept(s: string)
    requires ESC !in s
    ensures Strip(Text, s) == s && After(Text, s) == Text
    decreases |s|
  {
    if s != [] {
      PlainTextKept(s[1..]);
      assert s == [s[0]] + s[1..];
    }
  }

  lemma {:induction false} Idempotent(s: string)
    ensures Strip(Text, Strip(Text, s)) == Strip(Text, s)
  {
    NoEscapeInOutput(Text, s);
    PlainTextKept(Strip(Text, s));
  }

  /** A piece the automaton swallows whole disappears from any place in plain text. */
  lemma {:induction false} SwallowedPiece(a: string, piece: string, b: string)
    requires ESC !in a && After(Text, piece) == Text
    ensures Strip(Text, a + piece + b) == a + Strip(Text, piece) + Strip(Text, b)
  {
    PlainTextKept(a);
    StripConcat(Text, a, piece);
    AfterConcat(Text, a, piece);
    StripConcat(Text, a + piece, b);
  }

  // ----- Control sequences -----

  predicate IsParameter(c: char) {
    '0' <= c <= '?'
  }

  predicate IsIntermediate(c: char) {
    ' ' <= c <= '/'
  }

  /** A control sequence as ECMA-48 defines it: parameter bytes, intermediate bytes, final byte. */
  ghost predicate IsControlSequence(params: string, inter: string, final: char) {
    && (forall c :: c in params ==> IsParameter(c))
    && (forall c :: c in inter ==> IsIntermediate(c))
    && IsFinal(final)
  }

  /** The part of the parameters from the first byte the source does not skip. */
  function Unskipped(params: string): string {
    if params == [] then [] else if IsSkipped(params[0]) then Unskipped(params[1..]) else params
  }

  /** What is left of a control sequence: nothing, or everything from the first
      parameter byte the source does not know. */
  function Leftover(params: string, inter: string, final: char): string {
    if Unskipped(params) == [] then [] else Unskipped(params) + inter + [final]
  }

  lemma {:induction false} SkipAll(s: string)
    requires forall c :: c in s ==> IsSkipped(c)
    ensures Strip(Control, s) == [] && After(Control, s) == Control
    decreases |s|
  {
    if s != [] {
      SkipAll(s[1..]);
    }
  }

  lemma {:induction false} StripParameters(params: string)
    requires forall c :: c in params ==> IsParameter(c)
    ensures Unskipped(params) == [] ==> Strip(Control, params) == [] && After(Control, params) == Control
    ensures Unskipped(params) != [] ==> Strip(Control, params) == Unskipped(params) && After(Control, params) == Text
    decreases |params|
  {
    if params != [] {
      assert params[0] in params;
      if IsSkipped(params[0]) {
        StripParameters(params[1..]);
      } else {
        assert !IsParameter(ESC) && forall c :: c in params[1..] ==> IsParameter(c);
        PlainTextKept(params[1..]);
        assert params == [params[0]] + params[1..];
      }
    }
  }

  /** The sequence from its parameters on, once `ESC [` has been read. */
  lemma {:induction false} ControlBody(params: string, inter: string, final: char)
    requires IsControlSequence(params, inter, final)
    ensures Strip(Control, params + (inter + [final])) == Leftover(params, inter, final)
    ensures After(Control, params + (inter + [final])) == Text
  {
    var tail := inter + [final];
    StripParameters(params);
    StripConcat(Control, params, tail);
    AfterConcat(Control, params, tail);
    if Unskipped(params) == [] {
      SkipAll(inter);
      StripConcat(Control, inter, [final]);
      AfterConcat(Control, inter, [final]);
      One(Control, final);
    } else {
      PlainTextKept(tail);
      ConcatAssociative(Unskipped(params), inter, [final]);
    }
  }

  /** `ESC c` read from plain text, and whatever follows. */
  lemma {:induction false} Introduced(c: char, body: string)
    requires c == '[' || c == ']'
    ensures var state := if c == '[' then Control else Command;
            && Strip(Text, [ESC, c] + body) == Strip(state, body)
            && After(Text, [ESC, c] + body) == After(state, body)
  {
    var s := [ESC, c] + body;
    assert s[1..][0] == c && s[1..][1..] == body;
  }

  function ControlSequence(params: string, inter: string, final: char): string {
    [ESC, '['] + (params + (inter + [final]))
  }

  /** What strip_ansi leaves of any control sequence, and that it never eats text around it. */
  lemma {:induction false} ControlSequenceStripped(a: string, params: string, inter: string, final: char, b: string)
    requires ESC !in a && IsControlSequence(params, inter, final)
    ensures Strip(Text, a + ControlSequence(params, inter, final) + b)
         == a + Leftover(params, inter, final) + Strip(Text, b)
  {
    ControlBody(params, inter, final);
    Introduced('[', params + (inter + [final]));
    SwallowedPiece(a, ControlSequence(params, inter, final), b);
  }

  lemma {:induction false} One(state: State, c: char)
    ensures After(state, [c]) == Next(state, c)
    ensures Strip(state, [c]) == if Swallows(state, c) then [] else [c]
  {
  }

  /** The comment in the source promises all parameter bytes 0x30-0x3F; the loop knows only
      digits, `;` and `?`. A sequence disappears exactly when it uses no other one. */
  lemma {:induction false} ControlSequenceVanishesIff(params: string, inter: string, final: char)
    requires IsControlSequence(params, inter, final)
    ensures Strip(Text, ControlSequence(params, inter, final)) == []
       <==> forall c :: c in params ==> c !in {':', '<', '=', '>'}
  {
    ControlBody(params, inter, final);
    Introduced('[', params + (inter + [final]));
    UnskippedIff(params);
  }

  lemma {:induction false} UnskippedIff(params: string)
    requires forall c :: c in params ==> IsParameter(c)
    ensures Unskipped(params) == [] <==> forall c :: c in params ==> c !in {':', '<', '=', '>'}
    decreases |params|
  {
    if params != [] {
      UnskippedIff(params[1..]);
      assert params[0] in params && IsParameter(params[0]);
      assert forall c :: c in params <==> c == params[0] || c in params[1..];
    }
  }

  // ----- Operating system commands -----

  /** `ESC ] text` ended by BEL or by `ESC \` disappears. */
  lemma {:induction false} CommandStripped(a: string, text: string, end: string, b: string)
    requires ESC !in a && ESC !in text && BEL !in text
    requires end == [BEL] || end == [ESC, '\\']
    ensures Strip(Text, a + ([ESC, ']'] + (text + end)) + b) == a + Strip(Text, b)
  {
    CommandBody(text, end);
    Introduced(']', text + end);
    SwallowedPiece(a, [ESC, ']'] + (text + end), b);
  }

  lemma {:induction false} CommandBody(text: string, end: string)
    requires ESC !in text && BEL !in text
    requires end == [BEL] || end == [ESC, '\\']
    ensures Strip(Command, text + end) == [] && After(Command, text + end) == Text
  {
    InCommand(text);
    StripConcat(Command, text, end);
    AfterConcat(Command, text, end);
    if end == [ESC, '\\'] {
      assert end[1..] == ['\\'];
      One(CommandEscape, '\\');
    }
  }

  lemma {:induction false} InCommand(text: string)
    requires ESC !in text && BEL !in text
    ensures Strip(Command, text) == [] && After(Command, text) == Command
    decreases |text|
  {
    if text != [] {
      InCommand(text[1..]);
    }
  }

  /** A command that never ends takes the rest of the output with it. */
  lemma {:induction false} OpenCommandSwallowsRest(a: string, text: string)
    requires ESC !in a && ESC !in text && BEL !in text
    ensures Strip(Text, a + ([ESC, ']'] + text)) == a
  {
    PlainTextKept(a);
    Introduced(']', text);
    InCommand(text);
    StripConcat(Text, a, [ESC, ']'] + text);
  }
}
