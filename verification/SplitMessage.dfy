/** crates/openclaw-gateway/src/handler_utils.rs and, with the same code, discord.rs:
    splits a long message into chunks, at the last newline that fits if there is one.
    Messages are ASCII; a limit of 0 would split for ever. */
module SplitMessage {
  import opened Common

  const NEWLINE: char := '\n'

  // ----- The two library searches -----

  /** The last newline among the first n characters. */
  function RFind(s: string, n: nat): (r: Option<nat>)
    requires n <= |s|
    ensures r.Some? ==> r.value < n && s[r.value] == NEWLINE && forall k :: r.value < k < n ==> s[k] != NEWLINE
    ensures r.None? ==> forall k :: 0 <= k < n ==> s[k] != NEWLINE
  {
    if n == 0 then None else if s[n - 1] == NEWLINE then Some(n - 1) else RFind(s, n - 1)
  }

  /** How many newlines the text starts with. */
  function LeadingNewlines(s: string): (n: nat)
    ensures n <= |s| && (forall k :: 0 <= k < n ==> s[k] == NEWLINE) && (n < |s| ==> s[n] != NEWLINE)
  {
    if s == [] || s[0] != NEWLINE then 0 else 1 + LeadingNewlines(s[1..])
  }

  // ----- The splitter -----

  /** Where the first chunk of a text that does not fit ends, and where the rest starts. */
  function Cut(text: string, maxLen: nat): nat
    requires |text| > maxLen
  {
    RFind(text, maxLen).GetOr(maxLen)
  }

  function Resume(text: string, maxLen: nat): (k: nat)
    requires |text| > maxLen >= 1
    ensures Cut(text, maxLen) <= k <= |text| && 0 < k
  {
    Cut(text, maxLen) + LeadingNewlines(text[Cut(text, maxLen)..])
  }

  function Chunks(remaining: string, maxLen: nat): seq<string>
    requires maxLen >= 1
    decreases |remaining|
  {
    if remaining == [] then []
    else if |remaining| <= maxLen then [remaining]
    else [remaining[..Cut(remaining, maxLen)]] + Chunks(remaining[Resume(remaining, maxLen)..], maxLen)
  }

  /** What the splitter returns; a text that fits, also an empty one, is one chunk. */
  function SplitChunks(text: string, maxLen: nat): seq<string>
    requires maxLen >= 1
  {
    if |text| <= maxLen then [text] else Chunks(text, maxLen)
  }

  method Split(text: string, maxLen: nat) returns (chunks: seq<string>)
    requires maxLen >= 1
    ensures chunks == SplitChunks(text, maxLen)
  {
    if |text| <= maxLen {
      return [text];
    }
    chunks := [];
    var remaining := text;
    while remaining != []
      invariant chunks + Chunks(remaining, maxLen) == Chunks(text, maxLen)
      decreases |remaining|
    {
      ghost var before := chunks;
      if |remaining| <= maxLen {
        chunks := chunks + [remaining];
        break;
      }
      var splitAt := RFind(remaining, maxLen).GetOr(maxLen);
      chunks := chunks + [remaining[..splitAt]];
      ghost var after := remaining[Resume(remaining, maxLen)..];
      var rest := remaining[splitAt..];
      remaining := rest[LeadingNewlines(rest)..];
      assert remaining == after;
      ConcatAssociative(before, [chunks[|before|]], Chunks(remaining, maxLen));
    }
  }

  // ----- What survives -----

  /** The newline runs dropped after the chunks. */
  function Gaps(remaining: string, maxLen: nat): seq<string>
    requires maxLen >= 1
    decreases |remaining|
  {
    if remaining == [] then []
    else if |remaining| <= maxLen then [""]
    else
      [remaining[Cut(remaining, maxLen)..Resume(remaining, maxLen)]]
      + Gaps(remaining[Resume(remaining, maxLen)..], maxLen)
  }

  /** Chunks and gaps laid one after the other. */
  function Weave(chunks: seq<string>, gaps: seq<string>): string
    requires |chunks| == |gaps|
  {
    if chunks == [] then "" else chunks[0] + gaps[0] + Weave(chunks[1..], gaps[1..])
  }

  predicate OnlyNewlines(s: string) {
    forall k :: 0 <= k < |s| ==> s[k] == NEWLINE
  }

  /** One step: the text is its first chunk, a run of newlines, and the rest, which does not
      start with a newline. A chunk is cut at the last newline that fits; without one it is full. */
  lemma {:induction false} OneCut(text: string, maxLen: nat)
    requires |text| > maxLen >= 1
    ensures var chunk, gap, rest := text[..Cut(text, maxLen)], text[Cut(text, maxLen)..Resume(text, maxLen)],
                                    text[Resume(text, maxLen)..];
            && text == chunk + gap + rest && |chunk| <= maxLen && OnlyNewlines(gap)
            && (rest != [] ==> rest[0] != NEWLINE)
            && (|chunk| < maxLen ==> gap != [] && forall k :: |chunk| < k < maxLen ==> text[k] != NEWLINE)
            && (|chunk| == maxLen ==> NEWLINE !in chunk)
  {
    var c, n := Cut(text, maxLen), LeadingNewlines(text[Cut(text, maxLen)..]);
    forall k | c <= k < c + n ensures text[k] == NEWLINE {
      assert text[k] == text[c..][k - c];
    }
    if c + n < |text| {
      assert text[c + n] == text[c..][n];
    }
    if c < maxLen {
      assert text[c..][0] == NEWLINE;
    }
  }

  /** The text is the chunks with the dropped runs of newlines put back, and nothing else. */
  lemma {:induction false} TextIsChunksAndNewlines(text: string, maxLen: nat)
    requires maxLen >= 1
    ensures |Chunks(text, maxLen)| == |Gaps(text, maxLen)|
    ensures Weave(Chunks(text, maxLen), Gaps(text, maxLen)) == text
    ensures forall k :: 0 <= k < |Gaps(text, maxLen)| ==> OnlyNewlines(Gaps(text, maxLen)[k])
    decreases |text|
  {
    if |text| > maxLen {
      OneCut(text, maxLen);
      TextIsChunksAndNewlines(text[Resume(text, maxLen)..], maxLen);
    }
  }

  function WithoutNewlines(s: string): string {
    if s == [] then [] else WithoutNewlines(s[..|s| - 1]) + if s[|s| - 1] == NEWLINE then [] else [s[|s| - 1]]
  }

  lemma {:induction false} WithoutNewlinesConcat(a: string, b: string)
    ensures WithoutNewlines(a + b) == WithoutNewlines(a) + WithoutNewlines(b)
    decreases |b|
  {
    if b == [] {
      assert a + b == a;
    } else {
      var k := |b| - 1;
      assert (a + b)[..|a + b| - 1] == a + b[..k];
      WithoutNewlinesConcat(a, b[..k]);
      ConcatAssociative(WithoutNewlines(a), WithoutNewlines(b[..k]), if b[k] == NEWLINE then [] else [b[k]]);
    }
  }

  lemma {:induction false} NewlinesVanish(s: string)
    requires OnlyNewlines(s)
    ensures WithoutNewlines(s) == []
    decreases |s|
  {
    if s != [] {
      NewlinesVanish(s[..|s| - 1]);
    }
  }

  lemma {:induction false} GapsDoNotCount(chunks: seq<string>, gaps: seq<string>)
    requires |chunks| == |gaps| && forall k :: 0 <= k < |gaps| ==> OnlyNewlines(gaps[k])
    ensures WithoutNewlines(Weave(chunks, gaps)) == WithoutNewlines(Joined(chunks))
    decreases |chunks|
  {
    if chunks != [] {
      var later := Weave(chunks[1..], gaps[1..]);
      GapsDoNotCount(chunks[1..], gaps[1..]);
      NewlinesVanish(gaps[0]);
      WithoutNewlinesConcat(chunks[0], gaps[0]);
      WithoutNewlinesConcat(chunks[0] + gaps[0], later);
      WithoutNewlinesConcat(chunks[0], Joined(chunks[1..]));
    }
  }

  /** Every other character survives, in order, and a text that fits survives whole. */
  lemma {:induction false} OnlyNewlinesAreLost(text: string, maxLen: nat)
    requires maxLen >= 1
    ensures WithoutNewlines(Joined(SplitChunks(text, maxLen))) == WithoutNewlines(text)
    ensures |text| <= maxLen ==> |SplitChunks(text, maxLen)| == 1 && Joined(SplitChunks(text, maxLen)) == text
  {
    if |text| <= maxLen {
      assert [text][1..] == [] && text + [] == text;
    } else {
      TextIsChunksAndNewlines(text, maxLen);
      GapsDoNotCount(Chunks(text, maxLen), Gaps(text, maxLen));
    }
  }

  /** All chunks one after the other. */
  function Joined(chunks: seq<string>): string {
    if chunks == [] then [] else chunks[0] + Joined(chunks[1..])
  }

  // ----- The chunks -----

  lemma {:induction false} ChunksFit(text: string, maxLen: nat, i: nat)
    requires maxLen >= 1 && i < |Chunks(text, maxLen)|
    ensures |Chunks(text, maxLen)[i]| <= maxLen
    decreases |text|
  {
    if |text| > maxLen && i > 0 {
      ChunksFit(text[Resume(text, maxLen)..], maxLen, i - 1);
    }
  }

  /** Only the first chunk can be empty: exactly when the text is empty, or does not fit,
      opens with a newline and has no other among the characters that fit. */
  lemma {:induction false} EmptyChunkIff(text: string, maxLen: nat, i: nat)
    requires maxLen >= 1 && i < |SplitChunks(text, maxLen)|
    ensures SplitChunks(text, maxLen)[i] == []
       <==> (|| text == []
             || (&& i == 0 && |text| > maxLen && text[0] == NEWLINE
                 && forall k :: 0 < k < maxLen ==> text[k] != NEWLINE))
  {
    if |text| > maxLen {
      OneCut(text, maxLen);
      if i > 0 {
        var rest := text[Resume(text, maxLen)..];
        assert Chunks(text, maxLen)[1..] == Chunks(rest, maxLen);
        LaterChunksNonEmpty(rest, maxLen, i - 1);
      } else {
        var c := Cut(text, maxLen);
        assert c < maxLen ==> text[c] == NEWLINE;
      }
    }
  }

  lemma {:induction false} LaterChunksNonEmpty(rest: string, maxLen: nat, i: nat)
    requires maxLen >= 1 && rest != [] && rest[0] != NEWLINE
    requires i < |Chunks(rest, maxLen)|
    ensures Chunks(rest, maxLen)[i] != []
    decreases |rest|
  {
    if |rest| > maxLen {
      OneCut(rest, maxLen);
      if i > 0 {
        LaterChunksNonEmpty(rest[Resume(rest, maxLen)..], maxLen, i - 1);
      }
    }
  }
}
