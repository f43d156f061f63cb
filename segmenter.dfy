/** `split_text`: cutting a long request text into chunks of at most
    `max_length` characters, preferring the last sentence terminator, then the
    last clause separator, then the last blank of each window. The same code
    appears in app.py and appV2.py, current and historical. */
module Segmenter {
  import opened Base
  import opened Strings

  /** MAX_TEXT_LENGTH, the default `max_length`. */
  const MaxTextLength: nat := 500

  /** The three delimiter classes, in the order they are tried. */
  datatype Delimiter =
    | SentenceEnd       // [.!?。！？]
    | ClauseSeparator   // [,;:，；：]
    | Blank             // [ \n\t]

  const Priority: seq<Delimiter> := [SentenceEnd, ClauseSeparator, Blank]

  predicate Matches(d: Delimiter, c: char)
  {
    match d
    case SentenceEnd =>
      c == '.' || c == '!' || c == '?' || c == '\U{3002}' || c == '\U{FF01}' || c == '\U{FF1F}'
    case ClauseSeparator =>
      c == ',' || c == ';' || c == ':' || c == '\U{FF0C}' || c == '\U{FF1B}' || c == '\U{FF1A}'
    case Blank =>
      c == ' ' || c == '\n' || c == '\t'
  }

  predicate IsDelimiter(c: char)
  {
    Matches(SentenceEnd, c) || Matches(ClauseSeparator, c) || Matches(Blank, c)
  }

  ghost predicate Occurs(w: string, d: Delimiter)
  {
    exists i :: 0 <= i < |w| && Matches(d, w[i])
  }

  /** `p` is one past the last character of `w` in class `d`. */
  ghost predicate EndsLast(w: string, p: int, d: Delimiter)
  {
    1 <= p <= |w| && Matches(d, w[p - 1]) && forall j :: p <= j < |w| ==> !Matches(d, w[j])
  }

  /** Index of the last character of `w` in class `d` (the last match of
      `re.finditer`), or -1 when there is none. */
  function LastMatch(w: string, d: Delimiter): (r: int)
    ensures -1 <= r < |w|
    ensures r >= 0 ==> Matches(d, w[r])
    ensures forall j :: r < j < |w| ==> !Matches(d, w[j])
  {
    if w == [] then -1
    else if Matches(d, w[|w| - 1]) then |w| - 1
    else LastMatch(w[..|w| - 1], d)
  }

  /** The end of the last match of the first class of `classes` that occurs
      in `w`, or -1 when none occurs. */
  function DelimiterEnd(w: string, classes: seq<Delimiter>): (r: int)
    ensures r == -1 || 1 <= r <= |w|
  {
    if classes == [] then -1
    else
      var m := LastMatch(w, classes[0]);
      if m >= 0 then m + 1 else DelimiterEnd(w, classes[1..])
  }

  /** `split_pos` for the window `w` (the first `max_length` characters of
      the remaining text): one past the last delimiter of the highest-priority
      class present, or the whole window when there is no delimiter. */
  function SplitPoint(w: string): (p: nat)
    requires |w| > 0
    ensures 1 <= p <= |w|
  {
    var e := DelimiterEnd(w, Priority);
    if e == -1 then |w| else e
  }

  /** The split point is one past the last match of the highest-priority
      class that occurs in the window, and the window's end when none does. */
  lemma SplitPointPriority(w: string)
    requires |w| > 0
    ensures Occurs(w, SentenceEnd) ==> EndsLast(w, SplitPoint(w), SentenceEnd)
    ensures !Occurs(w, SentenceEnd) && Occurs(w, ClauseSeparator) ==>
              EndsLast(w, SplitPoint(w), ClauseSeparator)
    ensures !Occurs(w, SentenceEnd) && !Occurs(w, ClauseSeparator) && Occurs(w, Blank) ==>
              EndsLast(w, SplitPoint(w), Blank)
    ensures !Occurs(w, SentenceEnd) && !Occurs(w, ClauseSeparator) && !Occurs(w, Blank) ==>
              SplitPoint(w) == |w|
  {
    PriorityCascade(w);
  }

  /** `DelimiterEnd` over the three classes, written out. */
  lemma PriorityCascade(w: string)
    ensures DelimiterEnd(w, Priority)
         == if LastMatch(w, SentenceEnd) >= 0 then LastMatch(w, SentenceEnd) + 1
            else if LastMatch(w, ClauseSeparator) >= 0 then LastMatch(w, ClauseSeparator) + 1
            else if LastMatch(w, Blank) >= 0 then LastMatch(w, Blank) + 1
            else -1
  {
    assert [Blank][1..] == [];
    assert DelimiterEnd(w, [Blank])
        == if LastMatch(w, Blank) >= 0 then LastMatch(w, Blank) + 1 else -1;
    assert [ClauseSeparator, Blank][1..] == [Blank];
    assert DelimiterEnd(w, [ClauseSeparator, Blank])
        == if LastMatch(w, ClauseSeparator) >= 0 then LastMatch(w, ClauseSeparator) + 1
           else DelimiterEnd(w, [Blank]);
    assert Priority[1..] == [ClauseSeparator, Blank];
  }

  /** The chunks the loop emits from `rem` onwards: while more than `maxLen`
      characters remain, the stripped text before the split point is a chunk
      and the stripped text after it remains; a non-empty last remainder is
      the final chunk. */
  function Pieces(rem: string, maxLen: nat): seq<string>
    requires maxLen > 0
    decreases |rem|
  {
    if |rem| > maxLen then
      var p := SplitPoint(rem[..maxLen]);
      [Strip(rem[..p])] + Pieces(Strip(rem[p..]), maxLen)
    else if rem != [] then [rem]
    else []
  }

  /** One round of the loop: a long remainder gives its stripped head chunk
      followed by the chunks of its stripped rest. */
  lemma PiecesStep(rem: string, maxLen: nat)
    requires maxLen > 0 && |rem| > maxLen
    ensures var p := SplitPoint(rem[..maxLen]);
            Pieces(rem, maxLen) == [Strip(rem[..p])] + Pieces(Strip(rem[p..]), maxLen)
  {
  }

  /** No chunk is longer than `maxLen`. */
  lemma {:induction false} PiecesBounded(rem: string, maxLen: nat)
    requires maxLen > 0
    ensures forall i :: 0 <= i < |Pieces(rem, maxLen)| ==> |Pieces(rem, maxLen)[i]| <= maxLen
    decreases |rem|
  {
    if |rem| > maxLen {
      var p := SplitPoint(rem[..maxLen]);
      PiecesBounded(Strip(rem[p..]), maxLen);
      PiecesStep(rem, maxLen);
    }
  }

  /** `split_text(text, max_length)`: the text itself when it is short
      enough, the loop's chunks otherwise. */
  function Split(text: string, maxLen: nat): seq<string>
    requires maxLen > 0
  {
    if |text| <= maxLen then [text] else Pieces(text, maxLen)
  }

  /** The inner loop of `split_text`: the delimiter classes are tried in
      priority order and the first one with a match in the window decides;
      without any match the window is cut at its full length. */
  method SplitPosition(window: string) returns (splitPos: nat)
    requires |window| > 0
    ensures splitPos == SplitPoint(window)
  {
    var pos := -1;
    var k := 0;
    while k < |Priority|
      invariant 0 <= k <= |Priority|
      invariant pos == -1
      invariant DelimiterEnd(window, Priority) == DelimiterEnd(window, Priority[k..])
    {
      var m := LastMatch(window, Priority[k]);
      if m >= 0 {
        pos := m + 1;
        break;
      }
      assert Priority[k..][1..] == Priority[k + 1..];
      k := k + 1;
    }
    if pos == -1 {
      pos := |window|;
    }
    splitPos := pos;
  }

  /** The loop of `split_text`. */
  method SplitText(text: string, maxLen: nat) returns (segments: seq<string>)
    requires maxLen > 0
    ensures segments == Split(text, maxLen)
    ensures |text| <= maxLen ==> segments == [text]
  {
    if |text| <= maxLen {
      return [text];
    }
    segments := [];
    var remaining := text;
    ghost var all := Pieces(text, maxLen);
    while |remaining| > maxLen
      invariant segments + Pieces(remaining, maxLen) == all
      decreases |remaining|
    {
      var splitPos := SplitPosition(remaining[..maxLen]);
      var chunk, rest := Strip(remaining[..splitPos]), Strip(remaining[splitPos..]);
      assert (segments + [chunk]) + Pieces(rest, maxLen) == all by {
        PiecesStep(remaining, maxLen);
        assert (segments + [chunk]) + Pieces(rest, maxLen)
            == segments + ([chunk] + Pieces(rest, maxLen));
      }
      segments, remaining := segments + [chunk], rest;
    }
    if remaining != [] {
      assert segments + [remaining] == all by {
        assert Pieces(remaining, maxLen) == [remaining];
      }
      segments := segments + [remaining];
    } else {
      assert segments == all by {
        assert Pieces(remaining, maxLen) == [];
        assert segments + [] == segments;
      }
    }
  }

  /** Every chunk of `split_text` fits in `maxLen` characters. */
  lemma SplitBounded(text: string, maxLen: nat)
    requires maxLen > 0
    ensures forall i :: 0 <= i < |Split(text, maxLen)| ==> |Split(text, maxLen)[i]| <= maxLen
  {
    if |text| > maxLen {
      PiecesBounded(text, maxLen);
    }
  }

  /** Only whitespace is lost: the chunks, concatenated in order, hold the
      non-whitespace characters of the input in their original order. */
  lemma {:induction false} PiecesKeepContent(rem: string, maxLen: nat)
    requires maxLen > 0
    ensures DeleteSpaces(Concat(Pieces(rem, maxLen))) == DeleteSpaces(rem)
    decreases |rem|
  {
    if |rem| > maxLen {
      var p := SplitPoint(rem[..maxLen]);
      var head, rest := rem[..p], rem[p..];
      var tail := Pieces(Strip(rest), maxLen);
      PiecesKeepContent(Strip(rest), maxLen);
      assert Pieces(rem, maxLen) == [Strip(head)] + tail;
      assert Concat([Strip(head)] + tail) == Strip(head) + Concat(tail);
      DeleteSpacesAppend(Strip(head), Concat(tail));
      StripKeepsContent(head);
      StripKeepsContent(rest);
      assert head + rest == rem;
      DeleteSpacesAppend(head, rest);
    } else if rem != [] {
      ConcatSingleton(rem);
    }
  }

  lemma SplitKeepsContent(text: string, maxLen: nat)
    requires maxLen > 0
    ensures DeleteSpaces(Concat(Split(text, maxLen))) == DeleteSpaces(text)
  {
    if |text| <= maxLen {
      ConcatSingleton(text);
    } else {
      PiecesKeepContent(text, maxLen);
    }
  }

  /** Every chunk the loop emits after stripping is non-empty. */
  lemma {:induction false} PiecesNonEmpty(rem: string, maxLen: nat)
    requires maxLen > 0
    requires rem == [] || !IsSpace(rem[0])
    ensures forall i :: 0 <= i < |Pieces(rem, maxLen)| ==> Pieces(rem, maxLen)[i] != []
    decreases |rem|
  {
    if |rem| > maxLen {
      var p := SplitPoint(rem[..maxLen]);
      StripKeepsHead(rem[..p]);
      PiecesNonEmpty(Strip(rem[p..]), maxLen);
    }
  }

  /** Chunks after the first are never empty; the first is empty only when
      the text is empty or begins with whitespace. */
  lemma SplitNonEmpty(text: string, maxLen: nat)
    requires maxLen > 0
    ensures |Split(text, maxLen)| >= 1
    ensures forall i :: 1 <= i < |Split(text, maxLen)| ==> Split(text, maxLen)[i] != []
    ensures Split(text, maxLen)[0] == [] ==> text == [] || IsSpace(text[0])
  {
    if |text| > maxLen {
      var p := SplitPoint(text[..maxLen]);
      var rest := Strip(text[p..]);
      PiecesNonEmpty(rest, maxLen);
      assert Pieces(text, maxLen)[1..] == Pieces(rest, maxLen);
      if !IsSpace(text[0]) {
        StripKeepsHead(text[..p]);
      }
    }
  }

  /** Text of at most `maxLen` characters is returned whole, untrimmed:
      the empty text gives one empty chunk. */
  lemma ShortTextIsOneChunk(text: string, maxLen: nat)
    requires maxLen > 0 && |text| <= maxLen
    ensures Split(text, maxLen) == [text]
  {
  }

  /** The delimiter stays with the preceding chunk: when the last sentence
      terminator in the first window is at index `k`, the first chunk is the
      stripped text up to and including it. */
  lemma FirstChunkEndsAtSentence(text: string, maxLen: nat, k: nat)
    requires maxLen > 0 && |text| > maxLen
    requires k < maxLen && Matches(SentenceEnd, text[k])
    requires forall j :: k < j < maxLen ==> !Matches(SentenceEnd, text[j])
    ensures Split(text, maxLen)[0] == Strip(text[..k + 1])
  {
    var w := text[..maxLen];
    assert SplitPoint(w) == k + 1 by {
      forall j | k < j < |w| ensures !Matches(SentenceEnd, w[j]) {
        assert w[j] == text[j];
      }
      SplitAtLastSentenceEnd(w, k);
    }
    FirstChunkAt(text, maxLen);
  }

  /** The first chunk of a long text is its stripped prefix up to the split
      point of the first window. */
  lemma FirstChunkAt(text: string, maxLen: nat)
    requires maxLen > 0 && |text| > maxLen
    ensures Split(text, maxLen)[0] == Strip(text[..SplitPoint(text[..maxLen])])
  {
    PiecesStep(text, maxLen);
  }

  /** A window whose last sentence terminator is at index `k` is split just
      after it. */
  lemma SplitAtLastSentenceEnd(w: string, k: nat)
    requires k < |w| && Matches(SentenceEnd, w[k])
    requires forall j :: k < j < |w| ==> !Matches(SentenceEnd, w[j])
    ensures SplitPoint(w) == k + 1
  {
    assert LastMatch(w, SentenceEnd) == k;
    assert Priority[0] == SentenceEnd;
  }

  /** The 1200-character example: a single '.' at index 480 and a window of
      500 gives a first chunk of the 481 characters up to the period, stripped. */
  lemma PeriodAt480(text: string)
    requires |text| == 1200 && text[480] == '.'
    requires forall j :: 480 < j < 500 ==> !Matches(SentenceEnd, text[j])
    ensures Split(text, MaxTextLength)[0] == Strip(text[..481])
  {
    FirstChunkEndsAtSentence(text, MaxTextLength, 480);
  }

  /** Reference definition of the hard cut: consecutive `maxLen`-sized
      pieces and a shorter, non-empty tail. */
  function HardCuts(s: string, maxLen: nat): (r: seq<string>)
    requires maxLen > 0
    ensures Concat(r) == s
    ensures forall i :: 0 <= i < |r| ==> 0 < |r[i]| <= maxLen
    ensures forall i :: 0 <= i < |r| - 1 ==> |r[i]| == maxLen
    decreases |s|
  {
    if |s| > maxLen then
      var rest := HardCuts(s[maxLen..], maxLen);
      assert s == s[..maxLen] + s[maxLen..];
      [s[..maxLen]] + rest
    else if s != [] then
      ConcatSingleton(s);
      [s]
    else []
  }

  /** Text without delimiters or whitespace is hard-cut into consecutive
      `maxLen`-sized chunks. */
  lemma {:induction false} DelimiterFreeIsHardCut(text: string, maxLen: nat)
    requires maxLen > 0
    requires forall i :: 0 <= i < |text| ==> !IsDelimiter(text[i]) && !IsSpace(text[i])
    ensures Pieces(text, maxLen) == HardCuts(text, maxLen)
    decreases |text|
  {
    if |text| > maxLen {
      var w := text[..maxLen];
      assert !Occurs(w, SentenceEnd) && !Occurs(w, ClauseSeparator) && !Occurs(w, Blank) by {
        forall i | 0 <= i < |w| ensures !IsDelimiter(w[i]) {
          assert w[i] == text[i];
        }
      }
      SplitPointPriority(w);
      assert SplitPoint(w) == maxLen;
      PiecesStep(text, maxLen);
      StripNoSpace(text[..maxLen]);
      StripNoSpace(text[maxLen..]);
      DelimiterFreeIsHardCut(text[maxLen..], maxLen);
      assert Pieces(text, maxLen) == [text[..maxLen]] + Pieces(text[maxLen..], maxLen);
    }
  }
}
