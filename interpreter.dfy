/**
  The comprehension interpreter of `process_comprehension_feedback` in app.py:
  coerce the per-word scores to integers, recover the words of an annotated text
  by stripping the timestamp suffixes, check that the two have the same length,
  and select the words scored below the threshold.
 */
module Interpreter {
  import opened Wrappers
  import opened Text
  import opened Aligner

  // ---------------------------------------------------------------------------
  // The regular expression (.+)\[\d+ms\], applied with re.match.

  predicate NoNewline(s: string)
  {
    forall i :: 0 <= i < |s| ==> s[i] != '\n'
  }

  /** Number of consecutive digits in `s` from position `k` on. */
  function DigitRun(s: string, k: nat): (n: nat)
    requires k <= |s|
    ensures k + n <= |s|
    ensures forall i :: k <= i < k + n ==> IsDigit(s[i])
    ensures k + n == |s| || !IsDigit(s[k + n])
    decreases |s| - k
  {
    if k < |s| && IsDigit(s[k]) then 1 + DigitRun(s, k + 1) else 0
  }

  /**
    `re.match(r'(.+)\[\d+ms\]', token)` can succeed with group 1 equal to
    `token[..j]`: that prefix is non-empty and holds no newline (`.` does not
    match one), and `[`, one or more digits and `ms]` follow it. Because a digit
    is never `m`, taking the whole run of digits decides whether `\d+ms` fits.
    What follows `ms]` is ignored, since `re.match` anchors only at the start.
   */
  predicate MatchesAt(token: string, j: nat)
  {
    && 1 <= j < |token|
    && NoNewline(token[..j])
    && token[j] == '['
    && var n := DigitRun(token, j + 1);
       n >= 1 && j + 4 + n <= |token| && token[j + 1 + n..j + 4 + n] == "ms]"
  }

  /** The regular expression matches the token at all. */
  ghost predicate HasTimestamp(token: string)
  {
    exists j: nat :: MatchesAt(token, j)
  }

  /** The largest `k < j` at which the regular expression matches, if any. */
  function LastMatch(token: string, j: nat): (r: Option<nat>)
    requires j <= |token|
    ensures r.Some? ==> r.value < j && MatchesAt(token, r.value)
    ensures r.Some? ==> forall k: nat :: r.value < k < j ==> !MatchesAt(token, k)
    ensures r.None? ==> forall k: nat :: k < j ==> !MatchesAt(token, k)
    decreases j
  {
    if j == 0 then None
    else if MatchesAt(token, j - 1) then Some(j - 1)
    else LastMatch(token, j - 1)
  }

  /**
    The word recovered from one token: group 1 of the match, which the greedy
    `.+` makes the longest matching prefix; the token itself when there is no
    match.
   */
  function StripTimestamp(token: string): (word: string)
    ensures HasTimestamp(token) ==> MatchesAt(token, |word|) && word == token[..|word|]
    ensures HasTimestamp(token) ==> forall j: nat :: MatchesAt(token, j) ==> j <= |word|
    ensures !HasTimestamp(token) ==> word == token
  {
    match LastMatch(token, |token|)
    case Some(j) => token[..j]
    case None => token
  }

  /** The words recovered from an annotated text. */
  function RecoveredWords(annotated: string): (words: seq<string>)
    ensures |words| == |Split(annotated)|
  {
    var tokens := Split(annotated);
    seq(|tokens|, i requires 0 <= i < |tokens| => StripTimestamp(tokens[i]))
  }

  /** The loop that strips the timestamps of `assistant_response` into `words`. */
  method RemoveTimestamps(assistantResponse: string) returns (words: seq<string>)
    ensures words == RecoveredWords(assistantResponse)
  {
    var wordsWithTimestamps := Split(assistantResponse);
    words := [];
    for i := 0 to |wordsWithTimestamps|
      invariant |words| == i
      invariant forall k :: 0 <= k < i ==> words[k] == StripTimestamp(wordsWithTimestamps[k])
    {
      var item := wordsWithTimestamps[i];
      var m := LastMatch(item, |item|);
      if m.Some? {
        words := words + [item[..m.value]];
      } else {
        words := words + [item];
      }
    }
  }

  // ---------------------------------------------------------------------------
  // Scores and selection.

  /** Scores at or above this value mean "understood". */
  const Threshold := 10

  /**
    `[int(c) for c in word_comprehension]`: each raw score's conversion is given
    as an Option; one failed conversion fails the whole batch.
   */
  function CoerceScores(raw: seq<Option<int>>): (scores: Option<seq<int>>)
    ensures scores.Some? <==> forall i :: 0 <= i < |raw| ==> raw[i].Some?
    ensures scores.Some? ==> |scores.value| == |raw|
    ensures scores.Some? ==> forall i :: 0 <= i < |raw| ==> scores.value[i] == raw[i].value
    decreases |raw|
  {
    if raw == [] then Some([])
    else match raw[0]
      case None => None
      case Some(v) =>
        match CoerceScores(raw[1..])
        case None => None
        case Some(rest) => Some([v] + rest)
  }

  /** The list comprehension over `enumerate(word_comprehension)` from index `i` on. */
  function SelectFrom(words: seq<string>, scores: seq<int>, i: nat): seq<string>
    requires |words| == |scores| && i <= |scores|
    decreases |scores| - i
  {
    if i == |scores| then []
    else (if scores[i] < Threshold then [words[i]] else []) + SelectFrom(words, scores, i + 1)
  }

  /** `[words[i] for i, c in enumerate(scores) if c < 10]`. */
  function SelectBelow(words: seq<string>, scores: seq<int>): seq<string>
    requires |words| == |scores|
  {
    SelectFrom(words, scores, 0)
  }

  /** The indices from `i` on whose score is below the threshold, in increasing order. */
  function BelowFrom(scores: seq<int>, i: nat): (idx: seq<nat>)
    requires i <= |scores|
    ensures forall k :: 0 <= k < |idx| ==> i <= idx[k] < |scores| && scores[idx[k]] < Threshold
    decreases |scores| - i
  {
    if i == |scores| then []
    else (if scores[i] < Threshold then [i] else []) + BelowFrom(scores, i + 1)
  }

  /** Every index from `i` on with a low score is listed. */
  lemma {:induction false} BelowFromComplete(scores: seq<int>, i: nat)
    requires i <= |scores|
    ensures forall j: nat :: i <= j < |scores| && scores[j] < Threshold ==> j in BelowFrom(scores, i)
    decreases |scores| - i
  {
    if i < |scores| {
      BelowFromComplete(scores, i + 1);
      var idx, rest := BelowFrom(scores, i), BelowFrom(scores, i + 1);
      forall j: nat | i <= j < |scores| && scores[j] < Threshold ensures j in idx {
        if j == i {
          assert idx[0] == i;
        } else {
          assert j in rest;
          var k :| 0 <= k < |rest| && rest[k] == j;
          assert idx[|idx| - |rest| + k] == j;
        }
      }
    }
  }

  predicate Increasing(idx: seq<nat>)
  {
    forall k, l :: 0 <= k < l < |idx| ==> idx[k] < idx[l]
  }

  lemma ConsIncreasing(x: nat, rest: seq<nat>)
    requires Increasing(rest)
    requires forall k :: 0 <= k < |rest| ==> x < rest[k]
    ensures Increasing([x] + rest)
  {
    var idx := [x] + rest;
    forall k, l | 0 <= k < l < |idx| ensures idx[k] < idx[l] {
      assert idx[l] == rest[l - 1];
      if k > 0 {
        assert idx[k] == rest[k - 1];
      }
    }
  }

  /** The listed indices increase strictly. */
  lemma {:induction false} BelowFromIncreasing(scores: seq<int>, i: nat)
    requires i <= |scores|
    ensures Increasing(BelowFrom(scores, i))
    decreases |scores| - i
  {
    if i < |scores| {
      BelowFromIncreasing(scores, i + 1);
      if scores[i] < Threshold {
        ConsIncreasing(i, BelowFrom(scores, i + 1));
      } else {
        assert BelowFrom(scores, i) == BelowFrom(scores, i + 1);
      }
    }
  }

  lemma {:induction false} SelectFromIndexed(words: seq<string>, scores: seq<int>, i: nat)
    requires |words| == |scores| && i <= |scores|
    ensures |SelectFrom(words, scores, i)| == |BelowFrom(scores, i)|
    ensures forall k :: 0 <= k < |BelowFrom(scores, i)| ==>
      SelectFrom(words, scores, i)[k] == words[BelowFrom(scores, i)[k]]
    decreases |scores| - i
  {
    if i < |scores| {
      SelectFromIndexed(words, scores, i + 1);
      var rest, restIdx := SelectFrom(words, scores, i + 1), BelowFrom(scores, i + 1);
      var here, hereIdx := SelectFrom(words, scores, i), BelowFrom(scores, i);
      if scores[i] < Threshold {
        assert here == [words[i]] + rest;
        assert hereIdx == [i] + restIdx;
        forall k | 0 < k < |hereIdx| ensures here[k] == words[hereIdx[k]] {
          assert here[k] == rest[k - 1] && hereIdx[k] == restIdx[k - 1];
        }
      } else {
        assert here == rest;
        assert hereIdx == restIdx;
      }
    }
  }

  /**
    Selection is exact: the selected words are `words[i]` for the indices `i`
    whose score is below the threshold, one entry per such index (so repeated
    words are kept), in increasing index order.
   */
  lemma SelectionExact(words: seq<string>, scores: seq<int>)
    requires |words| == |scores|
    ensures var sel, idx := SelectBelow(words, scores), BelowFrom(scores, 0);
      && |sel| == |idx|
      && (forall k :: 0 <= k < |idx| ==> sel[k] == words[idx[k]])
      && (forall i: nat :: i < |scores| ==> (i in idx <==> scores[i] < Threshold))
      && (forall k, l :: 0 <= k < l < |idx| ==> idx[k] < idx[l])
  {
    SelectFromIndexed(words, scores, 0);
    BelowFromComplete(scores, 0);
    BelowFromIncreasing(scores, 0);
  }

  /** Nothing is selected exactly when every score reaches the threshold. */
  lemma SelectionEmpty(words: seq<string>, scores: seq<int>)
    requires |words| == |scores|
    ensures SelectBelow(words, scores) == [] <==> forall i :: 0 <= i < |scores| ==> scores[i] >= Threshold
  {
    SelectionExact(words, scores);
    var idx := BelowFrom(scores, 0);
    if SelectBelow(words, scores) == [] {
      forall i: nat | i < |scores| ensures scores[i] >= Threshold {
        assert i !in idx;
      }
    } else {
      assert scores[idx[0]] < Threshold;
    }
  }

  // ---------------------------------------------------------------------------
  // The interpreter as a whole.

  datatype InterpretError = InvalidScoreFormat | LengthMismatch

  /**
    Steps 1-4 of `process_comprehension_feedback`: coerce, recover the words,
    compare the lengths, select. (The source reports both errors as None.)
   */
  function Interpret(raw: seq<Option<int>>, annotated: string): Result<seq<string>, InterpretError>
  {
    match CoerceScores(raw)
    case None => Failure(InvalidScoreFormat)
    case Some(scores) =>
      var words := RecoveredWords(annotated);
      if |scores| != |words| then Failure(LengthMismatch)
      else Success(SelectBelow(words, scores))
  }

  /** Score coercion is all or nothing. */
  lemma InvalidScoreIffUnparsable(raw: seq<Option<int>>, annotated: string)
    ensures Interpret(raw, annotated) == Failure(InvalidScoreFormat) <==>
      exists i :: 0 <= i < |raw| && raw[i].None?
  {
  }

  /** The length guard: a mismatch between scores and recovered words is always
      an error, never a partial selection. */
  lemma LengthMismatchIffCountsDiffer(raw: seq<Option<int>>, annotated: string)
    ensures Interpret(raw, annotated) == Failure(LengthMismatch) <==>
      (forall i :: 0 <= i < |raw| ==> raw[i].Some?) && |raw| != |RecoveredWords(annotated)|
  {
  }

  /** On success, the terms are exactly the recovered words scored below the
      threshold, in order, repeats kept. */
  lemma InterpretSelects(raw: seq<Option<int>>, annotated: string)
    requires Interpret(raw, annotated).Success?
    ensures var terms, words, idx :=
        Interpret(raw, annotated).value, RecoveredWords(annotated), BelowFrom(CoerceScores(raw).value, 0);
      && |raw| == |words|
      && |terms| == |idx|
      && (forall k :: 0 <= k < |idx| ==> terms[k] == words[idx[k]])
      && (forall i: nat :: i < |raw| ==> (i in idx <==> raw[i].value < Threshold))
      && (forall k, l :: 0 <= k < l < |idx| ==> idx[k] < idx[l])
  {
    SelectionExact(RecoveredWords(annotated), CoerceScores(raw).value);
  }

  // ---------------------------------------------------------------------------
  // The clarification request.

  const FeedbackPrefix := "The user did not fully understand the following terms: "
  const FeedbackSuffix := ". Please explain these terms."

  /** The content of the user turn that asks for the explanation. */
  function FeedbackMessage(terms: seq<string>): string
  {
    FeedbackPrefix + JoinWith(", ", terms) + FeedbackSuffix
  }

  /** The terms as the message's words show them: a comma after each but the
      last, a full stop after the last. */
  function Punctuated(terms: seq<string>): (listed: seq<string>)
    ensures |listed| == |terms|
  {
    seq(|terms|, i requires 0 <= i < |terms| => if i < |terms| - 1 then terms[i] + "," else terms[i] + ".")
  }

  lemma {:induction false} PunctuatedJoin(terms: seq<string>)
    requires terms != []
    ensures JoinWith(" ", Punctuated(terms)) == JoinWith(", ", terms) + "."
    decreases |terms|
  {
    if |terms| > 1 {
      var p := Punctuated(terms);
      assert p[1..] == Punctuated(terms[1..]);
      PunctuatedJoin(terms[1..]);
    }
  }

  lemma PunctuatedWords(terms: seq<string>)
    requires AllWords(terms)
    ensures AllWords(Punctuated(terms))
  {
    forall i | 0 <= i < |terms| ensures IsWord(Punctuated(terms)[i]) {
      assert NoSpace(",") && NoSpace(".");
      NoSpaceConcat(terms[i], ",");
      NoSpaceConcat(terms[i], ".");
    }
  }

  lemma FixedTextEnds()
    ensures FeedbackPrefix[|FeedbackPrefix| - 1] == ' '
    ensures FeedbackSuffix[0] == '.' && FeedbackSuffix[1] == ' '
  {
  }

  lemma MessageRegrouped(p: string, m: string, s: string)
    requires s != []
    ensures p + m + s == p + ((m + [s[0]]) + s[1..])
  {
    assert s == [s[0]] + s[1..];
  }

  /**
    The message names every term, in order and with repeats: its words are the
    words of the fixed opening, then each term with a comma (the last with the
    full stop that begins the suffix), then the words of the closing request.
   */
  lemma FeedbackMessageWords(terms: seq<string>)
    requires terms != [] && AllWords(terms)
    ensures Split(FeedbackMessage(terms)) ==
      Split(FeedbackPrefix) + Punctuated(terms) + Split(FeedbackSuffix[1..])
  {
    FixedTextEnds();
    var listed := JoinWith(", ", terms) + ".";
    var closing := FeedbackSuffix[1..];
    MessageRegrouped(FeedbackPrefix, JoinWith(", ", terms), FeedbackSuffix);
    PunctuatedJoin(terms);
    PunctuatedWords(terms);
    SplitJoinSpaces(Punctuated(terms));
    SplitAppend(FeedbackPrefix, listed + closing);
    SplitAppend(listed, closing);
  }

  /** Stripping a suffix never leaves an empty word or adds whitespace. */
  lemma StripTimestampIsWord(token: string)
    requires IsWord(token)
    ensures IsWord(StripTimestamp(token))
  {
    var w := StripTimestamp(token);
    if HasTimestamp(token) {
      forall i | 0 <= i < |w| ensures !IsSpace(w[i]) {
        assert w[i] == token[i];
      }
    }
  }

  /** Every selected term is a word of the annotated text, stripped: non-empty
      and without whitespace. */
  lemma SelectedTermsAreWords(raw: seq<Option<int>>, annotated: string)
    requires Interpret(raw, annotated).Success?
    ensures AllWords(Interpret(raw, annotated).value)
  {
    var words := RecoveredWords(annotated);
    forall i | 0 <= i < |words| ensures IsWord(words[i]) {
      StripTimestampIsWord(Split(annotated)[i]);
    }
    InterpretSelects(raw, annotated);
  }

  // ---------------------------------------------------------------------------
  // Round trip between the aligner and the interpreter.

  /** The digits of a timestamp are one whole digit run, and no `[` follows `word`. */
  lemma SuffixLayout(word: string, d: string)
    requires d != [] && forall i :: 0 <= i < |d| ==> IsDigit(d[i])
    ensures var tok := word + "[" + d + "ms]";
      && DigitRun(tok, |word| + 1) == |d|
      && forall k :: |word| < k < |tok| ==> tok[k] != '['
  {
    var tok := word + "[" + d + "ms]";
    var L := |word|;
    forall i | 0 <= i < |d| ensures tok[L + 1 + i] == d[i] {
    }
    assert tok[L + 1 + |d|..] == "ms]";
    assert !IsDigit(tok[L + 1 + |d|]);
    forall k | L < k < |tok| ensures tok[k] != '[' {
      if k < L + 1 + |d| {
        assert tok[k] == d[k - L - 1];
      } else {
        assert tok[k] == "ms]"[k - L - 1 - |d|];
      }
    }
  }

  /** The regular expression finds the aligner's own suffix, and no later one. */
  lemma TimestampedMatches(word: string, time: int)
    requires IsWord(word) && time >= 0
    ensures MatchesAt(Timestamped(word, time), |word|)
    ensures forall k: nat :: MatchesAt(Timestamped(word, time), k) ==> k <= |word|
  {
    var d := NatToString(time);
    var tok := Timestamped(word, time);
    var L := |word|;
    assert tok == word + "[" + d + "ms]";
    SuffixLayout(word, d);
    assert tok[..L] == word;
    assert NoNewline(tok[..L]) by {
      forall i | 0 <= i < L ensures tok[..L][i] != '\n' {
        assert !IsSpace(word[i]);
      }
    }
    assert tok[L] == '[';
    assert tok[L + 1 + |d|..L + 4 + |d|] == "ms]";
  }

  /** Stripping a token the aligner timestamped recovers the word, whatever the
      word contains. */
  lemma StripTimestamped(word: string, time: int)
    requires IsWord(word) && time >= 0
    ensures StripTimestamp(Timestamped(word, time)) == word
  {
    TimestampedMatches(word, time);
    var tok := Timestamped(word, time);
    assert tok[..|word|] == word;
  }

  /**
    Recovering the words of an annotated text: a timestamped word comes back as
    it was; a bare word comes back as the regular expression leaves it.
   */
  lemma RecoveredAnnotated(text: string, marks: seq<SpeechMark>)
    requires forall k :: 0 <= k < |marks| ==> marks[k].time >= 0
    ensures |RecoveredWords(Annotate(text, marks))| == |Split(text)|
    ensures forall i :: 0 <= i < |Split(text)| ==>
      RecoveredWords(Annotate(text, marks))[i] ==
        if i < |marks| then Split(text)[i] else StripTimestamp(Split(text)[i])
  {
    AnnotateShape(text, marks);
    var words := Split(text);
    forall i | 0 <= i < |words| && i < |marks|
      ensures StripTimestamp(Tokens(words, marks)[i]) == words[i]
    {
      StripTimestamped(words[i], marks[i].time);
    }
  }

  /**
    Round trip: when no bare word looks timestamped to the regular expression,
    stripping the annotation recovers the text's words exactly, for any marks
    (an empty sequence included).
   */
  lemma RoundTrip(text: string, marks: seq<SpeechMark>)
    requires forall k :: 0 <= k < |marks| ==> marks[k].time >= 0
    requires forall i :: |marks| <= i < |Split(text)| ==> !HasTimestamp(Split(text)[i])
    ensures RecoveredWords(Annotate(text, marks)) == Split(text)
  {
    RecoveredAnnotated(text, marks);
  }

  /**
    The timing bound as the interpreter sees it: when no word of the text looks
    timestamped, token i of the annotation carries a timestamp exactly when
    there is a mark i.
   */
  lemma TimestampIffMarked(text: string, marks: seq<SpeechMark>, i: nat)
    requires forall k :: 0 <= k < |marks| ==> marks[k].time >= 0
    requires forall j :: |marks| <= j < |Split(text)| ==> !HasTimestamp(Split(text)[j])
    requires i < |Split(text)|
    ensures |Split(Annotate(text, marks))| == |Split(text)|
    ensures HasTimestamp(Split(Annotate(text, marks))[i]) <==> i < |marks|
  {
    AnnotateShape(text, marks);
    var words := Split(text);
    if i < |marks| {
      TimestampedMatches(words[i], marks[i].time);
    }
  }

  // ---------------------------------------------------------------------------
  // Concrete cases.

  /** A token that is only a suffix stays as it is: `.+` needs one character. */
  lemma SuffixAloneKept()
    ensures StripTimestamp("[5ms]") == "[5ms]"
  {
    forall j: nat ensures !MatchesAt("[5ms]", j) {
      if 1 <= j < 5 {
        assert "[5ms]"[j] != '[';
      }
    }
  }

  /** What follows the suffix is dropped: the match is anchored only at the start. */
  lemma TrailingTextDropped()
    ensures StripTimestamp("x[1ms].") == "x"
  {
    var tok := "x[1ms].";
    assert DigitRun(tok, 2) == 1 by {
      assert DigitRun(tok, 3) == 0;
    }
    assert MatchesAt(tok, 1);
    forall j: nat | 1 < j ensures !MatchesAt(tok, j) {
      if j < 7 {
        assert tok[j] != '[';
      }
    }
  }

  /** With two suffixes the greedy `.+` keeps the first inside the word. */
  lemma LastSuffixStripped()
    ensures StripTimestamp("a[1ms][2ms]") == "a[1ms]"
  {
    var tok := "a[1ms][2ms]";
    assert DigitRun(tok, 7) == 1 by {
      assert DigitRun(tok, 8) == 0;
    }
    assert MatchesAt(tok, 6);
    forall j: nat | 6 < j ensures !MatchesAt(tok, j) {
      if j < 11 {
        assert tok[j] != '[';
      }
    }
  }
}
