/**
  Worked cases of the aligner and the interpreter together, on the text
  "hello world" with one speech mark at 100 ms.
 */
module Scenarios {
  import opened Wrappers
  import opened Text
  import opened Aligner
  import opened Interpreter

  /** "world" holds no `[`, so the regular expression finds nothing in it. */
  lemma WorldUnmarked(w: string)
    requires w == "world"
    ensures !HasTimestamp(w)
  {
    forall j: nat ensures !MatchesAt(w, j) {
      if j < 5 {
        assert w[j] != '[';
      }
    }
  }

  lemma ScoresTenFiveCoerced()
    ensures CoerceScores([Some(10), Some(5)]) == Some([10, 5])
  {
    var raw := [Some(10), Some(5)];
    var c := CoerceScores(raw);
    assert raw[0].Some? && raw[1].Some?;
    assert c.value == [c.value[0], c.value[1]];
  }

  /** The annotation of "hello world" with one mark strips back to its two words. */
  lemma HelloWorldWordsRecovered(text: string, marks: seq<SpeechMark>)
    requires Split(text) == ["hello", "world"]
    requires |marks| == 1 && marks[0].time >= 0
    ensures RecoveredWords(Annotate(text, marks)) == ["hello", "world"]
  {
    WorldUnmarked(Split(text)[1]);
    RoundTrip(text, marks);
  }

  /** Scores [10, 5] against that annotation select "world" alone. */
  lemma HelloWorldSelectsWorld(text: string, marks: seq<SpeechMark>)
    requires Split(text) == ["hello", "world"]
    requires |marks| == 1 && marks[0].time >= 0
    ensures Interpret([Some(10), Some(5)], Annotate(text, marks)) == Success(["world"])
  {
    HelloWorldWordsRecovered(text, marks);
    ScoresTenFiveCoerced();
    assert SelectBelow(["hello", "world"], [10, 5]) == ["world"];
  }

  /** The scenario "hello[100ms] world" scored [10, 5] selects "world". */
  lemma HelloWorldFeedback()
    ensures Interpret([Some(10), Some(5)], "hello[100ms] world") == Success(["world"])
  {
    HelloWorldExample();
    HelloSplit();
    HelloWorldSelectsWorld("hello world", [SpeechMark("hello", 100)]);
  }

  /** Non-numeric scores give no interpretation at all. */
  lemma NonNumericScoresRejected(annotated: string)
    ensures Interpret([None, None], annotated) == Failure(InvalidScoreFormat)
  {
  }

  /** Three scores against the two words of the annotation is a length mismatch. */
  lemma ThreeScoresTwoWordsRejected(text: string, marks: seq<SpeechMark>, a: int, b: int, c: int)
    requires Split(text) == ["hello", "world"]
    ensures Interpret([Some(a), Some(b), Some(c)], Annotate(text, marks)) == Failure(LengthMismatch)
  {
    AnnotateShape(text, marks);
  }

  lemma BareSuffixStripped(w: string)
    requires w == "a[1ms]"
    ensures StripTimestamp(w) == "a"
  {
    assert DigitRun(w, 2) == 1 by {
      assert DigitRun(w, 3) == 0;
    }
    assert MatchesAt(w, 1);
    forall j: nat | 1 < j ensures !MatchesAt(w, j) {
      if j < 6 {
        assert w[j] != '[';
      }
    }
  }

  /** The round trip needs words that do not look timestamped: a bare word
      "a[1ms]" in the reply comes back as "a". */
  lemma TimestampLikeWordLost(text: string)
    requires Split(text) == ["a[1ms]"]
    ensures RecoveredWords(Annotate(text, [])) == ["a"]
    ensures RecoveredWords(Annotate(text, [])) != Split(text)
  {
    RecoveredAnnotated(text, []);
    BareSuffixStripped(Split(text)[0]);
    var r := RecoveredWords(Annotate(text, []));
    assert r == [r[0]];
  }
}
