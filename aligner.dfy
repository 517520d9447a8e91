/**
  The timestamp aligner `add_timestamps_to_text` of app.py: word i of the text is
  paired with speech mark i by position alone and rendered as `word[<time>ms]`;
  words beyond the last mark are rendered bare; the tokens are joined by single
  spaces.
 */
module Aligner {
  import opened Text

  /** One word speech mark from the synthesis service. Only `time` is read. */
  datatype SpeechMark = SpeechMark(word: string, time: int)

  /** `f"{word}[{timestamp}ms]"`. */
  function Timestamped(word: string, time: int): string
  {
    word + "[" + IntToString(time) + "ms]"
  }

  /** The token the aligner emits for word i. */
  function Token(words: seq<string>, marks: seq<SpeechMark>, i: nat): string
    requires i < |words|
  {
    if i < |marks| then Timestamped(words[i], marks[i].time) else words[i]
  }

  function Tokens(words: seq<string>, marks: seq<SpeechMark>): (toks: seq<string>)
    ensures |toks| == |words|
  {
    seq(|words|, i requires 0 <= i < |words| => Token(words, marks, i))
  }

  /** The annotated text: the tokens of the split text, single-space joined. */
  function Annotate(text: string, marks: seq<SpeechMark>): string
  {
    JoinWith(" ", Tokens(Split(text), marks))
  }

  /** A timestamped word is still a word: the suffix holds no whitespace. */
  lemma TimestampedIsWord(word: string, time: int)
    requires IsWord(word)
    ensures IsWord(Timestamped(word, time))
  {
    var d := IntToString(time);
    assert NoSpace("[") && NoSpace("ms]");
    NoSpaceConcat(word, "[");
    NoSpaceConcat(word + "[", d);
    NoSpaceConcat(word + "[" + d, "ms]");
  }

  lemma TokensAreWords(words: seq<string>, marks: seq<SpeechMark>)
    requires AllWords(words)
    ensures AllWords(Tokens(words, marks))
  {
    forall i | 0 <= i < |words| ensures IsWord(Tokens(words, marks)[i]) {
      if i < |marks| {
        TimestampedIsWord(words[i], marks[i].time);
      }
    }
  }

  /** One loop step: appending token i and a space to the accumulated prefix. */
  lemma AccumulateToken(toks: seq<string>, i: nat, acc: string)
    requires i < |toks|
    requires acc == if i == 0 then "" else JoinWith(" ", toks[..i]) + " "
    ensures acc + (toks[i] + " ") == JoinWith(" ", toks[..i + 1]) + " "
  {
    assert toks[..i + 1] == toks[..i] + [toks[i]];
    if i > 0 {
      JoinWithAppend(" ", toks[..i], toks[i]);
    } else {
      assert toks[..1] == [toks[0]];
    }
  }

  /** After the loop: stripping the accumulated text removes the one trailing space. */
  lemma StripAccumulated(toks: seq<string>, acc: string)
    requires AllWords(toks)
    requires acc == if |toks| == 0 then "" else JoinWith(" ", toks) + " "
    ensures Strip(acc) == JoinWith(" ", toks)
  {
    if |toks| > 0 {
      StripTrailingSpace(toks);
    }
  }

  /** The string one loop iteration appends is the word's token and a space. */
  lemma PieceIsToken(words: seq<string>, marks: seq<SpeechMark>, i: nat)
    requires i < |words|
    ensures i < |marks| ==> words[i] + "[" + IntToString(marks[i].time) + "ms] " == Token(words, marks, i) + " "
    ensures i >= |marks| ==> words[i] + " " == Token(words, marks, i) + " "
  {
  }

  /**
    `add_timestamps_to_text`: accumulates `token + " "` per word, then strips the
    result.
   */
  method AddTimestampsToText(text: string, speechMarks: seq<SpeechMark>) returns (r: string)
    ensures r == Annotate(text, speechMarks)
  {
    var words := Split(text);
    ghost var toks := Tokens(words, speechMarks);
    TokensAreWords(words, speechMarks);
    var acc := "";
    for i := 0 to |words|
      invariant acc == if i == 0 then "" else JoinWith(" ", toks[..i]) + " "
    {
      var piece: string;
      if i < |speechMarks| {
        var timestamp := speechMarks[i].time;
        piece := words[i] + "[" + IntToString(timestamp) + "ms] ";
      } else {
        piece := words[i] + " ";
      }
      PieceIsToken(words, speechMarks, i);
      AccumulateToken(toks, i, acc);
      acc := acc + piece;
    }
    assert toks[..|words|] == toks;
    StripAccumulated(toks, acc);
    r := Strip(acc);
  }

  // ---------------------------------------------------------------------------
  // Properties of the annotated text.

  /** Shape: one token per word of the text, in order, single-space joined,
      no whitespace at either end; an empty (or all-whitespace) text gives "". */
  lemma AnnotateShape(text: string, marks: seq<SpeechMark>)
    ensures Split(Annotate(text, marks)) == Tokens(Split(text), marks)
    ensures |Split(Annotate(text, marks))| == |Split(text)|
    ensures Annotate(text, marks) == [] <==> Split(text) == []
    ensures var a := Annotate(text, marks);
      a != [] ==> !IsSpace(a[0]) && !IsSpace(a[|a| - 1])
    ensures JoinWith(" ", Split(Annotate(text, marks))) == Annotate(text, marks)
  {
    TokensAreWords(Split(text), marks);
    SplitJoinSpaces(Tokens(Split(text), marks));
    JoinSpacesCanonical(Tokens(Split(text), marks));
  }

  /** Timing bound: word i carries the time of mark i when there is a mark i,
      and is bare otherwise; no timing is fabricated. */
  lemma TimingBound(text: string, marks: seq<SpeechMark>, i: nat)
    requires i < |Split(text)|
    ensures |Split(Annotate(text, marks))| == |Split(text)|
    ensures var tok := Split(Annotate(text, marks))[i];
      && (i < |marks| ==> tok == Split(text)[i] + "[" + IntToString(marks[i].time) + "ms]")
      && (i >= |marks| ==> tok == Split(text)[i])
  {
    AnnotateShape(text, marks);
  }

  /** Without speech marks every word is bare: the annotation is the text's
      words, single-space joined. */
  lemma AnnotateWithoutMarks(text: string)
    ensures Annotate(text, []) == JoinWith(" ", Split(text))
  {
    assert Tokens(Split(text), []) == Split(text);
  }

  /** Positional trust: the words recorded in the marks play no part; only how
      many marks there are and their times matter. */
  lemma AnnotateIgnoresMarkWords(text: string, m1: seq<SpeechMark>, m2: seq<SpeechMark>)
    requires |m1| == |m2|
    requires forall k :: 0 <= k < |m1| ==> m1[k].time == m2[k].time
    ensures Annotate(text, m1) == Annotate(text, m2)
  {
    assert Tokens(Split(text), m1) == Tokens(Split(text), m2);
  }

  /** Marks beyond the text's last word are never used. */
  lemma AnnotateIgnoresExtraMarks(text: string, marks: seq<SpeechMark>)
    requires |Split(text)| <= |marks|
    ensures Annotate(text, marks) == Annotate(text, marks[..|Split(text)|])
  {
    assert Tokens(Split(text), marks) == Tokens(Split(text), marks[..|Split(text)|]);
  }

  lemma HelloSplit() ensures Split("hello world") == ["hello", "world"] {
    var words := ["hello", "world"];
    assert IsWord(words[0]) && IsWord(words[1]);
    assert JoinWith(" ", words) == "hello world";
    SplitJoinSpaces(words);
  }
  lemma HelloTokens() ensures Tokens(["hello", "world"], [SpeechMark("hello", 100)]) == ["hello[100ms]", "world"] {
    assert NatToString(100) == "100" by {
      assert NatToString(1) == "1";
      assert NatToString(10) == "10";
    }
    var toks := Tokens(["hello", "world"], [SpeechMark("hello", 100)]);
    assert toks[0] == "hello[100ms]";
  }
  lemma HelloJoin() ensures JoinWith(" ", ["hello[100ms]", "world"]) == "hello[100ms] world" {}
  lemma HelloWorldExample()
    ensures Annotate("hello world", [SpeechMark("hello", 100)]) == "hello[100ms] world"
  {
    HelloSplit(); HelloTokens(); HelloJoin();
  }
}
