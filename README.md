# Word-timestamp annotation and comprehension feedback

This project models the core of a spoken-language tutoring chat server, `app.py`, in Dafny and proves properties of that model. The server sends the conversation to a chat model. It turns the model's answer into speech with word-level speech marks. It then returns the answer as an *annotated text*, in which word `i` is written `word[<time>ms]` when speech mark `i` exists and bare otherwise.

The client sends back one comprehension score per word, together with the annotated text. The server then does the following:

1. It recovers the words by stripping the timestamp suffixes.
2. It checks the score count against the word count.
3. It picks the words scored below 10.
4. It asks the model to explain them.
5. It returns the explanation, annotated in the same way.

Both request handlers append to one global conversation history, one directly and one through the `process_comprehension_feedback` helper. The history is seeded with a system turn.

Modules:

- `Wrappers`: `Option` (Python's `None`) and `Result`.
- `Text`: the Python string primitives the code relies on. These are `str.split()`, `sep.join`, `str.strip()` and `str(int)`. Whitespace is the set of characters for which `str.isspace()` holds. The lemmas relate split, join and strip.
- `Aligner`: `add_timestamps_to_text`.
  - The method keeps the source's accumulate-then-strip loop.
  - It is proved equal to the function `Annotate`, which the properties are stated about.
- `Interpreter`: the pure steps of `process_comprehension_feedback`.
  - Score coercion and the regular expression `(.+)\[\d+ms\]` applied with `re.match`. There is a suffix-stripping loop as a method.
  - The length guard, the threshold selection and the feedback message.
  - The round trip with the aligner.
- `Scenarios`: worked cases. Most are on "hello world" with one mark at 100 ms. `NonNumericScoresRejected` holds for any text, and `BareSuffixStripped` and `TimestampLikeWordLost` are about the token "a[1ms]".
- `Dialogue`: the history, the two handlers and the `process_comprehension_feedback` helper they share.
  - The history is a class with a `seq` field and an `Append` method.
  - `get_response`, `submit_comprehension_feedback` and the helper `process_comprehension_feedback` (called at app.py line 99) are methods that change the history.
  - Each method is proved equal to a pure transition function. The growth properties are lemmas about those functions.
  - `Serve` and its lemma cover a sequence of requests.

The chat model and the speech service are passed in as functions:

- `generate: seq<Turn> -> Option<string>` is `get_chatgpt_response`: an answer for the conversation so far, or a failure.
- `synthesize: string -> Option<Speech>` is `text_to_speech`: audio (itself optional) and word speech marks, or a failure.

Behaviour that may be unexpected:

- **Match anchoring.** `re.match` anchors only at the start of the token. So `x[1ms].` becomes `x`: any text after the suffix is dropped.
- **Round trip.** Stripping does not always give back a bare word. A bare word that itself looks timestamped comes back shortened (`Scenarios.TimestampLikeWordLost`), so the round trip holds only for words that do not look timestamped.

## Model

| member | source | states |
|---|---|---|
| Text.Split | app.py:247 | every piece `str.split()` returns is non-empty and free of whitespace |
| Text.JoinWith | app.py:255 | definition of `sep.join`; properties in rows Text.SplitJoinSpaces, Text.JoinSpacesCanonical and Interpreter.PunctuatedJoin |
| Text.Strip | app.py:255 | definition of `str.strip()`; properties in row Text.JoinSpacesCanonical |
| Text.IntToString | app.py:252 | `str(n)` is non-empty and whitespace-free, made of digits and minus signs only, and for `n >= 0` is exactly the decimal digits of `n` |
| Text.SplitJoinSpaces | app.py:255 | splitting a single-space join of words gives back exactly those words |
| Text.JoinSpacesCanonical | app.py:255 | a single-space join of words is empty only for no words, has no whitespace at either end, and is unchanged by `strip()` and by re-joining its split |
| Aligner.Annotate | app.py:246-255 | definition of the aligner's result; properties in rows Aligner.AddTimestampsToText, Aligner.AnnotateShape, Aligner.TimingBound, Aligner.AnnotateWithoutMarks, Aligner.AnnotateIgnoresMarkWords and Aligner.AnnotateIgnoresExtraMarks |
| Aligner.AddTimestampsToText | app.py:246-255 | the accumulate-and-strip loop returns `Annotate(text, marks)`: the tokens of the split text joined by single spaces, with no trailing space |
| Aligner.Timestamped | app.py:252 | definition of the f-string `word[<time>ms]`; properties in rows Aligner.TimestampedIsWord, Interpreter.TimestampedMatches and Interpreter.StripTimestamped |
| Aligner.TimestampedIsWord | app.py:252 | a word with a `[<time>ms]` suffix is still one whitespace-free token |
| Aligner.AnnotateShape | app.py:247-255 | the output splits into exactly one token per input word, in order. It is single-space joined with no whitespace at either end, and is empty exactly when the text has no words |
| Aligner.TimingBound | app.py:249-254 | token `i` is `word[<time of mark i>ms]` when `i < len(speech_marks)` and the bare word otherwise; no timing is fabricated |
| Aligner.AnnotateWithoutMarks | app.py:253-254 | with no speech marks every word is bare |
| Aligner.AnnotateIgnoresMarkWords | app.py:251 | words and marks are paired by position only: two mark lists with the same times give the same output whatever their `word` fields |
| Aligner.AnnotateIgnoresExtraMarks | app.py:250 | marks beyond the last word are never used |
| Aligner.HelloWorldExample | app.py:246-255 | "hello world" with one mark at 100 gives "hello[100ms] world" |
| Interpreter.DigitRun | app.py:122 | the length of the digit run at a position: all digits, and no digit right after it |
| Interpreter.MatchesAt | app.py:122 | definition: group 1 can end at position `j`, after a non-empty, newline-free prefix followed by `[`, ASCII digits and `ms]`; properties in rows Interpreter.LastMatch and Interpreter.StripTimestamp |
| Interpreter.HasTimestamp | app.py:122 | definition: `re.match` succeeds on the token; properties in rows Interpreter.TimestampedMatches, Interpreter.TimestampIffMarked and Scenarios.WorldUnmarked |
| Interpreter.LastMatch | app.py:122 | the largest position below a bound where the pattern can end group 1, or None when there is none |
| Interpreter.StripTimestamp | app.py:122-126 | on a match, the word is the longest non-empty, newline-free prefix followed by `[`, digits and `ms]` (the greedy `.+`); without a match, the token unchanged |
| Interpreter.RecoveredWords | app.py:119-126 | the recovered list has one word per whitespace token; further properties in rows Interpreter.RemoveTimestamps, Interpreter.RecoveredAnnotated and Interpreter.RoundTrip |
| Interpreter.RemoveTimestamps | app.py:119-126 | the stripping loop yields one recovered word per whitespace token, in order |
| Interpreter.CoerceScores | app.py:112-116 | coercion succeeds exactly when every entry converts, and then keeps length and values |
| Interpreter.BelowFrom | app.py:138 | every listed index is in range and has a score below 10 |
| Interpreter.BelowFromComplete | app.py:138 | every index with a score below 10 is listed |
| Interpreter.BelowFromIncreasing | app.py:138 | the listed indices increase strictly |
| Interpreter.SelectBelow | app.py:138 | definition of the list comprehension; properties in rows Interpreter.SelectFromIndexed, Interpreter.SelectionExact and Interpreter.SelectionEmpty |
| Interpreter.SelectFromIndexed | app.py:138 | the selected words are the words at the listed indices |
| Interpreter.SelectionExact | app.py:138 | the selection is `words[i]` for exactly the indices with score below 10, increasing, one entry per index (repeats kept) |
| Interpreter.SelectionEmpty | app.py:138-140 | nothing is selected exactly when every score is at least 10 |
| Interpreter.Interpret | app.py:112-138 | definition of the steps before the explanation, with both `None` exits as errors; properties in rows Interpreter.InvalidScoreIffUnparsable, Interpreter.LengthMismatchIffCountsDiffer and Interpreter.InterpretSelects |
| Interpreter.InvalidScoreIffUnparsable | app.py:112-116 | the invalid-score outcome occurs exactly when some entry fails to convert |
| Interpreter.LengthMismatchIffCountsDiffer | app.py:133-135 | the length-mismatch outcome occurs exactly when all scores convert and their count differs from the recovered word count |
| Interpreter.InterpretSelects | app.py:110-138 | on success the terms are the recovered words scored below 10, in order, and the counts agree |
| Interpreter.FeedbackMessage | app.py:142 | definition of the feedback message; properties in rows Interpreter.PunctuatedJoin, Interpreter.FeedbackMessageWords and Dialogue.FeedbackRequestNamesTerms |
| Interpreter.PunctuatedJoin | app.py:142 | `", ".join(terms) + "."` is the single-space join of the terms with commas and the final full stop attached |
| Interpreter.FeedbackMessageWords | app.py:142 | the message's words are the opening's words, each term with a comma (the last with a full stop), then the closing request's words |
| Interpreter.StripTimestampIsWord | app.py:122-126 | stripping a token never leaves an empty word or adds whitespace |
| Interpreter.SelectedTermsAreWords | app.py:119-138 | every selected term is a non-empty, whitespace-free word |
| Interpreter.TimestampedMatches | app.py:122 | for a time of at least 0, the pattern matches the aligner's own suffix at the word's end and nowhere later |
| Interpreter.StripTimestamped | app.py:122-124 | for a time of at least 0, stripping a token the aligner timestamped returns the word, whatever the word contains |
| Interpreter.RecoveredAnnotated | app.py:119-126 | for mark times of at least 0, the words recovered from an annotation: timestamped words come back unchanged, bare words as the pattern leaves them |
| Interpreter.RoundTrip | app.py:119-126 | when every mark time is at least 0 and no bare word looks timestamped, stripping the annotation recovers the text's split exactly, for any number of marks including none |
| Interpreter.TimestampIffMarked | app.py:122 | when every mark time is at least 0 and no word of the text beyond the marks looks timestamped, token `i` of the annotation matches the pattern exactly when mark `i` exists |
| Interpreter.SuffixAloneKept | app.py:122-126 | "[5ms]" is kept verbatim, since `.+` needs a character |
| Interpreter.TrailingTextDropped | app.py:122-124 | "x[1ms]." becomes "x": what follows the suffix is dropped |
| Interpreter.LastSuffixStripped | app.py:122-124 | "a[1ms][2ms]" becomes "a[1ms]": greedy group 1 keeps the earlier suffix |
| Scenarios.WorldUnmarked | app.py:122 | the pattern does not match "world" |
| Scenarios.ScoresTenFiveCoerced | app.py:113 | the scores 10 and 5 coerce to [10, 5] |
| Scenarios.HelloWorldWordsRecovered | app.py:119-126 | the annotation of "hello world" with one mark of time at least 0 strips back to "hello", "world" |
| Scenarios.HelloWorldSelectsWorld | app.py:138 | scores [10, 5] on that annotation select "world" alone |
| Scenarios.HelloWorldFeedback | app.py:110-138 | "hello[100ms] world" with scores [10, 5] selects "world" |
| Scenarios.NonNumericScoresRejected | app.py:112-116 | scores that do not convert give the invalid-score outcome for any text |
| Scenarios.ThreeScoresTwoWordsRejected | app.py:133-135 | three scores against a two-word annotation give the length-mismatch outcome |
| Scenarios.BareSuffixStripped | app.py:122-124 | "a[1ms]" strips to "a" |
| Scenarios.TimestampLikeWordLost | app.py:122-126 | a bare word "a[1ms]" does not survive the round trip and comes back as "a" |
| Dialogue.ConversationHistory.constructor | app.py:39-48 | the history starts as the single system turn |
| Dialogue.ConversationHistory.Append | app.py:60 | appending adds exactly the one turn at the end |
| Dialogue.PrimaryTurn | app.py:55-87 | definition of one `get_response` call on the history; properties in rows Dialogue.GetResponse, Dialogue.PrimaryGrowth, Dialogue.PrimaryErrors and Dialogue.PrimaryReplyRoundTrip |
| Dialogue.FeedbackTurn | app.py:110-180 | definition of one `process_comprehension_feedback` call, including the synthesis fallback to no audio and no marks; properties in rows Dialogue.ProcessComprehensionFeedback, Dialogue.FeedbackUnchangedIff, Dialogue.FeedbackGrowth, Dialogue.FeedbackRequestNamesTerms and Dialogue.FeedbackExplanation |
| Dialogue.GetResponse | app.py:55-87 | the handler's reply and new history are those of `PrimaryTurn`, and the system turn stays first |
| Dialogue.ProcessComprehensionFeedback | app.py:110-180 | the result and new history are those of `FeedbackTurn`, and the system turn stays first |
| Dialogue.SubmitComprehensionFeedback | app.py:90-108 | the reply is the folded result of the feedback turn, whose history it leaves |
| Dialogue.FeedbackResponse | app.py:101-108 | the status is always "success"; the explanation is null exactly when there is no result, and the audio is null then |
| Dialogue.PrimaryGrowth | app.py:60-70 | the user turn is appended and stays if generation fails; on success the answer is appended after it, so a synthesis failure leaves both |
| Dialogue.PrimaryErrors | app.py:63-77 | the generation error occurs exactly when generation fails, and the synthesis error exactly when generation succeeds and synthesis fails. A reply is given exactly when two turns were added and synthesis succeeded |
| Dialogue.PrimaryReplyRoundTrip | app.py:70-82 | when every mark time is at least 0 and no bare word of the answer looks timestamped, stripping the reply's timestamps gives the words of the answer stored as the last turn |
| Dialogue.FeedbackUnchangedIff | app.py:112-140 | the history is unchanged exactly when the scores do not convert, the counts differ or nothing scores below 10, and then there is no result |
| Dialogue.FeedbackGrowth | app.py:147-159 | with terms to explain, exactly one user turn is added, then the answer if generation succeeds; a result is given exactly when it does |
| Dialogue.FeedbackRequestNamesTerms | app.py:142-147 | the added user turn's words name every selected term in order, with the fixed opening and closing words |
| Dialogue.FeedbackExplanation | app.py:162-176 | the explanation is the annotation of the stored answer with the synthesized marks and audio. When synthesis fails there is no audio and every word is bare |
| Dialogue.RequestAppends | app.py:55-180 | one request adds at most two turns and changes none of the earlier ones |
| Dialogue.Serve | app.py:55-180 | definition of the history after a sequence of requests to the two handlers; properties in row Dialogue.ServeAppendOnly |
| Dialogue.ServeAppendOnly | app.py:39-48 | over any sequence of requests the history only grows (at most two turns per request), earlier turns stay in place, and the system turn stays first |

## Left out

- Flask routing, `request.get_json`, `jsonify`, `render_template`, HTTP status codes and app start-up are out. They are web plumbing; an error reply is `ServerError` with the source's message.
- The OpenAI call (`get_chatgpt_response`) and the Polly calls (`text_to_speech`) are out: foreign services.
  - This covers the JSON-lines decoding of speech marks and the base64 encoding of audio.
  - They are the oracles `generate` and `synthesize`. Each call is a fixed function of its input, so randomness in the model is not captured.
  - `text_to_speech` already catches its own service errors. A failure of the whole call is still modelled, because both handlers guard for it.
- Environment and credential loading, and the API-key check, are out: configuration I/O.
- Logging is out. It has no behavioural content.
- Python's `int()` on arbitrary JSON values is out. Each raw score is the outcome of that conversion, as an `Option<int>`. The conversion's own rules (signs, whitespace, floats) are not modelled.
- A score of `None` raises `TypeError`, which `except ValueError` does not catch: the request fails with an unhandled exception. This is outside the model, because raw scores are converted already.
- Missing JSON fields are out; inputs are strings and score lists. An absent `user_input` or `assistant_response` is None. An absent `word_comprehension` is None too, and `for c in None` at app.py line 113 then raises `TypeError`, which `except ValueError` does not catch.
- `\d` is modelled as the ASCII digits only. Python also accepts other Unicode decimal digits there.
- Concurrent requests on the global history are out. The model serves requests one after another (`Serve`).
- Speech marks are reduced to the `word` and `time` fields. Only `time` is read, after the service's own filtering of marks of type `word`.
- Interpreter.RoundTrip: stated only for non-negative mark times. A negative time renders with a minus sign, which `\d+` does not match, so such a suffix would stay on the word. It is also stated only for bare words that do not look timestamped, because such a word comes back shortened (`Scenarios.TimestampLikeWordLost`).
- Interpreter.TimestampedMatches: stated only for times of at least 0. With a negative time the aligner's suffix, such as `[-5ms]`, does not match the pattern.
- Interpreter.StripTimestamped: stated only for times of at least 0. With a negative time the suffix does not match, so it stays on the word.
- Interpreter.TimestampIffMarked: stated only for mark times of at least 0, and for texts whose words beyond the last mark (those left bare) do not look timestamped. Otherwise a marked token can fail to match, or a bare one can match.
- Interpreter.RecoveredAnnotated: stated only for mark times of at least 0. A negative time renders as `[-5ms]`, say, and `\d+` does not match the `-`, so such a timestamped word comes back with its suffix.
- Scenarios.HelloWorldWordsRecovered: stated only for a mark time of at least 0, for the same reason: with a negative time, "hello" comes back with its suffix.
- Dialogue.PrimaryReplyRoundTrip: stated only for mark times of at least 0, and for answers whose bare words do not look timestamped, for the same reasons as Interpreter.RoundTrip.
