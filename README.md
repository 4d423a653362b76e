# Quiz bot model

A Dafny model of the core of `main.py` in generations_quiz_bot, a Telegram bot. The bot asks a
text-generation service for quiz questions on a chosen subject and difficulty, validates them, and
runs a quiz conversation.

The model has two parts.

- **Quiz builder** (`QuizBuilder.dfy`, with Python's `str.strip()` in `Text.dfy`) covers
  `process_generated_quizzes` and the `generate_quiz` wrapper around it.
  - The service's reply arrives as the value `json.loads` produced, or as undecodable.
  - Each element of the decoded list is classified: kept, skipped, or raises a Python exception
    (AttributeError, TypeError). The classification follows the code's `get` defaults, its
    short-circuiting validity test and its `[correct] + incorrect` concatenation.
  - Every kept record's four answers are shuffled in place on an array, using CPython's
    Fisher–Yates order. `list.index` then finds the first position of the correct answer.
  - An undecodable reply gives `[]`. So do a service error and any exception raised while
    building, both caught in `generate_quiz`.
- **Conversation** (`QuizBot.dfy`) is a class holding three tables:
  - every user's dialog context: window and `dialog_data`, one context per user;
  - `active_quizzes`;
  - `user_stats`.

  Its methods are the four button handlers: `on_subject_selected`, `on_difficulty_selected`,
  `on_answer_selected` and `on_finish`. Each one states the complete new state and the message it
  answers with. Each one keeps an invariant: every stored quiz list is non-empty and well-formed,
  and every user in the quiz window has a valid question index.

`Wrappers.dfy` holds `Option` and `Result`.

What `main.py` does and does not do:

- No Markdown code fences are stripped from the reply before decoding.
- An answer is scored by the pressed button's widget id (`correct` or `wrong`), not by comparing
  an option index with `correct_option_id`.
- No statistics are shown or created. Every button in the end window restarts the dialog.
- A KeyError from `user_stats[user_id]` escapes the answer handler (see Findings).

## Model

| member | source | states |
|---|---|---|
| Text.IsSpaceIff | main.py:86-87 | the characters `strip()` removes are exactly Python's `isspace()` set, listed one by one: TAB..CR, U+001C..U+001F, SPACE, U+0085, U+00A0, U+1680, U+2000..U+200A, U+2028, U+2029, U+202F, U+205F, U+3000 |
| Text.StripStartSpec | main.py:86-87 | what `StripStart(s)` drops from the front of `s` is all whitespace, what it keeps is a suffix of `s`, and the kept part starts with a non-space |
| Text.StripEndSpec | main.py:86-87 | what `StripEnd(s)` drops from the back of `s` is all whitespace, what it keeps is a prefix of `s`, and the kept part ends with a non-space |
| Text.Strip | main.py:86-87 | `s.strip()` is never longer than `s`; its meaning is given by the lemmas below |
| Text.StripIsSlice | main.py:86-87 | `s.strip()` is a contiguous slice of `s` with only whitespace on either side of it |
| Text.StripStripsBothEnds | main.py:86-87 | the result of `strip()` neither starts nor ends with whitespace |
| Text.StripEmptyIff | main.py:90 | `not s.strip()` holds exactly when `s` is all whitespace (both directions) |
| Text.StrippedIsFixed | main.py:86-87 | a string with no whitespace at either end is left unchanged by `strip()` |
| Text.StripIdempotent | main.py:86-87 | stripping twice gives the same as stripping once |
| Text.VisibleIsNotSpace | main.py:86-87 | visible ASCII and U+00A1..U+167F (Cyrillic included) are not in the `isspace()` set that `strip()` removes |
| QuizBuilder.Classify | main.py:85-96 | the verdict on one element; when it is kept, the record has a non-empty question, a non-empty correct answer and exactly three incorrect answers |
| QuizBuilder.ClassifyAcceptIff | main.py:86-92 | an object is kept exactly when question and correct answer are strings (or absent) that are not all whitespace and `incorrect_answers` is a list of three; the record holds the stripped texts and the list as decoded |
| QuizBuilder.ClassifyRejectIff | main.py:86-92 | an object is skipped exactly when its texts are strings and either text is blank, or `incorrect_answers` has a length other than 3 |
| QuizBuilder.ClassifyNonObject | main.py:86 | an element that is not a dict raises AttributeError at `item.get` |
| QuizBuilder.CleanItemKept | main.py:86-92 | an object whose texts need no stripping and have three incorrect answers is kept exactly as it is |
| QuizBuilder.ExampleItem | main.py:53-57 | the first sample object in the prompt is accepted as it stands |
| QuizBuilder.Iterate | main.py:85 | `for item in data`: a list gives its elements; an empty dict or string gives nothing; a non-empty dict or string raises AttributeError at the first `item.get`; any other value is not iterable (TypeError) |
| QuizBuilder.Outcome | main.py:85-103 | the loop's outcome, given the verdicts in order, never keeps more records than there are elements |
| QuizBuilder.Classified | main.py:85 | there is one verdict per decoded element |
| QuizBuilder.OutcomeStep | main.py:85-103 | one loop turn: an element that raises ends the loop, a skipped one changes nothing, a kept one appends its record |
| QuizBuilder.FailureIsFinal | main.py:82-106 | once an element has raised, the rest of the list cannot change the outcome |
| QuizBuilder.SucceedsIff | main.py:85-103 | the loop completes exactly when no element raises (both directions) |
| QuizBuilder.RejectedIsSkipped | main.py:90-92 | a skipped element can be removed from the list without changing the outcome |
| QuizBuilder.KeptPositions | main.py:85-103 | the positions of the kept elements: in range, strictly increasing, and covering every kept element |
| QuizBuilder.KeepsOrder | main.py:98-103 | the k-th record returned comes from the k-th kept position, so input order is preserved |
| QuizBuilder.Validate | main.py:81-106 | what `process_generated_quizzes` keeps: `[]` for an undecodable reply; for a decoded list, the walk completes exactly when no element raises; any other value raises or gives `[]`; every kept record passes the validity test |
| QuizBuilder.ValidatedRecords | main.py:90-103 | every record the loop returns passes the validity test |
| QuizBuilder.OutcomeOfOne | main.py:85-103 | a list holding one kept element yields that element's record |
| QuizBuilder.SingleItemReply | main.py:83-103 | a decoded list holding one keepable element validates to exactly its record |
| QuizBuilder.Draw | main.py:95 | the random index for the swap at position i lies in [0, i] |
| QuizBuilder.ShuffledFrom | main.py:95 | the swaps of `random.shuffle` from position i down to 1, each with a draw in [0, i]; the length is kept |
| QuizBuilder.Shuffled | main.py:95 | `random.shuffle` of a whole list, drawing the stream in turn; the length is kept |
| QuizBuilder.ShuffledFromIsPermutation | main.py:95 | the swaps of `random.shuffle` keep the length and the multiset of elements |
| QuizBuilder.ShuffledIsPermutation | main.py:95 | `random.shuffle` permutes its list, whatever the random draws |
| QuizBuilder.Shuffle | main.py:95 | the in-place shuffle of the answer array leaves it equal to `Shuffled` of its old contents (a permutation of them) and uses one draw per swap |
| QuizBuilder.IndexOf | main.py:96 | `answers.index(correct_answer)` is the first position holding the correct answer |
| QuizBuilder.BuiltIsWellFormed | main.py:94-102 | a built quiz has four answers, and `correct_option_id` is a valid index that holds the stripped correct answer |
| QuizBuilder.DuplicateCorrectAnswer | main.py:94-96 | when the correct answer also appears among the incorrect ones, a later position holds it too, and `correct_option_id` names the earlier one |
| QuizBuilder.BuildItem | main.py:94-102 | the quiz built from a record keeps the question, has the answers `[correct] + incorrect` shuffled, and points at the first copy of the correct answer |
| QuizBuilder.AllBuiltAppend | main.py:98-102 | appending a quiz built from a valid record keeps the record-to-quiz pairing |
| QuizBuilder.BuildQuizzes | main.py:84-103 | the loop raises exactly when `Outcome` does, with the same exception; otherwise it returns one well-formed quiz per kept record, in order |
| QuizBuilder.ProcessGeneratedQuizzes | main.py:81-106 | an undecodable reply gives `[]`; a value that cannot be iterated raises; otherwise the result is the loop's |
| QuizBuilder.GenerateQuiz | main.py:68-78 | a service error, or any exception while building, gives `[]`; otherwise the result is the built quizzes, each well-formed |
| QuizBot.Scored | main.py:146-151 | one more answer adds exactly one to the correct count or to the wrong count, as the answer was |
| QuizBot.Bot.Position | main.py:136-140 | the scored question is `question_id` (0 when absent) exactly when it is a valid index into `active_quizzes.get(user_id, [])` |
| QuizBot.Bot.constructor | main.py:37-41 | the bot starts with empty tables, which satisfies the invariant |
| QuizBot.Bot.OnSubjectSelected | main.py:109-113 | sets `subject` to the button id and moves to the difficulty window; nothing else changes |
| QuizBot.Bot.OnDifficultySelected | main.py:116-131 | raises KeyError and changes nothing when no subject is stored; otherwise it records the difficulty, and either reports failure while staying in its window (no quizzes) or stores the quizzes, sets `question_id` to 0 and opens the quiz window |
| QuizBot.Bot.OnAnswerSelected | main.py:134-158 | as written: with no question left the test ends; otherwise it raises KeyError without changing anything when the user has no `user_stats` entry, and with an entry it counts the answer and moves on; it never adds entries, and in the quiz window the test never ends unscored |
| QuizBot.Bot.OnAnswerSelectedIntended | main.py:134-158 | as intended: every answer in the quiz window is scored, and a missing entry is counted from zero |
| QuizBot.Bot.OnFinish | main.py:161-162 | restarts the dialog in the subject window with empty `dialog_data`; quizzes and statistics stay |
| QuizBot.FirstAnswerAsWritten | main.py:147-151 | for a new user whose generated quiz has one question, the first answer raises KeyError, the user stays in the quiz window, and no statistics exist |
| QuizBot.FirstAnswerIntended | main.py:147-151 | the same session with the intended handler counts one correct answer and ends the test |

## Left out

- The prompt text and the call to the text-generation service (main.py:44-73) are not modelled. A `Completion` parameter stands for the service's answer. A `None` message content makes `json.loads` raise TypeError, which `generate_quiz` catches. That gives the same `[]` as a service error, and the model folds it into `ServiceError`.
- JSON text parsing is not modelled. `json.loads` is taken as given: its result is a `Json` value, and its `JSONDecodeError` is `Undecodable`.
- The random number generator is not modelled. `random.shuffle` draws `randbelow(i + 1)`, and these draws are the values `rng(k) % (i + 1)` of a stream passed in as a parameter. The model does not claim that the permutation is uniform.
- Logging (main.py:14-15, 74, 77, 91, 105) and the user-facing message texts are left out. Handlers return which message they send, as a `Reaction`.
- Window rendering and keyboard layout (main.py:165-206) are left out. The question text is shown through `Format("{question}")` without a data getter, and that is not modelled.
- Environment and token checks (main.py:18-25) are left out. So are client construction (main.py:27-35), router registration and polling (main.py:209-219), and message sending.
- Asynchrony and concurrent updates are not modelled. Each handler is one atomic step on the tables.
- Chats are not modelled: the model keeps one dialog context per user. aiogram_dialog keeps a dialog stack per chat and user, while `active_quizzes` is keyed by the user alone (main.py:38, 127). A quiz generated in a second chat replaces the list that a first chat's quiz window still indexes into, and the next answer there can find `question_id >= len(quizzes)` (main.py:140) and end the test unscored. The invariant that every user in the quiz window has a valid question, and the OnAnswerSelected promise that the test never ends unscored in the quiz window, hold only with one context per user.
- The framework's handling of `dialog_manager.start(StartMode.RESET_STACK)` is not modelled. `on_finish` is taken as a restart in the first window with empty `dialog_data`.
- There is no `/start` command handler in `main.py`. The model reaches a dialog through `OnFinish`.
- QuizBuilder.Shuffle: it states an equality with `Shuffled` and a permutation, not the uniformity of CPython's shuffle, because the randomness is a parameter.

## Findings

| source | as written | input that shows it | evidently intended | confidence | as-written member | corrected member |
|---|---|---|---|---|---|---|
| main.py:147,150 | the new count is read through `user_stats.get(user_id, {})` but stored through `user_stats[user_id][...]`, and nothing in the bot ever adds a `user_stats` entry | a new user picks a subject and a difficulty, the service returns one valid question, and the user presses an answer button: KeyError, the user stays on that question, and no statistics are kept | create the user's entry on first use (`setdefault`) and count the answer | high (not executed) | QuizBot.FirstAnswerAsWritten | QuizBot.FirstAnswerIntended |
