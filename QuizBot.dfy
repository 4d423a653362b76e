/** The conversation of the quiz bot: four windows (subject, difficulty, quiz, end) driven by
    button handlers, over two process-wide tables, the generated quizzes of every user and their
    answer statistics. */
module QuizBot {
  import opened Wrappers
  import opened QuizBuilder

  /** A Telegram user id (`c.from_user.id`). */
  type UserId = int

  /** The window a user's dialog shows; its buttons are the only ones that user can press. */
  datatype DialogState = Subject | Difficulty | Quiz | End

  /** The `dialog_data` of a user's current dialog context: the three keys the handlers write,
      each absent until first written. */
  datatype DialogData = DialogData(subject: Option<string>, difficulty: Option<string>, questionId: Option<nat>)

  /** The data of a freshly started dialog context. */
  const NoData := DialogData(None, None, None)

  /** A user's current dialog context. */
  datatype Dialog = Dialog(state: DialogState, data: DialogData)

  /** A user's entry in `user_stats`; a counter the entry lacks reads as 0 through `get`. */
  datatype Stats = Stats(correctAnswers: nat, wrongAnswers: nat)

  /** The message a handler answers with, or the exception it raises instead. */
  datatype Reaction =
    | SubjectChosen(subject: string)
    | GenerationFailed
    | QuizStarted(difficulty: string)
    | QuizOver
    | Right
    | Wrong
    | Raised(error: PyError)

  /** The widget id of the answer button that scores as correct. */
  const CorrectButton: string := "correct"

  /** A list the bot may store in `active_quizzes`: non-empty, every quiz well-formed. */
  predicate Playable(quizzes: seq<QuizItem>) {
    quizzes != [] && forall k :: 0 <= k < |quizzes| ==> WellFormed(quizzes[k])
  }

  /** The statistics after one more answer, correct or not. */
  function Scored(s: Stats, correct: bool): (t: Stats)
    ensures t.correctAnswers + t.wrongAnswers == s.correctAnswers + s.wrongAnswers + 1
    ensures t.correctAnswers == s.correctAnswers + (if correct then 1 else 0)
    ensures t.wrongAnswers == s.wrongAnswers + (if correct then 0 else 1)
  {
    if correct then s.(correctAnswers := s.correctAnswers + 1)
    else s.(wrongAnswers := s.wrongAnswers + 1)
  }

  class Bot {
    /** Every user's current dialog context, one per user (chats are not distinguished). */
    var dialogs: map<UserId, Dialog>
    /** `active_quizzes`: the quizzes last generated for each user. */
    var activeQuizzes: map<UserId, seq<QuizItem>>
    /** `user_stats`: each user's answer counts. */
    var userStats: map<UserId, Stats>

    /** Stored quiz lists are playable, and whoever is in the quiz window has a question to
        answer. */
    ghost predicate Valid()
      reads this
    {
      (forall u :: u in activeQuizzes ==> Playable(activeQuizzes[u])) &&
      (forall u :: u in dialogs && dialogs[u].state == Quiz ==> Position(u).Some?)
    }

    /** The question the user's next answer scores: `question_id` (0 when absent) when it is a
        valid index into `active_quizzes.get(user_id, [])`, otherwise none. */
    function Position(user: UserId): (p: Option<nat>)
      requires user in dialogs
      reads this
      ensures p.Some? <==> user in activeQuizzes &&
                           dialogs[user].data.questionId.GetOr(0) < |activeQuizzes[user]|
      ensures p.Some? ==> p.value == dialogs[user].data.questionId.GetOr(0)
    {
      var qid := dialogs[user].data.questionId.GetOr(0);
      var quizzes := if user in activeQuizzes then activeQuizzes[user] else [];
      if quizzes == [] || qid >= |quizzes| then None else Some(qid)
    }

    /** The bot at start-up: no dialogs, no quizzes, no statistics. */
    constructor ()
      ensures Valid()
      ensures dialogs == map[] && activeQuizzes == map[] && userStats == map[]
    {
      dialogs, activeQuizzes, userStats := map[], map[], map[];
    }

    /** `on_subject_selected`: records the subject (the button's widget id) and moves to the
        difficulty window. */
    method OnSubjectSelected(user: UserId, widgetId: string) returns (reply: Reaction)
      requires Valid() && user in dialogs
      modifies this
      ensures Valid()
      ensures reply == SubjectChosen(widgetId)
      ensures dialogs == old(dialogs)[user := Dialog(Difficulty, old(dialogs[user].data).(subject := Some(widgetId)))]
      ensures activeQuizzes == old(activeQuizzes) && userStats == old(userStats)
    {
      var data := dialogs[user].data.(subject := Some(widgetId));
      dialogs := dialogs[user := Dialog(Difficulty, data)];
      reply := SubjectChosen(widgetId);
    }

    /** `on_difficulty_selected`: reading the subject raises KeyError when it was never chosen,
        before anything is written. Otherwise the difficulty is recorded whatever happens next
        and quizzes are generated; none means a failure message and no other change; some are
        stored for the user, `question_id` becomes 0 and the quiz window opens. `completion`
        is the text-generation service's answer, `generated` what `generate_quiz` returned. */
    method OnDifficultySelected(user: UserId, widgetId: string, completion: Completion, rng: nat -> nat)
      returns (reply: Reaction, generated: seq<QuizItem>)
      requires Valid() && user in dialogs
      modifies this
      ensures Valid()
      ensures userStats == old(userStats)
      ensures old(dialogs[user].data.subject).None? ==>
        reply == Raised(KeyError) && generated == [] &&
        dialogs == old(dialogs) && activeQuizzes == old(activeQuizzes)
      ensures old(dialogs[user].data.subject).Some? ==> GeneratedFrom(completion, generated)
      ensures old(dialogs[user].data.subject).Some? && generated == [] ==>
        reply == GenerationFailed &&
        dialogs == old(dialogs)[user := Dialog(old(dialogs[user].state),
                                               old(dialogs[user].data).(difficulty := Some(widgetId)))] &&
        activeQuizzes == old(activeQuizzes)
      ensures old(dialogs[user].data.subject).Some? && generated != [] ==>
        reply == QuizStarted(widgetId) &&
        dialogs == old(dialogs)[user := Dialog(Quiz, old(dialogs[user].data).(difficulty := Some(widgetId),
                                                                              questionId := Some(0)))] &&
        activeQuizzes == old(activeQuizzes)[user := generated] &&
        Position(user) == Some(0)
    {
      if dialogs[user].data.subject.None? {
        return Raised(KeyError), [];
      }
      var data := dialogs[user].data.(difficulty := Some(widgetId));
      dialogs := dialogs[user := Dialog(dialogs[user].state, data)];
      generated := GenerateQuiz(completion, rng);
      if generated == [] {
        return GenerationFailed, generated;
      }
      activeQuizzes := activeQuizzes[user := generated];
      dialogs := dialogs[user := Dialog(Quiz, data.(questionId := Some(0)))];
      reply := QuizStarted(widgetId);
    }

    /** `on_answer_selected` as written. With no question left the test ends. Otherwise the
        answer counts as correct exactly when the pressed button is `correct`; the new count is
        computed through `get` but stored through `user_stats[user_id][...]`, which raises
        KeyError, changing nothing, when the user has no entry (nothing in the bot ever makes
        one). After a scored answer the next question follows, or the end window after the last.
        In the quiz window the test never ends unscored. */
    method OnAnswerSelected(user: UserId, widgetId: string) returns (reply: Reaction)
      requires Valid() && user in dialogs
      modifies this
      ensures Valid()
      ensures activeQuizzes == old(activeQuizzes)
      ensures userStats.Keys == old(userStats).Keys
      ensures old(dialogs[user].state) == Quiz ==> reply != QuizOver
      ensures old(Position(user)).None? ==>
        reply == QuizOver && userStats == old(userStats) &&
        dialogs == old(dialogs)[user := Dialog(End, old(dialogs[user].data))]
      ensures old(Position(user)).Some? && user !in old(userStats) ==>
        reply == Raised(KeyError) && userStats == old(userStats) && dialogs == old(dialogs)
      ensures old(Position(user)).Some? && user in old(userStats) ==>
        var correct := widgetId == CorrectButton;
        var next := old(Position(user)).value + 1;
        reply == (if correct then Right else Wrong) &&
        userStats == old(userStats)[user := Scored(old(userStats[user]), correct)] &&
        dialogs == old(dialogs)[user :=
          if next < |old(activeQuizzes[user])|
          then Dialog(Quiz, old(dialogs[user].data).(questionId := Some(next)))
          else Dialog(End, old(dialogs[user].data))]
    {
      var position := Position(user);
      if position.None? {
        dialogs := dialogs[user := Dialog(End, dialogs[user].data)];
        return QuizOver;
      }
      if user !in userStats {
        return Raised(KeyError);
      }
      var correct := widgetId == CorrectButton;
      userStats := userStats[user := Scored(userStats[user], correct)];
      reply := if correct then Right else Wrong;
      var next := position.value + 1;
      if next < |activeQuizzes[user]| {
        dialogs := dialogs[user := Dialog(Quiz, dialogs[user].data.(questionId := Some(next)))];
      } else {
        dialogs := dialogs[user := Dialog(End, dialogs[user].data)];
      }
    }

    /** `on_answer_selected` as evidently intended: the same, except that a user without an
        entry gets one (as `user_stats.setdefault(user_id, {})` would make), so every answer in
        the quiz window is scored. */
    method OnAnswerSelectedIntended(user: UserId, widgetId: string) returns (reply: Reaction)
      requires Valid() && user in dialogs
      modifies this
      ensures Valid()
      ensures activeQuizzes == old(activeQuizzes)
      ensures old(dialogs[user].state) == Quiz ==> reply == Right || reply == Wrong
      ensures old(Position(user)).None? ==>
        reply == QuizOver && userStats == old(userStats) &&
        dialogs == old(dialogs)[user := Dialog(End, old(dialogs[user].data))]
      ensures old(Position(user)).Some? ==>
        var correct := widgetId == CorrectButton;
        var next := old(Position(user)).value + 1;
        var before := if user in old(userStats) then old(userStats[user]) else Stats(0, 0);
        reply == (if correct then Right else Wrong) &&
        userStats == old(userStats)[user := Scored(before, correct)] &&
        dialogs == old(dialogs)[user :=
          if next < |old(activeQuizzes[user])|
          then Dialog(Quiz, old(dialogs[user].data).(questionId := Some(next)))
          else Dialog(End, old(dialogs[user].data))]
    {
      var position := Position(user);
      if position.None? {
        dialogs := dialogs[user := Dialog(End, dialogs[user].data)];
        return QuizOver;
      }
      var before := if user in userStats then userStats[user] else Stats(0, 0);
      var correct := widgetId == CorrectButton;
      userStats := userStats[user := Scored(before, correct)];
      reply := if correct then Right else Wrong;
      var next := position.value + 1;
      if next < |activeQuizzes[user]| {
        dialogs := dialogs[user := Dialog(Quiz, dialogs[user].data.(questionId := Some(next)))];
      } else {
        dialogs := dialogs[user := Dialog(End, dialogs[user].data)];
      }
    }

    /** `on_finish`, taken as a restart in the first window: the user gets a fresh context with
        empty `dialog_data`; the quizzes and statistics stay. */
    method OnFinish(user: UserId)
      requires Valid()
      modifies this
      ensures Valid()
      ensures dialogs == old(dialogs)[user := Dialog(Subject, NoData)]
      ensures activeQuizzes == old(activeQuizzes) && userStats == old(userStats)
    {
      dialogs := dialogs[user := Dialog(Subject, NoData)];
    }
  }

  /** A new user who opens the dialog, picks a subject and a difficulty for which the service
      answers with one acceptable question, and presses the correct button: as written the
      answer raises KeyError and the user stays on that question. */
  method FirstAnswerAsWritten(user: UserId, item: Json, rng: nat -> nat)
    returns (reply: Reaction, state: DialogState, stats: map<UserId, Stats>)
    requires Classify(item).Accept?
    ensures reply == Raised(KeyError) && state == Quiz && stats == map[]
  {
    var bot := new Bot();
    bot.OnFinish(user);
    var chosen := bot.OnSubjectSelected(user, "math");
    SingleItemReply(item);
    var started, generated := bot.OnDifficultySelected(user, "easy", Reply(Decoded(JArr([item]))), rng);
    reply := bot.OnAnswerSelected(user, CorrectButton);
    state, stats := bot.dialogs[user].state, bot.userStats;
  }

  /** The same session with answers scored as intended: the one correct answer is counted and
      the test ends. */
  method FirstAnswerIntended(user: UserId, item: Json, rng: nat -> nat)
    returns (reply: Reaction, state: DialogState, stats: map<UserId, Stats>)
    requires Classify(item).Accept?
    ensures reply == Right && state == End && stats == map[user := Stats(1, 0)]
  {
    var bot := new Bot();
    bot.OnFinish(user);
    var chosen := bot.OnSubjectSelected(user, "math");
    SingleItemReply(item);
    var started, generated := bot.OnDifficultySelected(user, "easy", Reply(Decoded(JArr([item]))), rng);
    reply := bot.OnAnswerSelectedIntended(user, CorrectButton);
    state, stats := bot.dialogs[user].state, bot.userStats;
  }
}
