/**
 * `context.user_data`: the per-user dictionary the quiz handlers keep their
 * state in. Each key the program uses is a field; `None` means the key is not
 * set, which is what `dict.get` and `dict.clear` observe. The key
 * `words_for_test` is left out: nothing reads it.
 */
module Session {
  import opened Errors

  /** The three quiz counters: question index, correct count, incorrect count. */
  datatype Counters = Counters(index: Option<nat>, correct: Option<nat>, incorrect: Option<nat>)

  /**
   * The counters are all set and move together: every answer handled so far
   * has advanced the question index and exactly one of the counts.
   */
  predicate Lockstep(c: Counters) {
    && c.index.Some? && c.correct.Some? && c.incorrect.Some?
    && c.index.value == c.correct.value + c.incorrect.value
  }

  class UserData {
    var selectedTopic: Option<string>
    var generatedWords: Option<seq<string>>
    var currentQuestionIndex: Option<nat>
    var correctCount: Option<nat>
    var incorrectCount: Option<nat>
    var correctAnswer: Option<string>

    /** No key is set. */
    predicate IsEmpty()
      reads this
    {
      && selectedTopic.None? && generatedWords.None? && currentQuestionIndex.None?
      && correctCount.None? && incorrectCount.None? && correctAnswer.None?
    }

    function Counts(): Counters
      reads this
    {
      Counters(currentQuestionIndex, correctCount, incorrectCount)
    }

    predicate InLockstep()
      reads this
    {
      Lockstep(Counts())
    }

    /** Python's `not user_data.get("selected_topic")`: no topic, or an empty one. */
    predicate NoTopic()
      reads this
    {
      selectedTopic.None? || selectedTopic.value == ""
    }

    /** A user's first update: the dictionary is empty. */
    constructor ()
      ensures IsEmpty()
    {
      selectedTopic := None;
      generatedWords := None;
      currentQuestionIndex := None;
      correctCount := None;
      incorrectCount := None;
      correctAnswer := None;
    }

    /** `user_data.clear()`. */
    method Clear()
      modifies this
      ensures IsEmpty()
    {
      selectedTopic := None;
      generatedWords := None;
      currentQuestionIndex := None;
      correctCount := None;
      incorrectCount := None;
      correctAnswer := None;
    }
  }
}
