/**
 * vocabulary_menu.py: the topic menu and `generate_words`, which turns the
 * language model's reply into the quiz's word list. The reply's text is an
 * input; the model call itself is not part of this model.
 */
module VocabularyMenu {
  import opened Errors
  import opened Text
  import Db
  import Session

  /** The topics of `show_vocabulary_menu`, in menu order. */
  const Topics: seq<string> :=
    ["Приветствия", "Семья", "Еда", "Цвета", "Числа",
     "Дни недели", "Месяцы", "Погода", "Животные", "Одежда"]

  const BackToMenuText: string := "🔙 Назад в меню"

  datatype Button = Button(text: string, callbackData: string)

  /** The callback token of the button for topic `i`: `f"vocab_{i}"`. */
  function TopicToken(i: nat): string {
    "vocab_" + DecimalString(i)
  }

  /** The keyboard of `show_vocabulary_menu`: one row per topic, then the way back to the menu. */
  function MenuButtons(): (rows: seq<Button>)
    ensures |rows| == |Topics| + 1 == 11
    ensures forall i :: 0 <= i < |Topics| ==> rows[i].text == Topics[i] && rows[i].callbackData == TopicToken(i)
    ensures rows[|Topics|] == Button(BackToMenuText, "menu")
  {
    seq(|Topics|, i requires 0 <= i < |Topics| => Button(Topics[i], TopicToken(i))) + [Button(BackToMenuText, "menu")]
  }

  /** No two topic buttons carry the same token. */
  lemma TopicTokensDistinct(i: nat, j: nat)
    requires i < |Topics| && j < |Topics| && i != j
    ensures MenuButtons()[i].callbackData != MenuButtons()[j].callbackData
  {
    assert TopicToken(i)[6..] == DecimalString(i);
    assert TopicToken(j)[6..] == DecimalString(j);
    ParseDecimalString(i);
    ParseDecimalString(j);
  }

  /** `content.strip().split("\n")`: the reply cut into lines. */
  function CandidateLines(content: string): (lines: seq<string>)
    ensures |lines| >= 1
    ensures Join(lines, "\n") == Strip(content)
    ensures forall k :: 0 <= k < |lines| ==> !Contains(lines[k], "\n")
  {
    JoinSplit(Strip(content), "\n");
    SplitPiecesAllFree(Strip(content), "\n");
    Split(Strip(content), "\n")
  }

  /** `word.split(" - ")[0]`: the text before the first `" - "`, or the whole line when there is none. */
  function SourceWord(line: string): string {
    Split(line, " - ")[0]
  }

  /** A line without `" - "` is keyed by its whole text. */
  lemma SourceWordWithoutSeparator(line: string)
    requires !Contains(line, " - ")
    ensures SourceWord(line) == line
  {
    SplitFirstPiece(line, " - ");
  }

  /** `xs` is `ys` with some elements deleted, the rest kept in order. */
  ghost predicate IsSubsequence(xs: seq<string>, ys: seq<string>)
    decreases |ys|
  {
    if ys == [] then xs == []
    else IsSubsequence(xs, ys[1..]) || (xs != [] && xs[0] == ys[0] && IsSubsequence(xs[1..], ys[1..]))
  }

  /** A subsequence holds no more copies of any line than the sequence it comes from. */
  lemma {:induction false} SubsequenceCounts(xs: seq<string>, ys: seq<string>, w: string)
    requires IsSubsequence(xs, ys)
    ensures multiset(xs)[w] <= multiset(ys)[w]
    decreases |ys|
  {
    if ys != [] {
      assert ys == [ys[0]] + ys[1..];
      if IsSubsequence(xs, ys[1..]) {
        SubsequenceCounts(xs, ys[1..], w);
      } else {
        assert xs == [xs[0]] + xs[1..];
        SubsequenceCounts(xs[1..], ys[1..], w);
      }
    }
  }

  /**
   * `[word for word in words if word.split(" - ")[0] not in existing_words]`:
   * the lines, in their order, whose source word the user does not own yet.
   * Every copy of such a line is kept; no other line is.
   */
  function UniqueWords(lines: seq<string>, existing: set<string>): (kept: seq<string>)
    ensures IsSubsequence(kept, lines)
    ensures forall w :: multiset(kept)[w] == if SourceWord(w) in existing then 0 else multiset(lines)[w]
  {
    if lines == [] then []
    else
      var rest := UniqueWords(lines[1..], existing);
      assert lines == [lines[0]] + lines[1..];
      if SourceWord(lines[0]) in existing then rest
      else
        var kept := [lines[0]] + rest;
        assert kept[1..] == rest;
        kept
  }

  /** The filter is the only order-keeping selection with those counts. */
  lemma {:induction false} UniqueWordsUnique(kept: seq<string>, lines: seq<string>, existing: set<string>)
    requires IsSubsequence(kept, lines)
    requires forall w :: multiset(kept)[w] == if SourceWord(w) in existing then 0 else multiset(lines)[w]
    ensures kept == UniqueWords(lines, existing)
    decreases |lines|
  {
    if lines != [] {
      var head := lines[0];
      assert lines == [head] + lines[1..];
      if SourceWord(head) in existing {
        forall w ensures multiset(kept)[w] == if SourceWord(w) in existing then 0 else multiset(lines[1..])[w] {
          if SourceWord(w) !in existing {
            assert w != head;
          }
        }
        UniqueWordsUnique(kept, lines[1..], existing);
      } else {
        if IsSubsequence(kept, lines[1..]) {
          SubsequenceCounts(kept, lines[1..], head);
          assert false;
        }
        assert kept == [head] + kept[1..];
        forall w ensures multiset(kept[1..])[w] == if SourceWord(w) in existing then 0 else multiset(lines[1..])[w] {
        }
        UniqueWordsUnique(kept[1..], lines[1..], existing);
      }
    }
  }

  /** The source words the user already owns: `SELECT spanish_word FROM dictionary WHERE user_id = ?`. */
  function ExistingWords(dictionary: seq<Db.Entry>, userId: int): set<string> {
    set e | e in dictionary && e.userId == userId :: e.sourceWord
  }

  datatype Selection = Selected(words: seq<string>) | InsufficientUniqueWords(found: nat)

  /**
   * Lines 78 to 86 of `generate_words` without the store: the first ten lines
   * that survive the filter, or a failure when fewer than ten survive.
   */
  function SelectWords(content: string, existing: set<string>): (r: Selection)
    ensures var unique := UniqueWords(CandidateLines(content), existing);
      && (r.Selected? <==> |unique| >= 10)
      && (r.InsufficientUniqueWords? ==> r.found == |unique| < 10)
      && (r.Selected? ==> |r.words| == 10 && r.words <= unique)
    ensures r.Selected? ==> forall w :: w in r.words ==> w in CandidateLines(content) && SourceWord(w) !in existing
  {
    var unique := UniqueWords(CandidateLines(content), existing);
    if |unique| < 10 then InsufficientUniqueWords(|unique|)
    else
      var words := unique[..10];
      assert forall w :: w in words ==> w in multiset(unique);
      Selected(words)
  }

  datatype Generation = Generated(words: seq<string>) | NoTopicSelected | NotEnoughWords

  /**
   * `generate_words`: with a topic selected, read the user's source words,
   * filter the reply's lines and store the first ten as `generated_words`.
   */
  method GenerateWords(session: Session.UserData, db: Db.Database, userId: int, content: string) returns (g: Generation)
    modifies session
    ensures old(session.NoTopic()) ==> g == NoTopicSelected
    ensures !old(session.NoTopic()) ==>
      match SelectWords(content, ExistingWords(db.dictionary, userId))
      case Selected(words) => g == Generated(words)
      case InsufficientUniqueWords(_) => g == NotEnoughWords
    ensures g.Generated? ==> session.generatedWords == Some(g.words)
    ensures !g.Generated? ==> session.generatedWords == old(session.generatedWords)
    ensures session.selectedTopic == old(session.selectedTopic)
    ensures session.currentQuestionIndex == old(session.currentQuestionIndex)
    ensures session.correctCount == old(session.correctCount)
    ensures session.incorrectCount == old(session.incorrectCount)
    ensures session.correctAnswer == old(session.correctAnswer)
  {
    if session.NoTopic() {
      return NoTopicSelected;
    }
    var existing := ExistingWords(db.dictionary, userId);
    var selection := SelectWords(content, existing);
    match selection
    case InsufficientUniqueWords(_) =>
      g := NotEnoughWords;
    case Selected(words) =>
      session.generatedWords := Some(words);
      g := Generated(words);
  }
}
