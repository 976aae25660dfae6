# Vocabulary quiz bot — a Dafny model of its core

The bot teaches Spanish words to Russian speakers over Telegram. Its core is
the "test yourself" quiz and the storage around it:

- **Topic menu and word generation** (`VocabularyMenu`): ten fixed topics,
  one `vocab_<i>` button each; a language model's reply is stripped, cut into
  lines, filtered against the source words the user already owns, and the
  first ten survivors become the quiz's word list, or the step fails.
- **The quiz session** (`TestSelfVocabulary` over `Session.UserData`, the
  per-user `context.user_data` dictionary): choosing a topic, starting the
  test, asking four-option questions, recording answers, and ending the test
  with an 80% pass mark.
- **The dictionary table** (`TestSelfVocabulary.SaveWords`,
  `SaveWordsToDb`): pairs `source - translation` stored per user, at most one
  row per user and source word (part of `Db.Database.Valid`); vocabulary progress is the user's word count
  against a goal of 1000.
- **The users table** (`Db.Database`): an id-keyed table with a defaulted
  insert, a profile lookup, and progress updates.

Python's string operations the parsing rests on (`str.split` with a
separator, `join`, `strip`, `int` on digits) are modelled in `Text`; the
exceptions the code can raise (IndexError, ValueError, KeyError,
ZeroDivisionError and the SQLite errors) are values of `Errors.Error`; every
handler that can raise returns a `Result`, and `GenerateWords`, which cannot,
returns its outcome as a `Generation`.

The handlers that change `context.user_data` or the database are
module-level methods of `TestSelfVocabulary` and `VocabularyMenu` that take a
`Session.UserData` and a `Db.Database` object and update their fields in
place, as the Python functions mutate the dictionary and the database file;
the database's own operations (`create_db`, `create_user`,
`get_user_profile`, and `update_progress` of test_self_vocabulary.py) are
methods of `Db.Database`. `save_words_to_db` keeps its loop. The pure parts
(line splitting, the filter, the option pool, the progress formula) are functions with lemmas.

Where a reader would expect one behaviour and the code does another, the
model follows the code:

- One would expect a question never to offer the correct answer as a
  distractor. The code excludes entries by their whole text, not by their
  translation, so two entries with the same translation put the correct
  answer among the distractors (`SharedTranslationIsDistractor`). Every copy
  of the current entry is excluded, so the pool can hold fewer than nine
  translations (`DistractorPoolSpec`).
- One would expect every failure to become a reply to the user. In the code, a
  missing counter raises KeyError, an empty word list raises
  ZeroDivisionError, a malformed line raises IndexError or ValueError, and a
  short pool makes `random.sample` raise ValueError; the model returns these
  as errors.

## Model

| member | source | states |
|---|---|---|
| Db.InsertUser | db.py:37-40 | the insert is refused with a unique-key violation exactly when the id already has a row; otherwise the table gains exactly that id and every other row is unchanged |
| Db.ProfileAfterInsert | db.py:37-40 | a created user reads back as `(name, 'basic', 0, 0)` with level `'A1'`, the tuple the profile handler falls back to |
| Db.InsertUserKeepsOthers | db.py:37-40 | creating a user leaves every other user's profile as it was |
| Db.ExecuteUpdate | test_self_vocabulary.py:221 | an UPDATE fails with "no such column" exactly when its WHERE column is not a column of the users table |
| Db.UpdateProgressAsWrittenFails | test_self_vocabulary.py:219-225 | as written, every `update_progress` call with a value raises "no such column: user_id" |
| Db.UpdateProgressAsWrittenExample | test_self_vocabulary.py:221 | for a freshly created user the as-written update fails while the id-keyed one stores the value |
| Db.UpdateProgressByIdEffect | test_self_vocabulary.py:215-228 | keyed by id, the update never fails and sets exactly the given progress columns of that user's row, nothing else |
| Db.Database.CreateDb | db.py:4-20 | creating the users table (the only one `create_db` creates) is idempotent and keeps all rows |
| Db.Database.CreateUser | db.py:33-43 | fails without the users table; succeeds exactly when the id is new; the new table is the insert's result |
| Db.Database.GetUserProfile | db.py:23-30 | returns None exactly when the id has no row, otherwise that row's username, tier and progress values |
| Db.Database.UpdateProgress | test_self_vocabulary.py:215-228 | with the users table present, sets the given columns of the user's row and nothing else; a failure changes nothing |
| Session.UserData.Clear | test_self_vocabulary.py:208 | afterwards no key of the user's data is set |
| Text.JoinSplit | vocabulary_menu.py:78 | joining the pieces of a split with the separator gives the original string back |
| Text.SplitPiecesFree | vocabulary_menu.py:78 | no piece of a split contains the separator |
| Text.SplitFirstPiece | vocabulary_menu.py:80 | the first piece is the whole string exactly when the separator does not occur in it |
| Text.Strip | vocabulary_menu.py:78 | the result is the middle of the input with only whitespace removed on both sides, and neither starts nor ends with whitespace |
| Text.ParseDecimalString | test_self_vocabulary.py:83 | parsing the decimal text of a number gives the number back |
| VocabularyMenu.MenuButtons | vocabulary_menu.py:30-45 | 11 rows: row i shows topic i with token `vocab_i`, the last row leads back to the menu |
| VocabularyMenu.TopicTokensDistinct | vocabulary_menu.py:43 | no two topic buttons carry the same token |
| VocabularyMenu.CandidateLines | vocabulary_menu.py:78 | the candidate lines joined by newlines are the stripped reply, and none contains a newline |
| VocabularyMenu.SourceWordWithoutSeparator | vocabulary_menu.py:80 | a line without `" - "` is keyed by its whole text |
| VocabularyMenu.UniqueWords | vocabulary_menu.py:80 | the filter keeps lines in order, every copy of a line whose source word is new and no other line |
| VocabularyMenu.UniqueWordsUnique | vocabulary_menu.py:80 | the filter's result is the only order-keeping selection with those counts |
| VocabularyMenu.SelectWords | vocabulary_menu.py:78-86 | succeeds exactly when at least ten lines survive, then with exactly the first ten, each a reply line whose source word the user does not own; otherwise reports how many survived |
| VocabularyMenu.GenerateWords | vocabulary_menu.py:53-98 | with no topic it fails and changes nothing; otherwise stores the selected ten words, or leaves the word list untouched when too few survive |
| TestSelfVocabulary.TopicCallbackSplit | test_self_vocabulary.py:83 | a `vocab_<digits>` token splits on `_` into the prefix and the digits |
| TestSelfVocabulary.TopicButtonRoundTrip | test_self_vocabulary.py:83-103 | pressing menu button i reaches the handler with index i, and the handler's topic list has the menu's topic at i |
| TestSelfVocabulary.HandleTopicSelection | test_self_vocabulary.py:78-110 | an index past the list raises IndexError with nothing changed; otherwise the topic is stored and the words are generated as `SelectWords` decides |
| TestSelfVocabulary.TranslationOfPair | test_self_vocabulary.py:150 | a well-formed pair `source - translation` yields its translation |
| TestSelfVocabulary.DistractorPoolSpec | test_self_vocabulary.py:151 | the pool exists exactly when every entry whose text differs from the current one has a translation; it then holds one translation per such entry, `len(words)` minus the copies of the current entry |
| TestSelfVocabulary.OtherEntries | test_self_vocabulary.py:151 | the entries that differ from the current one, in order, with every other entry's multiplicity and none of the current one |
| TestSelfVocabulary.DistractorPoolOrder | test_self_vocabulary.py:151 | the k-th pool element is the translation of the k-th entry that differs from the current one |
| TestSelfVocabulary.SharedTranslationIsDistractor | test_self_vocabulary.py:151 | an entry sharing the current entry's translation puts the correct answer into the pool |
| TestSelfVocabulary.Sample | test_self_vocabulary.py:151 | `random.sample`: k elements drawn without replacement |
| TestSelfVocabulary.Shuffle | test_self_vocabulary.py:153 | `random.shuffle`: the same elements in some order |
| TestSelfVocabulary.BuildQuestion | test_self_vocabulary.py:147-153 | IndexError exactly when the current entry or another entry has no translation, ValueError exactly when the pool has fewer than three; otherwise the question asks the entry's source word with its translation as the answer, and offers exactly four options containing it, the other three drawn without replacement from the pool |
| TestSelfVocabulary.AnswerTokenRoundTrip | test_self_vocabulary.py:159-172 | decoding an option's `answer_` token gives the option back exactly when the option does not contain `answer_` |
| TestSelfVocabulary.RecordAnswer | test_self_vocabulary.py:172-183 | correct exactly when the chosen text equals the cached answer; a missing `correct_count`/`incorrect_count` raises KeyError with no counter changed; otherwise that counter grows by one, then a missing `current_question_index` raises KeyError with only that bump kept, else the index grows by one; topic, words and cached answer are untouched |
| TestSelfVocabulary.CountForAppend | test_self_vocabulary.py:242 | counting a user's rows distributes over appended rows |
| TestSelfVocabulary.SaveWordsEffect | test_self_vocabulary.py:261-271 | saving succeeds exactly when every word splits into a pair; it only appends this user's rows, never gives a user a duplicate source word, and leaves a row for every word |
| TestSelfVocabulary.SaveWordsAppends | test_self_vocabulary.py:261-271 | saving well-formed words succeeds, keeps the old rows, and every appended row is this user's and holds the source word and translation of one of the saved words |
| TestSelfVocabulary.SaveWordsKeepsAbsent | test_self_vocabulary.py:265-269 | a source word the user did not own and no saved word carries is still not owned afterwards |
| TestSelfVocabulary.SaveWordsStores | test_self_vocabulary.py:261-269 | the first word of the batch with a source word the user did not own is stored as `(user, source, translation)` with its own translation |
| TestSelfVocabulary.SaveKnownWords | test_self_vocabulary.py:265-271 | words the user already owns add no row |
| TestSelfVocabulary.SaveWordsIdempotent | test_self_vocabulary.py:257-273 | saving the same words a second time adds no row |
| TestSelfVocabulary.SaveWordsStopsAtError | test_self_vocabulary.py:261-262 | a word that fails to unpack makes the whole save fail with ValueError |
| TestSelfVocabulary.VocabProgressShape | test_self_vocabulary.py:242-249 | vocabulary progress lies in [0, 100], is monotone in the word count, is 100 exactly from 1000 words on |
| TestSelfVocabulary.SaveNeverLowersProgress | test_self_vocabulary.py:257-276 | saving words never lowers the user's vocabulary progress |
| TestSelfVocabulary.UpdateVocabProgress | test_self_vocabulary.py:237-254 | stores the progress of the user's current word count and changes nothing else |
| TestSelfVocabulary.UpdateGrammarProgress | test_self_vocabulary.py:231-235 | stores the constant 50 as grammar progress and changes nothing else |
| TestSelfVocabulary.SaveWordsToDb | test_self_vocabulary.py:257-278 | the table after the loop is `SaveWords` of the old table, or unchanged with ValueError; then vocabulary progress is recomputed |
| TestSelfVocabulary.PassesAtFourFifths | test_self_vocabulary.py:190-195 | the pass test holds exactly when five times the correct count reaches four times the total |
| TestSelfVocabulary.EndTest | test_self_vocabulary.py:187-213 | an empty word list raises ZeroDivisionError with nothing changed; on a pass the dictionary becomes `SaveWords` of the old one (a malformed word raises ValueError, nothing changed), otherwise it is kept; without the users table it then raises "no such table", keeping the saved rows; else it replies with the score, stores the user's vocabulary progress of the new word count and grammar 50, touches no other user, and clears the session; on failure the session is left as it was |
| TestSelfVocabulary.AskQuestion | test_self_vocabulary.py:139-165 | inside the list, the reply is exactly the question `BuildQuestion` promises for the current entry (or its IndexError/ValueError), the translation is cached only on success, counters, topic, words and database untouched; at or past the end, exactly what `EndTest` promises |
| TestSelfVocabulary.StartTest | test_self_vocabulary.py:44-74 | with no topic, replies that none is chosen and changes nothing; otherwise sets index and both counts to 0, keeps topic, words and database, then asks the first question as `AskQuestion` promises, or raises ZeroDivisionError for an empty list |
| TestSelfVocabulary.HandleAnswer | test_self_vocabulary.py:168-184 | a missing counter raises KeyError with the database untouched, and with the counters as `RecordAnswer` leaves them (unchanged when a count is missing, only that count bumped when the index is missing); from a state where index = correct + incorrect, exactly one count and the index grow by one, keeping that equality, then the next question is asked with the database untouched, or the test ends as `EndTest` promises with the new correct count, the session cleared on success; whenever it raises, the topic, word list and cached answer are as before |

## Left out

- The language-model calls (test_self_vocabulary.py:52-58, vocabulary_menu.py:70-76): the reply text is an input of `HandleTopicSelection` and `GenerateWords`.
- StartTest: its own model call and the `words_for_test` key it stores are left out, since `ask_question` reads `generated_words` instead; the check `if not words` after it can never fire, because a split always has a piece.
- Telegram plumbing: `query.answer`, message edits, keyboards, reply texts, handler registration (including the second `^vocab_\d+$` registration in bot.py, which never runs because the first handler matches), and the profile handler of bot.py except its fallback tuple.
- Telegram's 64-byte limit on callback data, which long options can exceed.
- `handle_vocabulary_action` (test_self_vocabulary.py:112-136): it is never registered as a handler.
- Environment and API-key loading at import time.
- Randomness: `random.sample` and `random.shuffle` are nondeterministic choices (`Sample`, `Shuffle`), not a random generator; the distribution is not modelled.
- BuildQuestion: the order of the options is left open; only their multiset is stated.
- Floating point: percentages and the pass test are computed in exact real arithmetic; IEEE rounding and SQLite's INTEGER column affinity are not modelled.
- SQLite connections, commits and cursors: each function's statements are applied at once, and a statement that raises leaves the tables as they were before that function's commit.
- EndTest, AskQuestion, HandleAnswer, SaveWordsToDb, UpdateVocabProgress, UpdateGrammarProgress, Db.Database.UpdateProgress: these use the progress update keyed by `id` (the corrected member of the finding below). As written (test_self_vocabulary.py:221, 225) every progress update raises "no such column: user_id", so `end_test` raises at line 202, or on a pass at line 276 inside `save_words_to_db` after the new rows were committed at line 273; the session is then never cleared and no reply is sent. That behaviour is modelled only by `Db.UpdateProgressAsWritten` and `Db.UpdateProgressAsWrittenFails`.
- The dictionary table is assumed to exist, since test_self_vocabulary.py creates it when it is imported; its autoincrement id is the row's position.
- `IsTopicCallback` accepts ASCII digits only; Python's `\d` and `int` also accept other Unicode decimal digits.
- VocabProgressShape: stated for exact reals; the float result of `total_words / 1000 * 100` may differ in the last bit.

## Findings

| source | as written | input that shows it | evidently intended | confidence | as-written member | corrected member |
|---|---|---|---|---|---|---|
| test_self_vocabulary.py:221 | `update_progress` filters the users table on `user_id`, a column the table (db.py:10) does not have, so SQLite raises "no such column" on every call; `end_test` therefore raises at the progress update and never clears the session or replies | any finished quiz, e.g. user 1 created by `create_user(1, "ana")`, then `update_progress(1, vocab_progress=1.0)` | filter on the key `id` and store the value in that user's row | not executed | Db.UpdateProgressAsWrittenFails | Db.UpdateProgressByIdEffect |
