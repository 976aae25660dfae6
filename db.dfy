/**
 * The bot's SQLite file `language_learning.db`: the `users` table that db.py
 * creates and reads, and the `dictionary` table of learned word pairs (whose
 * rows test_self_vocabulary.py writes). Connections, commits and column
 * affinity are not modelled; a statement that raises leaves the file as it was.
 */
module Db {
  import opened Errors

  /** A row of `users`, without its key `id`. */
  datatype UserRow = UserRow(
    username: string,
    languageLevel: string,
    profileType: string,
    grammarProgress: real,
    vocabProgress: real)

  /** The tuple `get_user_profile` selects: username, profile_type, grammar_progress, vocab_progress. */
  datatype Profile = Profile(username: string, profileType: string, grammarProgress: real, vocabProgress: real)

  /** A row of `dictionary`; its autoincrement id is its position in the table. */
  datatype Entry = Entry(userId: int, sourceWord: string, translation: string)

  /** The columns `create_db` gives the users table. */
  const UsersColumns: set<string> :=
    {"id", "username", "language_level", "profile_type", "grammar_progress", "vocab_progress"}

  /** The profile tuple the profile handler shows for a user it has just created. */
  function FallbackProfile(username: string): Profile {
    Profile(username, "basic", 0.0, 0.0)
  }

  /** `SELECT username, profile_type, grammar_progress, vocab_progress FROM users WHERE id = ?`. */
  function ProfileOf(users: map<int, UserRow>, id: int): Option<Profile> {
    if id in users then
      var row := users[id];
      Some(Profile(row.username, row.profileType, row.grammarProgress, row.vocabProgress))
    else None
  }

  /** The INSERT of `create_user`: explicit 'A1', 'basic', 0, 0; a repeated primary key is refused. */
  function InsertUser(users: map<int, UserRow>, id: int, username: string): (r: Result<map<int, UserRow>>)
    ensures r.Err? <==> id in users
    ensures r.Err? ==> r == Err(UniqueViolation("users"))
    ensures r.Ok? ==> r.value.Keys == users.Keys + {id} && |r.value| == |users| + 1
    ensures r.Ok? ==> forall other :: other in users ==> r.value[other] == users[other]
  {
    if id in users then Err(UniqueViolation("users"))
    else Ok(users[id := UserRow(username, "A1", "basic", 0.0, 0.0)])
  }

  /** A created user reads back as exactly the fallback tuple of the profile handler, with level 'A1'. */
  lemma ProfileAfterInsert(users: map<int, UserRow>, id: int, username: string)
    requires id !in users
    ensures InsertUser(users, id, username).Ok?
    ensures ProfileOf(InsertUser(users, id, username).value, id) == Some(FallbackProfile(username))
    ensures InsertUser(users, id, username).value[id].languageLevel == "A1"
  {
  }

  /** Inserting one user leaves every other user's profile as it was. */
  lemma InsertUserKeepsOthers(users: map<int, UserRow>, id: int, username: string, other: int)
    requires id !in users && other != id
    ensures ProfileOf(InsertUser(users, id, username).value, other) == ProfileOf(users, other)
  {
  }

  datatype ProgressColumn = GrammarProgress | VocabProgress

  function SetProgress(row: UserRow, column: ProgressColumn, value: real): UserRow {
    match column
    case GrammarProgress => row.(grammarProgress := value)
    case VocabProgress => row.(vocabProgress := value)
  }

  /**
   * `UPDATE users SET <column> = ? WHERE <whereColumn> = ?` for the two WHERE
   * columns the program names: the key `id`, and `user_id`. SQLite refuses a
   * statement whose WHERE clause names a column the table does not have.
   */
  function ExecuteUpdate(users: map<int, UserRow>, whereColumn: string, key: int,
                         column: ProgressColumn, value: real): (r: Result<map<int, UserRow>>)
    requires whereColumn in {"id", "user_id"}
    ensures r.Err? <==> whereColumn !in UsersColumns
    ensures r.Err? ==> r == Err(NoSuchColumn(whereColumn))
  {
    if whereColumn !in UsersColumns then Err(NoSuchColumn(whereColumn))
    else if key in users then Ok(users[key := SetProgress(users[key], column, value)])
    else Ok(users)
  }

  /**
   * `update_progress(user_id, vocab_progress, grammar_progress)`: one UPDATE per
   * value given, vocabulary first, committed together; if a statement raises,
   * nothing is committed.
   */
  function UpdateProgress(users: map<int, UserRow>, whereColumn: string, userId: int,
                          vocab: Option<real>, grammar: Option<real>): Result<map<int, UserRow>>
    requires whereColumn in {"id", "user_id"}
  {
    var afterVocab :=
      if vocab.Some? then ExecuteUpdate(users, whereColumn, userId, VocabProgress, vocab.value) else Ok(users);
    if afterVocab.Err? || grammar.None? then afterVocab
    else ExecuteUpdate(afterVocab.value, whereColumn, userId, GrammarProgress, grammar.value)
  }

  /** `update_progress` as written: its WHERE clauses filter on `user_id`. */
  function UpdateProgressAsWritten(users: map<int, UserRow>, userId: int,
                                   vocab: Option<real>, grammar: Option<real>): Result<map<int, UserRow>>
  {
    UpdateProgress(users, "user_id", userId, vocab, grammar)
  }

  /** `update_progress` as intended: its WHERE clauses filter on the key `id`. */
  function UpdateProgressById(users: map<int, UserRow>, userId: int,
                              vocab: Option<real>, grammar: Option<real>): Result<map<int, UserRow>>
  {
    UpdateProgress(users, "id", userId, vocab, grammar)
  }

  /** As written, every call that has a value to store raises: the users table has no `user_id` column. */
  lemma UpdateProgressAsWrittenFails(users: map<int, UserRow>, userId: int, vocab: Option<real>, grammar: Option<real>)
    requires vocab.Some? || grammar.Some?
    ensures UpdateProgressAsWritten(users, userId, vocab, grammar) == Err(NoSuchColumn("user_id"))
  {
  }

  /** The concrete case: a freshly created user's vocabulary progress can never be written. */
  lemma UpdateProgressAsWrittenExample()
    ensures var users := InsertUser(map[], 1, "ana").value;
      && UpdateProgressAsWritten(users, 1, Some(1.0), None).Err?
      && UpdateProgressById(users, 1, Some(1.0), None).Ok?
      && ProfileOf(UpdateProgressById(users, 1, Some(1.0), None).value, 1) == Some(Profile("ana", "basic", 0.0, 1.0))
  {
  }

  /**
   * `after` is `before` with the given progress columns of user `id`'s row set
   * (when that row exists) and every other row and column as it was.
   */
  ghost predicate ProgressSet(before: map<int, UserRow>, after: map<int, UserRow>, id: int,
                              vocab: Option<real>, grammar: Option<real>)
  {
    && after.Keys == before.Keys
    && (forall k :: k in before && k != id ==> after[k] == before[k])
    && (id in before ==>
          after[id] == before[id].(vocabProgress := vocab.GetOr(before[id].vocabProgress),
                                   grammarProgress := grammar.GetOr(before[id].grammarProgress)))
  }

  /** Keyed by id, the update never fails and sets exactly the given columns of the user's row. */
  lemma UpdateProgressByIdEffect(users: map<int, UserRow>, userId: int, vocab: Option<real>, grammar: Option<real>)
    ensures UpdateProgressById(users, userId, vocab, grammar).Ok?
    ensures ProgressSet(users, UpdateProgressById(users, userId, vocab, grammar).value, userId, vocab, grammar)
  {
  }

  /** No user has two rows of the dictionary table for the same source word. */
  ghost predicate NoDuplicateWords(rows: seq<Entry>) {
    forall i, j :: 0 <= i < j < |rows| && rows[i].userId == rows[j].userId ==> rows[i].sourceWord != rows[j].sourceWord
  }

  /** The database file. */
  class Database {
    /** Whether `create_db` has run: the users table exists. */
    var usersCreated: bool
    var users: map<int, UserRow>
    /** The dictionary table, created when test_self_vocabulary.py is imported. */
    var dictionary: seq<Entry>

    /** Without the users table there are no users, and no user owns a source word twice. */
    ghost predicate Valid()
      reads this
    {
      && (!usersCreated ==> users == map[])
      && NoDuplicateWords(dictionary)
    }

    /** A database file before `create_db` has run. */
    constructor ()
      ensures Valid() && !usersCreated && dictionary == []
    {
      usersCreated := false;
      users := map[];
      dictionary := [];
    }

    /** `create_db`: CREATE TABLE IF NOT EXISTS users; running it again changes nothing. */
    method CreateDb()
      requires Valid()
      modifies this
      ensures Valid() && usersCreated
      ensures users == old(users) && dictionary == old(dictionary)
    {
      usersCreated := true;
    }

    /** `create_user(user_id, username)`. */
    method CreateUser(id: int, username: string) returns (r: Result<()>)
      requires Valid()
      modifies this
      ensures Valid() && usersCreated == old(usersCreated) && dictionary == old(dictionary)
      ensures !old(usersCreated) ==> r == Err(NoSuchTable("users")) && users == old(users)
      ensures old(usersCreated) ==> (r.Ok? <==> id !in old(users))
      ensures old(usersCreated) && r.Err? ==> r == Err(UniqueViolation("users")) && users == old(users)
      ensures r.Ok? ==> users == InsertUser(old(users), id, username).value
    {
      if !usersCreated {
        return Err(NoSuchTable("users"));
      }
      var inserted := InsertUser(users, id, username);
      if inserted.Err? {
        return Err(inserted.error);
      }
      users := inserted.value;
      r := Ok(());
    }

    /** `get_user_profile(user_id)`: the profile tuple, or None when there is no row for the id. */
    method GetUserProfile(id: int) returns (r: Result<Option<Profile>>)
      ensures !usersCreated ==> r == Err(NoSuchTable("users"))
      ensures usersCreated ==> r.Ok? && (r.value.None? <==> id !in users)
      ensures usersCreated && id in users ==>
        r.value.value.username == users[id].username && r.value.value.profileType == users[id].profileType
        && r.value.value.grammarProgress == users[id].grammarProgress
        && r.value.value.vocabProgress == users[id].vocabProgress
    {
      if !usersCreated {
        return Err(NoSuchTable("users"));
      }
      r := Ok(ProfileOf(users, id));
    }

    /** `update_progress` with its WHERE clauses keyed by `id`. */
    method UpdateProgress(userId: int, vocab: Option<real>, grammar: Option<real>) returns (r: Result<()>)
      requires Valid()
      modifies this
      ensures Valid() && usersCreated == old(usersCreated) && dictionary == old(dictionary)
      ensures r.Err? ==> users == old(users)
      ensures !old(usersCreated) && (vocab.Some? || grammar.Some?) ==> r == Err(NoSuchTable("users"))
      ensures old(usersCreated) || (vocab.None? && grammar.None?) ==>
        r.Ok? && ProgressSet(old(users), users, userId, vocab, grammar)
    {
      UpdateProgressByIdEffect(users, userId, vocab, grammar);
      if !usersCreated && (vocab.Some? || grammar.Some?) {
        return Err(NoSuchTable("users"));
      }
      users := UpdateProgressById(users, userId, vocab, grammar).value;
      r := Ok(());
    }
  }
}
