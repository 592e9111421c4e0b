/** database.py, the constraint half: the five tables as in-memory state, with the
    PRIMARY KEY, UNIQUE, NOT NULL and FOREIGN KEY checks (foreign keys are switched on
    when the connection opens), the ON DELETE CASCADE actions, and the two triggers on
    `vocabularies` that maintain `users.current_vocabulary_id`. A statement that breaks a
    constraint raises IntegrityError, which `execute_query` turns into `CursorError`;
    each method here reports what the table call then returns. */
module Tables {
  import opened Wrappers
  import opened Text
  import opened Telegram
  import opened Database

  /** A `users` row without its key. */
  datatype UserRow = UserRow(
    username: string,
    language: Option<string>,
    timezone: Option<int>,
    currentVocabularyId: Option<int>,
    hideMeaning: int)

  /** A user as `INSERT INTO users (user_id, username)` leaves it: timezone DEFAULT 0,
      hide_meaning DEFAULT 1, the rest NULL. */
  function NewUser(username: string): (u: UserRow)
    ensures u.username == username && u.language.None? && u.currentVocabularyId.None?
    ensures u.timezone == Some(0) && u.hideMeaning == 1
  {
    UserRow(username, None, Some(0), None, 1)
  }

  datatype VocabularyRow = VocabularyRow(id: int, userId: int, name: string)

  datatype WordRow = WordRow(id: int, userId: int, vocabularyId: int, word: string, meaning: Option<string>, timestamp: int)

  datatype ReminderRow = ReminderRow(id: int, userId: int, vocabularyId: int, time: string, numberOfWords: int)

  /** What a TEXT column stores for a bound value (an integer is kept as its decimal text). */
  function TextAffinity(v: SqlValue): (r: Option<string>)
    ensures r.None? <==> v.SqlNull?
    ensures v.SqlText? ==> r == Some(v.t)
  {
    match v
    case SqlNull => None
    case SqlInt(i) => Some(IntToString(i))
    case SqlText(s) => Some(s)
  }

  /** What an INTEGER column stores for a bound value: text spelling an integer becomes that integer. */
  function IntegerAffinity(v: SqlValue): (r: SqlValue)
    ensures v.SqlInt? || v.SqlNull? ==> r == v
    ensures v.SqlText? && ParseInt(v.t).Success? ==> r == SqlInt(ParseInt(v.t).value)
    ensures v.SqlText? && ParseInt(v.t).Failure? ==> r == v
  {
    match v
    case SqlText(s) => if ParseInt(s).Success? then SqlInt(ParseInt(s).value) else v
    case _ => v
  }

  /** An integer stored in a TEXT column and bound again into an INTEGER column comes back as itself. */
  lemma AffinityRoundTrip(i: int)
    ensures TextAffinity(SqlInt(i)).Some?
    ensures IntegerAffinity(SqlText(TextAffinity(SqlInt(i)).value)) == SqlInt(i)
  {
    IntToStringRoundTrip(i);
  }

  // ---------------------------------------------------------------------------------
  // Rows kept in rowid order

  /** The rows a `WHERE` keeps, in table order. */
  function Filter<T>(s: seq<T>, keep: T -> bool): (r: seq<T>)
    ensures |r| <= |s|
  {
    if s == [] then [] else (if keep(s[0]) then [s[0]] else []) + Filter(s[1..], keep)
  }

  /** The rows kept are exactly the rows meeting the condition. */
  lemma {:induction false} FilterMembers<T(!new)>(s: seq<T>, keep: T -> bool)
    ensures forall x :: x in Filter(s, keep) <==> x in s && keep(x)
  {
    if s != [] {
      FilterMembers(s[1..], keep);
      assert s == [s[0]] + s[1..];
    }
  }

  /** Filtering a concatenation filters each part. */
  lemma {:induction false} FilterAppend<T>(s: seq<T>, t: seq<T>, keep: T -> bool)
    ensures Filter(s + t, keep) == Filter(s, keep) + Filter(t, keep)
  {
    if s == [] {
      assert s + t == t;
    } else {
      var u := s + t;
      assert u[0] == s[0] && u[1..] == s[1..] + t;
      FilterAppend(s[1..], t, keep);
      calc {
        Filter(u, keep);
        (if keep(s[0]) then [s[0]] else []) + Filter(s[1..] + t, keep);
        (if keep(s[0]) then [s[0]] else []) + (Filter(s[1..], keep) + Filter(t, keep));
        Filter(s, keep) + Filter(t, keep);
      }
    }
  }

  /** A condition every row meets keeps the whole table. */
  lemma {:induction false} FilterAll<T>(s: seq<T>)
    ensures Filter(s, (x: T) => true) == s
  {
    if s != [] {
      FilterAll(s[1..]);
      assert s == [s[0]] + s[1..];
    }
  }

  /** Every earlier row is related to every later one by `ok`. */
  predicate Pairwise<T>(s: seq<T>, ok: (T, T) -> bool)
  {
    forall i, j :: 0 <= i < j < |s| ==> ok(s[i], s[j])
  }

  /** Dropping rows keeps every pairwise relation among the rows that stay. */
  lemma {:induction false} FilterPairwise<T(!new)>(s: seq<T>, keep: T -> bool, ok: (T, T) -> bool)
    requires Pairwise(s, ok)
    ensures Pairwise(Filter(s, keep), ok)
    decreases |s|
  {
    if s != [] {
      var tail := s[1..];
      assert Pairwise(tail, ok) by {
        forall i, j | 0 <= i < j < |tail|
          ensures ok(tail[i], tail[j])
        {
          assert tail[i] == s[i + 1] && tail[j] == s[j + 1];
        }
      }
      FilterPairwise(tail, keep, ok);
      var rest := Filter(tail, keep);
      if keep(s[0]) {
        var r := [s[0]] + rest;
        assert Filter(s, keep) == r;
        forall i, j | 0 <= i < j < |r|
          ensures ok(r[i], r[j])
        {
          if i == 0 {
            assert r[j] == rest[j - 1];
            FilterMembers(tail, keep);
            assert rest[j - 1] in rest;
            assert r[j] in tail;
            var k :| 0 <= k < |tail| && tail[k] == r[j];
            assert s[k + 1] == r[j];
          } else {
            assert r[i] == rest[i - 1] && r[j] == rest[j - 1];
          }
        }
      } else {
        assert Filter(s, keep) == rest;
      }
    }
  }

  /** A new row related to all the old ones can be appended. */
  lemma AppendPairwise<T>(s: seq<T>, x: T, ok: (T, T) -> bool)
    requires Pairwise(s, ok)
    requires forall i :: 0 <= i < |s| ==> ok(s[i], x)
    ensures Pairwise(s + [x], ok)
  {
    var t := s + [x];
    forall i, j | 0 <= i < j < |t|
      ensures ok(t[i], t[j])
    {
      if j == |s| {
        assert t[i] == s[i] && t[j] == x;
      } else {
        assert t[i] == s[i] && t[j] == s[j];
      }
    }
  }

  /** Rowids strictly increase along the table. */
  predicate Ascending<T>(s: seq<T>, id: T -> int)
  {
    Pairwise(s, (a: T, b: T) => id(a) < id(b))
  }

  /** The first rowid is positive; with ascending rowids, so is every other, as SQLite
      assigns them. */
  predicate FirstPositive<T>(s: seq<T>, id: T -> int)
  {
    |s| > 0 ==> id(s[0]) > 0
  }

  /** Dropping rows keeps the first remaining rowid positive. */
  lemma FilterFirstPositive<T(!new)>(s: seq<T>, keep: T -> bool, id: T -> int)
    requires Ascending(s, id) && FirstPositive(s, id)
    ensures FirstPositive(Filter(s, keep), id)
  {
    var r := Filter(s, keep);
    FilterMembers(s, keep);
    if |r| > 0 {
      assert r[0] in s;
      var k :| 0 <= k < |s| && s[k] == r[0];
      if k > 0 {
        assert id(s[0]) < id(s[k]);
      }
    }
  }

  /** The rowid SQLite gives the next insert into an INTEGER PRIMARY KEY table: one more
      than the largest (the last, as rowids ascend), or 1 for an empty table. */
  function NextId<T>(s: seq<T>, id: T -> int): (r: int)
    ensures Ascending(s, id) ==> forall i :: 0 <= i < |s| ==> id(s[i]) < r
    ensures Ascending(s, id) && FirstPositive(s, id) ==> r > 0
  {
    if s == [] then 1
    else
      assert |s| > 1 && Ascending(s, id) ==> id(s[0]) < id(s[|s| - 1]);
      id(s[|s| - 1]) + 1
  }

  function VocabularyIdOf(v: VocabularyRow): int { v.id }
  function WordIdOf(w: WordRow): int { w.id }
  function ReminderIdOf(r: ReminderRow): int { r.id }

  /** UNIQUE(vocabulary_name, user_id), UNIQUE(word, vocabulary_id, user_id), UNIQUE(user_id, time). */
  predicate VocabulariesDistinct(a: VocabularyRow, b: VocabularyRow)
  {
    a.userId != b.userId || a.name != b.name
  }

  predicate WordsDistinct(a: WordRow, b: WordRow)
  {
    a.word != b.word || a.vocabularyId != b.vocabularyId || a.userId != b.userId
  }

  predicate RemindersDistinct(a: ReminderRow, b: ReminderRow)
  {
    a.userId != b.userId || a.time != b.time
  }

  // ---------------------------------------------------------------------------------
  // Row selections used by the handlers

  /** The two delete conditions of `delete_vocabulary`. */
  datatype VocabularySelector = VocabularyById(id: int) | VocabularyByName(userId: int, name: string)

  predicate SelectsVocabulary(sel: VocabularySelector, v: VocabularyRow)
  {
    match sel
    case VocabularyById(id) => v.id == id
    case VocabularyByName(userId, name) => v.userId == userId && v.name == name
  }

  function KeepVocabulary(sel: VocabularySelector): VocabularyRow -> bool
  {
    (v: VocabularyRow) => !SelectsVocabulary(sel, v)
  }

  /** Index of the first row the selector picks. */
  function FindVocabulary(vs: seq<VocabularyRow>, sel: VocabularySelector): (k: Option<nat>)
    ensures k.None? <==> forall i :: 0 <= i < |vs| ==> !SelectsVocabulary(sel, vs[i])
    ensures k.Some? ==> k.value < |vs| && SelectsVocabulary(sel, vs[k.value])
                        && forall i :: 0 <= i < k.value ==> !SelectsVocabulary(sel, vs[i])
  {
    if vs == [] then None
    else if SelectsVocabulary(sel, vs[0]) then Some(0)
    else
      var k := FindVocabulary(vs[1..], sel);
      if k.None? then None else Some(k.value + 1)
  }

  /** On a table meeting its keys, no two rows answer the same selector. */
  lemma VocabularySelectorUnique(vs: seq<VocabularyRow>, sel: VocabularySelector)
    requires Ascending(vs, VocabularyIdOf) && Pairwise(vs, VocabulariesDistinct)
    ensures forall i, j :: 0 <= i < j < |vs| ==> !(SelectsVocabulary(sel, vs[i]) && SelectsVocabulary(sel, vs[j]))
  {
    forall i, j | 0 <= i < j < |vs|
      ensures !(SelectsVocabulary(sel, vs[i]) && SelectsVocabulary(sel, vs[j]))
    {
      assert VocabularyIdOf(vs[i]) < VocabularyIdOf(vs[j]);
      assert VocabulariesDistinct(vs[i], vs[j]);
    }
  }

  /** Deleting the selected vocabulary removes exactly the row `FindVocabulary` points at. */
  lemma VocabularyDeleteExact(vs: seq<VocabularyRow>, sel: VocabularySelector)
    requires Ascending(vs, VocabularyIdOf) && Pairwise(vs, VocabulariesDistinct)
    requires FindVocabulary(vs, sel).Some?
    ensures var gone := vs[FindVocabulary(vs, sel).value];
            forall v :: v in Filter(vs, KeepVocabulary(sel)) <==> v in vs && v != gone
  {
    var k := FindVocabulary(vs, sel).value;
    var rest := Filter(vs, KeepVocabulary(sel));
    FilterMembers(vs, KeepVocabulary(sel));
    VocabularySelectorUnique(vs, sel);
    forall v | v in vs && SelectsVocabulary(sel, v)
      ensures v == vs[k]
    {
      var i :| 0 <= i < |vs| && vs[i] == v;
      assert !(i < k) && !(k < i);
    }
    forall v | v in vs && v != vs[k]
      ensures v in rest
    {
      assert KeepVocabulary(sel)(v);
    }
  }

  /** `SELECT vocabulary_id FROM vocabularies WHERE user_id = ? LIMIT 1`: a scan in rowid
      order, so the oldest vocabulary of the user, or NULL when the user has none. */
  function FirstVocabularyOf(vs: seq<VocabularyRow>, userId: int): (r: Option<int>)
    ensures r.None? <==> forall i :: 0 <= i < |vs| ==> vs[i].userId != userId
    ensures r.Some? ==> exists i :: 0 <= i < |vs| && vs[i].userId == userId && vs[i].id == r.value
                                    && forall j :: 0 <= j < i ==> vs[j].userId != userId
  {
    if vs == [] then None
    else if vs[0].userId == userId then Some(vs[0].id)
    else
      var r := FirstVocabularyOf(vs[1..], userId);
      if r.Some? then
        var i :| 1 <= i + 1 < |vs| && vs[1..][i].userId == userId && vs[1..][i].id == r.value
                 && forall j :: 0 <= j < i ==> vs[1..][j].userId != userId;
        assert vs[i + 1] == vs[1..][i];
        r
      else r
  }

  /** The delete trigger's UPDATE: every user whose current vocabulary was `deletedId`
      gets `replacement`; nobody else changes. */
  function AfterVocabularyDelete(users: map<int, UserRow>, deletedId: int, replacement: Option<int>): (r: map<int, UserRow>)
    ensures r.Keys == users.Keys
    ensures forall u :: u in users && users[u].currentVocabularyId == Some(deletedId) ==>
              r[u] == users[u].(currentVocabularyId := replacement)
    ensures forall u :: u in users && users[u].currentVocabularyId != Some(deletedId) ==> r[u] == users[u]
  {
    map u | u in users :: if users[u].currentVocabularyId == Some(deletedId)
                           then users[u].(currentVocabularyId := replacement) else users[u]
  }

  /** The delete conditions of `delete_word` and `get_word_meaning`. */
  datatype WordSelector = WordById(id: int) | WordByKey(userId: int, vocabularyId: int, word: string)

  predicate SelectsWord(sel: WordSelector, w: WordRow)
  {
    match sel
    case WordById(id) => w.id == id
    case WordByKey(userId, vocabularyId, word) => w.userId == userId && w.vocabularyId == vocabularyId && w.word == word
  }

  function KeepWord(sel: WordSelector): WordRow -> bool { (w: WordRow) => !SelectsWord(sel, w) }
  function PickWord(sel: WordSelector): WordRow -> bool { (w: WordRow) => SelectsWord(sel, w) }
  function WordOutside(vocabularyId: int): WordRow -> bool { (w: WordRow) => w.vocabularyId != vocabularyId }
  function WordIn(userId: int, vocabularyId: int): WordRow -> bool
  {
    (w: WordRow) => w.userId == userId && w.vocabularyId == vocabularyId
  }

  /** The delete conditions of `_delete_reminder`. */
  datatype ReminderSelector = ReminderById(id: int) | ReminderByKey(userId: int, vocabularyId: int, time: string)

  predicate SelectsReminder(sel: ReminderSelector, r: ReminderRow)
  {
    match sel
    case ReminderById(id) => r.id == id
    case ReminderByKey(userId, vocabularyId, time) => r.userId == userId && r.vocabularyId == vocabularyId && r.time == time
  }

  function KeepReminder(sel: ReminderSelector): ReminderRow -> bool { (r: ReminderRow) => !SelectsReminder(sel, r) }
  function ReminderOutside(vocabularyId: int): ReminderRow -> bool { (r: ReminderRow) => r.vocabularyId != vocabularyId }
  function ReminderIn(userId: int, vocabularyId: int): ReminderRow -> bool
  {
    (r: ReminderRow) => r.userId == userId && r.vocabularyId == vocabularyId
  }

  /** Index of the reminder an `UPDATE ... WHERE user_id, vocabulary_id, time` hits first. */
  function FindReminder(rs: seq<ReminderRow>, userId: int, vocabularyId: int, time: string): (k: Option<nat>)
    ensures k.None? <==> forall i :: 0 <= i < |rs| ==> !SelectsReminder(ReminderByKey(userId, vocabularyId, time), rs[i])
    ensures k.Some? ==> k.value < |rs| && SelectsReminder(ReminderByKey(userId, vocabularyId, time), rs[k.value])
  {
    if rs == [] then None
    else if rs[0].userId == userId && rs[0].vocabularyId == vocabularyId && rs[0].time == time then Some(0)
    else
      var k := FindReminder(rs[1..], userId, vocabularyId, time);
      if k.None? then None else Some(k.value + 1)
  }

  /** Some reminder other than the one at `k` already holds `(userId, time)`. */
  predicate TimeTakenByOther(rs: seq<ReminderRow>, k: int, userId: int, time: string)
  {
    exists j :: 0 <= j < |rs| && j != k && rs[j].userId == userId && rs[j].time == time
  }

  /** Moving one reminder to a time no other reminder of the user holds keeps the table's keys. */
  lemma MoveReminderKeepsKeys(rs: seq<ReminderRow>, k: int, time: string)
    requires FirstPositive(rs, ReminderIdOf) && Ascending(rs, ReminderIdOf) && Pairwise(rs, RemindersDistinct)
    requires 0 <= k < |rs| && !TimeTakenByOther(rs, k, rs[k].userId, time)
    ensures FirstPositive(rs[k := rs[k].(time := time)], ReminderIdOf)
    ensures Ascending(rs[k := rs[k].(time := time)], ReminderIdOf)
    ensures Pairwise(rs[k := rs[k].(time := time)], RemindersDistinct)
  {
    var t := rs[k := rs[k].(time := time)];
    forall i, j | 0 <= i < j < |t|
      ensures ReminderIdOf(t[i]) < ReminderIdOf(t[j]) && RemindersDistinct(t[i], t[j])
    {
      assert ReminderIdOf(rs[i]) < ReminderIdOf(rs[j]);
      if i != k && j != k {
        assert RemindersDistinct(rs[i], rs[j]);
      }
    }
  }

  /** The reminders after an `UPDATE reminders SET time = newTime WHERE user_id, vocabulary_id,
      time`: the matching row moves, unless another reminder of the user already holds
      `newTime` (UNIQUE(user_id, time)), in which case nothing changes. */
  function MovedReminders(rs: seq<ReminderRow>, userId: int, vocabularyId: int, time: string, newTime: string): (r: seq<ReminderRow>)
    ensures |r| == |rs|
    ensures var k := FindReminder(rs, userId, vocabularyId, time);
            k.Some? && !TimeTakenByOther(rs, k.value, userId, newTime) ==> r == rs[k.value := rs[k.value].(time := newTime)]
    ensures var k := FindReminder(rs, userId, vocabularyId, time);
            k.None? || TimeTakenByOther(rs, k.value, userId, newTime) ==> r == rs
  {
    var k := FindReminder(rs, userId, vocabularyId, time);
    if k.Some? && !TimeTakenByOther(rs, k.value, userId, newTime) then rs[k.value := rs[k.value].(time := newTime)] else rs
  }

  /** Moving a reminder keeps the reminders table's rowid order and its UNIQUE constraint. */
  lemma MovedRemindersValid(rs: seq<ReminderRow>, userId: int, vocabularyId: int, time: string, newTime: string)
    requires FirstPositive(rs, ReminderIdOf) && Ascending(rs, ReminderIdOf) && Pairwise(rs, RemindersDistinct)
    ensures FirstPositive(MovedReminders(rs, userId, vocabularyId, time, newTime), ReminderIdOf)
    ensures Ascending(MovedReminders(rs, userId, vocabularyId, time, newTime), ReminderIdOf)
    ensures Pairwise(MovedReminders(rs, userId, vocabularyId, time, newTime), RemindersDistinct)
  {
    var k := FindReminder(rs, userId, vocabularyId, time);
    if k.Some? && !TimeTakenByOther(rs, k.value, userId, newTime) {
      MoveReminderKeepsKeys(rs, k.value, newTime);
    }
  }

  /** The user already has a vocabulary called `name`: UNIQUE(vocabulary_name, user_id). */
  predicate VocabularyNameTaken(vs: seq<VocabularyRow>, userId: int, name: string)
  {
    exists i :: 0 <= i < |vs| && vs[i].userId == userId && vs[i].name == name
  }

  /** Rowids are positive and ascend, and every UNIQUE constraint holds, in the three
      tables with rowids. */
  ghost predicate TablesValid(vs: seq<VocabularyRow>, ws: seq<WordRow>, rs: seq<ReminderRow>)
  {
    FirstPositive(vs, VocabularyIdOf) && Ascending(vs, VocabularyIdOf) && Pairwise(vs, VocabulariesDistinct)
    && FirstPositive(ws, WordIdOf) && Ascending(ws, WordIdOf) && Pairwise(ws, WordsDistinct)
    && FirstPositive(rs, ReminderIdOf) && Ascending(rs, ReminderIdOf) && Pairwise(rs, RemindersDistinct)
  }

  /** Any DELETE, cascades included, keeps the tables valid. */
  lemma FilterKeepsValid(vs: seq<VocabularyRow>, ws: seq<WordRow>, rs: seq<ReminderRow>,
                         kv: VocabularyRow -> bool, kw: WordRow -> bool, kr: ReminderRow -> bool)
    requires TablesValid(vs, ws, rs)
    ensures TablesValid(Filter(vs, kv), Filter(ws, kw), Filter(rs, kr))
  {
    FilterPairwise(vs, kv, (a: VocabularyRow, b: VocabularyRow) => VocabularyIdOf(a) < VocabularyIdOf(b));
    FilterPairwise(vs, kv, VocabulariesDistinct);
    FilterPairwise(ws, kw, (a: WordRow, b: WordRow) => WordIdOf(a) < WordIdOf(b));
    FilterPairwise(ws, kw, WordsDistinct);
    FilterPairwise(rs, kr, (a: ReminderRow, b: ReminderRow) => ReminderIdOf(a) < ReminderIdOf(b));
    FilterPairwise(rs, kr, RemindersDistinct);
    FilterFirstPositive(vs, kv, VocabularyIdOf);
    FilterFirstPositive(ws, kw, WordIdOf);
    FilterFirstPositive(rs, kr, ReminderIdOf);
  }

  // ---------------------------------------------------------------------------------
  // The database

  class Db {
    /** `users`, keyed by user_id. */
    var users: map<int, UserRow>
    var vocabularies: seq<VocabularyRow>
    var words: seq<WordRow>
    var reminders: seq<ReminderRow>
    /** `temp`, keyed by its PRIMARY KEY (user_id, key); None is a NULL value. */
    var temp: map<(int, TempKey), Option<string>>

    /** Rowids ascend and every UNIQUE constraint holds. */
    ghost predicate Valid()
      reads this
    {
      TablesValid(vocabularies, words, reminders)
    }

    constructor ()
      ensures Valid()
      ensures users == map[] && vocabularies == [] && words == [] && reminders == [] && temp == map[]
    {
      users := map[];
      vocabularies := [];
      words := [];
      reminders := [];
      temp := map[];
    }

    predicate VocabularyExists(id: int)
      reads this
    {
      exists i :: 0 <= i < |vocabularies| && vocabularies[i].id == id
    }

    /** The reminder insert is refused: the vocabulary id, once stored as an INTEGER, names
        no vocabulary (the FOREIGN KEY; a NULL is refused by NOT NULL), the time is NULL,
        the user has no row, or the user already has a reminder at that time
        (UNIQUE(user_id, time)). */
    predicate ReminderRefused(userId: int, vocabularyId: SqlValue, time: Option<string>)
      reads this
    {
      var v := IntegerAffinity(vocabularyId);
      !v.SqlInt? || !VocabularyExists(v.i) || time.None? || userId !in users
      || exists i :: 0 <= i < |reminders| && reminders[i].userId == userId && reminders[i].time == time.value
    }

    /** `Users.add({"user_id": u, "username": name})`: a second insert for the same id
        breaks the PRIMARY KEY and gives `(False, 0)`; a new user's lastrowid is its id. */
    method UsersAdd(userId: int, username: string) returns (res: (bool, int))
      requires Valid()
      modifies this
      ensures Valid()
      ensures userId in old(users) ==> res == (false, 0) && users == old(users)
      ensures userId !in old(users) ==> res == (true, userId) && users == old(users)[userId := NewUser(username)]
      ensures vocabularies == old(vocabularies) && words == old(words) && reminders == old(reminders) && temp == old(temp)
    {
      var cursor: Cursor;
      if userId in users {
        cursor := CursorError;
      } else {
        users := users[userId := NewUser(username)];
        cursor := Cursor(1, userId);
      }
      res := AddOutcome(cursor);
    }

    /** `Users.set({"user_id": u}, {"current_vocabulary_id": v})`: True when the user's row
        was updated; no row, or an id naming no vocabulary (the FOREIGN KEY), gives False. */
    method UsersSetCurrentVocabulary(userId: int, vocabularyId: Option<int>) returns (updated: bool)
      requires Valid()
      modifies this
      ensures Valid()
      ensures updated <==> userId in old(users) && (vocabularyId.Some? ==> VocabularyExists(vocabularyId.value))
      ensures updated ==> users == old(users)[userId := old(users)[userId].(currentVocabularyId := vocabularyId)]
      ensures !updated ==> users == old(users)
      ensures vocabularies == old(vocabularies) && words == old(words) && reminders == old(reminders) && temp == old(temp)
    {
      var cursor: Cursor;
      if userId !in users {
        cursor := Cursor(0, 0);
      } else if vocabularyId.Some? && !VocabularyExists(vocabularyId.value) {
        cursor := CursorError;
      } else {
        users := users[userId := users[userId].(currentVocabularyId := vocabularyId)];
        cursor := Cursor(1, 0);
      }
      updated := cursor.rowcount > 0;
    }

    /** `Vocabularies.add({"vocabulary_name": name, "user_id": u})`: an unknown user (the
        FOREIGN KEY) or a name the user already has (the UNIQUE constraint) gives `(False, 0)`;
        otherwise the row gets the next rowid and the insert trigger makes it the owner's
        current vocabulary. */
    method VocabulariesAdd(userId: int, name: string) returns (res: (bool, int))
      requires Valid()
      modifies this
      ensures Valid()
      ensures var clash := userId !in old(users) || VocabularyNameTaken(old(vocabularies), userId, name);
              (clash ==> res == (false, 0) && vocabularies == old(vocabularies) && users == old(users))
              && (!clash ==>
                    var id := NextId(old(vocabularies), VocabularyIdOf);
                    res == (true, id)
                    && vocabularies == old(vocabularies) + [VocabularyRow(id, userId, name)]
                    && users == old(users)[userId := old(users)[userId].(currentVocabularyId := Some(id))])
      ensures words == old(words) && reminders == old(reminders) && temp == old(temp)
    {
      var cursor: Cursor;
      if userId !in users || VocabularyNameTaken(vocabularies, userId, name) {
        cursor := CursorError;
      } else {
        var id := NextId(vocabularies, VocabularyIdOf);
        var row := VocabularyRow(id, userId, name);
        AppendPairwise(vocabularies, row, (a: VocabularyRow, b: VocabularyRow) => VocabularyIdOf(a) < VocabularyIdOf(b));
        AppendPairwise(vocabularies, row, VocabulariesDistinct);
        vocabularies := vocabularies + [row];
        users := users[userId := users[userId].(currentVocabularyId := Some(id))];
        cursor := Cursor(1, id);
      }
      res := AddOutcome(cursor);
    }

    /** `Vocabularies.delete(conditions)`: removes the selected vocabulary, cascades to its
        words and reminders, and the delete trigger moves every user whose current
        vocabulary it was to the owner's oldest remaining vocabulary, or to NULL. */
    method VocabulariesDelete(sel: VocabularySelector) returns (removed: bool)
      requires Valid()
      modifies this
      ensures Valid()
      ensures removed <==> FindVocabulary(old(vocabularies), sel).Some?
      ensures temp == old(temp)
      ensures !removed ==> vocabularies == old(vocabularies) && words == old(words)
                           && reminders == old(reminders) && users == old(users)
      ensures removed ==>
                var gone := old(vocabularies)[FindVocabulary(old(vocabularies), sel).value];
                vocabularies == Filter(old(vocabularies), KeepVocabulary(sel))
                && (forall v :: v in vocabularies <==> v in old(vocabularies) && v != gone)
                && words == Filter(old(words), WordOutside(gone.id))
                && reminders == Filter(old(reminders), ReminderOutside(gone.id))
                && users == AfterVocabularyDelete(old(users), gone.id, FirstVocabularyOf(vocabularies, gone.userId))
    {
      var k := FindVocabulary(vocabularies, sel);
      if k.Some? {
        var gone := vocabularies[k.value];
        VocabularyDeleteExact(vocabularies, sel);
        FilterKeepsValid(vocabularies, words, reminders, KeepVocabulary(sel), WordOutside(gone.id), ReminderOutside(gone.id));
        var vs := Filter(vocabularies, KeepVocabulary(sel));
        vocabularies, words, reminders, users :=
          vs, Filter(words, WordOutside(gone.id)), Filter(reminders, ReminderOutside(gone.id)),
          AfterVocabularyDelete(users, gone.id, FirstVocabularyOf(vs, gone.userId));
      }
      removed := k.Some?;
    }

    /** `Words.add(...)`: a missing timestamp (NOT NULL), an unknown user or vocabulary (the
        FOREIGN KEYs) or a word already in that vocabulary (UNIQUE) gives `(False, 0)`. */
    method WordsAdd(userId: int, vocabularyId: int, word: string, meaning: Option<string>, timestamp: Option<int>)
      returns (res: (bool, int))
      requires Valid()
      modifies this
      ensures Valid()
      ensures var clash := timestamp.None? || userId !in old(users) || !old(VocabularyExists(vocabularyId))
                           || exists i :: 0 <= i < |old(words)| && !WordsDistinct(old(words)[i], WordRow(0, userId, vocabularyId, word, meaning, 0));
              (clash ==> res == (false, 0) && words == old(words))
              && (!clash ==>
                    var id := NextId(old(words), WordIdOf);
                    res == (true, id) && words == old(words) + [WordRow(id, userId, vocabularyId, word, meaning, timestamp.value)])
      ensures users == old(users) && vocabularies == old(vocabularies) && reminders == old(reminders) && temp == old(temp)
    {
      var cursor: Cursor;
      var probe := WordRow(0, userId, vocabularyId, word, meaning, 0);
      if timestamp.None? || userId !in users || !VocabularyExists(vocabularyId)
         || exists i :: 0 <= i < |words| && !WordsDistinct(words[i], probe) {
        cursor := CursorError;
      } else {
        var id := NextId(words, WordIdOf);
        var row := WordRow(id, userId, vocabularyId, word, meaning, timestamp.value);
        AppendPairwise(words, row, (a: WordRow, b: WordRow) => WordIdOf(a) < WordIdOf(b));
        AppendPairwise(words, row, WordsDistinct);
        words := words + [row];
        cursor := Cursor(1, id);
      }
      res := AddOutcome(cursor);
    }

    /** `Words.delete(conditions)`: True iff some row was selected; those rows go. */
    method WordsDelete(sel: WordSelector) returns (removed: bool)
      requires Valid()
      modifies this
      ensures Valid()
      ensures removed <==> exists i :: 0 <= i < |old(words)| && SelectsWord(sel, old(words)[i])
      ensures words == Filter(old(words), KeepWord(sel))
      ensures users == old(users) && vocabularies == old(vocabularies) && reminders == old(reminders) && temp == old(temp)
    {
      removed := exists i :: 0 <= i < |words| && SelectsWord(sel, words[i]);
      FilterKeepsValid(vocabularies, words, reminders, (v: VocabularyRow) => true, KeepWord(sel), (r: ReminderRow) => true);
      FilterAll(vocabularies);
      FilterAll(reminders);
      words := Filter(words, KeepWord(sel));
    }

    /** `Reminders.add(...)`: the vocabulary id is stored with INTEGER affinity; a NULL id or
        time (NOT NULL), an unknown user or vocabulary (the FOREIGN KEYs), or a time the user
        already has (UNIQUE(user_id, time)) gives `(False, 0)`. */
    method RemindersAdd(userId: int, vocabularyId: SqlValue, time: Option<string>, numberOfWords: int)
      returns (res: (bool, int))
      requires Valid()
      modifies this
      ensures Valid()
      ensures old(ReminderRefused(userId, vocabularyId, time)) ==> res == (false, 0) && reminders == old(reminders)
      ensures !old(ReminderRefused(userId, vocabularyId, time)) ==>
                var id := NextId(old(reminders), ReminderIdOf);
                res == (true, id)
                && reminders == old(reminders) + [ReminderRow(id, userId, IntegerAffinity(vocabularyId).i, time.value, numberOfWords)]
      ensures users == old(users) && vocabularies == old(vocabularies) && words == old(words) && temp == old(temp)
    {
      var v := IntegerAffinity(vocabularyId);
      var cursor: Cursor;
      if ReminderRefused(userId, vocabularyId, time) {
        cursor := CursorError;
      } else {
        var id := NextId(reminders, ReminderIdOf);
        var row := ReminderRow(id, userId, v.i, time.value, numberOfWords);
        AppendPairwise(reminders, row, (a: ReminderRow, b: ReminderRow) => ReminderIdOf(a) < ReminderIdOf(b));
        AppendPairwise(reminders, row, RemindersDistinct);
        reminders := reminders + [row];
        cursor := Cursor(1, id);
      }
      res := AddOutcome(cursor);
    }

    /** `Reminders.delete(conditions)`: True iff some row was selected; those rows go. */
    method RemindersDelete(sel: ReminderSelector) returns (removed: bool)
      requires Valid()
      modifies this
      ensures Valid()
      ensures removed <==> exists i :: 0 <= i < |old(reminders)| && SelectsReminder(sel, old(reminders)[i])
      ensures reminders == Filter(old(reminders), KeepReminder(sel))
      ensures users == old(users) && vocabularies == old(vocabularies) && words == old(words) && temp == old(temp)
    {
      removed := exists i :: 0 <= i < |reminders| && SelectsReminder(sel, reminders[i]);
      FilterKeepsValid(vocabularies, words, reminders, (v: VocabularyRow) => true, (w: WordRow) => true, KeepReminder(sel));
      FilterAll(vocabularies);
      FilterAll(words);
      reminders := Filter(reminders, KeepReminder(sel));
    }

    /** `Reminders.set({user_id, vocabulary_id, time}, {"time": new_time})`: no matching row
        gives False; a new time another reminder of the user already holds breaks
        UNIQUE(user_id, time) and gives False with nothing changed; otherwise the row moves. */
    method RemindersSetTime(userId: int, vocabularyId: int, time: string, newTime: string) returns (updated: bool)
      requires Valid()
      modifies this
      ensures Valid()
      ensures var k := FindReminder(old(reminders), userId, vocabularyId, time);
              updated <==> k.Some? && !TimeTakenByOther(old(reminders), k.value, userId, newTime)
      ensures reminders == MovedReminders(old(reminders), userId, vocabularyId, time, newTime)
      ensures users == old(users) && vocabularies == old(vocabularies) && words == old(words) && temp == old(temp)
    {
      var k := FindReminder(reminders, userId, vocabularyId, time);
      var cursor: Cursor;
      if k.None? {
        cursor := Cursor(0, 0);
      } else if TimeTakenByOther(reminders, k.value, userId, newTime) {
        cursor := CursorError;
      } else {
        MoveReminderKeepsKeys(reminders, k.value, newTime);
        reminders := reminders[k.value := reminders[k.value].(time := newTime)];
        cursor := Cursor(1, 0);
      }
      updated := cursor.rowcount > 0;
    }

    /** `Temp.add(data, replace)`: an unknown user (the FOREIGN KEY) gives a failure; without
        `replace` an existing slot (the PRIMARY KEY) does too; otherwise the slot is written. */
    method TempAdd(userId: int, key: TempKey, value: Option<string>, replace: bool) returns (added: bool)
      requires Valid()
      modifies this
      ensures Valid()
      ensures added <==> userId in old(users) && (replace || (userId, key) !in old(temp))
      ensures added ==> temp == old(temp)[(userId, key) := value]
      ensures !added ==> temp == old(temp)
      ensures users == old(users) && vocabularies == old(vocabularies) && words == old(words) && reminders == old(reminders)
    {
      if userId in users && (replace || (userId, key) !in temp) {
        temp := temp[(userId, key) := value];
        added := true;
      } else {
        added := false;
      }
    }

    /** `Temp.delete({"user_id": u, "key": k})`: True iff the slot existed; it is gone afterwards. */
    method TempDelete(userId: int, key: TempKey) returns (removed: bool)
      requires Valid()
      modifies this
      ensures Valid()
      ensures removed <==> (userId, key) in old(temp)
      ensures temp == old(temp) - {(userId, key)}
      ensures users == old(users) && vocabularies == old(vocabularies) && words == old(words) && reminders == old(reminders)
    {
      removed := (userId, key) in temp;
      temp := temp - {(userId, key)};
    }
  }
}
