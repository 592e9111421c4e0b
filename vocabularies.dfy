/** bot/_vocabularies.py: creating a vocabulary, choosing the current one, and deleting
    one by id or by (user, name), with the status codes the handlers branch on. The
    delete reads the status through bot/_settings.py's `get_user_parameters`, which always
    raises; `DeleteVocabulary` reads the user's row instead. */
module Vocabularies {
  import opened Wrappers
  import opened Telegram
  import opened Database
  import opened Tables
  import Settings

  /** The delete condition of `delete_vocabulary`: a truthy id wins; otherwise a truthy
      user together with a non-empty name; otherwise a ValueError. */
  function DeleteSelector(user: int, vocabularyId: Option<int>, name: Option<string>): (r: Result<VocabularySelector>)
    ensures TruthyInt(vocabularyId) ==> r == Success(VocabularyById(vocabularyId.value))
    ensures !TruthyInt(vocabularyId) && user != 0 && TruthyText(name) ==>
              r == Success(VocabularyByName(user, name.value))
    ensures r.Failure? <==> !TruthyInt(vocabularyId) && (user == 0 || !TruthyText(name))
    ensures r.Failure? ==>
              r.error == ValueError("You must provide either vocabulary_id, or user_id and vocabulary_name.")
  {
    if TruthyInt(vocabularyId) then Success(VocabularyById(vocabularyId.value))
    else if user != 0 && TruthyText(name) then Success(VocabularyByName(user, name.value))
    else Failure(ValueError("You must provide either vocabulary_id, or user_id and vocabulary_name."))
  }

  /** A selector built from arguments picks only rows that agree with those arguments:
      the given id, or the given user and name. */
  lemma DeleteSelectorAgrees(user: int, vocabularyId: Option<int>, name: Option<string>, v: VocabularyRow)
    requires DeleteSelector(user, vocabularyId, name).Success?
    ensures SelectsVocabulary(DeleteSelector(user, vocabularyId, name).value, v) <==>
              if TruthyInt(vocabularyId) then v.id == vocabularyId.value
              else v.userId == user && v.name == name.value
  {
  }

  /** The status `delete_vocabulary` reports once the delete has run: NO_VOCABULARY when the
      user is left without a current vocabulary, whatever the delete did; otherwise
      SUCCESS iff a row went. A user with no row makes the subscript fail (TypeError). */
  function DeleteStatus(user: Option<UserRow>, removed: bool): (r: Result<TaskStatus>)
    ensures user.None? <==> r == Failure(TypeError)
    ensures user.Some? && user.value.currentVocabularyId.None? ==> r == Success(NoVocabulary)
    ensures user.Some? && user.value.currentVocabularyId.Some? ==>
              (r == Success(TaskSuccess) <==> removed) && (r == Success(TaskFailure) <==> !removed)
  {
    if user.None? then Failure(TypeError)
    else if user.value.currentVocabularyId.None? then Success(NoVocabulary)
    else if removed then Success(TaskSuccess)
    else Success(TaskFailure)
  }

  /** `create_vocabulary(user, name)`: SUCCESS iff the insert went through, which needs an
      existing user without a vocabulary of that name; the new one is then current. */
  method CreateVocabulary(db: Db, user: int, name: string) returns (status: TaskStatus)
    requires db.Valid()
    modifies db
    ensures db.Valid()
    ensures status == TaskSuccess || status == TaskFailure
    ensures status == TaskSuccess <==> user in old(db.users) && !VocabularyNameTaken(old(db.vocabularies), user, name)
    ensures status == TaskSuccess ==>
              var id := NextId(old(db.vocabularies), VocabularyIdOf);
              db.vocabularies == old(db.vocabularies) + [VocabularyRow(id, user, name)]
              && user in db.users && db.users[user].currentVocabularyId == Some(id)
              && db.users == old(db.users)[user := old(db.users)[user].(currentVocabularyId := Some(id))]
    ensures status == TaskFailure ==> db.vocabularies == old(db.vocabularies) && db.users == old(db.users)
    ensures status == TaskSuccess ==> VocabularyNameTaken(db.vocabularies, user, name)
    ensures db.words == old(db.words) && db.reminders == old(db.reminders) && db.temp == old(db.temp)
  {
    var res := db.VocabulariesAdd(user, name);
    status := if res.0 then TaskSuccess else TaskFailure;
    if res.0 {
      assert db.vocabularies[|db.vocabularies| - 1] == VocabularyRow(res.1, user, name);
    }
  }

  /** Creating the same name twice for one user: the first call may succeed, the second
      never does (the first either inserted the name or found it, or found no user). */
  method CreateVocabularyTwice(db: Db, user: int, name: string) returns (first: TaskStatus, second: TaskStatus)
    requires db.Valid()
    modifies db
    ensures db.Valid()
    ensures second == TaskFailure
    ensures first == TaskSuccess <==> user in old(db.users) && !VocabularyNameTaken(old(db.vocabularies), user, name)
  {
    first := CreateVocabulary(db, user, name);
    second := CreateVocabulary(db, user, name);
  }

  /** `set_current_vocabulary(user, id)`: SUCCESS iff the users row was updated. */
  method SetCurrentVocabulary(db: Db, user: int, vocabularyId: Option<int>) returns (status: TaskStatus)
    requires db.Valid()
    modifies db
    ensures db.Valid()
    ensures status == TaskSuccess || status == TaskFailure
    ensures status == TaskSuccess <==>
              user in old(db.users) && (vocabularyId.Some? ==> old(db.VocabularyExists(vocabularyId.value)))
    ensures status == TaskSuccess ==> user in db.users && db.users[user].currentVocabularyId == vocabularyId
    ensures status == TaskSuccess ==>
              db.users == old(db.users)[user := old(db.users)[user].(currentVocabularyId := vocabularyId)]
    ensures status == TaskFailure ==> db.users == old(db.users)
    ensures db.vocabularies == old(db.vocabularies) && db.words == old(db.words)
            && db.reminders == old(db.reminders) && db.temp == old(db.temp)
  {
    var updated := db.UsersSetCurrentVocabulary(user, vocabularyId);
    status := if updated then TaskSuccess else TaskFailure;
  }

  /** `delete_vocabulary(user, vocabulary_id, vocabulary_name)`: choose the condition,
      delete (the cascades and the trigger run), then report the status from the user's
      row as it is after the delete. */
  method DeleteVocabulary(db: Db, user: int, vocabularyId: Option<int>, name: Option<string>)
    returns (r: Result<TaskStatus>)
    requires db.Valid()
    modifies db
    ensures db.Valid()
    ensures DeleteSelector(user, vocabularyId, name).Failure? ==>
              r == Failure(DeleteSelector(user, vocabularyId, name).error)
              && db.users == old(db.users) && db.vocabularies == old(db.vocabularies)
              && db.words == old(db.words) && db.reminders == old(db.reminders)
    ensures DeleteSelector(user, vocabularyId, name).Success? ==>
              var sel := DeleteSelector(user, vocabularyId, name).value;
              var removed := FindVocabulary(old(db.vocabularies), sel).Some?;
              db.vocabularies == Filter(old(db.vocabularies), KeepVocabulary(sel))
              && r == DeleteStatus(if user in db.users then Some(db.users[user]) else None, removed)
    ensures DeleteSelector(user, vocabularyId, name).Success? ==>
              var k := FindVocabulary(old(db.vocabularies), DeleteSelector(user, vocabularyId, name).value);
              (k.None? ==> db.users == old(db.users) && db.words == old(db.words) && db.reminders == old(db.reminders))
              && (k.Some? ==>
                    var gone := old(db.vocabularies)[k.value];
                    db.words == Filter(old(db.words), WordOutside(gone.id))
                    && db.reminders == Filter(old(db.reminders), ReminderOutside(gone.id))
                    && db.users == AfterVocabularyDelete(old(db.users), gone.id, FirstVocabularyOf(db.vocabularies, gone.userId)))
    ensures db.users.Keys == old(db.users).Keys && db.temp == old(db.temp)
  {
    var s := DeleteSelector(user, vocabularyId, name);
    if s.Failure? {
      return Failure(s.error);
    }
    var removed := db.VocabulariesDelete(s.value);
    if !removed {
      assert forall i :: 0 <= i < |db.vocabularies| ==> !SelectsVocabulary(s.value, db.vocabularies[i]);
      FilterNone(db.vocabularies, KeepVocabulary(s.value));
    }
    r := DeleteStatus(if user in db.users then Some(db.users[user]) else None, removed);
  }

  /** `delete_vocabulary` as written: the same condition and delete, then the status
      check `get_user_parameters(user)["current_vocabulary_id"]`, which raises TypeError
      inside `get_user_parameters` for every user. The delete has happened by then. */
  method DeleteVocabularyAsWritten(db: Db, user: int, vocabularyId: Option<int>, name: Option<string>)
    returns (r: Result<TaskStatus>)
    requires db.Valid()
    modifies db
    ensures db.Valid()
    ensures DeleteSelector(user, vocabularyId, name).Failure? ==>
              r == Failure(DeleteSelector(user, vocabularyId, name).error)
              && db.users == old(db.users) && db.vocabularies == old(db.vocabularies)
              && db.words == old(db.words) && db.reminders == old(db.reminders)
    ensures DeleteSelector(user, vocabularyId, name).Success? ==>
              var sel := DeleteSelector(user, vocabularyId, name).value;
              db.vocabularies == Filter(old(db.vocabularies), KeepVocabulary(sel))
              && r == Failure(TypeError)
    ensures DeleteSelector(user, vocabularyId, name).Success? ==>
              var k := FindVocabulary(old(db.vocabularies), DeleteSelector(user, vocabularyId, name).value);
              (k.None? ==> db.users == old(db.users) && db.words == old(db.words) && db.reminders == old(db.reminders))
              && (k.Some? ==>
                    var gone := old(db.vocabularies)[k.value];
                    db.words == Filter(old(db.words), WordOutside(gone.id))
                    && db.reminders == Filter(old(db.reminders), ReminderOutside(gone.id))
                    && db.users == AfterVocabularyDelete(old(db.users), gone.id, FirstVocabularyOf(db.vocabularies, gone.userId)))
    ensures db.users.Keys == old(db.users).Keys && db.temp == old(db.temp)
  {
    var s := DeleteSelector(user, vocabularyId, name);
    if s.Failure? {
      return Failure(s.error);
    }
    var removed := db.VocabulariesDelete(s.value);
    if !removed {
      assert forall i :: 0 <= i < |db.vocabularies| ==> !SelectsVocabulary(s.value, db.vocabularies[i]);
      FilterNone(db.vocabularies, KeepVocabulary(s.value));
    }
    var parameters := Settings.GetUserParameters(db.users, user);
    // A namedtuple subscripted by a string would raise TypeError as well.
    r := if parameters.Failure? then Failure(parameters.error) else Failure(TypeError);
  }

  /** When no row answers the condition, the DELETE keeps the whole table. */
  lemma {:induction false} FilterNone(vs: seq<VocabularyRow>, keep: VocabularyRow -> bool)
    requires forall i :: 0 <= i < |vs| ==> keep(vs[i])
    ensures Filter(vs, keep) == vs
  {
    if vs != [] {
      FilterNone(vs[1..], keep);
      assert vs == [vs[0]] + vs[1..];
    }
  }

  /** The delete trigger: deleting the owner's current vocabulary leaves the owner with no
      current vocabulary exactly when no other vocabulary of theirs remains, and otherwise
      with the oldest one that remains. */
  lemma DeleteTriggerOutcome(users: map<int, UserRow>, vs: seq<VocabularyRow>, gone: VocabularyRow)
    requires gone.userId in users && users[gone.userId].currentVocabularyId == Some(gone.id)
    ensures var after := AfterVocabularyDelete(users, gone.id, FirstVocabularyOf(vs, gone.userId));
            (after[gone.userId].currentVocabularyId.None? <==>
               forall i :: 0 <= i < |vs| ==> vs[i].userId != gone.userId)
            && (after[gone.userId].currentVocabularyId.Some? ==>
                  exists i :: 0 <= i < |vs| && vs[i].userId == gone.userId
                              && vs[i].id == after[gone.userId].currentVocabularyId.value)
  {
    var after := AfterVocabularyDelete(users, gone.id, FirstVocabularyOf(vs, gone.userId));
    assert after[gone.userId] == users[gone.userId].(currentVocabularyId := FirstVocabularyOf(vs, gone.userId));
  }

  /** Deleting a vocabulary that is not the user's current one leaves the user's current
      vocabulary as it was, so the status comes from whether a row went. */
  lemma DeleteOtherKeepsCurrent(users: map<int, UserRow>, user: int, deletedId: int, replacement: Option<int>)
    requires user in users && users[user].currentVocabularyId.Some?
    requires users[user].currentVocabularyId != Some(deletedId)
    ensures var after := AfterVocabularyDelete(users, deletedId, replacement);
            user in after && after[user] == users[user]
            && DeleteStatus(Some(after[user]), true) == Success(TaskSuccess)
  {
  }
}
